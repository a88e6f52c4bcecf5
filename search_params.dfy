/**
 * The part of the WHATWG URL API the pagination code uses:
 * `new URL(s)`, `url.searchParams.get(name)`, `url.searchParams.set(name, value)`
 * and `url.toString()`. A URL is split into the text before its query, the
 * query as the ordered list of name-value pairs that URLSearchParams keeps,
 * and the fragment. Scheme, host and path are kept verbatim in `base`;
 * percent-encoding is not modelled.
 */
module SearchParams {
  import opened JsString

  datatype Param = Param(name: string, value: string)

  datatype Url = Url(base: string, query: seq<Param>, fragment: Option<string>)

  // ---------------------------------------------------------------------------
  // URLSearchParams
  // ---------------------------------------------------------------------------

  predicate HasName(q: seq<Param>, name: string) {
    exists i :: 0 <= i < |q| && q[i].name == name
  }

  /** `searchParams.get(name)`: the value of the first pair with that name. */
  function Get(q: seq<Param>, name: string): (r: Option<string>)
    ensures r.None? <==> !HasName(q, name)
    ensures r.Some? ==> exists i :: 0 <= i < |q| && q[i] == Param(name, r.value)
                                    && forall j :: 0 <= j < i ==> q[j].name != name
  {
    if |q| == 0 then None
    else if q[0].name == name then Some(q[0].value)
    else
      var r := Get(q[1..], name);
      assert HasName(q, name) ==> HasName(q[1..], name) by {
        if HasName(q, name) {
          var i :| 0 <= i < |q| && q[i].name == name;
          assert q[1..][i - 1].name == name;
        }
      }
      assert r.Some? ==> HasName(q, name) by {
        if r.Some? {
          var i :| 0 <= i < |q[1..]| && q[1..][i] == Param(name, r.value);
          assert q[i + 1].name == name;
        }
      }
      if r.Some? then
        var i :| 0 <= i < |q[1..]| && q[1..][i] == Param(name, r.value)
                 && forall j :: 0 <= j < i ==> q[1..][j].name != name;
        assert q[i + 1] == Param(name, r.value);
        assert forall j :: 0 <= j < i + 1 ==> q[j].name != name by {
          forall j | 0 <= j < i + 1 ensures q[j].name != name {
            if j > 0 { assert q[j] == q[1..][j - 1]; }
          }
        }
        r
      else r
  }

  /** The pairs whose name is not `name`, in order. */
  function Without(q: seq<Param>, name: string): (r: seq<Param>)
    ensures !HasName(r, name)
    ensures |r| <= |q|
  {
    if |q| == 0 then []
    else if q[0].name == name then Without(q[1..], name)
    else
      var rest := Without(q[1..], name);
      assert !HasName([q[0]] + rest, name) by {
        forall i | 0 <= i < |[q[0]] + rest| ensures ([q[0]] + rest)[i].name != name {
          if i > 0 { assert ([q[0]] + rest)[i] == rest[i - 1]; }
        }
      }
      [q[0]] + rest
  }

  /** `searchParams.set(name, value)`: the first pair with that name gets the
      new value and every later pair with that name is removed; without such
      a pair, the new pair is appended. */
  function Set(q: seq<Param>, name: string, value: string): seq<Param>
  {
    if |q| == 0 then [Param(name, value)]
    else if q[0].name == name then [Param(name, value)] + Without(q[1..], name)
    else [q[0]] + Set(q[1..], name, value)
  }

  /** After `set`, `get` of that name returns the new value. */
  lemma {:induction false} GetAfterSet(q: seq<Param>, name: string, value: string)
    ensures Get(Set(q, name, value), name) == Some(value)
    decreases |q|
  {
    if |q| > 0 && q[0].name != name {
      GetAfterSet(q[1..], name, value);
      assert ([q[0]] + Set(q[1..], name, value))[1..] == Set(q[1..], name, value);
    }
  }

  /** `set` keeps every other pair, in order, and so every other `get`. */
  lemma {:induction false} SetKeepsOthers(q: seq<Param>, name: string, value: string)
    ensures Without(Set(q, name, value), name) == Without(q, name)
    ensures forall other :: other != name ==> Get(Set(q, name, value), other) == Get(q, other)
    decreases |q|
  {
    if |q| == 0 {
      assert Without([Param(name, value)], name) == Without([], name);
    } else if q[0].name == name {
      var r := [Param(name, value)] + Without(q[1..], name);
      assert r[1..] == Without(q[1..], name);
      WithoutIdempotent(q[1..], name);
      forall other | other != name ensures Get(r, other) == Get(q, other) {
        GetWithout(q[1..], name, other);
      }
    } else {
      SetKeepsOthers(q[1..], name, value);
      var r := [q[0]] + Set(q[1..], name, value);
      assert r[1..] == Set(q[1..], name, value);
    }
  }

  lemma {:induction false} WithoutIdempotent(q: seq<Param>, name: string)
    ensures Without(Without(q, name), name) == Without(q, name)
    decreases |q|
  {
    if |q| > 0 {
      WithoutIdempotent(q[1..], name);
      if q[0].name != name {
        assert ([q[0]] + Without(q[1..], name))[1..] == Without(q[1..], name);
      }
    }
  }

  lemma {:induction false} GetWithout(q: seq<Param>, name: string, other: string)
    requires other != name
    ensures Get(Without(q, name), other) == Get(q, other)
    decreases |q|
  {
    if |q| > 0 {
      GetWithout(q[1..], name, other);
      if q[0].name != name {
        assert ([q[0]] + Without(q[1..], name))[1..] == Without(q[1..], name);
      }
    }
  }

  // ---------------------------------------------------------------------------
  // Parsing and serialising
  // ---------------------------------------------------------------------------

  /** Index of the first `c` in `s`, or `|s|` when there is none. */
  function IndexOf(s: string, c: char): (i: nat)
    ensures i <= |s| && c !in s[..i] && (i < |s| ==> s[i] == c)
    decreases |s|
  {
    if |s| == 0 then 0
    else if s[0] == c then 0
    else
      var j := IndexOf(s[1..], c);
      assert s[..j + 1] == [s[0]] + s[1..][..j];
      j + 1
  }

  lemma {:induction false} IndexOfAbsent(s: string, c: char)
    requires c !in s
    ensures IndexOf(s, c) == |s|
    decreases |s|
  {
    if |s| > 0 {
      assert s[0] in s;
      assert forall x :: x in s[1..] ==> x in s;
      IndexOfAbsent(s[1..], c);
    }
  }

  lemma {:induction false} IndexOfAfter(a: string, b: string, c: char)
    requires c !in a
    ensures IndexOf(a + b, c) == |a| + IndexOf(b, c)
    decreases |a|
  {
    if |a| == 0 {
      assert a + b == b;
    } else {
      assert a[0] in a;
      assert forall x :: x in a[1..] ==> x in a;
      assert (a + b)[1..] == a[1..] + b;
      IndexOfAfter(a[1..], b, c);
    }
  }

  /** One `&`-separated piece of a query: name and value around its first `=`. */
  function ParsePair(piece: string): Param {
    var e := IndexOf(piece, '=');
    if e < |piece| then Param(piece[..e], piece[e + 1..]) else Param(piece, "")
  }

  /** The pairs of a query's pieces; empty pieces (as in `a=1&&b=2`) are skipped. */
  function ParsePairs(pieces: seq<string>): seq<Param> {
    if |pieces| == 0 then []
    else if pieces[0] == "" then ParsePairs(pieces[1..])
    else [ParsePair(pieces[0])] + ParsePairs(pieces[1..])
  }

  /** `new URL(s)`: fragment after the first `#`, query between the first `?`
      and the fragment, split on `&`. */
  function Parse(s: string): Url {
    var h := IndexOf(s, '#');
    var beforeHash := s[..h];
    var fragment := if h < |s| then Some(s[h + 1..]) else None;
    var q := IndexOf(beforeHash, '?');
    var query := if q < |beforeHash| then ParsePairs(Split(beforeHash[q + 1..], '&')) else [];
    Url(beforeHash[..q], query, fragment)
  }

  function SerializePair(p: Param): string {
    p.name + "=" + p.value
  }

  function SerializePairs(q: seq<Param>): (r: seq<string>)
    ensures |r| == |q|
    ensures forall k :: 0 <= k < |q| ==> r[k] == SerializePair(q[k])
  {
    if |q| == 0 then [] else [SerializePair(q[0])] + SerializePairs(q[1..])
  }

  /** The `?`-introduced search part; none for an empty query. */
  function SearchText(q: seq<Param>): string {
    if q == [] then "" else "?" + Join(SerializePairs(q), '&')
  }

  function FragmentText(f: Option<string>): string {
    if f.Some? then "#" + f.value else ""
  }

  /** `url.toString()`. */
  function Serialize(u: Url): string {
    (u.base + SearchText(u.query)) + FragmentText(u.fragment)
  }

  /** The URLs `Parse` can produce, on which serialising loses nothing. */
  predicate WellFormedParam(p: Param) {
    '&' !in p.name && '=' !in p.name && '#' !in p.name && '&' !in p.value && '#' !in p.value
  }

  predicate WellFormed(u: Url) {
    && '?' !in u.base && '#' !in u.base
    && forall k :: 0 <= k < |u.query| ==> WellFormedParam(u.query[k])
  }

  // ---------------------------------------------------------------------------
  // Round trip
  // ---------------------------------------------------------------------------

  lemma ParsePairOfSerialized(p: Param)
    requires WellFormedParam(p)
    ensures ParsePair(SerializePair(p)) == p
  {
    var s := SerializePair(p);
    IndexOfAfter(p.name, "=" + p.value, '=');
    assert s == p.name + ("=" + p.value);
    assert s[..|p.name|] == p.name;
    assert s[|p.name| + 1..] == p.value;
  }

  lemma {:induction false} ParsePairsOfSerialized(q: seq<Param>)
    requires forall k :: 0 <= k < |q| ==> WellFormedParam(q[k])
    ensures ParsePairs(SerializePairs(q)) == q
    decreases |q|
  {
    if |q| > 0 {
      var pieces := SerializePairs(q);
      assert pieces[0] != "" by { assert |pieces[0]| >= 1; }
      ParsePairOfSerialized(q[0]);
      assert pieces[1..] == SerializePairs(q[1..]);
      ParsePairsOfSerialized(q[1..]);
    }
  }

  lemma {:induction false} JoinAvoids(pieces: seq<string>, sep: char, c: char)
    requires c != sep
    requires forall k :: 0 <= k < |pieces| ==> c !in pieces[k]
    ensures c !in Join(pieces, sep)
    decreases |pieces|
  {
    if |pieces| > 1 {
      JoinAvoids(pieces[1..], sep, c);
    }
  }

  lemma SerializedPairsAvoid(q: seq<Param>, c: char)
    requires forall k :: 0 <= k < |q| ==> WellFormedParam(q[k])
    requires c == '&' || c == '#'
    ensures forall k :: 0 <= k < |q| ==> c !in SerializePairs(q)[k]
  {
  }

  /** Serialising a well-formed URL and parsing it back gives the same URL. */
  lemma ParseOfSerialized(u: Url)
    requires WellFormed(u)
    ensures Parse(Serialize(u)) == u
  {
    var before := u.base + SearchText(u.query);
    var s := before + FragmentText(u.fragment);
    QuerySplits(u.base, u.query);
    FragmentSplits(before, u.fragment);
    ParseOfParts(s, before, u.base, u.query, u.fragment);
    assert Serialize(u) == s;
  }

  lemma ParseOfParts(s: string, before: string, base: string, query: seq<Param>, fragment: Option<string>)
    requires var h := IndexOf(s, '#');
             s[..h] == before && (if h < |s| then Some(s[h + 1..]) else None) == fragment
    requires var q := IndexOf(before, '?');
             before[..q] == base && (if q < |before| then ParsePairs(Split(before[q + 1..], '&')) else []) == query
    ensures Parse(s) == Url(base, query, fragment)
  {
  }

  /** The first `#` of a serialised URL starts its fragment. */
  lemma FragmentSplits(before: string, f: Option<string>)
    requires '#' !in before
    ensures var s := before + FragmentText(f);
            var h := IndexOf(s, '#');
            && h == |before| && s[..h] == before
            && (if h < |s| then Some(s[h + 1..]) else None) == f
  {
    var s := before + FragmentText(f);
    IndexOfAfter(before, FragmentText(f), '#');
    if f.Some? {
      assert FragmentText(f)[0] == '#';
      assert s[|before| + 1..] == f.value;
    } else {
      assert s == before;
    }
    assert s[..|before|] == before;
  }

  /** The part before the fragment of a serialised well-formed URL parses
      back into its base and query. */
  lemma QuerySplits(base: string, query: seq<Param>)
    requires '?' !in base && '#' !in base
    requires forall k :: 0 <= k < |query| ==> WellFormedParam(query[k])
    ensures '#' !in base + SearchText(query)
    ensures var t := base + SearchText(query);
            var q := IndexOf(t, '?');
            && t[..q] == base
            && (if q < |t| then ParsePairs(Split(t[q + 1..], '&')) else []) == query
  {
    var search := SearchText(query);
    var t := base + search;
    var pieces := SerializePairs(query);
    SerializedPairsAvoid(query, '&');
    SerializedPairsAvoid(query, '#');
    JoinAvoids(pieces, '&', '#');
    assert '#' !in search;
    IndexOfAfter(base, search, '?');
    assert t[..|base|] == base;
    if query != [] {
      assert search[0] == '?';
      assert t[|base| + 1..] == Join(pieces, '&');
      SplitJoin(pieces, '&');
      ParsePairsOfSerialized(query);
    } else {
      assert t == base;
    }
  }

  lemma {:induction false} ParsePairsWellFormed(pieces: seq<string>)
    requires forall k :: 0 <= k < |pieces| ==> '&' !in pieces[k] && '#' !in pieces[k]
    ensures forall k :: 0 <= k < |ParsePairs(pieces)| ==> WellFormedParam(ParsePairs(pieces)[k])
    decreases |pieces|
  {
    if |pieces| > 0 {
      ParsePairsWellFormed(pieces[1..]);
      var p := pieces[0];
      var e := IndexOf(p, '=');
      assert forall c :: c in p[..e] ==> c in p;
      assert forall c :: e < |p| && c in p[e + 1..] ==> c in p;
    }
  }

  /** Every parsed URL is well formed. */
  lemma ParseWellFormed(s: string)
    ensures WellFormed(Parse(s))
  {
    var h := IndexOf(s, '#');
    var beforeHash := s[..h];
    var q := IndexOf(beforeHash, '?');
    assert forall c :: c in beforeHash[..q] ==> c in beforeHash;
    if q < |beforeHash| {
      var rest := beforeHash[q + 1..];
      assert '#' !in rest by {
        assert forall c :: c in rest ==> c in beforeHash;
      }
      var pieces := Split(rest, '&');
      JoinSplit(rest, '&');
      SplitPiecesFree(rest, '&');
      forall k | 0 <= k < |pieces| ensures '#' !in pieces[k] {
        PieceOfSplitAvoids(rest, '&', '#', k);
      }
      ParsePairsWellFormed(pieces);
    }
  }

  lemma {:induction false} PieceOfSplitAvoids(s: string, sep: char, c: char, k: nat)
    requires c !in s
    requires k < |Split(s, sep)|
    ensures c !in Split(s, sep)[k]
    decreases |s|
  {
    if |s| > 0 {
      var rest := Split(s[1..], sep);
      assert forall x :: x in s[1..] ==> x in s;
      assert s[0] in s;
      if s[0] == sep {
        if k > 0 { PieceOfSplitAvoids(s[1..], sep, c, k - 1); }
      } else if k == 0 {
        PieceOfSplitAvoids(s[1..], sep, c, 0);
      } else {
        PieceOfSplitAvoids(s[1..], sep, c, k);
      }
    }
  }

  /** Setting a well-formed pair in a well-formed URL keeps it well formed. */
  lemma {:induction false} SetWellFormed(q: seq<Param>, name: string, value: string)
    requires forall k :: 0 <= k < |q| ==> WellFormedParam(q[k])
    requires WellFormedParam(Param(name, value))
    ensures forall k :: 0 <= k < |Set(q, name, value)| ==> WellFormedParam(Set(q, name, value)[k])
    decreases |q|
  {
    if |q| > 0 {
      if q[0].name == name {
        WithoutSubset(q[1..], name);
      } else {
        SetWellFormed(q[1..], name, value);
      }
    }
  }

  lemma {:induction false} WithoutSubset(q: seq<Param>, name: string)
    ensures forall k :: 0 <= k < |Without(q, name)| ==> Without(q, name)[k] in q
    decreases |q|
  {
    if |q| > 0 {
      WithoutSubset(q[1..], name);
    }
  }

  // ---------------------------------------------------------------------------
  // Setting one parameter of a URL string
  // ---------------------------------------------------------------------------

  /** Parse the address, set one query parameter, and write it back. */
  function SetParam(s: string, name: string, value: string): string {
    var u := Parse(s);
    Serialize(Url(u.base, Set(u.query, name, value), u.fragment))
  }

  /** Reading the URL back after `SetParam`: the named parameter has the new
      value, every other parameter is as before and in the same order, and
      the text before the query and the fragment are unchanged. */
  lemma SetParamEffect(s: string, name: string, value: string)
    requires WellFormedParam(Param(name, value))
    ensures var before := Parse(s);
            var after := Parse(SetParam(s, name, value));
            && Get(after.query, name) == Some(value)
            && Without(after.query, name) == Without(before.query, name)
            && (forall other :: other != name ==> Get(after.query, other) == Get(before.query, other))
            && after.base == before.base && after.fragment == before.fragment
  {
    var u := Parse(s);
    ParseWellFormed(s);
    SetWellFormed(u.query, name, value);
    var v := Url(u.base, Set(u.query, name, value), u.fragment);
    ParseOfSerialized(v);
    GetAfterSet(u.query, name, value);
    SetKeepsOthers(u.query, name, value);
  }
}
