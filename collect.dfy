/**
 * The loop shape the scripts use three times: walk a list in order, try to
 * turn each element into a result, and push the results that exist. It
 * collects the records of readable product cards, the JSON-LD blocks that
 * parse, and the category nodes of the menu labels. The properties are proved
 * once, for any element function.
 */
module Collect {
  import opened JsString

  /** The results `f` gives for the elements of `xs`, in order, skipping
      the elements it gives none for. */
  function Present<A, B>(xs: seq<A>, f: A -> Option<B>): seq<B> {
    if |xs| == 0 then []
    else
      var last := f(xs[|xs| - 1]);
      Present(xs[..|xs| - 1], f) + (if last.Some? then [last.value] else [])
  }

  /** Pushing one more element's result. */
  lemma PresentSnoc<A, B>(xs: seq<A>, x: A, f: A -> Option<B>)
    ensures Present(xs + [x], f) == Present(xs, f) + (if f(x).Some? then [f(x).value] else [])
  {
    assert (xs + [x])[..|xs|] == xs;
  }

  /** The collection works element by element: it distributes over
      concatenation. */
  lemma {:induction false} PresentAppend<A, B>(xs: seq<A>, ys: seq<A>, f: A -> Option<B>)
    ensures Present(xs + ys, f) == Present(xs, f) + Present(ys, f)
    decreases |ys|
  {
    if |ys| == 0 {
      assert xs + ys == xs;
    } else {
      assert (xs + ys)[..|xs + ys| - 1] == xs + ys[..|ys| - 1];
      PresentAppend(xs, ys[..|ys| - 1], f);
    }
  }

  /** A value is collected exactly when some element gives it. */
  lemma {:induction false} PresentMembership<A, B>(xs: seq<A>, f: A -> Option<B>, y: B)
    ensures y in Present(xs, f) <==> exists i :: 0 <= i < |xs| && f(xs[i]) == Some(y)
    decreases |xs|
  {
    if |xs| > 0 {
      var init := xs[..|xs| - 1];
      PresentMembership(init, f, y);
      assert forall i :: 0 <= i < |init| ==> init[i] == xs[i];
      if exists i :: 0 <= i < |xs| && f(xs[i]) == Some(y) {
        var i :| 0 <= i < |xs| && f(xs[i]) == Some(y);
        if i < |init| {
          assert f(init[i]) == Some(y);
        }
      }
    }
  }

  /** When every element gives a result there is one per element, in order. */
  lemma {:induction false} PresentAll<A, B>(xs: seq<A>, f: A -> Option<B>)
    requires forall j :: 0 <= j < |xs| ==> f(xs[j]).Some?
    ensures |Present(xs, f)| == |xs|
    ensures forall j :: 0 <= j < |xs| ==> Present(xs, f)[j] == f(xs[j]).value
    decreases |xs|
  {
    if |xs| > 0 {
      var init := xs[..|xs| - 1];
      assert forall j :: 0 <= j < |init| ==> init[j] == xs[j];
      PresentAll(init, f);
    }
  }

  /** Elements that give nothing can be dropped anywhere. */
  lemma PresentSkip<A, B>(xs: seq<A>, x: A, ys: seq<A>, f: A -> Option<B>)
    requires f(x).None?
    ensures Present(xs + [x] + ys, f) == Present(xs + ys, f)
  {
    PresentAppend(xs + [x], ys, f);
    PresentSnoc(xs, x, f);
    PresentAppend(xs, ys, f);
  }
}
