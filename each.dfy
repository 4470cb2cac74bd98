/** Cheerio's `$(selector).each((i, el) => …)` as the list scrapers use it:
    the callback runs on every matched element, in document order, with the
    element's position, and pushes what it builds onto an output array —
    one value per element, or at most one when it skips some elements. */
module Each {
  import opened Wrappers

  /** What a callback that pushes `f(i, el)` when it is a value has pushed
      after the whole selection. */
  function Pushed<A, B>(els: seq<A>, f: (nat, A) -> Option<B>): (r: seq<B>)
    ensures |r| <= |els|
    decreases |els|
  {
    if els == [] then []
    else
      var n := |els| - 1;
      Pushed(els[..n], f) + (match f(n, els[n]) case Some(b) => [b] case None => [])
  }

  /** The positions of the elements that pushed something, in order: the
      k-th output comes from the element at `PushedFrom(els, f)[k]`, these
      positions increase, and every element that pushes is among them. */
  function PushedFrom<A, B>(els: seq<A>, f: (nat, A) -> Option<B>): (ix: seq<nat>)
    ensures |ix| == |Pushed(els, f)|
    ensures forall k :: 0 <= k < |ix| ==> ix[k] < |els| && f(ix[k], els[ix[k]]) == Some(Pushed(els, f)[k])
    ensures forall k, l :: 0 <= k < l < |ix| ==> ix[k] < ix[l]
    ensures forall i :: 0 <= i < |els| && f(i, els[i]).Some? ==> i in ix
    decreases |els|
  {
    if els == [] then []
    else
      var n := |els| - 1;
      var front := PushedFrom(els[..n], f);
      assert forall k :: 0 <= k < |front| ==> els[..n][front[k]] == els[front[k]];
      assert forall i :: 0 <= i < n ==> els[..n][i] == els[i];
      match f(n, els[n])
      case Some(_) => front + [n]
      case None => front
  }

  /** The callback pushes on every element. */
  method EachPush<A, B>(els: seq<A>, f: (nat, A) -> B) returns (out: seq<B>)
    ensures |out| == |els|
    ensures forall i :: 0 <= i < |els| ==> out[i] == f(i, els[i])
  {
    out := [];
    var i := 0;
    while i < |els|
      invariant 0 <= i <= |els| && |out| == i
      invariant forall j :: 0 <= j < i ==> out[j] == f(j, els[j])
    {
      out := out + [f(i, els[i])];
      i := i + 1;
    }
  }

  /** The callback pushes on some elements and skips the others. */
  method EachPushSome<A, B>(els: seq<A>, f: (nat, A) -> Option<B>) returns (out: seq<B>)
    ensures out == Pushed(els, f)
  {
    out := [];
    var i := 0;
    while i < |els|
      invariant 0 <= i <= |els|
      invariant out == Pushed(els[..i], f)
    {
      assert els[..i + 1][..i] == els[..i];
      if f(i, els[i]).Some? {
        out := out + [f(i, els[i]).value];
      }
      i := i + 1;
    }
    assert els[..i] == els;
  }
}
