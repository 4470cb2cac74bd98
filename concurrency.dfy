/** `mapWithConcurrency(list, mapper, limit)`: up to `limit` workers share one
    counter, each claiming the next unclaimed index and storing the mapper's
    outcome for it (`null` when the mapper throws).  The counter is read and
    bumped in one step, so indices are claimed in increasing order whatever
    the interleaving of the awaits; that claim order is what the model keeps.
    The mapper is a parameter: `None` stands for a throw. */
module Concurrency {
  import opened Wrappers

  /** One cell of the result array: never written (`undefined`), `null`
      after a throw, or the mapper's value. */
  datatype Slot<R> = Hole | Null | Value(value: R)

  /** The cell a worker writes for index `i`. */
  function Settle<T, R>(x: T, i: nat, mapper: (T, nat) -> Option<R>): (s: Slot<R>)
    ensures s != Hole
    ensures s.Value? <==> mapper(x, i).Some?
  {
    match mapper(x, i)
    case Some(v) => Value(v)
    case None => Null
  }

  /** `Math.min(limit, list.length)` workers are started (none for a limit of zero or less). */
  function WorkerCount(limit: int, n: nat): (w: nat)
    ensures w <= n
    ensures w == 0 <==> limit <= 0 || n == 0
  {
    if limit <= 0 then 0 else if limit < n then limit else n
  }

  /** The indices `0 .. n-1` in increasing order. */
  function Upto(n: nat): (r: seq<nat>)
    ensures |r| == n && forall i :: 0 <= i < n ==> r[i] == i
  {
    if n == 0 then [] else Upto(n - 1) + [n - 1]
  }

  /** `claims` lists the index each claim handed out, in claim order: with
      at least one worker every index is claimed once, in increasing order,
      so no cell is left `undefined`. */
  method MapWithConcurrency<T, R>(list: seq<T>, mapper: (T, nat) -> Option<R>, limit: int)
    returns (results: seq<Slot<R>>, claims: seq<nat>)
    ensures |results| == |list|
    ensures WorkerCount(limit, |list|) == 0 ==>
      claims == [] && forall i :: 0 <= i < |list| ==> results[i] == Hole
    ensures WorkerCount(limit, |list|) > 0 ==>
      claims == Upto(|list|) && forall i :: 0 <= i < |list| ==> results[i] == Settle(list[i], i, mapper)
    ensures WorkerCount(limit, |list|) > 0 ==> forall i :: 0 <= i < |list| ==> results[i] != Hole
  {
    var cells := new Slot<R>[|list|](_ => Hole);
    claims := [];
    if WorkerCount(limit, |list|) > 0 {
      var idx := 0;
      while idx < |list|
        invariant 0 <= idx <= |list|
        invariant claims == Upto(idx)
        invariant forall j :: 0 <= j < idx ==> cells[j] == Settle(list[j], j, mapper)
        invariant forall j :: idx <= j < |list| ==> cells[j] == Hole
        decreases |list| - idx
      {
        var i := idx;
        idx := idx + 1;
        claims := claims + [i];
        match mapper(list[i], i)
        case Some(v) => cells[i] := Value(v);
        case None => cells[i] := Null;
      }
    }
    results := cells[..];
  }
}
