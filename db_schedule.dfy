/** `GET /db-schedule`: reads the newest stored schedule and numbers its
    items day by day — the first item of each day gets id 1, the next item
    of the same day id 2, and so on, whatever lies between them. */
module DbScheduleRoute {
  import opened Wrappers
  import opened ScheduleRoute

  /** What the database helper puts in front of the driver's message. */
  const DB_FAILURE_PREFIX: string := "MongoDB connection or query failed: "

  datatype NumberedItem = NumberedItem(id: nat, day: string, anime: string, time: string)

  datatype DbScheduleResponse =
    | Numbered(data: seq<NumberedItem>)
    | DbFailed(error: string)

  function DbStatus(r: DbScheduleResponse): (code: int)
    ensures code == 500 <==> r.DbFailed?
    ensures code == 200 <==> r.Numbered?
  {
    if r.DbFailed? then 500 else 200
  }

  /** `fetchScheduleFromDB()`: the newest document's items, none when there
      is no document or it has no items; a driver failure is rethrown with
      the prefix.  `latest` is what the query gave. */
  function FetchSchedule(latest: Result<Option<seq<StoredItem>>, string>): (r: Result<seq<StoredItem>, string>)
    ensures latest.Err? ==> r == Err(DB_FAILURE_PREFIX + latest.error)
    ensures latest.Ok? && latest.value.None? ==> r == Ok([])
    ensures latest.Ok? && latest.value.Some? ==> r == Ok(latest.value.value)
  {
    match latest
    case Err(e) => Err(DB_FAILURE_PREFIX + e)
    case Ok(None) => Ok([])
    case Ok(Some(items)) => Ok(items)
  }

  /** How many items of `items` are on `day`. */
  function CountDay(items: seq<StoredItem>, day: string): (n: nat)
    ensures n <= |items|
  {
    if items == [] then 0
    else CountDay(items[..|items| - 1], day) + (if items[|items| - 1].day == day then 1 else 0)
  }

  /** The id of item `k`: one more than the items of its day before it. */
  function IdAt(items: seq<StoredItem>, k: nat): (id: nat)
    requires k < |items|
    ensures 1 <= id <= k + 1
  {
    CountDay(items[..k], items[k].day) + 1
  }

  /** The answer: every item with its per-day id, in the stored order. */
  function NumberAll(items: seq<StoredItem>): (r: seq<NumberedItem>)
    ensures |r| == |items|
    ensures forall k :: 0 <= k < |items| ==>
      r[k].day == items[k].day && r[k].anime == items[k].anime && r[k].time == items[k].time
  {
    seq(|items|, k requires 0 <= k < |items| =>
      NumberedItem(IdAt(items, k), items[k].day, items[k].anime, items[k].time))
  }

  /** The `map` with its `dayCounters` object: each day's counter is
      created at 1 on first sight and incremented after every use. */
  method NumberByDay(items: seq<StoredItem>) returns (cleaned: seq<NumberedItem>)
    ensures cleaned == NumberAll(items)
  {
    var dayCounters: map<string, nat> := map[];
    cleaned := [];
    ghost var all := NumberAll(items);
    var k := 0;
    while k < |items|
      invariant 0 <= k <= |items|
      invariant cleaned == all[..k]
      invariant CountersAt(dayCounters, items, k)
    {
      var item := items[k];
      var before := dayCounters;
      if item.day !in dayCounters {
        dayCounters := dayCounters[item.day := 1];
      }
      var id := dayCounters[item.day];
      dayCounters := dayCounters[item.day := id + 1];
      CountersStep(before, items, k);
      assert all[..k + 1] == all[..k] + [NumberedItem(id, item.day, item.anime, item.time)];
      cleaned := cleaned + [NumberedItem(id, item.day, item.anime, item.time)];
      k := k + 1;
    }
    assert all[..k] == all;
  }

  /** `dayCounters` after `k` items: a day not seen yet has no counter, and
      a seen day's counter is one more than its items so far. */
  ghost predicate CountersAt(counters: map<string, nat>, items: seq<StoredItem>, k: nat)
    requires k <= |items|
  {
    (forall d :: d !in counters ==> CountDay(items[..k], d) == 0) &&
    (forall d :: d in counters ==> counters[d] == CountDay(items[..k], d) + 1)
  }

  /** Reading and bumping the counter of item `k`'s day gives its id and
      keeps the counters in step. */
  lemma CountersStep(counters: map<string, nat>, items: seq<StoredItem>, k: nat)
    requires k < |items| && CountersAt(counters, items, k)
    ensures var c := if items[k].day in counters then counters else counters[items[k].day := 1];
      c[items[k].day] == IdAt(items, k) &&
      CountersAt(c[items[k].day := c[items[k].day] + 1], items, k + 1)
  {
    assert items[..k + 1][..k] == items[..k];
  }

  /** The route handler. */
  method GetDbSchedule(latest: Result<Option<seq<StoredItem>>, string>) returns (resp: DbScheduleResponse)
    ensures latest.Err? ==> resp == DbFailed(DB_FAILURE_PREFIX + latest.error)
    ensures latest.Ok? ==> resp == Numbered(NumberAll(FetchSchedule(latest).value))
  {
    var data := FetchSchedule(latest);
    if data.Err? {
      return DbFailed(data.error);
    }
    var cleaned := NumberByDay(data.value);
    return Numbered(cleaned);
  }

  // ---------------------------------------------------------- numbering

  lemma {:induction false} CountAppend(a: seq<StoredItem>, b: seq<StoredItem>, day: string)
    ensures CountDay(a + b, day) == CountDay(a, day) + CountDay(b, day)
    decreases |b|
  {
    if b != [] {
      assert (a + b)[..|a + b| - 1] == a + b[..|b| - 1];
      CountAppend(a, b[..|b| - 1], day);
    } else {
      assert a + b == a;
    }
  }

  lemma {:induction false} CountNone(items: seq<StoredItem>, day: string)
    requires forall i :: 0 <= i < |items| ==> items[i].day != day
    ensures CountDay(items, day) == 0
    decreases |items|
  {
    if items != [] {
      CountNone(items[..|items| - 1], day);
    }
  }

  /** The first item of a day gets id 1. */
  lemma FirstOfDayIsOne(items: seq<StoredItem>, k: nat)
    requires k < |items|
    requires forall j :: 0 <= j < k ==> items[j].day != items[k].day
    ensures NumberAll(items)[k].id == 1
  {
    CountNone(items[..k], items[k].day);
  }

  /** The next item of the same day gets the next id, whatever items of
      other days lie between them. */
  lemma NextOfDayIsNext(items: seq<StoredItem>, j: nat, k: nat)
    requires j < k < |items| && items[j].day == items[k].day
    requires forall i :: j < i < k ==> items[i].day != items[k].day
    ensures NumberAll(items)[k].id == NumberAll(items)[j].id + 1
  {
    var day := items[k].day;
    assert items[..k] == items[..j] + ([items[j]] + items[j + 1..k]);
    CountAppend(items[..j], [items[j]] + items[j + 1..k], day);
    CountAppend([items[j]], items[j + 1..k], day);
    CountNone(items[j + 1..k], day);
    assert CountDay([items[j]], day) == 1 by {
      assert [items[j]][..0] == [];
    }
  }

  /** Within a day the ids strictly increase in the stored order, so no
      two items of one day share an id. */
  lemma IdsIncreaseWithinDay(items: seq<StoredItem>, j: nat, k: nat)
    requires j < k < |items| && items[j].day == items[k].day
    ensures NumberAll(items)[j].id < NumberAll(items)[k].id
  {
    var day := items[k].day;
    assert items[..k] == items[..j] + items[j..k];
    CountAppend(items[..j], items[j..k], day);
    assert items[j..k] == [items[j]] + items[j + 1..k];
    CountAppend([items[j]], items[j + 1..k], day);
    assert CountDay([items[j]], day) == 1 by {
      assert [items[j]][..0] == [];
    }
  }
}
