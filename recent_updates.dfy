/** The `/recent_updates` route: serve the cached payload when the `routes`
    namespace still holds one; otherwise merge the "recently updated" sub
    and dub lists (sub first), drop duplicates, number the entries from 1,
    cache the payload for five minutes and answer with it.  The two
    scrapers and the page fetch are one parameter: their lists, or
    `String(e)` of what one of them threw (for an `Error`, its name, a
    colon and its message), which the 500 answer carries unchanged. */
module RecentUpdates {
  import opened Wrappers
  import opened Text
  import opened Dedup
  import opened SimpleCache

  const NAMESPACE: string := "routes"
  const CACHE_KEY: string := "recent_updates_v1"
  /** Five minutes, in milliseconds. */
  const CACHE_TTL: int := 300000

  /** One scraped entry: its title and href ('' stands for `null`), the
      `index` it may already carry, and the rest of its fields. */
  datatype Update<R> = Update(title: string, href: string, index: Option<int>, rest: R)

  /** The payload; `extraction_time_seconds` is not modelled. */
  datatype Payload<R> = Payload(success: bool, data: seq<Update<R>>)

  /** `cached` tells a cache hit, whose answer adds `cached: true` to the
      payload, from a fresh answer, which is the payload alone. */
  datatype Response<R> =
    | Served(payload: Payload<R>, cached: bool)   // 200
    | Failed(status: int, error: string)          // 500

  predicate HasHrefOrTitle<R>(it: Update<R>) { it.title != "" || it.href != "" }
  function Key<R>(it: Update<R>): string { HrefTitleKey(it.href, it.title) }

  /** `deduplicate([...subItems, ...dubItems])`. */
  function Merged<R>(subs: seq<Update<R>>, dubs: seq<Update<R>>): seq<Update<R>> {
    FirstByKey(subs + dubs, HasHrefOrTitle, Key, {})
  }

  /** `combined.map((item, idx) => ({ index: idx + 1, ...item }))`: the
      spread comes last, so an entry's own index wins over the position. */
  function Numbered<R>(items: seq<Update<R>>): (r: seq<Update<R>>)
    ensures |r| == |items|
    ensures forall i :: 0 <= i < |items| ==>
      r[i] == items[i].(index := Some(if items[i].index.Some? then items[i].index.value else i + 1))
  {
    seq(|items|, i requires 0 <= i < |items| => items[i].(index := Some(items[i].index.GetOr(i + 1))))
  }

  /** Entries that carry no index of their own are numbered 1..n in order. */
  lemma NumberedContiguous<R>(items: seq<Update<R>>)
    requires forall i :: 0 <= i < |items| ==> items[i].index.None?
    ensures forall i :: 0 <= i < |items| ==> Numbered(items)[i].index == Some(i + 1)
    ensures forall i :: 0 <= i < |items| ==>
      Numbered(items)[i].title == items[i].title && Numbered(items)[i].href == items[i].href
  {
  }

  /** The sub list comes first, so a sub entry beats any dub entry with the
      same key: the merge is the de-duplicated sub list followed only by
      dub entries whose key no kept sub entry has. */
  lemma {:induction false} SubCopyWins<R>(subs: seq<Update<R>>, dubs: seq<Update<R>>)
    ensures var head := FirstByKey(subs, HasHrefOrTitle, Key, {});
      var out := Merged(subs, dubs);
      |head| <= |out| && out[..|head|] == head &&
      forall x :: x in out[|head|..] ==>
        (x in dubs && forall s :: s in subs && HasHrefOrTitle(s) ==> Key(s) != Key(x))
  {
    var head := FirstByKey(subs, HasHrefOrTitle, Key, {});
    var seen := SeenAfter(subs, HasHrefOrTitle, Key, {});
    var tail := FirstByKey(dubs, HasHrefOrTitle, Key, seen);
    FirstByKeyAppend(subs, dubs, HasHrefOrTitle, Key, {});
    FirstByKeyDistinct(dubs, HasHrefOrTitle, Key, seen);
    FirstByKeyFromInput(dubs, HasHrefOrTitle, Key, seen);
    var out := Merged(subs, dubs);
    assert out == head + tail;
    assert out[..|head|] == head && out[|head|..] == tail;
    forall x | x in tail
      ensures x in dubs && forall s :: s in subs && HasHrefOrTitle(s) ==> Key(s) != Key(x)
    {
      var i :| 0 <= i < |tail| && tail[i] == x;
      forall s | s in subs && HasHrefOrTitle(s) ensures Key(s) != Key(x) {
        var j :| 0 <= j < |subs| && subs[j] == s;
        assert Key(subs[j]) in seen;
      }
    }
  }

  /** The payload built from fresh lists. */
  function Fresh<R>(subs: seq<Update<R>>, dubs: seq<Update<R>>): Payload<R> {
    Payload(true, Numbered(Merged(subs, dubs)))
  }

  /** The entries of the `routes` namespace, empty before it exists. */
  function RoutesEntries<R>(namespaces: map<string, Namespace<Payload<R>>>): map<string, Entry<Payload<R>>>
    reads set n | n in namespaces :: namespaces[n]
  {
    if NAMESPACE in namespaces then namespaces[NAMESPACE].entries else map[]
  }

  /** The handler.  `now` is the clock at the cache read, `doneAt` the clock
      when the payload is stored; `scraped` is what the fetch and the two
      scrapers give, or `String(e)` of what they threw. */
  method RecentUpdates<R>(reg: Registry<Payload<R>>, now: int, doneAt: int,
                          scraped: Result<(seq<Update<R>>, seq<Update<R>>), string>)
    returns (resp: Response<R>)
    requires reg.Valid()
    modifies reg, reg.namespaces.Values
    ensures reg.Valid() && NAMESPACE in reg.namespaces
    ensures reg.namespaces == old(reg.namespaces)[NAMESPACE := reg.namespaces[NAMESPACE]]
    ensures forall n :: n in old(reg.namespaces) && n != NAMESPACE ==>
      reg.namespaces[n].entries == old(reg.namespaces[n].entries)
    ensures var before := old(RoutesEntries(reg.namespaces));
      var after := reg.namespaces[NAMESPACE].entries;
      match Lookup(before, CACHE_KEY, now)
      case Some(p) => resp == Served(p, true) && after == before
      case None =>
        var read := AfterRead(before, CACHE_KEY, now);
        match scraped
        case Err(e) => resp == Failed(500, e) && after == read
        case Ok(lists) =>
          resp == Served(Fresh(lists.0, lists.1), false) &&
          after == read[CACHE_KEY := Entry(Fresh(lists.0, lists.1), ExpiryFor(CACHE_TTL, doneAt))]
  {
    var ns := reg.CreateNamespace(NAMESPACE, None);
    var cached := ns.Get(CACHE_KEY, now);
    if cached.Some? {
      return Served(cached.value, true);
    }
    if scraped.Err? {
      return Failed(500, scraped.error);
    }
    var subs, dubs := scraped.value.0, scraped.value.1;
    var combined := DedupLoop(subs + dubs, HasHrefOrTitle, Key);
    var payload := Payload(true, Numbered(combined));
    ns.Set(CACHE_KEY, payload, Some(CACHE_TTL), doneAt);
    resp := Served(payload, false);
  }
}
