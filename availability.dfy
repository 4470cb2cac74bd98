/** `checkAvailability(title)`, the helper the overrated and underrated
    builders share: a title is "available" when the 123anime search page
    mentions it.  Answers are kept in the shared "availability" cache
    namespace, ten minutes for a page that was read and one minute for a
    request that failed.  The search request's outcome is a parameter. */
module Availability {
  import opened Wrappers
  import opened Text
  import opened SimpleCache

  const NAMESPACE: string := "availability"
  const AVAILABLE: string := "available"
  const NOT_AVAILABLE: string := "not available"
  const TEN_MINUTES: int := 10 * 60 * 1000
  const ONE_MINUTE: int := 60 * 1000

  /** The search request: a page (its body, `None` when it is not a
      string) or a thrown error. */
  datatype SearchOutcome = Page(body: Option<string>) | RequestFailed

  function Key(title: string): (k: string)
    ensures StartsWith(k, "availability:") && |k| == |title| + 13
  {
    "availability:" + Lower(title)
  }

  /** The answer a finished request gives. */
  function Verdict(title: string, outcome: SearchOutcome): (a: string)
    ensures a == AVAILABLE <==> outcome.Page? && outcome.body.Some? && Contains(Lower(outcome.body.value), Lower(title))
    ensures a == AVAILABLE || a == NOT_AVAILABLE
  {
    if outcome.Page? && outcome.body.Some? && Contains(Lower(outcome.body.value), Lower(title)) then AVAILABLE
    else NOT_AVAILABLE
  }

  /** How long the answer is kept. */
  function TtlFor(outcome: SearchOutcome): (ttl: int)
    ensures outcome.Page? ==> ttl == 600000
    ensures outcome.RequestFailed? ==> ttl == 60000
  {
    if outcome.Page? then TEN_MINUTES else ONE_MINUTE
  }

  /** The registry call both builders make: they share one namespace. */
  method AvailabilityCache(reg: Registry<string>) returns (ns: Namespace<string>)
    requires reg.Valid()
    modifies reg
    ensures reg.Valid() && ns.name == NAMESPACE && NAMESPACE in reg.namespaces && reg.namespaces[NAMESPACE] == ns
    ensures NAMESPACE in old(reg.namespaces) ==> ns == old(reg.namespaces)[NAMESPACE]
    ensures reg.namespaces == old(reg.namespaces)[NAMESPACE := ns]
  {
    ns := reg.CreateNamespace(NAMESPACE, Some(TEN_MINUTES));
  }

  /** `checkAvailability(title)`: a cached answer is returned as it is,
      whatever it says, without a request; otherwise the request is made
      at `now`, finishes at `doneAt`, and its answer is cached. */
  method CheckAvailability(ns: Namespace<string>, title: string, now: int, doneAt: int, outcome: SearchOutcome)
    returns (a: string)
    modifies ns
    ensures var cached := Lookup(old(ns.entries), Key(title), now);
      if cached.Some? && cached.value != "" then
        a == cached.value && ns.entries == old(ns.entries)
      else
        a == Verdict(title, outcome) &&
        ns.entries == AfterRead(old(ns.entries), Key(title), now)[Key(title) := Entry(a, ExpiryFor(TtlFor(outcome), doneAt))]
  {
    var key := Key(title);
    var cached := ns.Get(key, now);
    if cached.Some? && cached.value != "" {
      return cached.value;
    }
    if outcome.RequestFailed? {
      ns.Set(key, NOT_AVAILABLE, Some(ONE_MINUTE), doneAt);
      return NOT_AVAILABLE;
    }
    a := if outcome.body.Some? && Contains(Lower(outcome.body.value), Lower(title)) then AVAILABLE else NOT_AVAILABLE;
    ns.Set(key, a, Some(TEN_MINUTES), doneAt);
  }

  /** A fresh answer is served from the cache until its time is up: ten
      minutes after a read page, one minute after a failed request. */
  lemma FreshAnswerCached(m: map<string, Entry<string>>, title: string, outcome: SearchOutcome, doneAt: nat, later: int)
    requires doneAt <= later
    ensures var m' := m[Key(title) := Entry(Verdict(title, outcome), ExpiryFor(TtlFor(outcome), doneAt))];
      Lookup(m', Key(title), later) == (if later < doneAt + TtlFor(outcome) then Some(Verdict(title, outcome)) else None)
  {
    SetThenLookup(m, Key(title), Verdict(title, outcome), TtlFor(outcome), doneAt, later);
  }

  /** Titles that differ only in ASCII case share one cache entry. */
  lemma CaseInsensitiveKey(a: string, b: string)
    requires Lower(a) == Lower(b)
    ensures Key(a) == Key(b)
  {
  }
}
