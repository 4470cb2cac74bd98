/** The overrated and underrated builders: candidates from Kitsu (and, when
    fewer than five are found, the first eight from Jikan) are checked for
    availability three at a time, and the first five available ones are
    kept.  The check's answer for a title, the fetched lists and the scores
    are inputs; the metric is an ordering key. */
module RatedPicks {
  import opened Wrappers
  import opened Text
  import opened Availability

  const CAP: nat := 5
  const BATCH: nat := 3
  const JIKAN_TAKE: nat := 8
  const MIN_SCORE: real := 6.5
  const MIN_JIKAN_METRIC: real := 20.0

  /** A candidate as built from a Kitsu or Jikan entry; `None` stands for
      `null`. */
  datatype Cand = Cand(title: string, image: string, score: Option<real>, episodes: Option<int>, kind: string, metric: real)

  /** A chosen entry. */
  datatype Pick = Pick(index: nat, title: string, image: string, score: Option<real>, episodes: Option<int>, kind: string, available: string)

  // ------------------------------------------------------------ the inputs

  /** A Kitsu entry's attributes; "" stands for an absent text, 0 for an
      absent episode count. */
  datatype KitsuItem = KitsuItem(canonicalTitle: string, en: string, enJp: string, jaJp: string,
                                 posters: seq<string>, score: Option<real>, episodeCount: int, subtype: string, metric: real)

  /** A Jikan entry; a score of 0 counts as absent, as does an episode count of 0. */
  datatype JikanItem = JikanItem(title: string, titleEnglish: string, jpgImage: string, webpImage: string,
                                 score: Option<real>, episodes: int, metric: real)

  function OrNull(n: int): Option<int> { if n == 0 then None else Some(n) }

  /** The Kitsu mapping: the first title present, else "Unknown"; the first
      poster size present; the lower-cased subtype, else "unknown". */
  function KitsuCand(item: KitsuItem): (c: Cand)
    ensures c.title != ""
    ensures c.episodes != Some(0)
  {
    var titles := [item.canonicalTitle, item.en, item.enJp, item.jaJp, "Unknown"];
    assert titles[4] != "";
    Cand(FirstNonEmpty(titles), FirstNonEmpty(item.posters),
         item.score, OrNull(item.episodeCount), if item.subtype != "" then Lower(item.subtype) else "unknown", item.metric)
  }

  /** The Jikan mapping: the title, else the English title, else "Unknown";
      the type says whether an English title exists. */
  function JikanCand(item: JikanItem): (c: Cand)
    ensures c.title != ""
    ensures c.kind == "sub" <==> item.titleEnglish != ""
  {
    var titles := [item.title, item.titleEnglish, "Unknown"];
    assert titles[2] != "";
    Cand(FirstNonEmpty(titles), FirstNonEmpty([item.jpgImage, item.webpImage]),
         if item.score == Some(0.0) then None else item.score, OrNull(item.episodes),
         if item.titleEnglish != "" then "sub" else "original", item.metric)
  }

  function Map<A, B>(xs: seq<A>, f: A -> B): (ys: seq<B>)
    ensures |ys| == |xs| && forall k :: 0 <= k < |xs| ==> ys[k] == f(xs[k])
  {
    if xs == [] then [] else [f(xs[0])] + Map(xs[1..], f)
  }

  function Filter<A>(xs: seq<A>, p: A -> bool): (ys: seq<A>)
    ensures |ys| <= |xs|
    ensures forall k :: 0 <= k < |ys| ==> p(ys[k]) && ys[k] in xs
    ensures forall x :: x in xs && p(x) ==> x in ys
  {
    if xs == [] then [] else (if p(xs[0]) then [xs[0]] else []) + Filter(xs[1..], p)
  }

  /** The first eight Jikan entries, as candidates. */
  function JikanHead(items: seq<JikanItem>): (cs: seq<Cand>)
    ensures |cs| == Min(|items|, JIKAN_TAKE)
    ensures forall k :: 0 <= k < |cs| ==> k < |items| && cs[k] == JikanCand(items[k])
  {
    Map(if |items| <= JIKAN_TAKE then items else items[..JIKAN_TAKE], JikanCand)
  }

  // ------------------------------------------------------------ selection

  function LowerTitles(picks: seq<Pick>): set<string> {
    set k | 0 <= k < |picks| :: Lower(picks[k].title)
  }

  function PickOf(c: Cand, index: nat): Pick {
    Pick(index, c.title, c.image, c.score, c.episodes, c.kind, AVAILABLE)
  }

  /** One candidate: it is taken when fewer than five are held, the check
      says "available" and, where titles are compared, no chosen title is
      the same in lower case. */
  function Admit(picks: seq<Pick>, c: Cand, check: string -> string, dedup: bool): seq<Pick> {
    if |picks| < CAP && check(c.title) == AVAILABLE && !(dedup && Lower(c.title) in LowerTitles(picks))
    then picks + [PickOf(c, |picks| + 1)]
    else picks
  }

  /** The candidates one after the other. */
  function Select(picks: seq<Pick>, cs: seq<Cand>, check: string -> string, dedup: bool): seq<Pick>
    decreases |cs|
  {
    if cs == [] then picks else Select(Admit(picks, cs[0], check, dedup), cs[1..], check, dedup)
  }

  /** The batch loop from `start`: the chosen entries and how many
      candidates were checked.  No batch starts once five are held. */
  function Batches(picks: seq<Pick>, cs: seq<Cand>, start: nat, check: string -> string, dedup: bool): (r: (seq<Pick>, nat))
    requires start <= |cs|
    ensures start <= r.1 <= |cs|
    decreases |cs| - start
  {
    if start == |cs| || |picks| >= CAP then (picks, start)
    else
      var end := Min(start + BATCH, |cs|);
      Batches(Select(picks, cs[start..end], check, dedup), cs, end, check, dedup)
  }

  /** One batch loop.  `dedup` selects the form with a title set and an
      inner loop that stops at five; without it every answer of the batch
      is looked at. */
  method RunBatches(picks0: seq<Pick>, existing0: set<string>, cs: seq<Cand>, check: string -> string, dedup: bool)
    returns (picks: seq<Pick>, existing: set<string>, checked: nat)
    requires dedup ==> existing0 == LowerTitles(picks0)
    ensures (picks, checked) == Batches(picks0, cs, 0, check, dedup)
    ensures dedup ==> existing == LowerTitles(picks)
  {
    picks, existing := picks0, existing0;
    var start := 0;
    while start < |cs| && |picks| < CAP
      invariant start <= |cs|
      invariant Batches(picks, cs, start, check, dedup) == Batches(picks0, cs, 0, check, dedup)
      invariant dedup ==> existing == LowerTitles(picks)
      decreases |cs| - start
    {
      var end := Min(start + BATCH, |cs|);
      var batch := cs[start..end];
      var answers := seq(|batch|, k requires 0 <= k < |batch| => check(batch[k].title));
      picks, existing := RunBatch(picks, existing, batch, answers, check, dedup);
      start := end;
    }
    checked := start;
  }

  /** The loop over one batch's answers. */
  method RunBatch(picks0: seq<Pick>, existing0: set<string>, batch: seq<Cand>, answers: seq<string>,
                  check: string -> string, dedup: bool)
    returns (picks: seq<Pick>, existing: set<string>)
    requires |answers| == |batch| && forall k :: 0 <= k < |batch| ==> answers[k] == check(batch[k].title)
    requires dedup ==> existing0 == LowerTitles(picks0)
    ensures picks == Select(picks0, batch, check, dedup)
    ensures dedup ==> existing == LowerTitles(picks)
  {
    picks, existing := picks0, existing0;
    var i := 0;
    while i < |batch| && (!dedup || |picks| < CAP)
      invariant i <= |batch|
      invariant Select(picks, batch[i..], check, dedup) == Select(picks0, batch, check, dedup)
      invariant dedup ==> existing == LowerTitles(picks)
    {
      assert batch[i..][0] == batch[i] && batch[i..][1..] == batch[i + 1..];
      var c := batch[i];
      if dedup && Lower(c.title) in existing {
        i := i + 1;
        continue;
      }
      if answers[i] == AVAILABLE && |picks| < CAP {
        LowerTitlesPush(picks, PickOf(c, |picks| + 1));
        picks := picks + [PickOf(c, |picks| + 1)];
        if dedup {
          existing := existing + {Lower(c.title)};
        }
      }
      i := i + 1;
    }
    if i < |batch| {
      SelectFull(picks, batch[i..], check, dedup);
    }
  }

  lemma LowerTitlesPush(picks: seq<Pick>, p: Pick)
    ensures LowerTitles(picks + [p]) == LowerTitles(picks) + {Lower(p.title)}
  {
    var s := picks + [p];
    assert s[|picks|] == p;
    forall t | t in LowerTitles(s) ensures t in LowerTitles(picks) + {Lower(p.title)} {
      var k :| 0 <= k < |s| && Lower(s[k].title) == t;
      if k < |picks| {
        assert Lower(picks[k].title) == t;
      }
    }
    forall t | t in LowerTitles(picks) ensures t in LowerTitles(s) {
      var k :| 0 <= k < |picks| && Lower(picks[k].title) == t;
      assert Lower(s[k].title) == t;
    }
  }

  /** Once five are held nothing more is taken. */
  lemma {:induction false} SelectFull(picks: seq<Pick>, cs: seq<Cand>, check: string -> string, dedup: bool)
    requires |picks| >= CAP
    ensures Select(picks, cs, check, dedup) == picks
    decreases |cs|
  {
    if cs != [] {
      SelectFull(picks, cs[1..], check, dedup);
    }
  }

  /** Selecting over two lists is selecting over the first, then the second. */
  lemma {:induction false} SelectAppend(picks: seq<Pick>, xs: seq<Cand>, ys: seq<Cand>, check: string -> string, dedup: bool)
    ensures Select(picks, xs + ys, check, dedup) == Select(Select(picks, xs, check, dedup), ys, check, dedup)
    decreases |xs|
  {
    if xs != [] {
      assert (xs + ys)[0] == xs[0] && (xs + ys)[1..] == xs[1..] + ys;
      SelectAppend(Admit(picks, xs[0], check, dedup), xs[1..], ys, check, dedup);
    } else {
      assert xs + ys == ys;
    }
  }

  /** Batching does not change the outcome: the batch loop keeps what one
      pass over all the candidates would keep. */
  lemma {:induction false} BatchesAgree(picks: seq<Pick>, cs: seq<Cand>, start: nat, check: string -> string, dedup: bool)
    requires start <= |cs|
    ensures Batches(picks, cs, start, check, dedup).0 == Select(picks, cs[start..], check, dedup)
    decreases |cs| - start
  {
    if start == |cs| {
    } else if |picks| >= CAP {
      SelectFull(picks, cs[start..], check, dedup);
    } else {
      var end := Min(start + BATCH, |cs|);
      BatchesAgree(Select(picks, cs[start..end], check, dedup), cs, end, check, dedup);
      assert cs[start..] == cs[start..end] + cs[end..];
      SelectAppend(picks, cs[start..end], cs[end..], check, dedup);
    }
  }

  /** Where the last batch of a loop that checked `start..end` began. */
  function LastStart(start: nat, end: nat): (l: nat)
    requires start < end
    ensures start <= l < end
    decreases end - start
  {
    if end - start <= BATCH then start else LastStart(start + BATCH, end)
  }

  /** Selecting over two adjacent slices one after the other. */
  lemma SelectSlices(picks: seq<Pick>, cs: seq<Cand>, a: nat, b: nat, c: nat, check: string -> string, dedup: bool)
    requires a <= b <= c <= |cs|
    ensures Select(picks, cs[a..c], check, dedup) == Select(Select(picks, cs[a..b], check, dedup), cs[b..c], check, dedup)
  {
    assert cs[a..c] == cs[a..b] + cs[b..c];
    SelectAppend(picks, cs[a..b], cs[b..c], check, dedup);
  }

  /** One turn of the batch loop. */
  lemma BatchesStep(picks: seq<Pick>, cs: seq<Cand>, start: nat, check: string -> string, dedup: bool)
    requires start < |cs| && |picks| < CAP
    ensures var end := Min(start + BATCH, |cs|);
      Batches(picks, cs, start, check, dedup) == Batches(Select(picks, cs[start..end], check, dedup), cs, end, check, dedup)
  {
  }

  lemma LastStartShort(start: nat, end: nat)
    requires start < end <= start + BATCH
    ensures LastStart(start, end) == start
  {
  }

  lemma LastStartShift(start: nat, end: nat)
    requires start + BATCH < end
    ensures LastStart(start, end) == LastStart(start + BATCH, end)
  {
  }

  /** The loop stops only when the candidates run out or five are held,
      and checks whole batches of three (the last may be short). */
  lemma {:induction false} BatchesStop(picks: seq<Pick>, cs: seq<Cand>, start: nat, check: string -> string, dedup: bool)
    requires start <= |cs|
    ensures var r := Batches(picks, cs, start, check, dedup);
      (r.1 == |cs| || |r.0| >= CAP) && ((r.1 - start) % BATCH == 0 || r.1 == |cs|)
    decreases |cs| - start
  {
    if start < |cs| && |picks| < CAP {
      var end := Min(start + BATCH, |cs|);
      BatchesStop(Select(picks, cs[start..end], check, dedup), cs, end, check, dedup);
      var r := Batches(picks, cs, start, check, dedup);
      if r.1 != |cs| {
        assert end == start + BATCH;
        assert r.1 - start == (r.1 - end) + BATCH;
      }
    }
  }

  /** No batch starts once five are held: before the last batch checked,
      fewer than five had been chosen. */
  lemma {:induction false} NoBatchAfterFive(picks: seq<Pick>, cs: seq<Cand>, start: nat, check: string -> string, dedup: bool)
    requires start <= |cs|
    ensures var r := Batches(picks, cs, start, check, dedup);
      r.1 > start ==> |Select(picks, cs[start..LastStart(start, r.1)], check, dedup)| < CAP
    decreases |cs| - start
  {
    if start < |cs| && |picks| < CAP {
      var end := Min(start + BATCH, |cs|);
      var next := Select(picks, cs[start..end], check, dedup);
      NoBatchAfterFive(next, cs, end, check, dedup);
      var r := Batches(next, cs, end, check, dedup);
      BatchesStep(picks, cs, start, check, dedup);
      if r.1 == end {
        LastStartShort(start, end);
        assert cs[start..start] == [];
      } else {
        LastStartShift(start, r.1);
        SelectSlices(picks, cs, start, end, LastStart(end, r.1), check, dedup);
      }
    }
  }

  /** The promise about the chosen entries: at most five, numbered by
      place, each "available". */
  predicate Chosen(picks: seq<Pick>) {
    |picks| <= CAP && forall k :: 0 <= k < |picks| ==> picks[k].index == k + 1 && picks[k].available == AVAILABLE
  }

  /** Selection keeps the promise, only appends, and appends only
      candidates the check called available. */
  lemma {:induction false} SelectChosen(picks: seq<Pick>, cs: seq<Cand>, check: string -> string, dedup: bool)
    requires Chosen(picks)
    ensures var out := Select(picks, cs, check, dedup);
      Chosen(out) && picks <= out &&
      forall k :: |picks| <= k < |out| ==> check(out[k].title) == AVAILABLE
    decreases |cs|
  {
    if cs != [] {
      var next := Admit(picks, cs[0], check, dedup);
      SelectChosen(next, cs[1..], check, dedup);
    }
  }

  /** Where titles are compared, every appended entry's lower-case title
      differs from those of all the entries before it. */
  lemma {:induction false} SelectDistinct(picks: seq<Pick>, cs: seq<Cand>, check: string -> string)
    ensures var out := Select(picks, cs, check, true);
      picks <= out &&
      forall k, l :: 0 <= l < k < |out| && |picks| <= k ==> Lower(out[k].title) != Lower(out[l].title)
    decreases |cs|
  {
    if cs != [] {
      var next := Admit(picks, cs[0], check, true);
      SelectDistinct(next, cs[1..], check);
      var out := Select(picks, cs, check, true);
      if next != picks {
        forall l | 0 <= l < |picks| ensures Lower(next[|picks|].title) != Lower(out[l].title) {
          assert Lower(picks[l].title) in LowerTitles(picks);
        }
      }
    }
  }

  // ---------------------------------------------------------- the builders

  /** `slice(0, 5).map((a, i) => ({ ...a, index: i + 1 }))`. */
  function Reindexed(picks: seq<Pick>): (r: seq<Pick>)
    ensures |r| == Min(|picks|, CAP)
    ensures forall k :: 0 <= k < |r| ==> r[k] == picks[k].(index := k + 1)
  {
    var n := Min(|picks|, CAP);
    seq(n, k requires 0 <= k < n => picks[k].(index := k + 1))
  }

  /** The overrated selection: Kitsu in list order without a title check,
      then, only while fewer than five are held, the first eight Jikan
      entries with one. */
  function OverratedPicks(kitsu: seq<KitsuItem>, jikan: Option<seq<JikanItem>>, check: string -> string): seq<Pick> {
    var first := Batches([], Map(kitsu, KitsuCand), 0, check, false).0;
    if |first| < CAP && jikan.Some? then Batches(first, JikanHead(jikan.value), 0, check, true).0 else first
  }

  /** `fetchOverratedAnime()`'s results; `None` stands for a failed fetch. */
  method FetchOverrated(kitsu: Option<seq<KitsuItem>>, jikan: Option<seq<JikanItem>>, check: string -> string)
    returns (results: seq<Pick>)
    ensures kitsu.None? ==> results == []
    ensures kitsu.Some? ==> results == Reindexed(OverratedPicks(kitsu.value, jikan, check))
  {
    if kitsu.None? {
      return [];
    }
    var items := Map(kitsu.value, KitsuCand);
    var available, _, _ := RunBatches([], {}, items, check, false);
    if |available| < CAP && jikan.Some? {
      var existing := LowerTitles(available);
      var checked;
      available, existing, checked := RunBatches(available, existing, JikanHead(jikan.value), check, true);
    }
    results := Reindexed(available);
  }

  /** What the overrated list promises: at most five entries numbered 1..n,
      all available; the Kitsu ones are the first available in list order;
      a Jikan entry is never the lower-case title of an earlier one. */
  lemma OverratedChosen(kitsu: seq<KitsuItem>, jikan: Option<seq<JikanItem>>, check: string -> string)
    ensures var out := OverratedPicks(kitsu, jikan, check);
      var first := Select([], Map(kitsu, KitsuCand), check, false);
      Chosen(out) && first <= out &&
      (forall k :: 0 <= k < |out| ==> check(out[k].title) == AVAILABLE) &&
      (forall k, l :: 0 <= l < k < |out| && |first| <= k ==> Lower(out[k].title) != Lower(out[l].title)) &&
      (|first| >= CAP ==> out == first)
  {
    var cs := Map(kitsu, KitsuCand);
    BatchesAgree([], cs, 0, check, false);
    assert cs[0..] == cs;
    SelectChosen([], cs, check, false);
    var first := Select([], cs, check, false);
    if |first| < CAP && jikan.Some? {
      var js := JikanHead(jikan.value);
      BatchesAgree(first, js, 0, check, true);
      assert js[0..] == js;
      SelectChosen(first, js, check, true);
      SelectDistinct(first, js, check);
    }
  }

  /** The underrated Kitsu candidates: a score of at least 6.5, highest
      metric first. */
  function UnderratedKitsu(kitsu: seq<KitsuItem>): seq<Cand> {
    SortByMetric(Filter(Map(kitsu, KitsuCand), (c: Cand) => c.score.Some? && c.score.value >= MIN_SCORE))
  }

  /** The underrated Jikan candidates: of the first eight, those with a
      score of at least 6.5 and a metric above 20. */
  function UnderratedJikan(jikan: seq<JikanItem>): seq<Cand> {
    Filter(JikanHead(jikan), (c: Cand) => c.score.Some? && c.score.value >= MIN_SCORE && c.metric > MIN_JIKAN_METRIC)
  }

  /** The underrated selection: titles compared in both phases; Jikan only
      while fewer than five are held. */
  function UnderratedPicks(kitsu: seq<KitsuItem>, jikan: Option<seq<JikanItem>>, check: string -> string): seq<Pick> {
    var first := Batches([], UnderratedKitsu(kitsu), 0, check, true).0;
    if |first| < CAP && jikan.Some? then Batches(first, UnderratedJikan(jikan.value), 0, check, true).0 else first
  }

  /** `fetchUnderratedAnime()`'s results; `None` stands for a failed fetch. */
  method FetchUnderrated(kitsu: Option<seq<KitsuItem>>, jikan: Option<seq<JikanItem>>, check: string -> string)
    returns (results: seq<Pick>)
    ensures kitsu.None? ==> results == []
    ensures kitsu.Some? ==> results == Reindexed(UnderratedPicks(kitsu.value, jikan, check))
  {
    if kitsu.None? {
      return [];
    }
    var scored := UnderratedKitsu(kitsu.value);
    var picks, existing, _ := RunBatches([], {}, scored, check, true);
    if |picks| < CAP && jikan.Some? {
      var checked;
      picks, existing, checked := RunBatches(picks, existing, UnderratedJikan(jikan.value), check, true);
    }
    results := Reindexed(picks);
  }

  /** What the underrated list promises: at most five entries numbered
      1..n, all available, pairwise different in lower case. */
  lemma UnderratedChosen(kitsu: seq<KitsuItem>, jikan: Option<seq<JikanItem>>, check: string -> string)
    ensures var out := UnderratedPicks(kitsu, jikan, check);
      Chosen(out) &&
      (forall k :: 0 <= k < |out| ==> check(out[k].title) == AVAILABLE) &&
      (forall k, l :: 0 <= l < k < |out| ==> Lower(out[k].title) != Lower(out[l].title))
  {
    DedupPhaseKeeps([], UnderratedKitsu(kitsu), check);
    var first := Batches([], UnderratedKitsu(kitsu), 0, check, true).0;
    if |first| < CAP && jikan.Some? {
      DedupPhaseKeeps(first, UnderratedJikan(jikan.value), check);
    }
  }

  /** Every entry is available and no two share a lower-case title. */
  predicate DistinctAvailable(picks: seq<Pick>, check: string -> string) {
    (forall k :: 0 <= k < |picks| ==> check(picks[k].title) == AVAILABLE) &&
    (forall k, l :: 0 <= l < k < |picks| ==> Lower(picks[k].title) != Lower(picks[l].title))
  }

  /** A batch loop that compares titles keeps the chosen entries available
      and pairwise different. */
  lemma DedupPhaseKeeps(picks: seq<Pick>, cs: seq<Cand>, check: string -> string)
    requires Chosen(picks) && DistinctAvailable(picks, check)
    ensures var out := Batches(picks, cs, 0, check, true).0;
      Chosen(out) && DistinctAvailable(out, check)
  {
    BatchesAgree(picks, cs, 0, check, true);
    assert cs[0..] == cs;
    SelectChosen(picks, cs, check, true);
    SelectDistinct(picks, cs, check);
    var out := Select(picks, cs, check, true);
    forall k | 0 <= k < |out| ensures check(out[k].title) == AVAILABLE {
      if k < |picks| {
        assert out[k] == picks[k];
      }
    }
    forall k, l | 0 <= l < k < |out| ensures Lower(out[k].title) != Lower(out[l].title) {
      if k < |picks| {
        assert out[k] == picks[k] && out[l] == picks[l];
      }
    }
  }

  // ------------------------------------------------------------ the sort

  /** `(b.metric || 0) - (a.metric || 0)` as an order: highest metric first. */
  predicate ByMetric(cs: seq<Cand>) {
    forall k, l :: 0 <= k < l < |cs| ==> cs[k].metric >= cs[l].metric
  }

  /** Inserting before the first candidate whose metric is not higher, so
      that ties keep their order. */
  function InsertByMetric(c: Cand, cs: seq<Cand>): (r: seq<Cand>)
    ensures multiset(r) == multiset(cs) + multiset{c}
    ensures |r| == |cs| + 1
    ensures forall k :: 0 <= k < |r| ==> r[k] == c || r[k] in cs
    decreases |cs|
  {
    if cs == [] || cs[0].metric <= c.metric then [c] + cs
    else
      assert cs == [cs[0]] + cs[1..];
      [cs[0]] + InsertByMetric(c, cs[1..])
  }

  lemma {:induction false} InsertKeepsOrder(c: Cand, cs: seq<Cand>)
    requires ByMetric(cs)
    ensures ByMetric(InsertByMetric(c, cs))
    decreases |cs|
  {
    if cs != [] && cs[0].metric > c.metric {
      InsertKeepsOrder(c, cs[1..]);
      var rest := InsertByMetric(c, cs[1..]);
      forall k | 0 <= k < |rest| ensures rest[k].metric <= cs[0].metric {
        if rest[k] != c {
          var j :| 0 <= j < |cs[1..]| && cs[1..][j] == rest[k];
          assert cs[j + 1] == rest[k];
        }
      }
    }
  }

  /** `scoredCandidates.sort(…)`: the same candidates, highest metric first. */
  function SortByMetric(cs: seq<Cand>): (r: seq<Cand>)
    ensures multiset(r) == multiset(cs)
    ensures ByMetric(r)
  {
    if cs == [] then [] else
      assert cs == [cs[0]] + cs[1..];
      InsertKeepsOrder(cs[0], SortByMetric(cs[1..]));
      InsertByMetric(cs[0], SortByMetric(cs[1..]))
  }
}
