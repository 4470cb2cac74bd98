/** The "seen set" deduplication that the scrapers run over their item lists:
    walk the list once, drop what fails a filter, keep the first element of
    each key and remember its key.  The homepage merge, the cross-site
    section merge, the ongoing and recently-updated widgets and the
    recent-updates route all use it with their own filter and key. */
module Dedup {
  import opened Text

  /** `((href || '') + '::' + (title || '')).toLowerCase()`, the key of the
      widget and route filters; '' stands for a missing field. */
  function HrefTitleKey(href: string, title: string): (k: string)
    ensures |k| == |href| + 2 + |title|
    ensures k[|href|..|href| + 2] == "::"
  {
    Lower(href + "::" + title)
  }

  /** Items with the same href and title up to ASCII case share a key. */
  lemma {:induction false} HrefTitleKeyIgnoresCase(h1: string, t1: string, h2: string, t2: string)
    requires Lower(h1) == Lower(h2) && Lower(t1) == Lower(t2)
    ensures HrefTitleKey(h1, t1) == HrefTitleKey(h2, t2)
  {
    LowerAppend(h1, "::" + t1);
    LowerAppend("::", t1);
    LowerAppend(h2, "::" + t2);
    LowerAppend("::", t2);
  }

  /** What the loop produces when it starts with the keys in `seen` already used. */
  function FirstByKey<T, K>(items: seq<T>, keep: T -> bool, key: T -> K, seen: set<K>): seq<T>
    decreases |items|
  {
    if items == [] then []
    else if !keep(items[0]) || key(items[0]) in seen then FirstByKey(items[1..], keep, key, seen)
    else [items[0]] + FirstByKey(items[1..], keep, key, seen + {key(items[0])})
  }

  /** `sub` is `s` with some elements left out, the rest in their original order. */
  ghost predicate IsSubsequence<T>(sub: seq<T>, s: seq<T>)
    decreases |s|
  {
    if sub == [] then true
    else if s == [] then false
    else if sub[0] == s[0] then IsSubsequence(sub[1..], s[1..])
    else IsSubsequence(sub, s[1..])
  }

  /** The loop of the source: `for (const it of items) { if (!keep) continue;
      if (!seen.has(k)) { seen.add(k); out.push(it) } }`. */
  method DedupLoop<T, K(==)>(items: seq<T>, keep: T -> bool, key: T -> K) returns (out: seq<T>)
    ensures out == FirstByKey(items, keep, key, {})
  {
    var seen: set<K> := {};
    out := [];
    var i := 0;
    while i < |items|
      invariant 0 <= i <= |items|
      invariant out + FirstByKey(items[i..], keep, key, seen) == FirstByKey(items, keep, key, {})
    {
      var it := items[i];
      assert items[i..][1..] == items[i + 1..];
      if keep(it) && key(it) !in seen {
        seen := seen + {key(it)};
        out := out + [it];
      }
      i := i + 1;
    }
  }

  lemma {:induction false} FirstByKeyIsSubsequence<T, K>(items: seq<T>, keep: T -> bool, key: T -> K, seen: set<K>)
    ensures IsSubsequence(FirstByKey(items, keep, key, seen), items)
    decreases |items|
  {
    if items != [] {
      var rest := items[1..];
      if !keep(items[0]) || key(items[0]) in seen {
        FirstByKeyIsSubsequence(rest, keep, key, seen);
        SubsequenceOfTail(FirstByKey(rest, keep, key, seen), items);
      } else {
        FirstByKeyIsSubsequence(rest, keep, key, seen + {key(items[0])});
      }
    }
  }

  lemma {:induction false} SubsequenceOfTail<T>(sub: seq<T>, s: seq<T>)
    requires s != [] && IsSubsequence(sub, s[1..])
    ensures IsSubsequence(sub, s)
    decreases |sub| + |s|
  {
    if sub != [] && sub[0] == s[0] {
      SubsequenceDropHead(sub, s[1..]);
    }
  }

  lemma {:induction false} SubsequenceDropHead<T>(sub: seq<T>, t: seq<T>)
    requires sub != [] && IsSubsequence(sub, t)
    ensures IsSubsequence(sub[1..], t)
    decreases |sub| + |t|
  {
    if sub[0] == t[0] {
      SubsequenceOfTail(sub[1..], t);
    } else {
      SubsequenceDropHead(sub, t[1..]);
      SubsequenceOfTail(sub[1..], t);
    }
  }

  /** Every kept element passes the filter, carries a key not in `seen`, and
      no two kept elements share a key. */
  lemma {:induction false} FirstByKeyDistinct<T, K>(items: seq<T>, keep: T -> bool, key: T -> K, seen: set<K>)
    ensures forall i :: 0 <= i < |FirstByKey(items, keep, key, seen)| ==>
      keep(FirstByKey(items, keep, key, seen)[i]) && key(FirstByKey(items, keep, key, seen)[i]) !in seen
    ensures forall i, j :: 0 <= i < j < |FirstByKey(items, keep, key, seen)| ==>
      key(FirstByKey(items, keep, key, seen)[i]) != key(FirstByKey(items, keep, key, seen)[j])
    decreases |items|
  {
    var out := FirstByKey(items, keep, key, seen);
    if items != [] {
      var rest := items[1..];
      if !keep(items[0]) || key(items[0]) in seen {
        FirstByKeyDistinct(rest, keep, key, seen);
        assert out == FirstByKey(rest, keep, key, seen);
      } else {
        var k0 := key(items[0]);
        FirstByKeyDistinct(rest, keep, key, seen + {k0});
        var tail := FirstByKey(rest, keep, key, seen + {k0});
        assert out == [items[0]] + tail;
        forall i | 0 <= i < |out| ensures keep(out[i]) && key(out[i]) !in seen {
          if i > 0 { assert out[i] == tail[i - 1]; }
        }
        forall i, j | 0 <= i < j < |out| ensures key(out[i]) != key(out[j]) {
          assert out[j] == tail[j - 1];
          if i > 0 { assert out[i] == tail[i - 1]; }
        }
      }
    }
  }

  /** First occurrence wins: for every element that passes the filter and
      whose key is new, the output holds an element with that key that occurs
      in the input at or before it. */
  lemma {:induction false} FirstByKeyKeepsFirst<T, K>(items: seq<T>, keep: T -> bool, key: T -> K, seen: set<K>, i: nat)
    requires i < |items| && keep(items[i]) && key(items[i]) !in seen
    ensures exists j :: 0 <= j <= i && items[j] in FirstByKey(items, keep, key, seen) && key(items[j]) == key(items[i])
    decreases |items|
  {
    var out := FirstByKey(items, keep, key, seen);
    var rest := items[1..];
    if keep(items[0]) && key(items[0]) !in seen {
      assert items[0] in out;
      if key(items[0]) != key(items[i]) {
        FirstByKeyKeepsFirst(rest, keep, key, seen + {key(items[0])}, i - 1);
        var j :| 0 <= j <= i - 1 && rest[j] in FirstByKey(rest, keep, key, seen + {key(items[0])}) && key(rest[j]) == key(rest[i - 1]);
        assert items[j + 1] == rest[j];
      }
    } else {
      assert i > 0;
      FirstByKeyKeepsFirst(rest, keep, key, seen, i - 1);
      var j :| 0 <= j <= i - 1 && rest[j] in FirstByKey(rest, keep, key, seen) && key(rest[j]) == key(rest[i - 1]);
      assert items[j + 1] == rest[j];
    }
  }

  /** Nothing is invented: each kept element is one of the inputs. */
  lemma {:induction false} FirstByKeyFromInput<T, K>(items: seq<T>, keep: T -> bool, key: T -> K, seen: set<K>)
    ensures forall x :: x in FirstByKey(items, keep, key, seen) ==> x in items
    decreases |items|
  {
    if items != [] {
      if !keep(items[0]) || key(items[0]) in seen {
        FirstByKeyFromInput(items[1..], keep, key, seen);
      } else {
        FirstByKeyFromInput(items[1..], keep, key, seen + {key(items[0])});
      }
    }
  }

  lemma {:induction false} FirstByKeyLength<T, K>(items: seq<T>, keep: T -> bool, key: T -> K, seen: set<K>)
    ensures |FirstByKey(items, keep, key, seen)| <= |items|
    decreases |items|
  {
    if items != [] {
      if !keep(items[0]) || key(items[0]) in seen {
        FirstByKeyLength(items[1..], keep, key, seen);
      } else {
        FirstByKeyLength(items[1..], keep, key, seen + {key(items[0])});
      }
    }
  }

  /** The keys the loop has marked as seen once it has gone through `items`. */
  function SeenAfter<T, K>(items: seq<T>, keep: T -> bool, key: T -> K, seen: set<K>): (r: set<K>)
    ensures seen <= r
    ensures forall i :: 0 <= i < |items| && keep(items[i]) ==> key(items[i]) in r
    decreases |items|
  {
    if items == [] then seen
    else SeenAfter(items[1..], keep, key, if keep(items[0]) then seen + {key(items[0])} else seen)
  }

  /** Filtering a concatenation filters the first part, then the second part
      with every key of the first part already seen. */
  lemma {:induction false} FirstByKeyAppend<T, K>(xs: seq<T>, ys: seq<T>, keep: T -> bool, key: T -> K, seen: set<K>)
    ensures FirstByKey(xs + ys, keep, key, seen) ==
      FirstByKey(xs, keep, key, seen) + FirstByKey(ys, keep, key, SeenAfter(xs, keep, key, seen))
    decreases |xs|
  {
    if xs == [] {
      assert xs + ys == ys;
    } else {
      assert (xs + ys)[0] == xs[0];
      assert (xs + ys)[1..] == xs[1..] + ys;
      if !keep(xs[0]) || key(xs[0]) in seen {
        if keep(xs[0]) {
          assert seen + {key(xs[0])} == seen;
        }
        FirstByKeyAppend(xs[1..], ys, keep, key, seen);
      } else {
        FirstByKeyAppend(xs[1..], ys, keep, key, seen + {key(xs[0])});
      }
    }
  }

  /** `list.slice(0, n)`. */
  function Take<T>(s: seq<T>, n: nat): (r: seq<T>)
    ensures |r| <= n && |r| <= |s| && r == s[..|r|]
    ensures |s| <= n ==> r == s
  {
    if |s| <= n then s else s[..n]
  }
}
