/** The statistics panels: the severity counts of
    frontend/src/components/LogStats.tsx and frontend/src/components/Analytics.tsx,
    and the per-bug-type counts with their top six of Analytics.tsx. */
module Stats {
  import opened Text
  import opened Alert

  const High: string := "élevé"
  const Medium: string := "moyen"
  const Low: string := "faible"

  /** `requests.filter(r => r.severity.toLowerCase() === level).length`. */
  function CountSeverity(s: seq<Request>, level: string): (n: nat)
    ensures n <= |s|
  {
    if s == [] then 0
    else CountSeverity(s[..|s| - 1], level) + (if Lower(s[|s| - 1].severity) == level then 1 else 0)
  }

  /** The four figures of the panel. */
  datatype SeverityStats = SeverityStats(total: nat, high: nat, medium: nat, low: nat)

  function Summary(s: seq<Request>): (st: SeverityStats)
    ensures st.total == |s|
    ensures st.high <= st.total && st.medium <= st.total && st.low <= st.total
  {
    SeverityStats(|s|, CountSeverity(s, High), CountSeverity(s, Medium), CountSeverity(s, Low))
  }

  /** No record is counted twice: the three counts add up to at most the
      total. */
  lemma {:induction false} CountsBounded(s: seq<Request>)
    ensures CountSeverity(s, High) + CountSeverity(s, Medium) + CountSeverity(s, Low) <= |s|
    decreases |s|
  {
    if s != [] {
      CountsBounded(s[..|s| - 1]);
    }
  }

  /** Adding one record raises exactly the count of its lower-cased
      severity. */
  lemma AppendCounts(s: seq<Request>, r: Request, level: string)
    ensures CountSeverity(s + [r], level) == CountSeverity(s, level) + (if Lower(r.severity) == level then 1 else 0)
  {
    assert (s + [r])[..|s|] == s;
  }

  /** Appending a high-severity record raises `high` by one and leaves the
      other two counts alone. */
  lemma AppendHigh(s: seq<Request>, r: Request)
    requires Lower(r.severity) == High
    ensures Summary(s + [r]).high == Summary(s).high + 1
    ensures Summary(s + [r]).medium == Summary(s).medium
    ensures Summary(s + [r]).low == Summary(s).low
    ensures Summary(s + [r]).total == Summary(s).total + 1
  {
    AppendCounts(s, r, High);
    AppendCounts(s, r, Medium);
    AppendCounts(s, r, Low);
  }

  /** The key a record is counted under: its bug type, or "unknown" when the
      bug type is falsy. */
  function TypeKey(r: Request): string {
    if Truthy(r.bugType) then r.bugType.value else "unknown"
  }

  /** Number of records counted under `key`. */
  function CountKey(s: seq<Request>, key: string): (n: nat)
    ensures n <= |s|
  {
    if s == [] then 0
    else CountKey(s[..|s| - 1], key) + (if TypeKey(s[|s| - 1]) == key then 1 else 0)
  }

  /** The keys of the accumulator object, in insertion order. */
  function Keys(s: seq<Request>): seq<string>
  {
    if s == [] then []
    else
      var init := Keys(s[..|s| - 1]);
      if TypeKey(s[|s| - 1]) in init then init else init + [TypeKey(s[|s| - 1])]
  }

  predicate DistinctKeys(keys: seq<string>) {
    forall j, k :: 0 <= j < k < |keys| ==> keys[j] != keys[k]
  }

  /** The keys are those of the records, each once; a key is present exactly
      when some record is counted under it. */
  lemma {:induction false} KeysProperties(s: seq<Request>)
    ensures DistinctKeys(Keys(s))
    ensures forall key :: key in Keys(s) <==> CountKey(s, key) > 0
    decreases |s|
  {
    if s != [] {
      var init := s[..|s| - 1];
      KeysProperties(init);
      var p := Keys(init);
      var t := TypeKey(s[|s| - 1]);
      if t !in p {
        var q := p + [t];
        forall j, k | 0 <= j < k < |q| ensures q[j] != q[k] {
          if k == |p| {
            assert q[j] == p[j];
          } else {
            assert q[j] == p[j] && q[k] == p[k];
          }
        }
      }
    }
  }

  /** The counting `reduce`: the accumulator object is a map updated in
      place, its keys recorded in insertion order. */
  method AttackTypes(requests: seq<Request>) returns (keys: seq<string>, counts: map<string, nat>)
    ensures keys == Keys(requests)
    ensures counts.Keys == set k | k in keys
    ensures forall k :: k in counts ==> counts[k] == CountKey(requests, k)
  {
    keys := [];
    counts := map[];
    var i := 0;
    while i < |requests|
      invariant 0 <= i <= |requests|
      invariant keys == Keys(requests[..i])
      invariant counts.Keys == set k | k in keys
      invariant forall k :: k in counts ==> counts[k] == CountKey(requests[..i], k)
    {
      var t := TypeKey(requests[i]);
      assert requests[..i + 1][..i] == requests[..i];
      if t in counts {
        counts := counts[t := counts[t] + 1];
      } else {
        keys := keys + [t];
        counts := counts[t := 1];
        KeysProperties(requests[..i]);
      }
      i := i + 1;
    }
    assert requests[..|requests|] == requests;
  }

  /** One entry of `Object.entries(attackTypes)`. */
  datatype Entry = Entry(key: string, count: nat)

  /** The entries, in key insertion order. */
  function Entries(s: seq<Request>): (es: seq<Entry>)
    ensures |es| == |Keys(s)|
    ensures forall k :: 0 <= k < |es| ==> es[k] == Entry(Keys(s)[k], CountKey(s, Keys(s)[k]))
  {
    seq(|Keys(s)|, k requires 0 <= k < |Keys(s)| => Entry(Keys(s)[k], CountKey(s, Keys(s)[k])))
  }

  function SumCounts(es: seq<Entry>): nat {
    if es == [] then 0 else SumCounts(es[..|es| - 1]) + es[|es| - 1].count
  }

  /** The count of `key` in the list, summed over distinct keys. */
  function SumOver(keys: seq<string>, s: seq<Request>): nat {
    if keys == [] then 0 else SumOver(keys[..|keys| - 1], s) + CountKey(s, keys[|keys| - 1])
  }

  /** One more record adds one to the sum over the distinct keys that hold its
      key, and nothing to the others. */
  lemma {:induction false} SumOverAppend(keys: seq<string>, s: seq<Request>, r: Request)
    requires DistinctKeys(keys)
    ensures SumOver(keys, s + [r]) == SumOver(keys, s) + (if TypeKey(r) in keys then 1 else 0)
    decreases |keys|
  {
    assert (s + [r])[..|s|] == s;
    if keys != [] {
      var init := keys[..|keys| - 1];
      assert DistinctKeys(init) by {
        forall j, k | 0 <= j < k < |init| ensures init[j] != init[k] {
          assert init[j] == keys[j] && init[k] == keys[k];
        }
      }
      SumOverAppend(init, s, r);
      assert keys == init + [keys[|keys| - 1]];
      if TypeKey(r) == keys[|keys| - 1] {
        assert TypeKey(r) !in init by {
          forall j | 0 <= j < |init| ensures init[j] != TypeKey(r) {
            assert init[j] == keys[j];
          }
        }
      }
    }
  }

  /** Extending the keys adds the count of the new key. */
  lemma {:induction false} SumOverExtend(keys: seq<string>, s: seq<Request>, key: string)
    ensures SumOver(keys + [key], s) == SumOver(keys, s) + CountKey(s, key)
  {
    assert (keys + [key])[..|keys|] == keys;
  }

  /** The counts add up to the number of records. */
  lemma {:induction false} CountsSumToLength(s: seq<Request>)
    ensures SumOver(Keys(s), s) == |s|
    decreases |s|
  {
    if s != [] {
      var init, r := s[..|s| - 1], s[|s| - 1];
      assert s == init + [r];
      CountsSumToLength(init);
      KeysProperties(init);
      SumOverAppend(Keys(init), init, r);
      if TypeKey(r) !in Keys(init) {
        SumOverExtend(Keys(init), s, TypeKey(r));
        assert CountKey(init, TypeKey(r)) == 0;
      }
    }
  }

  /** The entries' counts add up to the number of records, and each is at
      least one. */
  lemma EntriesTotal(s: seq<Request>)
    ensures SumCounts(Entries(s)) == |s|
    ensures forall k :: 0 <= k < |Entries(s)| ==> Entries(s)[k].count >= 1
  {
    KeysProperties(s);
    CountsSumToLength(s);
    EntriesSum(Keys(s), s, Entries(s));
  }

  /** Summing the entries is summing over their keys. */
  lemma {:induction false} EntriesSum(keys: seq<string>, s: seq<Request>, es: seq<Entry>)
    requires |es| == |keys|
    requires forall k :: 0 <= k < |es| ==> es[k] == Entry(keys[k], CountKey(s, keys[k]))
    ensures SumCounts(es) == SumOver(keys, s)
    decreases |keys|
  {
    if keys != [] {
      EntriesSum(keys[..|keys| - 1], s, es[..|es| - 1]);
    }
  }

  predicate NonIncreasing(es: seq<Entry>) {
    forall j, k :: 0 <= j < k < |es| ==> es[j].count >= es[k].count
  }

  /** Inserting an entry before the first entry with a count no larger. */
  function Insert(e: Entry, es: seq<Entry>): (r: seq<Entry>)
    ensures |r| == |es| + 1
    ensures r[0] == e || (es != [] && r[0] == es[0])
  {
    if es == [] || es[0].count <= e.count then [e] + es
    else [es[0]] + Insert(e, es[1..])
  }

  /** Insertion adds exactly the entry. */
  lemma {:induction false} InsertPermutes(e: Entry, es: seq<Entry>)
    ensures multiset(Insert(e, es)) == multiset(es) + multiset{e}
    decreases |es|
  {
    if es != [] && es[0].count > e.count {
      assert es == [es[0]] + es[1..];
      InsertPermutes(e, es[1..]);
    }
  }

  /** Insertion into a non-increasing list keeps it non-increasing. */
  lemma {:induction false} InsertSorted(e: Entry, es: seq<Entry>)
    requires NonIncreasing(es)
    ensures NonIncreasing(Insert(e, es))
    decreases |es|
  {
    if es != [] && es[0].count > e.count {
      var tail := es[1..];
      InsertSorted(e, tail);
      var rest := Insert(e, tail);
      var r := [es[0]] + rest;
      assert Insert(e, es) == r;
      assert rest[0].count <= es[0].count;
      forall k | 0 < k < |r| ensures r[0].count >= r[k].count {
        assert r[k] == rest[k - 1];
      }
      forall j, k | 0 < j < k < |r| ensures r[j].count >= r[k].count {
        assert r[j] == rest[j - 1] && r[k] == rest[k - 1];
      }
    }
  }

  /** The sort by descending count. Entries with equal counts keep their
      order, as Array.prototype.sort is stable. */
  function SortByCount(es: seq<Entry>): seq<Entry>
  {
    if es == [] then [] else Insert(es[0], SortByCount(es[1..]))
  }

  /** The sort orders by count and keeps every entry. */
  lemma {:induction false} SortSorted(es: seq<Entry>)
    ensures NonIncreasing(SortByCount(es))
    ensures multiset(SortByCount(es)) == multiset(es)
    decreases |es|
  {
    if es != [] {
      SortSorted(es[1..]);
      InsertSorted(es[0], SortByCount(es[1..]));
      InsertPermutes(es[0], SortByCount(es[1..]));
      assert es == [es[0]] + es[1..];
    }
  }

  const TopCount: nat := 6

  /** `topAttacks`: the six largest counts. */
  function TopAttacks(s: seq<Request>): (top: seq<Entry>)
  {
    var sorted := SortByCount(Entries(s));
    sorted[..if |sorted| <= TopCount then |sorted| else TopCount]
  }

  /** At most six entries, each an entry of the counts, largest first, and
      none when there are no requests. */
  lemma TopAttacksProperties(s: seq<Request>)
    ensures |TopAttacks(s)| <= TopCount
    ensures |TopAttacks(s)| == if |Keys(s)| <= TopCount then |Keys(s)| else TopCount
    ensures forall x :: x in TopAttacks(s) ==> x in Entries(s)
    ensures NonIncreasing(TopAttacks(s))
    ensures TopAttacks(s) == [] <==> s == []
  {
    var sorted := SortByCount(Entries(s));
    SortSorted(Entries(s));
    var top := TopAttacks(s);
    assert |sorted| == |Entries(s)| by {
      assert |multiset(sorted)| == |multiset(Entries(s))|;
    }
    forall x | x in top ensures x in Entries(s) {
      assert x in sorted;
      assert x in multiset(sorted);
    }
    if s != [] {
      KeysProperties(s);
      assert CountKey(s, TypeKey(s[|s| - 1])) > 0;
    }
  }

  /** `Math.max(...counts, 1)`. */
  function MaxCount(top: seq<Entry>): (m: nat)
    ensures m >= 1
    ensures forall k :: 0 <= k < |top| ==> top[k].count <= m
    ensures m == 1 || exists k :: 0 <= k < |top| && top[k].count == m
  {
    if top == [] then 1
    else
      var rest := MaxCount(top[1..]);
      assert forall k :: 1 <= k < |top| ==> top[k] == top[1..][k - 1];
      if top[0].count >= rest then top[0].count else rest
  }

  /** With entries the maximum is the first, largest count. */
  lemma MaxIsFirst(s: seq<Request>)
    requires s != []
    ensures |TopAttacks(s)| >= 1 && MaxCount(TopAttacks(s)) == TopAttacks(s)[0].count
  {
    TopAttacksProperties(s);
    EntriesTotal(s);
    var top := TopAttacks(s);
    assert top[0] in Entries(s);
  }
}
