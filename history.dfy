/** The alert list as displayed (frontend/src/components/LogHistory.tsx): the
    records are deduplicated by index through a `Map` that keeps the first
    record seen for each index, the Map's values are reversed, and the first
    50 are shown. */
module History {
  import opened Alert
  import Reconciler

  /** At most this many cards are shown. */
  const DisplayLimit: nat := 50

  function Min(a: nat, b: nat): nat {
    if a <= b then a else b
  }

  /** Record `k` is the first in `s` with its index. */
  predicate IsFirst(s: seq<Request>, k: int) {
    0 <= k < |s| && forall j :: 0 <= j < k ==> s[j].index != s[k].index
  }

  /** The values the Map holds after the loop, in insertion order: each record
      whose index has not appeared earlier in the list. */
  function Firsts(s: seq<Request>): seq<Request>
    decreases |s|
  {
    if s == [] then []
    else if s[|s| - 1].index in Indices(s[..|s| - 1]) then Firsts(s[..|s| - 1])
    else Firsts(s[..|s| - 1]) + [s[|s| - 1]]
  }

  /** One more record is kept exactly when its index is new. */
  lemma FirstsSnoc(s: seq<Request>, r: Request)
    ensures Firsts(s + [r]) == if r.index in Indices(s) then Firsts(s) else Firsts(s) + [r]
    ensures Indices(s + [r]) == Indices(s) + {r.index}
  {
    assert (s + [r])[..|s|] == s;
    IndicesAppend(s, [r]);
  }

  /** The same step on a prefix of the list. */
  lemma FirstsStep(s: seq<Request>, i: nat)
    requires i < |s|
    ensures Firsts(s[..i + 1]) == if s[i].index in Indices(s[..i]) then Firsts(s[..i]) else Firsts(s[..i]) + [s[i]]
    ensures Indices(s[..i + 1]) == Indices(s[..i]) + {s[i].index}
  {
    assert s[..i + 1] == s[..i] + [s[i]];
    FirstsSnoc(s[..i], s[i]);
  }

  /** The Map has a key for every index of the list, and no other. */
  lemma {:induction false} FirstsIndices(s: seq<Request>)
    ensures Indices(Firsts(s)) == Indices(s)
    decreases |s|
  {
    if s != [] {
      var init, last := s[..|s| - 1], s[|s| - 1];
      FirstsIndices(init);
      assert s == init + [last];
      FirstsSnoc(init, last);
      IndicesAppend(Firsts(init), [last]);
    }
  }

  /** The Map's values have distinct indices. */
  lemma {:induction false} FirstsUnique(s: seq<Request>)
    ensures UniqueIndices(Firsts(s))
    decreases |s|
  {
    if s != [] {
      var init, last := s[..|s| - 1], s[|s| - 1];
      FirstsUnique(init);
      FirstsIndices(init);
      var p := Firsts(init);
      if last.index !in Indices(init) {
        var r := p + [last];
        forall j, k | 0 <= j < k < |r| ensures r[j].index != r[k].index {
          if k == |p| {
            assert r[j] == p[j];
            assert p[j].index in Indices(p);
          } else {
            assert r[j] == p[j] && r[k] == p[k];
          }
        }
      }
    }
  }

  /** The Map's values are records of the list. */
  lemma {:induction false} FirstsFromList(s: seq<Request>, x: Request)
    requires x in Firsts(s)
    ensures x in s
    decreases |s|
  {
    var init := s[..|s| - 1];
    if x in Firsts(init) {
      FirstsFromList(init, x);
    }
  }

  /** The record the Map keeps for an index is the first one with that index. */
  lemma {:induction false} FirstsKeepsFirst(s: seq<Request>, k: int)
    requires IsFirst(s, k)
    ensures s[k] in Firsts(s)
    decreases |s|
  {
    var init := s[..|s| - 1];
    if k < |s| - 1 {
      assert IsFirst(init, k);
      FirstsKeepsFirst(init, k);
    } else {
      assert s[k].index !in Indices(init) by {
        forall j | 0 <= j < |init| ensures init[j].index != s[k].index {
          assert init[j] == s[j];
        }
        HasIndex(init, s[k].index);
      }
    }
  }

  /** Every record the Map keeps is the first in the list with its index. */
  lemma {:induction false} FirstsOnlyFirst(s: seq<Request>, x: Request)
    requires x in Firsts(s)
    ensures exists k :: IsFirst(s, k) && s[k] == x
    decreases |s|
  {
    var init := s[..|s| - 1];
    var last := s[|s| - 1];
    assert s == init + [last];
    FirstsSnoc(init, last);
    if x in Firsts(init) {
      FirstsOnlyFirst(init, x);
      var k :| IsFirst(init, k) && init[k] == x;
      forall j | 0 <= j < k ensures s[j].index != s[k].index {
        assert s[j] == init[j] && s[k] == init[k];
      }
      assert IsFirst(s, k);
    } else {
      assert x == last && last.index !in Indices(init);
      forall j | 0 <= j < |s| - 1 ensures s[j].index != last.index {
        assert init[j] == s[j];
      }
      assert IsFirst(s, |s| - 1);
    }
  }

  /** A list without repeated indices has as many indices as records. */
  lemma {:induction false} UniqueCount(t: seq<Request>)
    requires UniqueIndices(t)
    ensures |Indices(t)| == |t|
    decreases |t|
  {
    if t != [] {
      UniqueCount(t[1..]);
      assert t[0].index !in Indices(t[1..]) by {
        forall k | 0 <= k < |t[1..]| ensures t[1..][k].index != t[0].index {
          assert t[1..][k] == t[k + 1];
        }
        HasIndex(t[1..], t[0].index);
      }
    }
  }

  /** The Map holds one record per distinct index. */
  lemma FirstsCount(s: seq<Request>)
    ensures |Firsts(s)| == |Indices(s)|
  {
    FirstsUnique(s);
    FirstsIndices(s);
    UniqueCount(Firsts(s));
  }

  /** A list without repeated indices passes the Map unchanged. */
  lemma {:induction false} FirstsOfUnique(s: seq<Request>)
    requires UniqueIndices(s)
    ensures Firsts(s) == s
    decreases |s|
  {
    if s != [] {
      var init := s[..|s| - 1];
      FirstsOfUnique(init);
      assert s[|s| - 1].index !in Indices(init) by {
        forall j | 0 <= j < |init| ensures init[j].index != s[|s| - 1].index {
          assert init[j] == s[j];
        }
        HasIndex(init, s[|s| - 1].index);
      }
      assert s == init + [s[|s| - 1]];
    }
  }

  /** `reverse()`. */
  function Reverse(s: seq<Request>): (r: seq<Request>)
    ensures |r| == |s| && forall k :: 0 <= k < |s| ==> r[k] == s[|s| - 1 - k]
  {
    seq(|s|, k requires 0 <= k < |s| => s[|s| - 1 - k])
  }

  /** Reversing twice gives the list back, and reversal is a permutation. */
  lemma {:induction false} ReverseInvolutive(s: seq<Request>)
    ensures Reverse(Reverse(s)) == s
    ensures multiset(Reverse(s)) == multiset(s)
  {
    if s != [] {
      var n := |s|;
      ReverseInvolutive(s[..n - 1]);
      assert Reverse(s) == [s[n - 1]] + Reverse(s[..n - 1]);
      assert s == s[..n - 1] + [s[n - 1]];
    }
  }

  /** Reversal keeps the records and their distinct indices. */
  lemma ReverseKeeps(s: seq<Request>)
    ensures forall x :: x in Reverse(s) <==> x in s
    ensures UniqueIndices(s) ==> UniqueIndices(Reverse(s))
  {
    var r := Reverse(s);
    forall x | x in s ensures x in r {
      var k :| 0 <= k < |s| && s[k] == x;
      assert r[|s| - 1 - k] == x;
    }
    if UniqueIndices(s) {
      forall j, k | 0 <= j < k < |r| ensures r[j].index != r[k].index {
        assert r[j] == s[|s| - 1 - j] && r[k] == s[|s| - 1 - k];
      }
    }
  }

  /** The displayed list, as the component computes it. */
  function View(requests: seq<Request>): seq<Request> {
    var rev := Reverse(Firsts(requests));
    rev[..Min(DisplayLimit, |rev|)]
  }

  /** The effect that computes the displayed list: the `forEach` loop fills
      the Map, then the values are reversed and cut at 50. */
  method DisplayedRequests(requests: seq<Request>) returns (shown: seq<Request>)
    ensures shown == View(requests)
  {
    var seen: set<int> := {};
    var values: seq<Request> := [];
    var i := 0;
    while i < |requests|
      invariant 0 <= i <= |requests|
      invariant values == Firsts(requests[..i])
      invariant seen == Indices(requests[..i])
    {
      var r := requests[i];
      FirstsStep(requests, i);
      if r.index !in seen {
        values := values + [r];
        seen := seen + {r.index};
      }
      i := i + 1;
    }
    assert requests[..|requests|] == requests;
    var rev := Reverse(values);
    shown := rev[..Min(DisplayLimit, |rev|)];
  }

  /** No two cards share an index; each card is the first record in the list
      with its index; there are min(50, distinct indices) cards. */
  lemma ViewProperties(requests: seq<Request>, x: Request)
    ensures UniqueIndices(View(requests))
    ensures |View(requests)| == Min(DisplayLimit, |Indices(requests)|)
    ensures x in View(requests) ==> x in requests && exists k :: IsFirst(requests, k) && requests[k] == x
  {
    var f := Firsts(requests);
    FirstsUnique(requests);
    ReverseKeeps(f);
    FirstsCount(requests);
    var v := View(requests);
    var rev := Reverse(f);
    assert v == rev[..|v|];
    forall j, k | 0 <= j < k < |v| ensures v[j].index != v[k].index {
      assert v[j] == rev[j] && v[k] == rev[k];
    }
    if x in v {
      var k :| 0 <= k < |v| && v[k] == x;
      assert rev[k] == x;
      assert x in f;
      FirstsFromList(requests, x);
      FirstsOnlyFirst(requests, x);
    }
  }

  /** An empty list shows the empty-state message; any record shows a card. */
  lemma ViewEmpty(requests: seq<Request>)
    ensures View(requests) == [] <==> requests == []
  {
    if requests != [] {
      assert requests[0].index in Indices(requests);
      FirstsCount(requests);
    }
  }

  /** Of two records with one index, the earlier one is displayed, whatever
      the comment above the loop says. */
  lemma EarlierDuplicateWins(a: Request, b: Request)
    requires a.index == b.index
    ensures View([a, b]) == [a]
  {
    assert [a, b][..1] == [a];
    assert Firsts([a]) == [a];
  }

  /** Live alerts are put in front of the list, so the reversal puts the
      oldest first: once 50 alerts are listed, a new one is not displayed. */
  lemma NewestAlertHidden(prev: seq<Request>, req: Request)
    requires UniqueIndices(prev) && |prev| == DisplayLimit
    requires req.index !in Indices(prev)
    ensures req !in View(Reconciler.Accept(prev, req))
  {
    var s := Reconciler.Accept(prev, req);
    assert s == [req] + prev;
    assert UniqueIndices(s);
    FirstsOfUnique(s);
    var rev := Reverse(s);
    assert View(s) == rev[..DisplayLimit];
    forall k | 0 <= k < DisplayLimit ensures rev[k] != req {
      assert rev[k] == s[DisplayLimit - k] == prev[DisplayLimit - k - 1];
    }
  }

  /** The display as the comments describe it: latest first. The list
      already holds live alerts newest first, so no reversal is needed. */
  function ViewLatestFirst(requests: seq<Request>): seq<Request> {
    var f := Firsts(requests);
    f[..Min(DisplayLimit, |f|)]
  }

  /** The first record of a list is always kept, at the front. */
  lemma {:induction false} FirstsHead(s: seq<Request>)
    requires s != []
    ensures |Firsts(s)| >= 1 && Firsts(s)[0] == s[0]
    decreases |s|
  {
    var init := s[..|s| - 1];
    if init != [] {
      FirstsHead(init);
      assert init[0] == s[0];
    }
  }

  /** With the latest-first display, a new alert is always the first card. */
  lemma NewestAlertShown(prev: seq<Request>, req: Request)
    requires req.index !in Indices(prev)
    ensures |ViewLatestFirst(Reconciler.Accept(prev, req))| >= 1
    ensures ViewLatestFirst(Reconciler.Accept(prev, req))[0] == req
  {
    FirstsHead(Reconciler.Accept(prev, req));
  }
}
