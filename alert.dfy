/** The alert record exchanged between the watcher and the dashboard, and the
    messages of the JSON-framed feed, one constructor per `type` tag. */
module Alert {
  import opened Text

  /** A timestamp as it travels: ISO-8601 text off the wire, or a `Date`
      (milliseconds since the epoch) once the client has converted it. */
  datatype Timestamp = IsoText(text: string) | Date(millis: int)

  /** One alert. `kind` is the record's `type` field (its category label);
      `rawLog` is the optional raw line the client reads for enrichment. */
  datatype Request = Request(
    index: int,
    firewallId: string,
    timestamp: Timestamp,
    bugType: Option<string>,
    severity: string,
    explanation: Option<string>,
    kind: string,
    fixProposal: Option<string>,
    rawLog: Option<string>)

  /** The payload of an outbound `apply_fix`. */
  datatype FixRequest = FixRequest(
    requestIndex: int,
    firewallId: string,
    bugType: Option<string>,
    fixProposal: Option<string>)

  /** A decoded feed message. `None` payloads stand for an absent `data`
      (or an absent `request_index` / `firewall_id` inside it). */
  datatype Message =
    | NewRequest(request: Option<Request>)
    | AllLogsResponse(logs: Option<seq<Request>>)
    | AllLogsError
    | FixApplied(appliedIndex: Option<int>, appliedFirewall: Option<string>)
    | FixError(failedIndex: Option<int>)
    | ApplyFix(fix: FixRequest)
    | GetAllLogs
    | Unrecognised(tag: string)

  /** The set of indices present in a list of records. */
  function Indices(s: seq<Request>): (r: set<int>)
    ensures forall k :: 0 <= k < |s| ==> s[k].index in r
  {
    if s == [] then {} else {s[0].index} + Indices(s[1..])
  }

  /** The indices of a concatenation are those of both parts. */
  lemma {:induction false} IndicesAppend(a: seq<Request>, b: seq<Request>)
    ensures Indices(a + b) == Indices(a) + Indices(b)
  {
    if a == [] {
      assert a + b == b;
    } else {
      assert (a + b)[0] == a[0] && (a + b)[1..] == a[1..] + b;
      IndicesAppend(a[1..], b);
    }
  }

  /** Two lists with the same index at every position have the same indices. */
  lemma {:induction false} IndicesPointwise(a: seq<Request>, b: seq<Request>)
    requires |a| == |b| && forall k :: 0 <= k < |a| ==> a[k].index == b[k].index
    ensures Indices(a) == Indices(b)
  {
    if a != [] {
      IndicesPointwise(a[1..], b[1..]);
    }
  }

  /** Some record of the list has index `i` (`s.some(r => r.index === i)`). */
  predicate Has(s: seq<Request>, i: int) {
    exists k :: 0 <= k < |s| && s[k].index == i
  }

  /** An index is present exactly when some record carries it. */
  lemma {:induction false} HasIndex(s: seq<Request>, i: int)
    ensures i in Indices(s) <==> Has(s, i)
  {
    if s != [] {
      HasIndex(s[1..], i);
      if Has(s[1..], i) {
        var k :| 0 <= k < |s[1..]| && s[1..][k].index == i;
        assert s[k + 1].index == i;
      }
      if Has(s, i) && s[0].index != i {
        var k :| 0 <= k < |s| && s[k].index == i;
        assert s[1..][k - 1].index == i;
      }
    }
  }

  /** No two records of the list share an index. */
  predicate UniqueIndices(s: seq<Request>) {
    forall j, k :: 0 <= j < k < |s| ==> s[j].index != s[k].index
  }
}
