/** The dashboard's alert list (frontend/src/App.tsx): removal of a card,
    first-seen-wins acceptance of live alerts, the merge of a history reply,
    the enrichment each path applies, and the one-shot history subscription. */
module Reconciler {
  import opened Text
  import opened Alert
  import opened Enrichment
  import opened Transport

  /** What the enrichment call depends on: the configured key, the endpoint's
      reply to the request made for (raw log, bug type, severity), and the
      JSON reading of a reply. */
  datatype Config = Config(
    apiKey: Option<string>,
    reply: (string, string, string) -> Option<string>,
    parse: string -> Option<ParsedReply>)

  /** `await generateExplanation(rawLog, bugType, severity)`: both fields are
      non-empty, except on the fallback path for a bug type named like an
      inherited `Object.prototype` property, where both are undefined. */
  function Explain(cfg: Config, rawLog: string, bugType: string, severity: string): (e: Explanation)
    ensures bugType !in InheritedKeys ==> Truthy(e.explanation) && Truthy(e.fixProposal)
    ensures !Truthy(e.explanation) ==> bugType in InheritedKeys && e == Explanation(None, None)
  {
    GenerateExplanation(cfg.apiKey, cfg.reply(rawLog, bugType, severity), cfg.parse, bugType)
  }

  // ----- filtering by index -----

  /** The records whose index is not in `keys`, in their original order
      (`filter(r => r.index !== i)`, `filter(log => !existing.has(log.index))`). */
  function Exclude(s: seq<Request>, keys: set<int>): (r: seq<Request>)
    ensures forall x :: x in r <==> x in s && x.index !in keys
    ensures |r| <= |s|
    ensures (forall k :: 0 <= k < |s| ==> s[k].index !in keys) ==> r == s
  {
    if s == [] then []
    else
      var rest := Exclude(s[1..], keys);
      assert s == [s[0]] + s[1..];
      if s[0].index in keys then rest
      else
        assert ([s[0]] + rest)[1..] == rest;
        [s[0]] + rest
  }

  /** Filtering removes exactly the excluded indices. */
  lemma {:induction false} IndicesExclude(s: seq<Request>, keys: set<int>)
    ensures Indices(Exclude(s, keys)) == Indices(s) - keys
  {
    if s != [] {
      IndicesExclude(s[1..], keys);
      var rest := Exclude(s[1..], keys);
      if s[0].index !in keys {
        assert ([s[0]] + rest)[1..] == rest;
      }
    }
  }

  /** Filtering distributes over concatenation, so the kept records keep their order. */
  lemma {:induction false} ExcludeAppend(a: seq<Request>, b: seq<Request>, keys: set<int>)
    ensures Exclude(a + b, keys) == Exclude(a, keys) + Exclude(b, keys)
  {
    if a == [] {
      assert a + b == b;
    } else {
      assert (a + b)[0] == a[0] && (a + b)[1..] == a[1..] + b;
      ExcludeAppend(a[1..], b, keys);
      if a[0].index !in keys {
        calc {
          Exclude(a + b, keys);
          [a[0]] + Exclude(a[1..] + b, keys);
          [a[0]] + (Exclude(a[1..], keys) + Exclude(b, keys));
          ([a[0]] + Exclude(a[1..], keys)) + Exclude(b, keys);
        }
      }
    }
  }

  /** Filtering keeps distinct indices distinct. */
  lemma {:induction false} ExcludeUnique(s: seq<Request>, keys: set<int>)
    requires UniqueIndices(s)
    ensures UniqueIndices(Exclude(s, keys))
  {
    if s != [] {
      ExcludeUnique(s[1..], keys);
      if s[0].index !in keys {
        var rest := Exclude(s[1..], keys);
        forall x | x in rest ensures x.index != s[0].index {
          var k :| 0 <= k < |s[1..]| && s[1..][k] == x;
          assert s[k + 1] == x;
        }
      }
    }
  }

  /** `removeRequest(i)` applied to the list: every record with index `i` goes,
      the other records stay, in order. */
  lemma RemoveRequestSpec(prev: seq<Request>, i: int, x: Request)
    ensures x in Exclude(prev, {i}) <==> x in prev && x.index != i
    ensures i !in Indices(Exclude(prev, {i}))
    ensures Exclude(Exclude(prev, {i}), {i}) == Exclude(prev, {i})
  {
  }

  // ----- live alerts -----

  /** The `setRequests` updater of the live handler: a record whose index is
      already present changes nothing; a new one is put in front. */
  function Accept(prev: seq<Request>, req: Request): (r: seq<Request>)
    ensures r == prev <==> req.index in Indices(prev)
    ensures req.index !in Indices(prev) ==> |r| == |prev| + 1 && r[0] == req && r[1..] == prev
    ensures Indices(r) == Indices(prev) + {req.index}
    ensures UniqueIndices(prev) ==> UniqueIndices(r)
  {
    HasIndex(prev, req.index);
    if Has(prev, req.index) then prev else [req] + prev
  }

  /** A run of live alerts, handled one after another. */
  function AcceptAll(prev: seq<Request>, reqs: seq<Request>): seq<Request>
    decreases |reqs|
  {
    if reqs == [] then prev else AcceptAll(Accept(prev, reqs[0]), reqs[1..])
  }

  /** From a duplicate-free list, any run of live alerts keeps indices unique,
      and the list ends up holding exactly the old indices and the new ones. */
  lemma {:induction false} AcceptAllUnique(prev: seq<Request>, reqs: seq<Request>)
    requires UniqueIndices(prev)
    ensures UniqueIndices(AcceptAll(prev, reqs))
    ensures Indices(AcceptAll(prev, reqs)) == Indices(prev) + Indices(reqs)
    decreases |reqs|
  {
    if reqs != [] {
      AcceptAllUnique(Accept(prev, reqs[0]), reqs[1..]);
    }
  }

  // ----- history merge -----

  /** The merge of a history reply: the list, then the reply's records whose
      index the list does not hold, in reply order. */
  function Merge(prev: seq<Request>, logs: seq<Request>): (r: seq<Request>)
    ensures |r| >= |prev| && r[..|prev|] == prev
    ensures r[|prev|..] == Exclude(logs, Indices(prev))
    ensures forall x :: x in r[|prev|..] <==> x in logs && x.index !in Indices(prev)
    ensures |r| == |prev| + |Exclude(logs, Indices(prev))|
    ensures Indices(r) == Indices(prev) + Indices(logs)
  {
    var added := Exclude(logs, Indices(prev));
    assert (prev + added)[|prev|..] == added;
    IndicesAppend(prev, added);
    IndicesExclude(logs, Indices(prev));
    prev + added
  }

  /** Distinct list and distinct reply give a distinct merge. */
  lemma MergeUnique(prev: seq<Request>, logs: seq<Request>)
    requires UniqueIndices(prev) && UniqueIndices(logs)
    ensures UniqueIndices(Merge(prev, logs))
  {
    var added := Exclude(logs, Indices(prev));
    ExcludeUnique(logs, Indices(prev));
    var r := Merge(prev, logs);
    forall j, k | 0 <= j < k < |r| ensures r[j].index != r[k].index {
      if k >= |prev| {
        assert r[k] == added[k - |prev|];
        assert r[k] in added;
        if j < |prev| {
          assert r[j] == prev[j];
        } else {
          assert r[j] == added[j - |prev|];
        }
      }
    }
  }

  /** A reply merged into an empty list is taken whole. */
  lemma MergeIntoEmpty(logs: seq<Request>)
    ensures Merge([], logs) == logs
  {
    assert Indices([]) == {};
  }

  /** Records inside a reply are not deduplicated against each other. */
  lemma MergeKeepsReplyDuplicates(a: Request, b: Request)
    requires a.index == b.index
    ensures Merge([], [a, b]) == [a, b]
    ensures !UniqueIndices(Merge([], [a, b]))
  {
    assert Indices([]) == {};
  }

  // ----- enrichment -----

  /** The history path explains a log only when it has a raw log and a bug
      type and no explanation yet. */
  predicate NeedsHistoryExplanation(r: Request) {
    Truthy(r.rawLog) && Truthy(r.bugType) && !Truthy(r.explanation)
  }

  /** The live path explains an alert whenever it has a raw log and a bug type. */
  predicate NeedsLiveExplanation(r: Request) {
    Truthy(r.rawLog) && Truthy(r.bugType)
  }

  /** The record with its two text fields replaced by the pair. */
  function WithExplanation(r: Request, e: Explanation): (out: Request)
    ensures out.explanation == e.explanation && out.fixProposal == e.fixProposal
    ensures out.(explanation := r.explanation, fixProposal := r.fixProposal) == r
  {
    r.(explanation := e.explanation, fixProposal := e.fixProposal)
  }

  /** The pair the enrichment call gives for a record with a raw log and a bug type. */
  function ExplainRecord(cfg: Config, r: Request): Explanation
    requires r.rawLog.Some? && r.bugType.Some?
  {
    Explain(cfg, r.rawLog.value, r.bugType.value, r.severity)
  }

  /** The `Promise.all(logs.map(...))` of the history handler. */
  function EnrichHistory(logs: seq<Request>, cfg: Config): (r: seq<Request>)
    ensures |r| == |logs|
    ensures forall k :: 0 <= k < |logs| && !NeedsHistoryExplanation(logs[k]) ==> r[k] == logs[k]
    ensures forall k :: 0 <= k < |logs| && NeedsHistoryExplanation(logs[k]) ==>
      r[k] == WithExplanation(logs[k], ExplainRecord(cfg, logs[k]))
    ensures forall k :: 0 <= k < |logs| ==>
      r[k].(explanation := logs[k].explanation, fixProposal := logs[k].fixProposal) == logs[k]
    ensures forall k :: 0 <= k < |logs| && NeedsLiveExplanation(logs[k]) && logs[k].bugType.value !in InheritedKeys ==>
      Truthy(r[k].explanation)
    ensures Indices(r) == Indices(logs)
  {
    var r := seq(|logs|, k requires 0 <= k < |logs| =>
      if NeedsHistoryExplanation(logs[k]) then WithExplanation(logs[k], ExplainRecord(cfg, logs[k]))
      else logs[k]);
    IndicesPointwise(r, logs);
    r
  }

  /** After the history path every log that has a raw log and a bug type
      carries a non-empty explanation: either it had one or it got one, unless
      its bug type is named like an inherited property and the fallback gave
      nothing. */
  lemma HistoryExplained(logs: seq<Request>, cfg: Config, k: nat)
    requires k < |logs| && NeedsLiveExplanation(logs[k])
    ensures logs[k].bugType.value !in InheritedKeys ==> Truthy(EnrichHistory(logs, cfg)[k].explanation)
    ensures Truthy(logs[k].explanation) ==> EnrichHistory(logs, cfg)[k] == logs[k]
  {
  }

  /** The live handler's in-place preparation of `message.data`: a text
      timestamp becomes a `Date` (`parseDate` stands for `new Date(text)`),
      then the pair is written over both fields when there is a raw log and a
      bug type, whatever explanation the record already had. */
  function PrepareLive(req: Request, cfg: Config, parseDate: string -> int): (r: Request)
    ensures r.timestamp.Date?
    ensures req.timestamp.Date? ==> r.timestamp == req.timestamp
    ensures req.timestamp.IsoText? ==> r.timestamp == Date(parseDate(req.timestamp.text))
    ensures !NeedsLiveExplanation(req) ==> r == req.(timestamp := r.timestamp)
    ensures NeedsLiveExplanation(req) ==>
      r == WithExplanation(req.(timestamp := r.timestamp), ExplainRecord(cfg, req))
    ensures r.index == req.index
  {
    var ts := match req.timestamp
      case IsoText(text) => Date(parseDate(text))
      case Date(_) => req.timestamp;
    var dated := req.(timestamp := ts);
    if NeedsLiveExplanation(req) then WithExplanation(dated, ExplainRecord(cfg, req)) else dated
  }

  /** The two paths disagree: a live alert that already carries an explanation
      has it overwritten, while the same record arriving in a history reply
      keeps it. */
  lemma PathsDisagree(req: Request, cfg: Config, parseDate: string -> int)
    requires NeedsLiveExplanation(req) && Truthy(req.explanation)
    requires req.explanation != ExplainRecord(cfg, req).explanation
    ensures PrepareLive(req, cfg, parseDate).explanation != req.explanation
    ensures EnrichHistory([req], cfg) == [req]
  {
  }

  // ----- the dashboard -----

  /** The `App` component's state and the handlers it registers. */
  class Dashboard {
    /** `requests`. */
    var requests: seq<Request>
    /** `isLoadingHistory`. */
    var loadingHistory: bool
    /** `wsConnected`, refreshed by the one-second poll. */
    var wsConnected: bool
    /** Number of history handlers registered so far; the next one is `History(generation)`. */
    var generation: nat
    /** The feed connection the component drives. */
    const conn: Connector

    ghost predicate Valid()
      reads this, conn
    {
      conn.Valid() && forall h :: h in conn.handlers && h.History? ==> h.generation < generation
    }

    /** Mounting: connect to `url` and register the live handler. */
    constructor (c: Connector, url: string)
      requires c.Valid() && c.handlers == []
      modifies c
      ensures Valid() && conn == c
      ensures requests == [] && !loadingHistory && !wsConnected && generation == 0
      ensures c.handlers == [LiveFeed]
      ensures old(c.IsConnected()) ==> c.sockets == old(c.sockets) && c.socket == old(c.socket)
      ensures !old(c.IsConnected()) ==>
        c.sockets == old(c.sockets) + [Socket(url, Connecting)] && c.socket == Some(|old(c.sockets)|)
      ensures c.reconnectTimeout == old(c.reconnectTimeout) && c.timers == old(c.timers)
      ensures c.sent == old(c.sent) && c.deliveries == old(c.deliveries)
    {
      requests, loadingHistory, wsConnected, generation := [], false, false, 0;
      conn := c;
      new;
      c.Connect(url);
      c.Subscribe(LiveFeed);
    }

    /** The history button is enabled when no load is running and the last
        poll saw an open connection. */
    predicate HistoryEnabled()
      reads this
    {
      !loadingHistory && wsConnected
    }

    /** The one-second `isWebSocketConnected()` poll. */
    method Poll()
      requires Valid()
      modifies this
      ensures Valid()
      ensures wsConnected == conn.IsConnected()
      ensures requests == old(requests) && loadingHistory == old(loadingHistory) && generation == old(generation)
    {
      wsConnected := conn.IsConnected();
    }

    /** `removeRequest(i)`. */
    method RemoveRequest(i: int)
      requires Valid()
      modifies this
      ensures Valid()
      ensures requests == Exclude(old(requests), {i})
      ensures loadingHistory == old(loadingHistory) && wsConnected == old(wsConnected) && generation == old(generation)
    {
      requests := Exclude(requests, {i});
    }

    /** The live handler, for one message. */
    method OnLiveMessage(m: Message, cfg: Config, parseDate: string -> int)
      requires Valid() && LiveFeed in conn.handlers
      modifies this
      ensures Valid()
      ensures m.NewRequest? && m.request.Some? ==>
        requests == Accept(old(requests), PrepareLive(m.request.value, cfg, parseDate))
      ensures !(m.NewRequest? && m.request.Some?) ==> requests == old(requests)
      ensures loadingHistory == old(loadingHistory) && wsConnected == old(wsConnected) && generation == old(generation)
    {
      if m.NewRequest? && m.request.Some? {
        requests := Accept(requests, PrepareLive(m.request.value, cfg, parseDate));
      }
    }

    /** `loadAllHistory()`: marks the load as running, registers a new
        history handler and sends `get_all_logs`; when the send is rejected
        nothing resets the flag. */
    method LoadAllHistory() returns (sendOk: bool)
      requires Valid()
      modifies this, conn
      ensures Valid()
      ensures loadingHistory && generation == old(generation) + 1
      ensures conn.handlers == old(conn.handlers) + [History(old(generation))]
      ensures sendOk == old(conn.IsConnected())
      ensures sendOk ==> conn.sent == old(conn.sent) + [(old(conn.socket).value, GetAllLogs)]
      ensures !sendOk ==> conn.sent == old(conn.sent)
      ensures conn.sockets == old(conn.sockets) && conn.socket == old(conn.socket)
      ensures conn.timers == old(conn.timers) && conn.reconnectTimeout == old(conn.reconnectTimeout)
      ensures requests == old(requests) && wsConnected == old(wsConnected)
    {
      loadingHistory := true;
      conn.Subscribe(History(generation));
      generation := generation + 1;
      sendOk := conn.Send(GetAllLogs);
    }

    /** The history handler registered as `History(g)`, for one message: a
        reply carrying logs is enriched and merged; a reply or an error ends
        the load and unregisters the handler; anything else is ignored. */
    method OnHistoryMessage(g: nat, m: Message, cfg: Config)
      requires Valid() && History(g) in conn.handlers
      modifies this, conn
      ensures Valid()
      ensures m.AllLogsResponse? && m.logs.Some? ==>
        requests == Merge(old(requests), EnrichHistory(m.logs.value, cfg))
      ensures (m.AllLogsResponse? && m.logs.Some?) || m.AllLogsError? ==>
        !loadingHistory && conn.handlers == RemoveHandler(old(conn.handlers), History(g))
      ensures !((m.AllLogsResponse? && m.logs.Some?) || m.AllLogsError?) ==>
        loadingHistory == old(loadingHistory) && conn.handlers == old(conn.handlers)
      ensures !(m.AllLogsResponse? && m.logs.Some?) ==> requests == old(requests)
      ensures conn.sockets == old(conn.sockets) && conn.socket == old(conn.socket) && conn.sent == old(conn.sent)
      ensures conn.timers == old(conn.timers) && conn.reconnectTimeout == old(conn.reconnectTimeout)
      ensures wsConnected == old(wsConnected) && generation == old(generation)
    {
      if m.AllLogsResponse? && m.logs.Some? {
        requests := Merge(requests, EnrichHistory(m.logs.value, cfg));
        loadingHistory := false;
        conn.Unsubscribe(History(g));
      } else if m.AllLogsError? {
        loadingHistory := false;
        conn.Unsubscribe(History(g));
      }
    }
  }

  /** A history load on an open connection: the button is enabled before, the
      request goes out, the button is disabled while waiting, and the reply
      ends the load, unregisters the handler and appends the reply's records. */
  method HistoryLoadIsOneShot(url: string, logs: seq<Request>, cfg: Config)
    returns (enabledBefore: bool, sendOk: bool, enabledDuring: bool, loadingAfter: bool,
             stillSubscribed: bool, shown: nat)
    ensures enabledBefore && sendOk && !enabledDuring && !loadingAfter && !stillSubscribed
    ensures shown == |logs|
  {
    var c := new Connector();
    var d := new Dashboard(c, url);
    c.OnOpen(0);
    d.Poll();
    enabledBefore := d.HistoryEnabled();
    sendOk := d.LoadAllHistory();
    enabledDuring := d.HistoryEnabled();
    assert c.handlers == [LiveFeed, History(0)];
    c.OnMessage(0, Parsed(AllLogsResponse(Some(logs))), {});
    d.OnHistoryMessage(0, AllLogsResponse(Some(logs)), cfg);
    loadingAfter := d.loadingHistory;
    stillSubscribed := History(0) in c.handlers;
    MergeIntoEmpty(EnrichHistory(logs, cfg));
    shown := |d.requests|;
  }

  /** A history reply arriving on the open socket reaches the live handler
      and then the history handler the load registered, in that order. */
  method HistoryReplyDelivered(url: string, logs: seq<Request>) returns (calls: seq<Delivery>)
    ensures calls == [Delivery(LiveFeed, AllLogsResponse(Some(logs))), Delivery(History(0), AllLogsResponse(Some(logs)))]
  {
    var c := new Connector();
    var d := new Dashboard(c, url);
    c.OnOpen(0);
    var _ := d.LoadAllHistory();
    assert c.handlers == [LiveFeed, History(0)];
    var before := c.deliveries;
    c.OnMessage(0, Parsed(AllLogsResponse(Some(logs))), {});
    calls := c.deliveries[|before|..];
  }

  /** A history load started while the connection is down is rejected, and
      the flag stays set: the history button stays disabled until a reply
      arrives on the handler, which is still registered. */
  method HistoryLoadWhileDisconnected(url: string) returns (sendOk: bool, loading: bool, subscribed: bool)
    ensures !sendOk && loading && subscribed
  {
    var c := new Connector();
    var d := new Dashboard(c, url);
    sendOk := d.LoadAllHistory();
    loading := d.loadingHistory;
    subscribed := History(0) in c.handlers;
  }

  /** An unrelated message reaching the history handler changes nothing. */
  method HistoryIgnoresLiveAlerts(url: string, req: Request, cfg: Config)
    returns (loading: bool, subscribed: bool, size: nat)
    ensures loading && subscribed && size == 0
  {
    var c := new Connector();
    var d := new Dashboard(c, url);
    c.OnOpen(0);
    var _ := d.LoadAllHistory();
    assert c.handlers == [LiveFeed, History(0)];
    c.OnMessage(0, Parsed(NewRequest(Some(req))), {});
    d.OnHistoryMessage(0, NewRequest(Some(req)), cfg);
    loading := d.loadingHistory;
    subscribed := History(0) in c.handlers;
    size := |d.requests|;
  }
}
