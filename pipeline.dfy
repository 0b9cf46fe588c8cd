/** How the watcher's messages meet the dashboard: what the frontend does
    with the records and replies the backend actually produces. */
module Pipeline {
  import opened Text
  import opened Alert
  import opened Transport
  import Watcher
  import Enrichment
  import Reconciler
  import ActionCard
  import Filters
  import Stats

  /** The watcher sends no `raw_log`, so neither path of the dashboard ever
      asks the language model about a backend alert: a live alert only has
      its timestamp converted, and a history record passes unchanged. */
  lemma BackendAlertsNotEnriched(result: Watcher.ModelResult, index: int, now: string,
                                 cfg: Reconciler.Config, parseDate: string -> int)
    ensures var r := Watcher.Record(result, index, now);
            && !Reconciler.NeedsLiveExplanation(r) && !Reconciler.NeedsHistoryExplanation(r)
            && Reconciler.PrepareLive(r, cfg, parseDate) == r.(timestamp := Date(parseDate(now)))
            && Reconciler.EnrichHistory([r], cfg) == [r]
  {
  }

  /** Every bug type of the classifier's table has its own canned
      explanation in the frontend's fallback table. */
  lemma PatternHasFallback(j: nat)
    requires j < |Watcher.Patterns|
    ensures Watcher.Patterns[j].bugType in Enrichment.FallbackTable
  {
  }

  /** So every bug type the classifier emits has one. */
  lemma ClassifierTypesHaveFallbacks(line: string)
    requires Watcher.LocalModelAnalyze(line).Detected?
    ensures Watcher.LocalModelAnalyze(line).bugType in Enrichment.FallbackTable
  {
    var k := Watcher.FirstMatch(Watcher.Patterns, Lower(line)).value;
    PatternHasFallback(k);
  }

  /** The watcher's severities are the ones the filter panel offers, each
      with its own badge variant. */
  lemma ClassifierSeveritiesOffered(line: string)
    requires Watcher.LocalModelAnalyze(line).Detected?
    ensures Watcher.LocalModelAnalyze(line).severity in Filters.SeverityLevels
    ensures Filters.SeverityVariant(Watcher.LocalModelAnalyze(line).severity) != Filters.Outline
  {
    Watcher.AlertFields(line);
  }

  /** The watcher's answer to a card's apply request marks that card applied,
      whatever state the card was in. */
  lemma CardAcknowledged(r: Request, f: ActionCard.Flags)
    ensures var reply := Watcher.HandleClientMessage(Watcher.Encode(ApplyFix(ActionCard.FixFor(r))));
            reply.Some? && ActionCard.Receive(f, reply.value, r.index) == ActionCard.Flags(false, true, false)
  {
    Watcher.ApplyFixAcknowledged(ActionCard.FixFor(r));
  }

  /** The error branch of a card is reachable only through a rejected send:
      no reply of the watcher is a failure report. */
  lemma NoReplyReportsFailure(frame: Watcher.ClientFrame, f: ActionCard.Flags, index: int)
    requires !f.error
    ensures var reply := Watcher.HandleClientMessage(frame);
            reply.Some? ==> !ActionCard.Receive(f, reply.value, index).error
  {
  }

  /** A history load on an open connection: the watcher has no answer to
      `get_all_logs`, so the history handler never runs, the load never ends
      and the history button stays disabled. */
  method HistoryLoadNeverCompletes(url: string)
    returns (sendOk: bool, reply: Option<Message>, loading: bool, enabled: bool)
    ensures sendOk && reply.None? && loading && !enabled
  {
    var c := new Connector();
    var d := new Reconciler.Dashboard(c, url);
    c.OnOpen(0);
    d.Poll();
    sendOk := d.LoadAllHistory();
    var request := c.sent[|c.sent| - 1].1;
    reply := Watcher.HandleClientMessage(Watcher.Encode(request));
    loading := d.loadingHistory;
    enabled := d.HistoryEnabled();
  }

  /** A capitalised severity is counted as high by the statistics and
      coloured red on the card, which both lower-case; the filter panel's
      badges are its three lower-case levels only, so it shows none for it. */
  lemma CapitalisedSeverity(r: Request)
    requires r.severity == "ÉLEVÉ"
    ensures Stats.CountSeverity([r], Stats.High) == 1
    ensures ActionCard.SeverityTone(r.severity) == ActionCard.Red
    ensures r.severity !in Filters.SeverityLevels
  {
    assert Lower("ÉLEVÉ") == "élevé";
    assert [r][..0] == [];
  }
}
