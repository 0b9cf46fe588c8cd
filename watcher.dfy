/** The backend watcher (backend/integrated_watcher.py): the rule-based
    classifier applied to each new log line, the numbering and categorising of
    the alerts it broadcasts, and its answer to the messages dashboards send. */
module Watcher {
  import opened Text
  import opened Alert

  /** One entry of the classifier's pattern table: a lower-case key looked
      for as a substring, and the alert it raises. */
  datatype Pattern = Pattern(key: string, bugType: string, severity: string,
                             explanation: string, fixProposal: string)

  const SqlExplanation: string := "Un pirate tente de manipuler votre base de données en insérant des commandes malveillantes."
  const SqlFix: string := "Utiliser des requêtes préparées, valider toutes les entrées, activer WAF (Web Application Firewall)."
  const XssExplanation: string := "Un pirate essaie d'injecter du code malveillant dans votre site web pour voler des informations."
  const XssFix: string := "Nettoyer et échapper toutes les entrées utilisateur, implémenter CSP (Content Security Policy)."
  const BruteForceExplanation: string := "Un attaquant tente de deviner votre mot de passe en essayant des milliers de combinaisons différentes."
  const SshExplanation: string := "Un attaquant tente de deviner votre mot de passe SSH."
  const BruteForceFix: string := "Bloquer l'IP après plusieurs tentatives, implémenter l'authentification à deux facteurs."
  const ScanExplanation: string := "Quelqu'un essaie de trouver les portes d'entrée ouvertes de votre système informatique."
  const ScanFix: string := "Bloquer l'IP source et activer la détection de scan avancée."
  const MalwareExplanation: string := "Un fichier dangereux tente d'être téléchargé sur votre système."
  const MalwareFix: string := "Bloquer le téléchargement, scanner avec antivirus, mettre en quarantaine le fichier."
  const DdosExplanation: string := "Votre système reçoit une avalanche de demandes simultanées pour le faire tomber."
  const DdosFix: string := "Activer la limitation de débit, filtrage géographique, et protection DDoS du CDN."
  const AccessExplanation: string := "Tentative d'accès non autorisé détectée."
  const AccessFix: string := "Bloquer l'IP source et renforcer les contrôles d'authentification."

  /** The pattern table, in declaration order (dictionaries keep it). */
  const Patterns: seq<Pattern> := [
    Pattern("sql injection", "sql_injection", "élevé", SqlExplanation, SqlFix),
    Pattern("suspicious payload", "sql_injection", "élevé", SqlExplanation, SqlFix),
    Pattern("xss", "xss", "moyen", XssExplanation, XssFix),
    Pattern("xss pattern", "xss", "moyen", XssExplanation, XssFix),
    Pattern("brute force", "brut_force_ssh", "élevé", BruteForceExplanation, BruteForceFix),
    Pattern("failed ssh", "brut_force_ssh", "élevé", SshExplanation, BruteForceFix),
    Pattern("port scan", "port_scan", "faible", ScanExplanation, ScanFix),
    Pattern("malware", "malware_download", "élevé", MalwareExplanation, MalwareFix),
    Pattern("malicious file", "malware_download", "élevé", MalwareExplanation, MalwareFix),
    Pattern("ddos", "ddos", "élevé", DdosExplanation, DdosFix),
    Pattern("high traffic", "ddos", "élevé", DdosExplanation, DdosFix),
    Pattern("unauthorized", "unauthorized_access", "élevé", AccessExplanation, AccessFix),
    Pattern("unauthorized endpoint", "unauthorized_access", "élevé", AccessExplanation, AccessFix)
  ]

  /** The bug-type to category table. */
  const Categories: map<string, string> := map[
    "sql_injection" := "Sécurité",
    "xss" := "Sécurité",
    "brut_force_ssh" := "Sécurité",
    "malware_download" := "Sécurité",
    "ddos" := "Réseau",
    "port_scan" := "Réseau",
    "unauthorized_access" := "Accès",
    "performance_issue" := "Performance",
    "validation_error" := "Validation"
  ]

  const DefaultFirewall: string := "FW-0001"
  const DefaultSeverity: string := "moyen"

  /** The severities the table uses. */
  predicate KnownSeverity(s: string) {
    s == "élevé" || s == "moyen" || s == "faible"
  }

  /** Position of the first pattern whose key occurs in `text`: the loop over
      the table that returns on the first hit. */
  function FirstMatch(pats: seq<Pattern>, text: string): (r: Option<nat>)
    ensures r.Some? ==> r.value < |pats| && Contains(text, pats[r.value].key)
    ensures r.Some? ==> forall j :: 0 <= j < r.value ==> !Contains(text, pats[j].key)
    ensures r.None? <==> forall j :: 0 <= j < |pats| ==> !Contains(text, pats[j].key)
  {
    if pats == [] then None
    else if Contains(text, pats[0].key) then Some(0)
    else
      match FirstMatch(pats[1..], text)
      case None => None
      case Some(k) => Some(k + 1)
  }

  /** The firewall id of a line, or the IndexError raised when nothing but
      whitespace follows the first "fw-". */
  datatype FirewallId = Found(id: string) | IndexError

  /** The firewall id: the stripped second comma field of a CSV line;
      otherwise "FW-" and the upper-cased word after the first "fw-";
      otherwise the default. */
  function ExtractFirewall(line: string): (r: FirewallId)
    ensures Contains(line, ",") ==>
      r == Found(Trim(Piece(line[IndexOf(line, ",").value + 1..], ",", 0)))
    ensures r.IndexError? ==> !Contains(line, ",") && Contains(Lower(line), "fw-")
    ensures !Contains(line, ",") && !Contains(Lower(line), "fw-") ==> r == Found(DefaultFirewall)
  {
    if Contains(line, ",") then
      var i := IndexOf(line, ",").value;
      SplitAt(line, ",", i);
      assert |Split(line[i + 1..], ",")| >= 1;
      Found(Trim(Piece(line, ",", 1)))
    else
      var lower := Lower(line);
      if Contains(lower, "fw-") then
        match FirstWord(Piece(lower, "fw-", 1))
        case None => IndexError
        case Some(w) => Found("FW-" + Upper(Piece(w, ",", 0)))
      else
        Found(DefaultFirewall)
  }

  /** A CSV line yields its second comma field, stripped: the text after the
      first comma up to the next comma or the end of the line. */
  lemma CsvFirewall(stamp: string, rest: string)
    requires NoChar(stamp, ',')
    ensures ExtractFirewall(stamp + "," + rest) == Found(Trim(Piece(rest, ",", 0)))
    ensures NoChar(rest, ',') ==> ExtractFirewall(stamp + "," + rest) == Found(Trim(rest))
  {
    SplitAtChar(stamp, ',', rest);
    ContainsAt(stamp + [','] + rest, ",", |stamp|);
    if NoChar(rest, ',') {
      ContainsChar(rest, ',');
      FirstPiece(rest, ",");
    }
  }

  /** A line laid out as the test-log generator writes it (timestamp,
      firewall id, then further fields) yields its firewall field, stripped. */
  lemma CsvFirewallFields(stamp: string, fw: string, more: string)
    requires NoChar(stamp, ',') && NoChar(fw, ',')
    ensures ExtractFirewall(stamp + "," + fw + "," + more) == Found(Trim(fw))
  {
    assert stamp + "," + fw + "," + more == stamp + "," + (fw + "," + more);
    CsvFirewall(stamp, fw + "," + more);
    SplitAtChar(fw, ',', more);
  }

  /** Without a comma in the line, the word after "fw-" has none either, so
      the final cut at "," changes nothing: the id is "FW-" and the word
      upper-cased, or IndexError when there is no word. */
  lemma FwTokenFirewall(line: string)
    requires !Contains(line, ",") && Contains(Lower(line), "fw-")
    ensures ExtractFirewall(line) == match FirstWord(Piece(Lower(line), "fw-", 1))
                                     case None => IndexError
                                     case Some(w) => Found("FW-" + Upper(w))
  {
    var lower := Lower(line);
    ContainsChar(line, ',');
    assert NoChar(lower, ',');
    SplitNoChar(lower, "fw-", ',', 1);
    var p := Piece(lower, "fw-", 1);
    assert NoChar(p, ',');
    match FirstWord(p)
    case None =>
    case Some(w) =>
      var k := LeadingSpaces(p);
      forall i | 0 <= i < |w| ensures w[i] != ',' {
        assert w[i] == p[k + i];
      }
      ContainsChar(w, ',');
      FirstPiece(w, ",");
  }

  /** A comma-free line whose first "fw-" ends it raises IndexError, whatever
      attack it reports. */
  lemma FwAtEndRaises(line: string)
    requires !Contains(line, ",") && |line| >= 3 && IndexOf(Lower(line), "fw-") == Some(|line| - 3)
    ensures ExtractFirewall(line) == IndexError
    ensures LocalModelAnalyze(line) == Raised
  {
    var lower := Lower(line);
    assert lower[|line|..] == "";
    assert Split(lower, "fw-") == [lower[..|line| - 3]] + Split("", "fw-");
  }

  /** What `local_model_analyze` does with a line: raises IndexError, finds
      nothing, or returns the alert of the first matching pattern. */
  datatype Analysis =
    | Raised
    | NoAlert
    | Detected(bugType: string, severity: string, explanation: string, fixProposal: string, firewallId: string)

  /** The classifier. The firewall id is extracted before the patterns are
      tried, so its IndexError is raised even on lines that would alert. */
  function LocalModelAnalyze(line: string): (r: Analysis)
    ensures r.Raised? <==> ExtractFirewall(line).IndexError?
    ensures r.NoAlert? <==> ExtractFirewall(line).Found?
                            && forall j :: 0 <= j < |Patterns| ==> !Contains(Lower(line), Patterns[j].key)
    ensures r.Detected? ==> (r.firewallId == ExtractFirewall(line).id
                             && exists j :: 0 <= j < |Patterns| && Contains(Lower(line), Patterns[j].key)
                                           && r.bugType == Patterns[j].bugType && r.severity == Patterns[j].severity
                                           && r.explanation == Patterns[j].explanation
                                           && r.fixProposal == Patterns[j].fixProposal)
    ensures r.Detected? ==>
      (FirstMatch(Patterns, Lower(line)).Some?
       && (var p := Patterns[FirstMatch(Patterns, Lower(line)).value];
           r == Detected(p.bugType, p.severity, p.explanation, p.fixProposal, ExtractFirewall(line).id)))
  {
    match ExtractFirewall(line)
    case IndexError => Raised
    case Found(fw) =>
      match FirstMatch(Patterns, Lower(line))
      case None => NoAlert
      case Some(k) =>
        var p := Patterns[k];
        Detected(p.bugType, p.severity, p.explanation, p.fixProposal, fw)
  }

  /** The fields an alert must carry: a known severity, a bug type the
      category table knows (under a category other than "Validation"), and
      non-empty texts. */
  predicate WellFormed(p: Pattern) {
    && KnownSeverity(p.severity) && p.bugType in Categories && Categories[p.bugType] != "Validation"
    && p.bugType != "" && p.explanation != "" && p.fixProposal != ""
  }

  /** Every entry of the table is well formed. */
  lemma PatternWellFormed(j: nat)
    requires j < |Patterns|
    ensures WellFormed(Patterns[j])
  {
  }

  /** Every alert carries a known severity and a bug type the category table
      knows, so it is never filed under the defaults. */
  lemma AlertFields(line: string)
    ensures var r := LocalModelAnalyze(line);
            r.Detected? ==> (KnownSeverity(r.severity) && r.bugType in Categories
                             && r.explanation != "" && r.fixProposal != "" && r.bugType != "")
  {
    match FirstMatch(Patterns, Lower(line))
    case None =>
    case Some(k) => PatternWellFormed(k);
  }

  /** The "xss pattern" entry is never the first match: a line holding its
      key holds "xss", an earlier key. */
  lemma XssPatternShadowed(text: string)
    ensures FirstMatch(Patterns, text) != Some(3)
  {
    if Contains(text, Patterns[3].key) {
      assert Patterns[3].key == Patterns[2].key + " pattern";
      ContainsPrefixOf(text, Patterns[2].key, " pattern");
    }
  }

  /** The "unauthorized endpoint" entry is never the first match either:
      "unauthorized" comes earlier. */
  lemma UnauthorizedEndpointShadowed(text: string)
    ensures FirstMatch(Patterns, text) != Some(12)
  {
    if Contains(text, Patterns[12].key) {
      assert Patterns[12].key == Patterns[11].key + " endpoint";
      ContainsPrefixOf(text, Patterns[11].key, " endpoint");
    }
  }

  /** The line case does not matter to the classification, only to the CSV
      firewall id: the line, its upper-cased and its lower-cased forms match
      the same pattern. */
  lemma CaseInsensitivePatterns(line: string)
    ensures FirstMatch(Patterns, Lower(Upper(line))) == FirstMatch(Patterns, Lower(line))
    ensures FirstMatch(Patterns, Lower(Lower(line))) == FirstMatch(Patterns, Lower(line))
  {
    LowerUpper(line);
    LowerIdempotent(line);
  }

  /** The result dictionary as `send_request_to_frontend` reads it: the keys
      are optional (the remote model may leave any out). */
  datatype ModelResult = ModelResult(
    alert: bool,
    bugType: Option<string>,
    severity: Option<string>,
    explanation: Option<string>,
    fixProposal: Option<string>,
    firewallId: Option<string>)

  /** The dictionary `local_model_analyze` returns. */
  function ToResult(a: Analysis): (m: ModelResult)
    requires !a.Raised?
    ensures m.alert <==> a.Detected?
    ensures a.Detected? ==> (m.bugType == Some(a.bugType) && m.severity == Some(a.severity)
                             && m.explanation == Some(a.explanation) && m.fixProposal == Some(a.fixProposal)
                             && m.firewallId == Some(a.firewallId))
  {
    match a
    case NoAlert => ModelResult(false, None, None, None, None, None)
    case Detected(b, s, e, f, fw) => ModelResult(true, Some(b), Some(s), Some(e), Some(f), Some(fw))
  }

  /** The `type` of an alert: the table's category of a truthy bug type, with
      "Sécurité" for unknown ones, and "Validation" without a bug type. */
  function Category(bugType: Option<string>): (c: string)
    ensures !Truthy(bugType) ==> c == "Validation"
    ensures Truthy(bugType) && bugType.value in Categories ==> c == Categories[bugType.value]
    ensures Truthy(bugType) && bugType.value !in Categories ==> c == "Sécurité"
  {
    if Truthy(bugType) then
      if bugType.value in Categories then Categories[bugType.value] else "Sécurité"
    else "Validation"
  }

  /** The record broadcast for a result, numbered `index` and stamped `now`.
      The backend sends no `raw_log`. */
  function Record(result: ModelResult, index: int, now: string): (r: Request)
    ensures r.index == index && r.timestamp == IsoText(now) && r.rawLog.None?
    ensures r.severity == (if result.severity.Some? then result.severity.value else DefaultSeverity)
    ensures r.firewallId == (if result.firewallId.Some? then result.firewallId.value else DefaultFirewall)
    ensures r.kind == Category(result.bugType)
    ensures r.bugType == result.bugType && r.explanation == result.explanation
            && r.fixProposal == result.fixProposal
  {
    Request(index,
            if result.firewallId.Some? then result.firewallId.value else DefaultFirewall,
            IsoText(now),
            result.bugType,
            if result.severity.Some? then result.severity.value else DefaultSeverity,
            result.explanation,
            Category(result.bugType),
            result.fixProposal,
            None)
  }

  /** A classifier alert is filed under the category of its bug type and
      keeps the classifier's severity and firewall id. */
  lemma ClassifiedRecord(line: string, index: int, now: string)
    requires LocalModelAnalyze(line).Detected?
    ensures var a := LocalModelAnalyze(line);
            var r := Record(ToResult(a), index, now);
            a.bugType in Categories && r.kind == Categories[a.bugType] && r.kind != "Validation"
            && r.severity == a.severity && r.firewallId == a.firewallId
  {
    var k := FirstMatch(Patterns, Lower(line)).value;
    PatternWellFormed(k);
    assert LocalModelAnalyze(line).bugType == Patterns[k].bugType;
  }

  /** The indices of the `new_request` broadcasts, in order. */
  function Issued(out: seq<Message>): (r: seq<int>)
    ensures |r| <= |out|
  {
    if out == [] then []
    else
      var last := out[|out| - 1];
      var init := Issued(out[..|out| - 1]);
      if last.NewRequest? && last.request.Some? then init + [last.request.value.index] else init
  }

  predicate Increasing(s: seq<int>) {
    forall j, k :: 0 <= j < k < |s| ==> s[j] < s[k]
  }

  /** Broadcasts of a message that is not a new alert issue no index. */
  lemma IssuedAppend(out: seq<Message>, m: Message)
    ensures Issued(out + [m]) == if m.NewRequest? && m.request.Some? then Issued(out) + [m.request.value.index] else Issued(out)
  {
    assert (out + [m])[..|out|] == out;
  }

  /** The watcher's state: the global `request_counter` and the messages it
      has broadcast, in order. */
  class Watcher {
    var requestCounter: int
    var broadcasts: seq<Message>

    /** The indices broadcast so far are strictly increasing, at least 1 and
        below the counter. */
    ghost predicate Valid()
      reads this
    {
      && requestCounter >= 1
      && Increasing(Issued(broadcasts))
      && forall k :: 0 <= k < |Issued(broadcasts)| ==> 1 <= Issued(broadcasts)[k] < requestCounter
    }

    constructor ()
      ensures Valid() && requestCounter == 1 && broadcasts == []
    {
      requestCounter := 1;
      broadcasts := [];
    }

    /** `send_request_to_frontend`: the alert takes the counter's value as its
        index, the counter goes up by one with no suspension in between, and
        the record is broadcast. */
    method SendRequest(result: ModelResult, now: string)
      requires Valid()
      modifies this
      ensures Valid()
      ensures requestCounter == old(requestCounter) + 1
      ensures broadcasts == old(broadcasts) + [NewRequest(Some(Record(result, old(requestCounter), now)))]
      ensures Issued(broadcasts) == old(Issued(broadcasts)) + [old(requestCounter)]
    {
      var m := NewRequest(Some(Record(result, requestCounter, now)));
      IssuedAppend(broadcasts, m);
      broadcasts := broadcasts + [m];
      requestCounter := requestCounter + 1;
    }

    /** A worker's handling of one line with the local model: an alert is
        sent, no alert sends nothing, and the IndexError is swallowed by the
        worker's handler. */
    method ProcessLine(line: string, now: string)
      requires Valid()
      modifies this
      ensures Valid()
      ensures var a := LocalModelAnalyze(line);
              if a.Detected? then
                requestCounter == old(requestCounter) + 1
                && broadcasts == old(broadcasts) + [NewRequest(Some(Record(ToResult(a), old(requestCounter), now)))]
              else
                requestCounter == old(requestCounter) && broadcasts == old(broadcasts)
    {
      var a := LocalModelAnalyze(line);
      if a.Detected? {
        SendRequest(ToResult(a), now);
      }
    }

    /** `handle_client_message`, with the reply broadcast when there is one. */
    method OnClientMessage(frame: ClientFrame)
      requires Valid()
      modifies this
      ensures Valid() && requestCounter == old(requestCounter)
      ensures var reply := HandleClientMessage(frame);
              broadcasts == old(broadcasts) + (if reply.Some? then [reply.value] else [])
    {
      var reply := HandleClientMessage(frame);
      if reply.Some? {
        IssuedAppend(broadcasts, reply.value);
        broadcasts := broadcasts + [reply.value];
      }
    }
  }

  /** Indices of the broadcast alerts are distinct. */
  lemma IssuedDistinct(w: Watcher, j: nat, k: nat)
    requires w.Valid() && j < k < |Issued(w.broadcasts)|
    ensures Issued(w.broadcasts)[j] != Issued(w.broadcasts)[k]
  {
  }

  /** The `data` member of a client frame: absent, an object with the two
      fields read (each possibly missing), or something else, on which `.get`
      raises. */
  datatype ClientData = NoData | DataObject(requestIndex: Option<int>, firewallId: Option<string>) | NotAnObject

  /** A frame from a dashboard, after `json.loads`. */
  datatype ClientFrame =
    | InvalidJson
    | NonObject
    | Object(msgType: Option<string>, data: ClientData)

  /** The reply to a client frame: `apply_fix` is acknowledged with a
      `fix_applied` echoing its request index and firewall id; every other
      frame, and every frame that raises, gets none. */
  function HandleClientMessage(frame: ClientFrame): (reply: Option<Message>)
    ensures reply.Some? <==> frame.Object? && frame.msgType == Some("apply_fix") && !frame.data.NotAnObject?
    ensures reply.Some? && frame.data.DataObject? ==>
              reply.value == FixApplied(frame.data.requestIndex, frame.data.firewallId)
    ensures reply.Some? && frame.data.NoData? ==> reply.value == FixApplied(None, None)
  {
    match frame
    case Object(Some("apply_fix"), data) =>
      (match data
       case NoData => Some(FixApplied(None, None))
       case DataObject(i, fw) => Some(FixApplied(i, fw))
       case NotAnObject => None)
    case _ => None
  }

  /** The frames the dashboard sends, as the backend reads them. */
  function Encode(m: Message): (f: ClientFrame)
    requires m.ApplyFix? || m.GetAllLogs?
  {
    match m
    case ApplyFix(fix) => Object(Some("apply_fix"), DataObject(Some(fix.requestIndex), Some(fix.firewallId)))
    case GetAllLogs => Object(Some("get_all_logs"), NoData)
  }

  /** An apply request is acknowledged with its own index and firewall. */
  lemma ApplyFixAcknowledged(fix: FixRequest)
    ensures HandleClientMessage(Encode(ApplyFix(fix))) == Some(FixApplied(Some(fix.requestIndex), Some(fix.firewallId)))
  {
  }

  /** The history request gets no answer. */
  lemma HistoryRequestUnanswered()
    ensures HandleClientMessage(Encode(GetAllLogs)).None?
  {
  }

  /** The backend never reports a failed fix, never answers with the history
      and never sends an alert in reply to a client. */
  lemma RepliesAreAcknowledgements(frame: ClientFrame)
    ensures var reply := HandleClientMessage(frame);
            reply.Some? ==> reply.value.FixApplied?
  {
  }
}
