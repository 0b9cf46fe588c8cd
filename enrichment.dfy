/** The enrichment client (frontend/src/lib/llmExplanation.ts): deciding the
    {explanation, fix_proposal} pair for an alert from the language-model reply,
    with a static per-category fallback. The HTTP exchange is an input: `reply`
    is the reply's primary text content, or None when the call threw, the status
    was not OK, or the body did not have that shape. `JSON.parse` and the reads
    of the two fields are the abstract function `parse`. */
module Enrichment {
  import opened Text

  /** The {explanation, fix_proposal} object the caller reads; a field is
      None where the object read has no such property (JavaScript undefined). */
  datatype Explanation = Explanation(explanation: Option<string>, fixProposal: Option<string>)

  /** A pair with both fields present. */
  function Canned(explanation: string, fixProposal: string): Explanation {
    Explanation(Some(explanation), Some(fixProposal))
  }

  /** The two fields read from the parsed reply (None: absent or null). */
  datatype ParsedReply = ParsedReply(explanation: Option<string>, fixProposal: Option<string>)

  const JsonFence: string := "```json"
  const Fence: string := "```"

  /** Removes markdown code fences: the text after the first "```json" (else
      the first "```") and before the next "```", trimmed; unfenced text is
      kept as it is. */
  function StripFences(content: string): string {
    if Contains(content, JsonFence) then
      Trim(Piece(Piece(content, JsonFence, 1), Fence, 0))
    else if Contains(content, Fence) then
      Trim(Piece(Piece(content, Fence, 1), Fence, 0))
    else
      content
  }

  /** Where the first `p` starts in `s`, or the length of `s` when it does
      not occur. */
  function FirstOr(s: string, p: string): (n: nat)
    ensures n <= |s|
  {
    match IndexOf(s, p)
    case Some(i) => i
    case None => |s|
  }

  /** `FirstOr` is a position inside the text exactly when the separator
      occurs, and then it is the first occurrence. */
  lemma FirstOrFound(s: string, p: string)
    requires p != ""
    ensures FirstOr(s, p) < |s| <==> Contains(s, p)
    ensures Contains(s, p) ==> OccursAt(s, p, FirstOr(s, p))
  {
  }

  /** Piece 0 of a split is the text before the first separator. */
  lemma PieceZero(s: string, p: string)
    requires p != ""
    ensures Piece(s, p, 0) == s[..FirstOr(s, p)]
  {
    FirstPiece(s, p);
  }

  /** Searching a prefix `a[..m]`: the first occurrence in `a` is found there
      when it fits, and otherwise nothing is found. */
  lemma SearchPrefix(a: string, p: string, m: nat)
    requires p != "" && m <= |a|
    ensures FirstOr(a[..m], p) == if FirstOr(a, p) + |p| <= m then FirstOr(a, p) else m
  {
    var j := FirstOr(a, p);
    var b := a[..m];
    forall k | 0 <= k < j && k + |p| <= m ensures !OccursAt(b, p, k) {
      assert b[k..k + |p|] == a[k..k + |p|];
      assert !OccursAt(a, p, k) by {
        match IndexOf(a, p)
        case Some(x) => assert x == j;
        case None => assert k <= |a|;
      }
    }
    if j + |p| <= m {
      assert IndexOf(a, p).Some?;
      assert b[j..j + |p|] == a[j..j + |p|];
      FirstOccurrence(b, p, j);
    } else {
      forall k | 0 <= k <= |b| ensures !OccursAt(b, p, k) {
        if k + |p| <= |b| {
          assert k < j;
        }
      }
      NoOccurrence(b, p);
    }
  }

  /** Piece 0 of a prefix `a[..m]`: `a` up to its first separator when that
      separator fits in the prefix, otherwise the whole prefix. */
  lemma CutPrefix(a: string, p: string, m: nat)
    requires p != "" && m <= |a|
    ensures Piece(a[..m], p, 0) == a[..if FirstOr(a, p) + |p| <= m then FirstOr(a, p) else m]
  {
    PieceZero(a[..m], p);
    SearchPrefix(a, p, m);
    var x := if FirstOr(a, p) + |p| <= m then FirstOr(a, p) else m;
    assert a[..m][..x] == a[..x];
  }

  /** Every "```json" starts with a "```", so the first "```" comes no later
      than the first "```json". */
  lemma FenceNoLater(a: string)
    ensures FirstOr(a, Fence) <= FirstOr(a, JsonFence)
  {
    var m := FirstOr(a, JsonFence);
    if m < |a| {
      assert OccursAt(a, JsonFence, m);
      assert a[m..m + 3] == a[m..m + 7][..3];
      assert OccursAt(a, Fence, m);
      match IndexOf(a, Fence)
      case None =>
      case Some(_) =>
    }
  }

  /** The text the "```json" branch parses, before trimming. */
  lemma JsonBranchPieces(c: string, i: nat)
    requires IndexOf(c, JsonFence) == Some(i)
    ensures var a := c[i + |JsonFence|..];
      var j := FirstOr(a, Fence);
      var m := FirstOr(a, JsonFence);
      Piece(Piece(c, JsonFence, 1), Fence, 0) == a[..if j + |Fence| <= m then j else m]
  {
    var a := c[i + |JsonFence|..];
    PiecesAt(c, JsonFence, i);
    PieceZero(a, JsonFence);
    CutPrefix(a, Fence, FirstOr(a, JsonFence));
  }

  /** Unless a "```json" starts one or two characters after the first "```",
      the cut falls at that "```". */
  lemma CutAtFirstFence(a: string)
    requires Contains(a, Fence)
    requires !OccursAt(a, JsonFence, FirstOr(a, Fence) + 1) && !OccursAt(a, JsonFence, FirstOr(a, Fence) + 2)
    ensures var j := FirstOr(a, Fence);
      (if j + |Fence| <= FirstOr(a, JsonFence) then j else FirstOr(a, JsonFence)) == j
  {
    var j := FirstOr(a, Fence);
    var m := FirstOr(a, JsonFence);
    FenceNoLater(a);
    FirstOrFound(a, Fence);
    FirstOrFound(a, JsonFence);
    if j + |Fence| > m {
      assert m < |a|;
      assert m == j;
    }
  }

  /** The "```json" branch of `StripFences`. */
  lemma JsonBranch(c: string)
    requires Contains(c, JsonFence)
    ensures StripFences(c) == Trim(Piece(Piece(c, JsonFence, 1), Fence, 0))
  {
  }

  /** The rule for a reply containing "```json": with `a` the text after the
      first "```json", the parsed text is `a` up to its first "```", trimmed,
      unless a second "```json" starts less than three characters after that
      fence, in which case it is `a` up to that "```json"; with no closing
      fence it is `a` up to the next "```json", or all of `a`. */
  lemma StripJsonFenceRule(c: string)
    requires Contains(c, JsonFence)
    ensures var a := c[IndexOf(c, JsonFence).value + |JsonFence|..];
      var j := FirstOr(a, Fence);
      var m := FirstOr(a, JsonFence);
      j <= m && StripFences(c) == Trim(a[..if j + |Fence| <= m then j else m])
  {
    var i := IndexOf(c, JsonFence).value;
    var a := c[i + |JsonFence|..];
    JsonBranchPieces(c, i);
    FenceNoLater(a);
    JsonBranch(c);
  }

  /** The usual case of the rule: a closing "```" not followed within two
      characters by another "```json" ends the parsed text. */
  lemma StripJsonFenceClosed(c: string)
    requires Contains(c, JsonFence)
    ensures var a := c[IndexOf(c, JsonFence).value + |JsonFence|..];
      Contains(a, Fence) && !OccursAt(a, JsonFence, FirstOr(a, Fence) + 1)
      && !OccursAt(a, JsonFence, FirstOr(a, Fence) + 2) ==>
        StripFences(c) == Trim(a[..FirstOr(a, Fence)])
  {
    var a := c[IndexOf(c, JsonFence).value + |JsonFence|..];
    StripJsonFenceRule(c);
    if Contains(a, Fence) && !OccursAt(a, JsonFence, FirstOr(a, Fence) + 1)
       && !OccursAt(a, JsonFence, FirstOr(a, Fence) + 2) {
      CutAtFirstFence(a);
    }
  }

  /** The rule for a reply with "```" but no "```json": the text between the
      first two fences (or everything after the only one), trimmed. */
  lemma StripPlainFenceRule(c: string)
    requires !Contains(c, JsonFence) && Contains(c, Fence)
    ensures var a := c[IndexOf(c, Fence).value + |Fence|..];
      StripFences(c) == Trim(a[..FirstOr(a, Fence)])
  {
    var i := IndexOf(c, Fence).value;
    var a := c[i + |Fence|..];
    PiecesAt(c, Fence, i);
    PieceZero(a, Fence);
    CutPrefix(a, Fence, FirstOr(a, Fence));
  }

  predicate NoBacktick(s: string) {
    forall i :: 0 <= i < |s| ==> s[i] != '`'
  }

  /** A separator that starts with a backtick is found first right after a
      backtick-free prefix. */
  lemma FirstOccurrenceAfter(s: string, p: string, n: nat)
    requires p != "" && p[0] == '`' && n <= |s| && NoBacktick(s[..n]) && OccursAt(s, p, n)
    ensures IndexOf(s, p) == Some(n)
  {
    match IndexOf(s, p)
    case None =>
    case Some(j) =>
  }

  /** Splitting on a separator found first at `n` gives the text before it as
      the first piece and the rest as the following ones. */
  lemma PiecesAt(s: string, p: string, n: nat)
    requires p != "" && IndexOf(s, p) == Some(n)
    ensures Piece(s, p, 0) == s[..n]
    ensures Piece(s, p, 1) == Piece(s[n + |p|..], p, 0)
  {
    SplitAt(s, p, n);
    var tail := Split(s[n + |p|..], p);
    assert |tail| >= 1;
    assert Split(s, p)[0] == s[..n] && Split(s, p)[1] == tail[0];
  }

  /** A backtick-free text holds no fence. */
  lemma NoFenceIn(s: string, p: string)
    requires NoBacktick(s) && p != "" && p[0] == '`'
    ensures !Contains(s, p) && Piece(s, p, 0) == s
  {
    forall j | 0 <= j <= |s| ensures !OccursAt(s, p, j) {
      if j + |p| <= |s| {
        assert s[j..j + |p|][0] == s[j];
      }
    }
  }

  /** A text that starts with a backtick-free `body` and a fence is cut at that
      fence. */
  lemma CutAtFence(q: string, body: string)
    requires NoBacktick(body) && |q| >= |body| + 3 && q[..|body|] == body && q[|body|..|body| + 3] == Fence
    ensures Piece(q, Fence, 0) == body
  {
    assert NoBacktick(q[..|body|]);
    FirstOccurrenceAfter(q, Fence, |body|);
    PiecesAt(q, Fence, |body|);
  }

  /** The text following a fence that sits right after `body` is cut at that
      fence, when `body` has no backtick and the fence is not followed by one. */
  lemma CutAtClosingFence(body: string, post: string)
    requires NoBacktick(body) && (post == [] || post[0] != '`')
    ensures Piece(Piece(body + Fence + post, JsonFence, 0), Fence, 0) == body
  {
    var after := body + Fence + post;
    assert after[..|body|] == body;
    assert after[|body|..|body| + 3] == Fence;
    forall j | 0 <= j < |body| ensures !OccursAt(after, JsonFence, j) {
      assert after[j] == body[j];
    }
    forall j | |body| < j < |body| + 3 ensures !OccursAt(after, JsonFence, j) {
      if j + 7 <= |after| {
        assert after[j..j + 7][|body| + 3 - j] == after[|body| + 3];
      }
    }
    match IndexOf(after, JsonFence)
    case None =>
      CutAtFence(after, body);
    case Some(m) =>
      if m == |body| {
        assert after[..m] == body;
        NoFenceIn(body, Fence);
      } else {
        assert m >= |body| + 3;
        var prefix := after[..m];
        assert prefix[..|body|] == body;
        assert prefix[|body|..|body| + 3] == Fence;
        CutAtFence(prefix, body);
      }
  }

  /** A reply wrapped as ```json … ``` yields the trimmed text between the fences. */
  lemma {:induction false} StripJsonFence(pre: string, body: string, post: string)
    requires NoBacktick(pre) && NoBacktick(body) && (post == [] || post[0] != '`')
    ensures StripFences(pre + JsonFence + body + Fence + post) == Trim(body)
  {
    var content := pre + JsonFence + body + Fence + post;
    var after := body + Fence + post;
    assert content[..|pre|] == pre;
    assert content[|pre|..|pre| + 7] == JsonFence;
    assert content[|pre| + 7..] == after;
    FirstOccurrenceAfter(content, JsonFence, |pre|);
    PiecesAt(content, JsonFence, |pre|);
    CutAtClosingFence(body, post);
  }

  /** A reply wrapped as ``` … ``` (with no "```json") yields the trimmed text
      between the fences. */
  lemma {:induction false} StripPlainFence(pre: string, body: string, post: string)
    requires NoBacktick(pre) && NoBacktick(body)
    requires !Contains(pre + Fence + body + Fence + post, JsonFence)
    ensures StripFences(pre + Fence + body + Fence + post) == Trim(body)
  {
    var content := pre + Fence + body + Fence + post;
    var after := body + Fence + post;
    assert content[..|pre|] == pre;
    assert content[|pre|..|pre| + 3] == Fence;
    assert content[|pre| + 3..] == after;
    FirstOccurrenceAfter(content, Fence, |pre|);
    PiecesAt(content, Fence, |pre|);
    assert after[..|body|] == body;
    assert after[|body|..|body| + 3] == Fence;
    CutAtFence(after, body);
    NoFenceIn(body, Fence);
    assert Piece(content, Fence, 1) == body;
  }

  /** A reply without fences is parsed as it is. */
  lemma UnfencedUnchanged(content: string)
    requires !Contains(content, Fence)
    ensures StripFences(content) == content
  {
    if Contains(content, JsonFence) {
      var i := IndexOf(content, JsonFence).value;
      assert content[i..i + 7][..3] == Fence;
      assert content[i..i + 3] == Fence;
      ContainsAt(content, Fence, i);
    }
  }

  /** The pair a reply provides when its parsed fields are both truthy. */
  function ReplyPair(reply: Option<string>, parse: string -> Option<ParsedReply>): (r: Option<Explanation>)
    ensures r.Some? ==> Truthy(r.value.explanation) && Truthy(r.value.fixProposal)
    ensures r.Some? ==> reply.Some? && parse(StripFences(Trim(reply.value)))
                        == Some(ParsedReply(r.value.explanation, r.value.fixProposal))
    ensures r.Some? <==>
      reply.Some? && parse(StripFences(Trim(reply.value))).Some?
      && Truthy(parse(StripFences(Trim(reply.value))).value.explanation)
      && Truthy(parse(StripFences(Trim(reply.value))).value.fixProposal)
  {
    match reply
    case None => None
    case Some(content) =>
      match parse(StripFences(Trim(content)))
      case Some(ParsedReply(Some(e), Some(f))) =>
        if e != "" && f != "" then Some(Canned(e, f)) else None
      case _ => None
  }

  /** `generateExplanation(rawLog, bugType, severity)`: the reply's pair when an
      API key is configured and the reply provides one, the fallback otherwise.
      It is total: there is no error result. */
  function GenerateExplanation(apiKey: Option<string>, reply: Option<string>,
                               parse: string -> Option<ParsedReply>, bugType: string): (r: Explanation)
    ensures !Truthy(apiKey) ==> r == Fallback(bugType)
    ensures reply.None? ==> r == Fallback(bugType)
    ensures Truthy(apiKey) && ReplyPair(reply, parse).Some? ==> r == ReplyPair(reply, parse).value
    ensures ReplyPair(reply, parse).None? ==> r == Fallback(bugType)
  {
    if !Truthy(apiKey) then Fallback(bugType)
    else match ReplyPair(reply, parse)
      case Some(pair) => pair
      case None => Fallback(bugType)
  }

  /** Without an API key the reply plays no part: no request is made. */
  lemma NoKeyNoRequest(apiKey: Option<string>, reply1: Option<string>, reply2: Option<string>,
                       parse: string -> Option<ParsedReply>, bugType: string)
    requires !Truthy(apiKey)
    ensures GenerateExplanation(apiKey, reply1, parse, bugType) == GenerateExplanation(apiKey, reply2, parse, bugType)
  {
  }

  /** A reply fenced as ```json … ``` around a backtick-free body is parsed as
      the trimmed body. */
  lemma FencedReplyStripped(body: string)
    requires NoBacktick(body)
    ensures StripFences(Trim(JsonFence + body + Fence)) == Trim(body)
  {
    var content := JsonFence + body + Fence;
    assert content == [] + JsonFence + body + Fence + [];
    StripJsonFence([], body, []);
    assert content[0] == '`' && content[|content| - 1] == '`';
    TrimUnchanged(content);
  }

  /** With a key, a reply whose stripped text parses to two non-empty fields
      gives exactly those fields. */
  lemma ParsedPairUsed(apiKey: string, content: string, parse: string -> Option<ParsedReply>,
                       bugType: string, e: string, f: string)
    requires apiKey != "" && e != "" && f != ""
    requires parse(StripFences(Trim(content))) == Some(ParsedReply(Some(e), Some(f)))
    ensures GenerateExplanation(Some(apiKey), Some(content), parse, bugType) == Canned(e, f)
  {
  }

  /** Scenario: a reply fenced as ```json … ``` whose body parses to
      {"explanation":"E","fix_proposal":"F"} gives that pair. */
  lemma FencedReplyUsed(apiKey: string, body: string, parse: string -> Option<ParsedReply>, bugType: string)
    requires apiKey != "" && NoBacktick(body)
    requires parse(Trim(body)) == Some(ParsedReply(Some("E"), Some("F")))
    ensures GenerateExplanation(Some(apiKey), Some(JsonFence + body + Fence), parse, bugType) == Canned("E", "F")
  {
    FencedReplyStripped(body);
    ParsedPairUsed(apiKey, JsonFence + body + Fence, parse, bugType, "E", "F");
  }

  const GenericFix: string := "Bloquer l'IP source et analyser les logs pour plus de détails."

  /** The canned pairs, one per known category. */
  const FallbackTable: map<string, Explanation> := map[
    "sql_injection" := Canned(
      "Un pirate tente de manipuler votre base de données en insérant des commandes malveillantes.",
      "Utiliser des requêtes préparées, valider toutes les entrées, activer WAF."),
    "xss" := Canned(
      "Un pirate essaie d'injecter du code malveillant dans votre site web pour voler des informations.",
      "Nettoyer et échapper toutes les entrées utilisateur, implémenter CSP."),
    "brut_force_ssh" := Canned(
      "Un attaquant tente de deviner votre mot de passe en essayant des milliers de combinaisons.",
      "Bloquer l'IP après plusieurs tentatives, implémenter l'authentification à deux facteurs."),
    "port_scan" := Canned(
      "Quelqu'un essaie de trouver les portes d'entrée ouvertes de votre système informatique.",
      "Bloquer l'IP source et activer la détection de scan avancée."),
    "malware_download" := Canned(
      "Un fichier dangereux tente d'être téléchargé sur votre système.",
      "Bloquer le téléchargement, scanner avec antivirus, mettre en quarantaine."),
    "ddos" := Canned(
      "Votre système reçoit une avalanche de demandes simultanées pour le faire tomber.",
      "Activer la limitation de débit, filtrage géographique, et protection DDoS du CDN."),
    "unauthorized_access" := Canned(
      "Tentative d'accès non autorisé détectée.",
      "Bloquer l'IP source et renforcer les contrôles d'authentification.")]

  /** The properties every object literal inherits from `Object.prototype`.
      Looking one of them up in the table finds a function (or, for
      `__proto__`, the prototype itself): a truthy value with neither an
      `explanation` nor a `fix_proposal` property. */
  const InheritedKeys: set<string> := {
    "constructor", "hasOwnProperty", "isPrototypeOf", "propertyIsEnumerable",
    "toString", "toLocaleString", "valueOf", "__proto__",
    "__defineGetter__", "__defineSetter__", "__lookupGetter__", "__lookupSetter__"}

  /** The generic message naming an unrecognised category. */
  function GenericExplanation(bugType: string): (r: Explanation)
    ensures r.explanation.Some? && OccursAt(r.explanation.value, bugType, 16)
    ensures r.fixProposal == Some(GenericFix)
  {
    var e := "Attaque de type " + bugType + " détectée.";
    assert e[16..16 + |bugType|] == bugType;
    Canned(e, GenericFix)
  }

  /** `getFallbackExplanation(bugType)`: `fallbacks[bugType] || generic`. An
      own key of the table gives its canned pair; an inherited name finds a
      truthy value without the two fields; anything else gets the generic
      message. */
  function Fallback(bugType: string): (r: Explanation)
    ensures bugType !in InheritedKeys ==> Truthy(r.explanation) && Truthy(r.fixProposal)
    ensures bugType in InheritedKeys ==> r == Explanation(None, None)
  {
    if bugType in FallbackTable then FallbackTable[bugType]
    else if bugType in InheritedKeys then Explanation(None, None)
    else GenericExplanation(bugType)
  }

  /** An unrecognised category gets the generic message, which names it; a
      category named like an inherited property gets no text at all. */
  lemma UnknownCategoryNamed(bugType: string)
    requires bugType !in FallbackTable
    ensures bugType !in InheritedKeys ==>
      Fallback(bugType).explanation.Some? && Contains(Fallback(bugType).explanation.value, bugType)
      && Fallback(bugType).fixProposal == Some(GenericFix)
    ensures bugType in InheritedKeys ==>
      Fallback(bugType).explanation.None? && Fallback(bugType).fixProposal.None?
  {
    if bugType !in InheritedKeys {
      ContainsAt(Fallback(bugType).explanation.value, bugType, 16);
    }
  }

  /** Each of the seven known categories has its own canned pair, never the generic one. */
  lemma KnownCategoriesDistinct(a: string, b: string)
    requires a in FallbackTable && b in FallbackTable && a != b
    ensures Fallback(a) != Fallback(b)
    ensures Fallback(a).fixProposal != Some(GenericFix)
  {
  }

  /** Scenario: with the endpoint failing, "sql_injection" gets its own canned pair. */
  lemma SqlInjectionFallback(apiKey: Option<string>, parse: string -> Option<ParsedReply>)
    ensures GenerateExplanation(apiKey, None, parse, "sql_injection") == FallbackTable["sql_injection"]
    ensures GenerateExplanation(apiKey, None, parse, "sql_injection") != GenericExplanation("sql_injection")
  {
  }
}
