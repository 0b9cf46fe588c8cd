/** One alert card (frontend/src/components/request.tsx): the three flags
    driven by the apply button, the send outcome and the feed's
    acknowledgements; the removal timer; the relative age label; the
    severity colours. */
module ActionCard {
  import opened Text
  import opened Alert
  import opened Transport

  /** Delay of the removal timer set after a successful send, in milliseconds. */
  const RemovalDelay: nat := 1000

  /** `isApplying`, `isApplied`, `error`. */
  datatype Flags = Flags(applying: bool, applied: bool, error: bool)

  const Idle: Flags := Flags(false, false, false)

  /** While a fix is being applied, the card shows neither success nor failure. */
  predicate Consistent(f: Flags) {
    f.applying ==> !f.applied && !f.error
  }

  /** Whether the apply button is enabled: not while applying, nor once applied. */
  predicate ApplyEnabled(f: Flags) {
    !f.applying && !f.applied
  }

  /** Whether the cancel button is enabled: not while applying. */
  predicate CancelEnabled(f: Flags) {
    !f.applying
  }

  /** A feed message is about the card with index `index`. */
  predicate Concerns(m: Message, index: int) {
    (m.FixApplied? && m.appliedIndex == Some(index)) || (m.FixError? && m.failedIndex == Some(index))
  }

  /** The card's feed handler: an acknowledgement for its own index marks the
      fix applied, a failure report for it marks an error; nothing else
      touches the flags. */
  function Receive(f: Flags, m: Message, index: int): (g: Flags)
    ensures m.FixApplied? && m.appliedIndex == Some(index) ==> g == Flags(false, true, false)
    ensures m.FixError? && m.failedIndex == Some(index) ==> g == Flags(false, f.applied, true)
    ensures !Concerns(m, index) ==> g == f
    ensures Consistent(f) ==> Consistent(g)
    ensures f.applied ==> g.applied
    ensures Concerns(m, index) ==> !g.applying
  {
    if m.FixApplied? && m.appliedIndex == Some(index) then Flags(false, true, false)
    else if m.FixError? && m.failedIndex == Some(index) then f.(applying := false, error := true)
    else f
  }

  /** The first two statements of `handleApplySolution`. */
  function StartApply(f: Flags): (g: Flags)
    requires ApplyEnabled(f)
    ensures g.applying && Consistent(g) && !ApplyEnabled(g) && !CancelEnabled(g)
  {
    f.(applying := true, error := false)
  }

  /** The `catch` branch of `handleApplySolution`. */
  function SendFailed(f: Flags): (g: Flags)
    ensures g.error && !g.applying && g.applied == f.applied
    ensures Consistent(g) && CancelEnabled(g)
  {
    f.(applying := false, error := true)
  }

  /** From an enabled button, a failed send re-enables it, showing the error. */
  lemma FailedSendReenables(f: Flags)
    requires ApplyEnabled(f)
    ensures ApplyEnabled(SendFailed(StartApply(f))) && SendFailed(StartApply(f)).error
  {
  }

  /** The apply request a card sends. */
  function FixFor(r: Request): (fix: FixRequest)
    ensures fix.requestIndex == r.index && fix.firewallId == r.firewallId
    ensures fix.bugType == r.bugType && fix.fixProposal == r.fixProposal
  {
    FixRequest(r.index, r.firewallId, r.bugType, r.fixProposal)
  }

  class RequestCard {
    /** The `request` prop. */
    const request: Request
    /** Whether the parent passed `onRemoveRequest` (LogHistory does not). */
    const hasRemoveCallback: bool
    var flags: Flags
    /** Removal timers armed by successful sends and not fired yet. */
    var pendingRemovals: nat

    ghost predicate Valid()
      reads this
    {
      Consistent(flags)
    }

    /** Mounting a card registers its feed handler. */
    constructor (r: Request, callback: bool, conn: Connector)
      requires conn.Valid()
      modifies conn
      ensures Valid() && conn.Valid()
      ensures request == r && hasRemoveCallback == callback && flags == Idle && pendingRemovals == 0
      ensures conn.handlers == if Card(r.index) in old(conn.handlers) then old(conn.handlers)
                               else old(conn.handlers) + [Card(r.index)]
      ensures conn.sockets == old(conn.sockets) && conn.socket == old(conn.socket) && conn.sent == old(conn.sent)
      ensures conn.timers == old(conn.timers) && conn.reconnectTimeout == old(conn.reconnectTimeout)
    {
      request, hasRemoveCallback := r, callback;
      flags, pendingRemovals := Idle, 0;
      new;
      conn.Subscribe(Card(r.index));
    }

    /** The feed handler registered on `conn` by this card, for one message. */
    method OnFeedMessage(conn: Connector, m: Message)
      requires Valid() && Card(request.index) in conn.handlers
      modifies this
      ensures Valid()
      ensures flags == Receive(old(flags), m, request.index)
      ensures pendingRemovals == old(pendingRemovals)
    {
      flags := Receive(flags, m, request.index);
    }

    /** `handleApplySolution`, reachable only through the enabled apply
        button: a successful send arms the removal timer whatever the server
        later answers; a rejected one shows the error and arms nothing. */
    method HandleApply(conn: Connector) returns (sendOk: bool)
      requires Valid() && conn.Valid() && ApplyEnabled(flags)
      modifies this, conn
      ensures Valid() && conn.Valid()
      ensures sendOk == old(conn.IsConnected())
      ensures sendOk ==> flags == StartApply(old(flags)) && pendingRemovals == old(pendingRemovals) + 1
      ensures sendOk ==> conn.sent == old(conn.sent) + [(old(conn.socket).value, ApplyFix(FixFor(request)))]
      ensures !sendOk ==> flags == SendFailed(StartApply(old(flags))) && pendingRemovals == old(pendingRemovals)
      ensures !sendOk ==> conn.sent == old(conn.sent)
      ensures conn.sockets == old(conn.sockets) && conn.socket == old(conn.socket) && conn.handlers == old(conn.handlers)
      ensures conn.timers == old(conn.timers) && conn.reconnectTimeout == old(conn.reconnectTimeout)
    {
      flags := StartApply(flags);
      sendOk := conn.Send(ApplyFix(FixFor(request)));
      if sendOk {
        pendingRemovals := pendingRemovals + 1;
      } else {
        flags := SendFailed(flags);
      }
    }

    /** A removal timer fires: it asks the list to drop this card's index,
        or, with no callback passed, the call throws and nothing is removed. */
    method FireRemovalTimer() returns (removed: Option<int>)
      requires Valid() && pendingRemovals > 0
      modifies this
      ensures Valid()
      ensures removed.Some? <==> hasRemoveCallback
      ensures removed.Some? ==> removed.value == request.index
      ensures pendingRemovals == old(pendingRemovals) - 1 && flags == old(flags)
    {
      pendingRemovals := pendingRemovals - 1;
      removed := if hasRemoveCallback then Some(request.index) else None;
    }
  }

  /** A card under the history list applies a fix on an open connection: the
      request goes out and a removal is scheduled before any answer; the
      acknowledgement for another card leaves it applying; its own marks it
      applied; the removal timer then removes nothing, for want of a callback. */
  method ApplyThenAcknowledge(url: string, r: Request, other: int)
    returns (sendOk: bool, scheduled: nat, applyingAfterOther: bool, appliedAfterOwn: bool, removed: Option<int>)
    requires other != r.index
    ensures sendOk && scheduled == 1 && applyingAfterOther && appliedAfterOwn && removed == None
  {
    var c := new Connector();
    c.Connect(url);
    c.OnOpen(0);
    var card := new RequestCard(r, false, c);
    assert c.handlers == [Card(r.index)];
    sendOk := card.HandleApply(c);
    scheduled := card.pendingRemovals;
    card.OnFeedMessage(c, FixApplied(Some(other), None));
    applyingAfterOther := card.flags.applying;
    card.OnFeedMessage(c, FixApplied(Some(r.index), Some(r.firewallId)));
    appliedAfterOwn := card.flags.applied;
    removed := card.FireRemovalTimer();
  }

  /** Applying while disconnected shows the error and schedules nothing. */
  method ApplyWhileDisconnected(r: Request) returns (sendOk: bool, error: bool, scheduled: nat, enabled: bool)
    ensures !sendOk && error && scheduled == 0 && enabled
  {
    var c := new Connector();
    var card := new RequestCard(r, true, c);
    sendOk := card.HandleApply(c);
    error := card.flags.error;
    scheduled := card.pendingRemovals;
    enabled := ApplyEnabled(card.flags);
  }

  // ----- relative age -----

  datatype TimeUnit = Seconds | Minutes | Hours | Days

  /** The age shown on a card: an amount and its unit. */
  datatype Age = Age(amount: int, unit: TimeUnit)

  /** Milliseconds in one unit. */
  function UnitMillis(u: TimeUnit): (n: nat)
    ensures n >= 1000
  {
    match u
    case Seconds => 1000
    case Minutes => 60000
    case Hours => 3600000
    case Days => 86400000
  }

  /** `getRelativeTime` for an age of `diffMs` milliseconds: successive floor
      divisions (Dafny's `/` by a positive divisor is the floor), and the
      first unit whose count is under its threshold. */
  function RelativeTime(diffMs: int): (a: Age)
    ensures a.unit == Seconds <==> diffMs < 60000
    ensures a.unit == Minutes <==> 60000 <= diffMs < 3600000
    ensures a.unit == Hours <==> 3600000 <= diffMs < 86400000
    ensures a.unit == Days <==> 86400000 <= diffMs
    ensures a.amount * UnitMillis(a.unit) <= diffMs < (a.amount + 1) * UnitMillis(a.unit)
    ensures a.unit == Seconds ==> a.amount < 60
    ensures a.unit == Minutes ==> 1 <= a.amount < 60
    ensures a.unit == Hours ==> 1 <= a.amount < 24
    ensures a.unit == Days ==> 1 <= a.amount
  {
    var secs := diffMs / 1000;
    var mins := secs / 60;
    var hours := mins / 60;
    var days := hours / 24;
    if secs < 60 then Age(secs, Seconds)
    else if mins < 60 then Age(mins, Minutes)
    else if hours < 24 then Age(hours, Hours)
    else Age(days, Days)
  }

  /** A timestamp in the future gives a negative count of seconds. */
  lemma FutureTimestamp()
    ensures RelativeTime(-1500) == Age(-2, Seconds)
  {
  }

  function DigitChar(d: nat): (c: char)
    requires d < 10
    ensures '0' <= c <= '9'
  {
    ('0' as int + d) as char
  }

  /** Decimal digits of a natural number, most significant first. */
  function Digits(n: nat): (s: string)
    ensures |s| >= 1 && forall i :: 0 <= i < |s| ==> '0' <= s[i] <= '9'
    ensures n >= 10 ==> s[0] != '0'
  {
    if n < 10 then [DigitChar(n)] else Digits(n / 10) + [DigitChar(n % 10)]
  }

  /** The number a string of decimal digits denotes. */
  function DigitsValue(s: string): nat
    requires forall i :: 0 <= i < |s| ==> '0' <= s[i] <= '9'
  {
    if s == [] then 0 else DigitsValue(s[..|s| - 1]) * 10 + (s[|s| - 1] as int - '0' as int)
  }

  /** Reading the digits back gives the number. */
  lemma {:induction false} DigitsRoundTrip(n: nat)
    ensures DigitsValue(Digits(n)) == n
  {
    if n >= 10 {
      DigitsRoundTrip(n / 10);
      var s := Digits(n);
      assert s[..|s| - 1] == Digits(n / 10);
    }
  }

  /** JavaScript's rendering of an integer in a template literal. */
  function Decimal(n: int): (s: string)
    ensures n >= 0 ==> s == Digits(n)
    ensures n < 0 ==> s == "-" + Digits(-n)
  {
    if n < 0 then "-" + Digits(-n) else Digits(n)
  }

  function Suffix(u: TimeUnit): char {
    match u
    case Seconds => 's'
    case Minutes => 'm'
    case Hours => 'h'
    case Days => 'j'
  }

  /** The label `Il y a <amount><unit letter>`. */
  function AgeLabel(a: Age): (s: string)
    ensures |s| >= 9 && s[..7] == "Il y a " && s[|s| - 1] == Suffix(a.unit)
    ensures s[7..|s| - 1] == Decimal(a.amount)
  {
    var s := "Il y a " + Decimal(a.amount) + [Suffix(a.unit)];
    assert s[7..|s| - 1] == Decimal(a.amount);
    s
  }

  /** Distinct integers are rendered differently. */
  lemma DecimalInjective(x: int, y: int)
    requires Decimal(x) == Decimal(y)
    ensures x == y
  {
    if x >= 0 && y >= 0 {
      DigitsRoundTrip(x);
      DigitsRoundTrip(y);
    } else if x < 0 && y < 0 {
      assert Decimal(x)[1..] == Digits(-x) && Decimal(y)[1..] == Digits(-y);
      DigitsRoundTrip(-x);
      DigitsRoundTrip(-y);
    } else {
      assert false;
    }
  }

  /** The label determines the age: the amount is read back from its digits
      and the unit from its letter. */
  lemma AgeLabelDetermines(a: Age, b: Age)
    requires AgeLabel(a) == AgeLabel(b)
    ensures a == b
  {
    var s := AgeLabel(a);
    assert Decimal(a.amount) == s[7..|s| - 1] == Decimal(b.amount);
    DecimalInjective(a.amount, b.amount);
    assert Suffix(a.unit) == s[|s| - 1] == Suffix(b.unit);
  }

  /** Ninety seconds read as one minute. */
  lemma NinetySeconds()
    ensures AgeLabel(RelativeTime(90000)) == "Il y a 1m"
  {
  }

  // ----- severity colours -----

  datatype Tone = Red | Yellow | Green

  /** The card's tone, chosen on the lower-cased severity. */
  function SeverityTone(severity: string): (t: Tone)
    ensures t == Red <==> Lower(severity) == "élevé"
    ensures t == Yellow <==> Lower(severity) == "moyen"
    ensures t == Green <==> Lower(severity) != "élevé" && Lower(severity) != "moyen"
  {
    var s := Lower(severity);
    if s == "élevé" then Red else if s == "moyen" then Yellow else Green
  }

  /** The left border colour. */
  function BorderColor(t: Tone): string {
    match t
    case Red => "#ef4444"
    case Yellow => "#eab308"
    case Green => "#10b981"
  }

  /** The severity badge classes. */
  function BadgeClasses(t: Tone): string {
    match t
    case Red => "bg-red-100 text-red-800"
    case Yellow => "bg-yellow-100 text-yellow-800"
    case Green => "bg-green-100 text-green-800"
  }

  /** Each tone has its own border colour and its own badge. */
  lemma TonesDistinct(a: Tone, b: Tone)
    requires a != b
    ensures BorderColor(a) != BorderColor(b) && BadgeClasses(a) != BadgeClasses(b)
  {
  }

  /** Capitalised severities get the same colour: "ÉLEVÉ" is red; an unknown
      level is green, like "faible". */
  lemma SeverityCaseInsensitive()
    ensures SeverityTone("ÉLEVÉ") == Red && SeverityTone("Moyen") == Yellow
    ensures SeverityTone("critique") == Green && SeverityTone("faible") == Green
  {
    assert Lower("ÉLEVÉ") == "élevé";
    assert Lower("Moyen") == "moyen";
  }
}
