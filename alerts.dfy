/** The back end's expiry alerts: per-type day thresholds, the seven-day
    cooldown, the alert message, and the `run_alerts` and `preview_alerts`
    scans over the stored visas. Dates are day numbers and timestamps are
    microseconds, both passed in by the caller in place of the clock. */
module Alerts {
  import opened Wrappers
  import opened Seqs
  import opened Text

  /** Days of warning per visa type. Any other type string, the front end's
      "H-1B" included, has no threshold. */
  const AlertThresholdsDays: map<string, nat> := map["H1-B" := 210, "J-1" := 120]
  const AlertCooldownDays := 7
  const MicrosPerDay := 86_400_000_000
  const CooldownMicros := AlertCooldownDays * MicrosPerDay

  /** The fields of a stored visa that the scan reads or writes. */
  datatype Visa = Visa(id: int, userId: int, visaType: string, expiresOn: int, lastAlertedAt: Option<int>)

  datatype Alert = Alert(userId: int, visaId: int, alertType: string, message: string, createdAt: int)

  /** `_days_until`: whole days from today to the expiration date. */
  function DaysUntil(expirationDate: int, today: int): (days: int)
    ensures today + days == expirationDate
    ensures days < 0 <==> expirationDate < today
  {
    expirationDate - today
  }

  datatype ThresholdCheck = ThresholdCheck(shouldAlert: bool, daysLeft: int, thresholdDays: nat)

  /** `_visa_is_within_threshold`: an unknown type never alerts and reports a
      threshold of 0; a known type alerts once the days left reach its threshold. */
  function VisaIsWithinThreshold(visa: Visa, today: int): (c: ThresholdCheck)
    ensures c.daysLeft == DaysUntil(visa.expiresOn, today)
    ensures visa.visaType !in AlertThresholdsDays ==> !c.shouldAlert && c.thresholdDays == 0
    ensures visa.visaType in AlertThresholdsDays ==>
              c.thresholdDays == AlertThresholdsDays[visa.visaType]
              && (c.shouldAlert <==> c.daysLeft <= c.thresholdDays)
  {
    var daysLeft := DaysUntil(visa.expiresOn, today);
    if visa.visaType !in AlertThresholdsDays then ThresholdCheck(false, daysLeft, 0)
    else
      var thresholdDays := AlertThresholdsDays[visa.visaType];
      ThresholdCheck(daysLeft <= thresholdDays, daysLeft, thresholdDays)
  }

  /** Exactly two type strings are configured; "H-1B", as the front end spells it, is not one. */
  lemma KnownTypes(visaType: string)
    ensures visaType in AlertThresholdsDays <==> visaType == "H1-B" || visaType == "J-1"
    ensures "H-1B" !in AlertThresholdsDays
  {
  }

  /** A visa of a known type that has already expired always qualifies. */
  lemma ExpiredKnownTypeAlerts(visa: Visa, today: int)
    requires visa.visaType in AlertThresholdsDays && visa.expiresOn < today
    ensures VisaIsWithinThreshold(visa, today).shouldAlert
  {
  }

  /** `_is_in_cooldown`: alerted before, less than seven days ago. */
  predicate IsInCooldown(visa: Visa, now: int): (b: bool)
    ensures visa.lastAlertedAt.None? ==> !b
    ensures b ==> now < visa.lastAlertedAt.value + 7 * 24 * 60 * 60 * 1_000_000
  {
    visa.lastAlertedAt.Some? && now - visa.lastAlertedAt.value < CooldownMicros
  }

  /** A visa out of cooldown stays out of it as time passes, until it is stamped again. */
  lemma CooldownEnds(visa: Visa, now: int, later: int)
    requires now <= later && !IsInCooldown(visa, now)
    ensures !IsInCooldown(visa, later)
  {
  }

  /** Stamping a visa at `now` silences it for seven days, and not a moment longer. */
  lemma StampStartsCooldown(visa: Visa, now: int, later: int)
    ensures now <= later < now + CooldownMicros ==> IsInCooldown(visa.(lastAlertedAt := Some(now)), later)
    ensures !IsInCooldown(visa.(lastAlertedAt := Some(now)), now + CooldownMicros)
    ensures !IsInCooldown(visa.(lastAlertedAt := None), later)
  {
  }

  // ---- the message ----

  function MessageHead(visa: Visa): string
  {
    "Your " + visa.visaType + " visa "
  }

  const ExpiredWord := "expired "
  const FutureWord := "will expire in "

  /** What follows the day count of a visa already past its date. */
  const ExpiredTail := " day(s) ago. " + "Please update your records immediately."

  /** What follows the day count of a visa still ahead of its date: the
      alert window of `thresholdDays` days and the request. */
  function WindowTail(thresholdDays: nat): string
  {
    " day(s). " + "This is within the " + NatToString(thresholdDays)
    + "-day alert window. " + "Please update your information."
  }

  /** `_make_alert_message`: "Your <type> visa expired N day(s) ago. ..." with
      N = -daysLeft for a visa past its date, "Your <type> visa will expire in
      N day(s). This is within the <threshold>-day alert window. ..." otherwise. */
  function MakeAlertMessage(visa: Visa, daysLeft: int, thresholdDays: nat): (m: string)
    ensures var h := |MessageHead(visa)|;
      |m| > h + 15 && m[..h] == MessageHead(visa)
      && (daysLeft < 0 <==> m[h] == 'e')
      && (daysLeft < 0 ==> LeadingDigits(m[h + 8..]) == NatToString(-daysLeft))
      && (daysLeft >= 0 ==> LeadingDigits(m[h + 15..]) == NatToString(daysLeft))
  {
    if daysLeft < 0 then Framed(MessageHead(visa), ExpiredWord, NatToString(-daysLeft), ExpiredTail)
    else Framed(MessageHead(visa), FutureWord, NatToString(daysLeft), WindowTail(thresholdDays))
  }

  /** `head + word + n + tail` for a numeral `n` followed by text that does
      not start with a digit, and where each piece can be read back. */
  function Framed(head: string, word: string, n: string, tail: string): (m: string)
    requires word != [] && n != [] && AllDigits(n) && StartsWithNonDigit(tail)
    ensures |m| == |head| + |word| + |n| + |tail|
    ensures m[..|head|] == head && m[|head|] == word[0]
    ensures m[|head|..|head| + |word|] == word
    ensures LeadingDigits(m[|head| + |word|..]) == n
    ensures m[|head| + |word| + |n|..] == tail
  {
    var m := head + (word + (n + tail));
    assert m[|head|..] == word + (n + tail);
    assert m[|head|..][|word|..] == n + tail;
    LeadingDigitsOfNumeral(n, tail);
    m
  }

  /** The wording around the day count: "expired " and " day(s) ago. ..." for
      a visa past its date; "will expire in " and the alert-window sentence
      naming `thresholdDays` otherwise. */
  lemma MessageWording(visa: Visa, daysLeft: int, thresholdDays: nat)
    ensures var m, h := MakeAlertMessage(visa, daysLeft, thresholdDays), |MessageHead(visa)|;
      daysLeft < 0 ==>
        m[h..h + |ExpiredWord|] == ExpiredWord && m[h + |ExpiredWord| + |NatToString(-daysLeft)|..] == ExpiredTail
    ensures var m, h := MakeAlertMessage(visa, daysLeft, thresholdDays), |MessageHead(visa)|;
      daysLeft >= 0 ==>
        m[h..h + |FutureWord|] == FutureWord && m[h + |FutureWord| + |NatToString(daysLeft)|..] == WindowTail(thresholdDays)
  {
  }

  /** The window sentence names the threshold: its digits follow the
      28 characters " day(s). This is within the ". */
  lemma WindowTailNamesThreshold(thresholdDays: nat)
    ensures LeadingDigits(WindowTail(thresholdDays)[28..]) == NatToString(thresholdDays)
  {
    var rest := "-day alert window. " + "Please update your information.";
    assert WindowTail(thresholdDays)[28..] == NatToString(thresholdDays) + rest;
    LeadingDigitsOfNumeral(NatToString(thresholdDays), rest);
  }

  /** For a visa not yet past its date, the message determines the threshold. */
  lemma MessageDeterminesThreshold(visa: Visa, daysLeft: int, ta: nat, tb: nat)
    requires daysLeft >= 0
    requires MakeAlertMessage(visa, daysLeft, ta) == MakeAlertMessage(visa, daysLeft, tb)
    ensures ta == tb
  {
    var k := |MessageHead(visa)| + |FutureWord| + |NatToString(daysLeft)|;
    MessageWording(visa, daysLeft, ta);
    MessageWording(visa, daysLeft, tb);
    assert WindowTail(ta) == MakeAlertMessage(visa, daysLeft, ta)[k..] == WindowTail(tb);
    WindowTailNamesThreshold(ta);
    WindowTailNamesThreshold(tb);
    NatToStringInjective(ta, tb);
  }

  /** The message determines the days left. */
  lemma MessageDeterminesDays(visa: Visa, a: int, b: int, ta: nat, tb: nat)
    requires MakeAlertMessage(visa, a, ta) == MakeAlertMessage(visa, b, tb)
    ensures a == b
  {
    MessageSign(visa, a, b, ta, tb);
    if a < 0 {
      PastDaysReadBack(visa, a, b, ta, tb);
    } else {
      FutureDaysReadBack(visa, a, b, ta, tb);
    }
  }

  /** Two "expired N day(s) ago" messages that are equal name the same N. */
  lemma PastDaysReadBack(visa: Visa, a: int, b: int, ta: nat, tb: nat)
    requires a < 0 && b < 0
    requires MakeAlertMessage(visa, a, ta) == MakeAlertMessage(visa, b, tb)
    ensures a == b
  {
    FramedReadBack(MessageHead(visa), ExpiredWord, NatToString(-a), NatToString(-b), ExpiredTail, ExpiredTail);
    NatToStringInjective(-a, -b);
  }

  /** Two "will expire in N day(s)" messages that are equal name the same N. */
  lemma FutureDaysReadBack(visa: Visa, a: int, b: int, ta: nat, tb: nat)
    requires a >= 0 && b >= 0
    requires MakeAlertMessage(visa, a, ta) == MakeAlertMessage(visa, b, tb)
    ensures a == b
  {
    FramedReadBack(MessageHead(visa), FutureWord, NatToString(a), NatToString(b), WindowTail(ta), WindowTail(tb));
    NatToStringInjective(a, b);
  }

  /** Equal messages agree on whether the visa is past its date. */
  lemma MessageSign(visa: Visa, a: int, b: int, ta: nat, tb: nat)
    requires MakeAlertMessage(visa, a, ta) == MakeAlertMessage(visa, b, tb)
    ensures a < 0 <==> b < 0
  {
    var m, h := MakeAlertMessage(visa, a, ta), |MessageHead(visa)|;
    assert (a < 0 <==> m[h] == 'e') && (b < 0 <==> m[h] == 'e');
  }

  /** Equal framed texts carry equal numerals. */
  lemma FramedReadBack(head: string, word: string, n1: string, n2: string, t1: string, t2: string)
    requires word != [] && n1 != [] && AllDigits(n1) && StartsWithNonDigit(t1)
    requires n2 != [] && AllDigits(n2) && StartsWithNonDigit(t2)
    requires Framed(head, word, n1, t1) == Framed(head, word, n2, t2)
    ensures n1 == n2
  {
    var m := Framed(head, word, n1, t1);
    assert n1 == LeadingDigits(m[|head| + |word|..]) == n2;
  }


  // ---- one pass of the scan ----

  datatype Outcome = Created | SkippedCooldown | SkippedUnknownType | NotDue

  /** What the loop body does with one visa. */
  function OutcomeOf(visa: Visa, today: int, now: int): (o: Outcome)
    ensures o == SkippedUnknownType <==> visa.visaType !in AlertThresholdsDays
    ensures o == Created <==> VisaIsWithinThreshold(visa, today).shouldAlert && !IsInCooldown(visa, now)
    ensures o == SkippedCooldown <==> VisaIsWithinThreshold(visa, today).shouldAlert && IsInCooldown(visa, now)
  {
    var check := VisaIsWithinThreshold(visa, today);
    if !check.shouldAlert then
      if visa.visaType !in AlertThresholdsDays then SkippedUnknownType else NotDue
    else if IsInCooldown(visa, now) then SkippedCooldown
    else Created
  }

  /** `if user_id:` — a missing id and the id 0 both mean every user. */
  predicate Selected(userId: Option<int>, visa: Visa)
  {
    userId.None? || userId.value == 0 || visa.userId == userId.value
  }

  function IsSelected(userId: Option<int>): Visa -> bool
  {
    (v: Visa) => Selected(userId, v)
  }

  function HasOutcome(userId: Option<int>, today: int, now: int, o: Outcome): Visa -> bool
  {
    (v: Visa) => Selected(userId, v) && OutcomeOf(v, today, now) == o
  }

  function AlertFor(today: int, now: int): Visa -> Alert
  {
    (v: Visa) =>
      var check := VisaIsWithinThreshold(v, today);
      Alert(v.userId, v.id, "expiry_window", MakeAlertMessage(v, check.daysLeft, check.thresholdDays), now)
  }

  /** A visa after the scan: stamped with `now` exactly when it got an alert. */
  function StampFor(userId: Option<int>, today: int, now: int): Visa -> Visa
  {
    (v: Visa) => if HasOutcome(userId, today, now, Created)(v) then v.(lastAlertedAt := Some(now)) else v
  }

  datatype RunReport = RunReport(created: seq<Alert>, skippedCooldown: nat, skippedUnknownType: nat)

  /** The response of `run_alerts` over the stored visas `vs`. Each scanned visa
      is counted at most once, every alert is an "expiry_window" alert stamped
      `now`, and with a user filter every alert belongs to that user. */
  function ScanReport(vs: seq<Visa>, userId: Option<int>, today: int, now: int): (r: RunReport)
    ensures |r.created| + r.skippedCooldown + r.skippedUnknownType <= |Filter(vs, IsSelected(userId))|
    ensures forall i :: 0 <= i < |r.created| ==>
              r.created[i].alertType == "expiry_window" && r.created[i].createdAt == now
    ensures userId.Some? && userId.value != 0 ==>
              forall i :: 0 <= i < |r.created| ==> r.created[i].userId == userId.value
  {
    var alerted := Filter(vs, HasOutcome(userId, today, now, Created));
    DisjointCounts3(vs, HasOutcome(userId, today, now, Created), HasOutcome(userId, today, now, SkippedCooldown),
                    HasOutcome(userId, today, now, SkippedUnknownType), IsSelected(userId));
    FilterAllPass(vs, HasOutcome(userId, today, now, Created));
    RunReport(
      Map(alerted, AlertFor(today, now)),
      |Filter(vs, HasOutcome(userId, today, now, SkippedCooldown))|,
      |Filter(vs, HasOutcome(userId, today, now, SkippedUnknownType))|)
  }

  /** A visa alerted by one run gets no second alert from a run less than seven
      days later, whatever that run's day and user filter. */
  lemma RerunWithinCooldown(vs: seq<Visa>, userId: Option<int>, today: int, now: int,
                            userId2: Option<int>, today2: int, now2: int, i: int)
    requires now <= now2 < now + CooldownMicros
    requires 0 <= i < |vs| && HasOutcome(userId, today, now, Created)(vs[i])
    ensures !HasOutcome(userId2, today2, now2, Created)(Map(vs, StampFor(userId, today, now))[i])
  {
    StampStartsCooldown(vs[i], now, now2);
  }

  // ---- the dry run ----

  datatype PreviewEntry = PreviewEntry(
    userId: int,
    visaId: int,
    visaType: string,
    expiresOn: int,
    daysLeft: int,
    thresholdDays: nat,
    cooldownActive: bool,
    message: string)

  function ShouldAlert(userId: Option<int>, today: int): Visa -> bool
  {
    (v: Visa) => Selected(userId, v) && VisaIsWithinThreshold(v, today).shouldAlert
  }

  function EntryFor(today: int, now: int): Visa -> PreviewEntry
  {
    (v: Visa) =>
      var check := VisaIsWithinThreshold(v, today);
      PreviewEntry(v.userId, v.id, v.visaType, v.expiresOn, check.daysLeft, check.thresholdDays,
                   IsInCooldown(v, now), MakeAlertMessage(v, check.daysLeft, check.thresholdDays))
  }

  /** `preview_alerts`: one entry per selected visa that should alert, those in
      cooldown included and flagged. */
  function Preview(vs: seq<Visa>, userId: Option<int>, today: int, now: int): (p: seq<PreviewEntry>)
    ensures |p| == |Filter(vs, ShouldAlert(userId, today))|
    ensures forall i :: 0 <= i < |p| ==> p[i].daysLeft <= p[i].thresholdDays
  {
    var due := Filter(vs, ShouldAlert(userId, today));
    FilterAllPass(vs, ShouldAlert(userId, today));
    Map(due, EntryFor(today, now))
  }

  function NotInCooldown(now: int): Visa -> bool
  {
    (v: Visa) => !IsInCooldown(v, now)
  }

  /** At the same instant, `run_alerts` alerts exactly the previewed visas not
      flagged as in cooldown, in the same order; so its visas are a subsequence
      of the preview's. */
  lemma RunIsPreviewWithoutCooldown(vs: seq<Visa>, userId: Option<int>, today: int, now: int)
    ensures Filter(vs, HasOutcome(userId, today, now, Created))
         == Filter(Filter(vs, ShouldAlert(userId, today)), NotInCooldown(now))
    ensures IsSubsequence(Filter(vs, HasOutcome(userId, today, now, Created)),
                          Filter(vs, ShouldAlert(userId, today)))
  {
    FilterThenFilter(vs, ShouldAlert(userId, today), NotInCooldown(now), HasOutcome(userId, today, now, Created));
    FilterIsSubsequence(Filter(vs, ShouldAlert(userId, today)), NotInCooldown(now));
  }

  // ---- the store ----

  /** The visa and alert tables as the two endpoints see them. */
  class AlertStore {
    var visas: seq<Visa>
    var alerts: seq<Alert>

    constructor (visas: seq<Visa>)
      ensures this.visas == visas && alerts == []
    {
      this.visas := visas;
      alerts := [];
    }

    /** `_create_alert`: records the alert and stamps the visa with `now`. */
    method CreateAlert(i: nat, message: string, now: int) returns (alert: Alert)
      requires i < |visas|
      modifies this
      ensures alert == Alert(old(visas)[i].userId, old(visas)[i].id, "expiry_window", message, now)
      ensures alerts == old(alerts) + [alert]
      ensures visas == old(visas)[i := old(visas)[i].(lastAlertedAt := Some(now))]
    {
      var visa := visas[i];
      alert := Alert(visa.userId, visa.id, "expiry_window", message, now);
      alerts := alerts + [alert];
      visas := visas[i := visa.(lastAlertedAt := Some(now))];
    }

    /** The body of the `run_alerts` loop for the visa at `i`: counts it as
        skipped, alerts and stamps it, or passes over it. */
    method ScanVisa(i: nat, userId: Option<int>, today: int, now: int) returns (outcome: Outcome, alert: Option<Alert>)
      requires i < |visas|
      modifies this
      ensures outcome == ScanOutcome(userId, old(visas)[i], today, now)
      ensures alert == ScanAlert(userId, old(visas)[i], today, now)
      ensures visas == old(visas)[i := StampFor(userId, today, now)(old(visas)[i])]
      ensures alert.None? ==> alerts == old(alerts)
      ensures alert.Some? ==> alerts == old(alerts) + [alert.value]
    {
      var visa := visas[i];
      outcome, alert := NotDue, None;
      if Selected(userId, visa) {
        var check := VisaIsWithinThreshold(visa, today);
        if !check.shouldAlert {
          if visa.visaType !in AlertThresholdsDays {
            outcome := SkippedUnknownType;
          }
        } else if IsInCooldown(visa, now) {
          outcome := SkippedCooldown;
        } else {
          var message := MakeAlertMessage(visa, check.daysLeft, check.thresholdDays);
          var a := CreateAlert(i, message, now);
          outcome, alert := Created, Some(a);
          assert HasOutcome(userId, today, now, Created)(visa);
          assert StampFor(userId, today, now)(visa) == visa.(lastAlertedAt := Some(now));
        }
      }
      if outcome != Created {
        assert outcome == if Selected(userId, visa) then OutcomeOf(visa, today, now) else NotDue;
        assert !HasOutcome(userId, today, now, Created)(visa);
        assert StampFor(userId, today, now)(visa) == visa;
        assert visas[i := visa] == visas;
      }
    }

    /** One turn of the `run_alerts` loop: the visa at `i` is scanned and the
        progress over the first `i` visas becomes the progress over `i + 1`. */
    method Advance(ghost vs: seq<Visa>, ghost before: seq<Alert>, i: nat, userId: Option<int>, today: int, now: int,
                   report: RunReport) returns (next: RunReport)
      requires i < |vs| == |visas|
      requires visas == StampedUpTo(vs, i, StampFor(userId, today, now))
      requires report == ReportUpTo(vs, i, ScanOf(userId, today, now), AlertFor(today, now))
      requires alerts == before + report.created
      modifies this
      ensures visas == StampedUpTo(vs, i + 1, StampFor(userId, today, now))
      ensures next == ReportUpTo(vs, i + 1, ScanOf(userId, today, now), AlertFor(today, now))
      ensures alerts == before + next.created
    {
      StampStep(vs, i, StampFor(userId, today, now), visas);
      ReportStepUp(vs, i, userId, today, now);
      var outcome, alert := ScanVisa(i, userId, today, now);
      if alert.Some? {
        AppendOne(before, report.created, alert.value);
      }
      next := Tally(report, outcome, alert);
    }

    /** `run_alerts`: scans the selected visas in order, alerting each one that is
        due and not in cooldown. */
    method RunAlerts(userId: Option<int>, today: int, now: int) returns (report: RunReport)
      modifies this
      ensures report == ScanReport(old(visas), userId, today, now)
      ensures visas == Map(old(visas), StampFor(userId, today, now))
      ensures alerts == old(alerts) + report.created
    {
      ghost var vs := visas;
      ghost var before := alerts;
      report := RunReport([], 0, 0);
      var i := 0;
      while i < |visas|
        invariant 0 <= i <= |vs| == |visas|
        invariant visas == StampedUpTo(vs, i, StampFor(userId, today, now))
        invariant report == ReportUpTo(vs, i, ScanOf(userId, today, now), AlertFor(today, now))
        invariant alerts == before + report.created
      {
        report := Advance(vs, before, i, userId, today, now, report);
        i := i + 1;
      }
      assert i == |vs| && vs == old(visas);
      StampDone(vs, StampFor(userId, today, now));
      ReportDone(vs, userId, today, now);
    }

    /** `preview_alerts`: the same scan without alerting or stamping anything. */
    method PreviewAlerts(userId: Option<int>, today: int, now: int) returns (preview: seq<PreviewEntry>)
      ensures preview == Preview(visas, userId, today, now)
    {
      preview := [];
      var i := 0;
      while i < |visas|
        invariant 0 <= i <= |visas|
        invariant preview == Map(Filter(visas[..i], ShouldAlert(userId, today)), EntryFor(today, now))
      {
        var visa := visas[i];
        MapFilterSnoc(visas, i, ShouldAlert(userId, today), EntryFor(today, now));
        if Selected(userId, visa) {
          var check := VisaIsWithinThreshold(visa, today);
          if check.shouldAlert {
            var entry := PreviewEntry(visa.userId, visa.id, visa.visaType, visa.expiresOn,
                                      check.daysLeft, check.thresholdDays, IsInCooldown(visa, now),
                                      MakeAlertMessage(visa, check.daysLeft, check.thresholdDays));
            assert ShouldAlert(userId, today)(visa) && entry == EntryFor(today, now)(visa);
            preview := preview + [entry];
          }
        }
        i := i + 1;
      }
      assert i == |visas| && visas[..i] == visas;
    }
  }

  /** What the loop body does with the visa `v`: an unselected visa is passed over. */
  function ScanOutcome(userId: Option<int>, v: Visa, today: int, now: int): Outcome
  {
    if Selected(userId, v) then OutcomeOf(v, today, now) else NotDue
  }

  /** The alert the loop body creates for `v`, if any. */
  function ScanAlert(userId: Option<int>, v: Visa, today: int, now: int): Option<Alert>
  {
    if ScanOutcome(userId, v, today, now) == Created then Some(AlertFor(today, now)(v)) else None
  }

  /** The visas after the loop has passed the first `i` of them, each one
      replaced by its image under `f` in turn. */
  function StampedUpTo(vs: seq<Visa>, i: nat, f: Visa -> Visa): (r: seq<Visa>)
    requires i <= |vs|
    ensures |r| == |vs|
    ensures forall j :: 0 <= j < |vs| ==> r[j] == if j < i then f(vs[j]) else vs[j]
  {
    if i == 0 then vs
    else StampedUpTo(vs, i - 1, f)[i - 1 := f(vs[i - 1])]
  }

  /** The response after one more visa: its alert appended, or one skip counted. */
  function Tally(r: RunReport, outcome: Outcome, alert: Option<Alert>): RunReport
  {
    match outcome
    case Created => if alert.Some? then r.(created := r.created + [alert.value]) else r
    case SkippedCooldown => r.(skippedCooldown := r.skippedCooldown + 1)
    case SkippedUnknownType => r.(skippedUnknownType := r.skippedUnknownType + 1)
    case NotDue => r
  }

  /** The outcome the loop body gives each visa. */
  function ScanOf(userId: Option<int>, today: int, now: int): Visa -> Outcome
  {
    (v: Visa) => ScanOutcome(userId, v, today, now)
  }

  function Is(scan: Visa -> Outcome, o: Outcome): Visa -> bool
  {
    (v: Visa) => scan(v) == o
  }

  function AlertIf(scan: Visa -> Outcome, alertOf: Visa -> Alert, v: Visa): Option<Alert>
  {
    if scan(v) == Created then Some(alertOf(v)) else None
  }

  /** The response the loop has built after the first `i` visas, for the
      outcome `scan` and the alert `alertOf` of each visa. */
  function ReportUpTo(vs: seq<Visa>, i: nat, scan: Visa -> Outcome, alertOf: Visa -> Alert): RunReport
    requires i <= |vs|
  {
    if i == 0 then RunReport([], 0, 0)
    else Tally(ReportUpTo(vs, i - 1, scan, alertOf), scan(vs[i - 1]), AlertIf(scan, alertOf, vs[i - 1]))
  }

  /** One more visa adds its alert, if any, and its skip, if any, to the counts over the prefix. */
  lemma ReportStep(vs: seq<Visa>, j: nat, scan: Visa -> Outcome, alertOf: Visa -> Alert)
    requires j < |vs|
    ensures |Filter(vs[..j + 1], Is(scan, SkippedCooldown))|
         == |Filter(vs[..j], Is(scan, SkippedCooldown))| + (if scan(vs[j]) == SkippedCooldown then 1 else 0)
    ensures |Filter(vs[..j + 1], Is(scan, SkippedUnknownType))|
         == |Filter(vs[..j], Is(scan, SkippedUnknownType))| + (if scan(vs[j]) == SkippedUnknownType then 1 else 0)
    ensures Map(Filter(vs[..j + 1], Is(scan, Created)), alertOf)
         == Map(Filter(vs[..j], Is(scan, Created)), alertOf) + (if scan(vs[j]) == Created then [alertOf(vs[j])] else [])
  {
    FilterSnoc(vs, j, Is(scan, SkippedCooldown));
    FilterSnoc(vs, j, Is(scan, SkippedUnknownType));
    FilterSnoc(vs, j, Is(scan, Created));
    MapAppend(Filter(vs[..j], Is(scan, Created)), if scan(vs[j]) == Created then [vs[j]] else [], alertOf);
  }

  /** The report built visa by visa counts each outcome over the prefix. */
  lemma {:induction false} ReportUpToIsFilter(vs: seq<Visa>, i: nat, scan: Visa -> Outcome, alertOf: Visa -> Alert)
    requires i <= |vs|
    ensures ReportUpTo(vs, i, scan, alertOf)
         == RunReport(Map(Filter(vs[..i], Is(scan, Created)), alertOf),
                      |Filter(vs[..i], Is(scan, SkippedCooldown))|,
                      |Filter(vs[..i], Is(scan, SkippedUnknownType))|)
  {
    if i == 0 {
      assert vs[..0] == [];
    } else {
      ReportUpToIsFilter(vs, i - 1, scan, alertOf);
      ReportStep(vs, i - 1, scan, alertOf);
    }
  }

  /** Counted by the loop body's outcome or by `HasOutcome`, the visas
      alerted or skipped are the same. */
  lemma SameOutcome(userId: Option<int>, today: int, now: int, o: Outcome, v: Visa)
    requires o != NotDue
    ensures Is(ScanOf(userId, today, now), o)(v) == HasOutcome(userId, today, now, o)(v)
  {
  }

  lemma SameOutcomeFilter(vs: seq<Visa>, userId: Option<int>, today: int, now: int, o: Outcome)
    requires o != NotDue
    ensures Filter(vs, Is(ScanOf(userId, today, now), o)) == Filter(vs, HasOutcome(userId, today, now, o))
  {
    forall v | v in vs
      ensures Is(ScanOf(userId, today, now), o)(v) == HasOutcome(userId, today, now, o)(v)
    {
      SameOutcome(userId, today, now, o, v);
    }
    FilterExtensional(vs, Is(ScanOf(userId, today, now), o), HasOutcome(userId, today, now, o));
  }

  /** One loop step extends the replaced prefix by the visa at `i`. */
  lemma StampStep(vs: seq<Visa>, i: nat, f: Visa -> Visa, visas: seq<Visa>)
    requires i < |vs| && visas == StampedUpTo(vs, i, f)
    ensures visas[i] == vs[i]
    ensures visas[i := f(visas[i])] == StampedUpTo(vs, i + 1, f)
  {
  }

  /** One loop step tallies the visa at `i` onto the response. */
  lemma ReportStepUp(vs: seq<Visa>, i: nat, userId: Option<int>, today: int, now: int)
    requires i < |vs|
    ensures ReportUpTo(vs, i + 1, ScanOf(userId, today, now), AlertFor(today, now))
         == Tally(ReportUpTo(vs, i, ScanOf(userId, today, now), AlertFor(today, now)),
                  ScanOutcome(userId, vs[i], today, now), ScanAlert(userId, vs[i], today, now))
  {
  }

  /** After the last visa every visa has been replaced by its image. */
  lemma StampDone(vs: seq<Visa>, f: Visa -> Visa)
    ensures StampedUpTo(vs, |vs|, f) == Map(vs, f)
  {
  }

  /** After the last visa the loop's response is the whole scan's. */
  lemma ReportDone(vs: seq<Visa>, userId: Option<int>, today: int, now: int)
    ensures ReportUpTo(vs, |vs|, ScanOf(userId, today, now), AlertFor(today, now)) == ScanReport(vs, userId, today, now)
  {
    ReportUpToIsFilter(vs, |vs|, ScanOf(userId, today, now), AlertFor(today, now));
    assert vs[..|vs|] == vs;
    SameOutcomeFilter(vs, userId, today, now, Created);
    SameOutcomeFilter(vs, userId, today, now, SkippedCooldown);
    SameOutcomeFilter(vs, userId, today, now, SkippedUnknownType);
  }
}
