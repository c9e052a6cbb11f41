/** One pass of the delivery loop of `sendMessagesWithDelay`
    (src/stores/contacts.js) as functions on the state it changes: the per-minute
    counter, the time of the last send, the failure ledger, the clock and the
    notice shown to the operator.

    The clock stands for `Date.now()`: it is read once at the top of each pass
    (`now`), the two waits of the loop advance it, and so does the time the
    transport takes. The transport itself is an oracle `net`: `net(i)` says
    whether the send for the i-th contact of the batch succeeds and how long it
    takes. */
module Dispatch {
  import opened Seqs
  import opened Text
  import opened ContactsModel

  const MinuteMs: nat := 60000
  const HourMs: nat := 3600000

  /** `now.getHours()`, read in UTC. */
  function HourOf(t: nat): nat {
    (t / HourMs) % 24
  }

  /** A `failedAttempts` entry. */
  datatype FailRecord = FailRecord(count: nat, lastAttempt: nat)

  /** The part of the store a pass reads and writes. `lastSentTime` 0 is the
      initial `null`: both are falsy, so both mean "no previous send". */
  datatype DispatchState = DispatchState(
    sentInLastMinute: nat,
    lastSentTime: nat,
    failedAttempts: map<string, FailRecord>,
    clock: nat,
    notice: Option<string>)

  /** What the transport answers for one send, and how long it took. */
  datatype TransportResult = TransportResult(delivered: bool, elapsed: nat)

  /** Why a contact was not sent to: the error thrown inside the `try`. */
  datatype Reason =
    | OutsideHours
    | Cooldown
    | MissingPhone
    | TransportFailure(number: string, text: string, at: nat)

  /** The result of one pass for one contact. `at` is the clock when the
      transport was called. */
  datatype Outcome =
    | Sent(phone: string, number: string, text: string, at: nat)
    | Failed(phone: string, reason: Reason)
  {
    /** The transport was called for this contact. */
    predicate Attempted() {
      Sent? || reason.TransportFailure?
    }
  }

  /** The result of a batch; `aborted` means an exception left the loop. */
  datatype Batch = Batch(state: DispatchState, outcomes: seq<Outcome>, aborted: bool)

  predicate InHours(s: Settings, t: nat) {
    s.allowedStart <= HourOf(t) < s.allowedEnd
  }

  /** The per-minute check: when the counter has reached the cap, wait a minute
      and reset it. */
  function MinuteCheck(st: DispatchState, s: Settings): DispatchState {
    if st.sentInLastMinute >= s.maxMessagesPerMinute
    then st.(clock := st.clock + MinuteMs, sentInLastMinute := 0)
    else st
  }

  /** The spacing wait. It is measured from `now`, the time read before the
      per-minute wait. */
  function SpacingWait(lastSentTime: nat, now: nat, s: Settings): nat {
    if lastSentTime != 0 && now - lastSentTime < s.delayBetweenMessages
    then s.delayBetweenMessages - (now - lastSentTime)
    else 0
  }

  /** Two ledgers agree on the entry of `phone`, including on its absence. */
  ghost predicate SameEntry(a: map<string, FailRecord>, b: map<string, FailRecord>, phone: string) {
    (phone in a <==> phone in b) && (phone in a ==> a[phone] == b[phone])
  }

  /** `sendMessageToContact` and the success bookkeeping after it. The time of
      the last send is the clock when the transport is called, after the waits;
      the source records the `now` of the pass instead (see `AttemptAsWritten`). */
  function Deliver(st: DispatchState, c: Contact, message: string, t: TransportResult): (r: (DispatchState, Outcome))
    ensures r.1.phone == c.phone
    ensures r.0.clock >= st.clock
    ensures forall p :: p != c.phone ==> SameEntry(r.0.failedAttempts, st.failedAttempts, p)
    ensures r.1.Sent? ==>
      && r.0.lastSentTime == r.1.at == st.clock
      && r.0.sentInLastMinute == st.sentInLastMinute + 1
      && c.phone !in r.0.failedAttempts
    ensures !r.1.Sent? ==>
      && r.0.lastSentTime == st.lastSentTime
      && r.0.sentInLastMinute == st.sentInLastMinute
      && r.0.failedAttempts == st.failedAttempts
  {
    if c.phone == "" then (st, Failed(c.phone, MissingPhone))
    else
      var number := FormatNumber(c.phone);
      var text := ExpandTags(message, c);
      var after := st.(clock := st.clock + t.elapsed);
      if t.delivered then
        (after.(sentInLastMinute := after.sentInLastMinute + 1,
                lastSentTime := st.clock,
                failedAttempts := after.failedAttempts - {c.phone}),
         Sent(c.phone, number, text, st.clock))
      else
        (after, Failed(c.phone, TransportFailure(number, text, st.clock)))
  }

  /** The body of the `try`: the four checks in order, then the send. Returns
      the state at the point where the `try` finishes or throws. */
  function Attempt(st: DispatchState, s: Settings, c: Contact, message: string, t: TransportResult): (r: (DispatchState, Outcome))
    ensures r.1.phone == c.phone
    ensures r.0.clock >= st.clock
    ensures forall p :: p != c.phone ==> SameEntry(r.0.failedAttempts, st.failedAttempts, p)
  {
    var now := st.clock;
    if !InHours(s, now) then (st, Failed(c.phone, OutsideHours))
    else
      var st1 := MinuteCheck(st, s);
      var st2 := st1.(clock := st1.clock + SpacingWait(st.lastSentTime, now, s));
      if c.phone in st2.failedAttempts && st2.failedAttempts[c.phone].count >= s.maxRetries then
        if now - st2.failedAttempts[c.phone].lastAttempt < s.cooldownPeriod then
          (st2, Failed(c.phone, Cooldown))
        else
          Deliver(st2.(failedAttempts := st2.failedAttempts[c.phone := FailRecord(0, now)]), c, message, t)
      else
        Deliver(st2, c, message, t)
  }

  function LimitNotice(phone: string): string {
    "Número " + phone + " atingiu limite de tentativas. Aguarde 24h antes de tentar novamente."
  }

  /** The `catch`, with `now` in scope: create the entry at 0 when missing, add
      one failure, stamp it with `now`, and warn when the limit is reached. */
  function RecordFailure(st: DispatchState, s: Settings, phone: string, now: nat): DispatchState {
    var count := (if phone in st.failedAttempts then st.failedAttempts[phone].count else 0) + 1;
    var recorded := st.(failedAttempts := st.failedAttempts[phone := FailRecord(count, now)]);
    if count >= s.maxRetries then recorded.(notice := Some(LimitNotice(phone))) else recorded
  }

  /** One pass of the loop, every error caught and recorded. */
  function Step(st: DispatchState, s: Settings, c: Contact, message: string, t: TransportResult): (r: (DispatchState, Outcome))
    ensures r.1.phone == c.phone
    ensures r.0.clock >= st.clock
  {
    var attempt := Attempt(st, s, c, message, t);
    if attempt.1.Sent? then attempt
    else (RecordFailure(attempt.0, s, c.phone, st.clock), attempt.1)
  }

  /** The whole loop: the passes in list order, each contact once. */
  function Run(st: DispatchState, s: Settings, cs: seq<Contact>, message: string, net: nat -> TransportResult): (b: Batch)
    ensures !b.aborted
    ensures |b.outcomes| == |cs|
    decreases |cs|
  {
    if cs == [] then Batch(st, [], false)
    else
      var prev := Run(st, s, cs[..|cs| - 1], message, net);
      var step := Step(prev.state, s, cs[|cs| - 1], message, net(|cs| - 1));
      Batch(step.0, prev.outcomes + [step.1], false)
  }

  /** What the `try` leaves in the contact's own entry when it throws: the
      entry as it was, or the reset record after a lifted cooldown. */
  lemma AttemptFailureEntry(st: DispatchState, s: Settings, c: Contact, message: string, t: TransportResult)
    requires !Attempt(st, s, c, message, t).1.Sent?
    ensures var a := Attempt(st, s, c, message, t).0;
      var lifted := InHours(s, st.clock) && c.phone in st.failedAttempts
        && st.failedAttempts[c.phone].count >= s.maxRetries
        && st.clock - st.failedAttempts[c.phone].lastAttempt >= s.cooldownPeriod;
      && (lifted ==> c.phone in a.failedAttempts && a.failedAttempts[c.phone] == FailRecord(0, st.clock))
      && (!lifted ==> SameEntry(a.failedAttempts, st.failedAttempts, c.phone))
      && a.lastSentTime == st.lastSentTime
  {
    var now := st.clock;
    if InHours(s, now) {
      var st1 := MinuteCheck(st, s);
      var st2 := st1.(clock := st1.clock + SpacingWait(st.lastSentTime, now, s));
      assert st2.failedAttempts == st.failedAttempts;
      if c.phone in st2.failedAttempts && st2.failedAttempts[c.phone].count >= s.maxRetries
        && now - st2.failedAttempts[c.phone].lastAttempt >= s.cooldownPeriod {
        var reset := st2.(failedAttempts := st2.failedAttempts[c.phone := FailRecord(0, now)]);
        assert Attempt(st, s, c, message, t) == Deliver(reset, c, message, t);
      } else if !(c.phone in st2.failedAttempts && st2.failedAttempts[c.phone].count >= s.maxRetries) {
        assert Attempt(st, s, c, message, t) == Deliver(st2, c, message, t);
      }
    }
  }

  /** The `try` never adds a ledger entry: it can only reset or delete one. */
  lemma AttemptKeepsKeys(st: DispatchState, s: Settings, c: Contact, message: string, t: TransportResult)
    ensures Attempt(st, s, c, message, t).0.failedAttempts.Keys <= st.failedAttempts.Keys
  {
    var now := st.clock;
    if InHours(s, now) {
      var st1 := MinuteCheck(st, s);
      var st2 := st1.(clock := st1.clock + SpacingWait(st.lastSentTime, now, s));
      assert st2.failedAttempts == st.failedAttempts;
    }
  }

  // ---------------------------------------------------------------------------
  // Properties of one pass

  /** After a pass the contact's entry, if any, is stamped with the `now` of
      the pass; the time of the last send moves only on a success, to the time
      of the transport call, which lies between `now` and the clock after the
      pass. */
  lemma StepStamps(st: DispatchState, s: Settings, c: Contact, message: string, t: TransportResult)
    ensures var r := Step(st, s, c, message, t).0;
      c.phone in r.failedAttempts ==> r.failedAttempts[c.phone].lastAttempt == st.clock
    ensures var (r, o) := Step(st, s, c, message, t);
      && (o.Sent? ==> r.lastSentTime == o.at && st.clock <= o.at <= r.clock)
      && (!o.Sent? ==> r.lastSentTime == st.lastSentTime)
  {
    var attempt := Attempt(st, s, c, message, t);
    if attempt.1.Sent? {
      SuccessClearsLedger(st, s, c, message, t);
    } else {
      AttemptFailureEntry(st, s, c, message, t);
      var r := RecordFailure(attempt.0, s, c.phone, st.clock);
      assert Step(st, s, c, message, t).0 == r;
      assert r.failedAttempts[c.phone].lastAttempt == st.clock;
    }
  }

  /** A pass changes no ledger entry but that of its own contact. */
  lemma StepLedgerFrame(st: DispatchState, s: Settings, c: Contact, message: string, t: TransportResult)
    ensures var after := Step(st, s, c, message, t).0;
      forall p :: p != c.phone ==> SameEntry(after.failedAttempts, st.failedAttempts, p)
  {
    var attempt := Attempt(st, s, c, message, t);
    if !attempt.1.Sent? {
      var after := RecordFailure(attempt.0, s, c.phone, st.clock);
      forall p | p != c.phone ensures SameEntry(after.failedAttempts, st.failedAttempts, p) {
        assert SameEntry(attempt.0.failedAttempts, st.failedAttempts, p);
      }
    }
  }

  /** A success deletes the contact's entry, counts one send and records the
      time of the transport call as the time of the last send. */
  lemma SuccessClearsLedger(st: DispatchState, s: Settings, c: Contact, message: string, t: TransportResult)
    requires Step(st, s, c, message, t).1.Sent?
    ensures var (after, o) := Step(st, s, c, message, t);
      && c.phone !in after.failedAttempts
      && after.sentInLastMinute == MinuteCheck(st, s).sentInLastMinute + 1
      && after.lastSentTime == o.at
      && t.delivered && c.phone != ""
  {
  }

  /** Every error leaves an entry for the contact stamped with the `now` of the
      pass, whose count is one more than before, or 1 after a lifted cooldown. */
  lemma FailureRecorded(st: DispatchState, s: Settings, c: Contact, message: string, t: TransportResult)
    requires !Step(st, s, c, message, t).1.Sent?
    ensures var after := Step(st, s, c, message, t).0;
      var lifted := InHours(s, st.clock) && c.phone in st.failedAttempts
        && st.failedAttempts[c.phone].count >= s.maxRetries
        && st.clock - st.failedAttempts[c.phone].lastAttempt >= s.cooldownPeriod;
      && c.phone in after.failedAttempts
      && after.failedAttempts[c.phone].lastAttempt == st.clock
      && after.failedAttempts[c.phone].count ==
           if lifted || c.phone !in st.failedAttempts then 1 else st.failedAttempts[c.phone].count + 1
  {
    AttemptFailureEntry(st, s, c, message, t);
    var a := Attempt(st, s, c, message, t).0;
    var after := RecordFailure(a, s, c.phone, st.clock);
    assert Step(st, s, c, message, t).0 == after;
    assert after.failedAttempts[c.phone] ==
      FailRecord((if c.phone in a.failedAttempts then a.failedAttempts[c.phone].count else 0) + 1, st.clock);
  }

  /** Outside `[allowedStart, allowedEnd)` the contact is refused, as an error,
      before any wait; inside, it never is for that reason. */
  lemma OutsideHoursRefused(st: DispatchState, s: Settings, c: Contact, message: string, t: TransportResult)
    ensures var r := Step(st, s, c, message, t);
      (r.1 == Failed(c.phone, OutsideHours)) <==> !InHours(s, st.clock)
    ensures var r := Step(st, s, c, message, t);
      !InHours(s, st.clock) ==>
        && r.0.clock == st.clock
        && r.0.sentInLastMinute == st.sentInLastMinute
        && r.0.lastSentTime == st.lastSentTime
  {
  }

  /** A contact with at least `maxRetries` failures whose last one is more
      recent than the cooldown period is refused without calling the transport,
      and only such a contact is refused for that reason. */
  lemma CooldownBlocks(st: DispatchState, s: Settings, c: Contact, message: string, t: TransportResult)
    ensures var r := Step(st, s, c, message, t);
      r.1 == Failed(c.phone, Cooldown) <==>
        && InHours(s, st.clock)
        && c.phone in st.failedAttempts
        && st.failedAttempts[c.phone].count >= s.maxRetries
        && st.clock - st.failedAttempts[c.phone].lastAttempt < s.cooldownPeriod
  {
  }

  /** Once the cooldown has elapsed the count starts again from 0 and the
      transport is called: a success removes the entry, a failure leaves a count
      of 1. */
  lemma CooldownLifts(st: DispatchState, s: Settings, c: Contact, message: string, t: TransportResult)
    requires InHours(s, st.clock) && c.phone != ""
    requires c.phone in st.failedAttempts && st.failedAttempts[c.phone].count >= s.maxRetries
    requires st.clock - st.failedAttempts[c.phone].lastAttempt >= s.cooldownPeriod
    ensures var r := Step(st, s, c, message, t);
      && r.1.Attempted()
      && (r.1.Sent? ==> c.phone !in r.0.failedAttempts)
      && (!r.1.Sent? ==> r.0.failedAttempts[c.phone] == FailRecord(1, st.clock))
  {
  }

  /** Nothing is sent to a contact without a phone; a send goes to the formatted
      number with the expanded template. */
  lemma SentMessageShape(st: DispatchState, s: Settings, c: Contact, message: string, t: TransportResult)
    ensures var r := Step(st, s, c, message, t);
      r.1.Attempted() ==> c.phone != ""
    ensures var r := Step(st, s, c, message, t);
      r.1.Sent? ==> r.1.number == FormatNumber(c.phone) && r.1.text == ExpandTags(message, c)
  {
  }

  /** The transport is called after exactly the two waits: a minute when the
      counter had reached the cap, and the rest of `delayBetweenMessages` since
      the recorded time of the last send, measured from `now`. So a call comes
      at least `delayBetweenMessages` after that recorded time. */
  lemma TransportTiming(st: DispatchState, s: Settings, c: Contact, message: string, t: TransportResult)
    ensures var o := Step(st, s, c, message, t).1;
      o.Attempted() ==>
        var at := if o.Sent? then o.at else o.reason.at;
        at == st.clock
          + (if st.sentInLastMinute >= s.maxMessagesPerMinute then MinuteMs else 0)
          + (if st.lastSentTime != 0 && st.clock - st.lastSentTime < s.delayBetweenMessages
             then s.delayBetweenMessages - (st.clock - st.lastSentTime) else 0)
    ensures var o := Step(st, s, c, message, t).1;
      o.Attempted() && st.lastSentTime != 0 && st.lastSentTime <= st.clock ==>
        (if o.Sent? then o.at else o.reason.at) >= st.lastSentTime + s.delayBetweenMessages
  {
  }

  /** After the per-minute check the counter is below a positive cap; it is
      reset exactly when the check waited. */
  lemma MinuteCheckBelowCap(st: DispatchState, s: Settings)
    requires s.maxMessagesPerMinute > 0
    ensures MinuteCheck(st, s).sentInLastMinute < s.maxMessagesPerMinute
    ensures MinuteCheck(st, s).clock == st.clock + MinuteMs <==> st.sentInLastMinute >= s.maxMessagesPerMinute
    ensures MinuteCheck(st, s).clock == st.clock <==> st.sentInLastMinute < s.maxMessagesPerMinute
  {
  }

  /** The counter grows only by a success and is reset only after the one-minute
      wait; with a positive cap it never exceeds the cap. */
  lemma CounterBound(st: DispatchState, s: Settings, c: Contact, message: string, t: TransportResult)
    requires s.maxMessagesPerMinute > 0 && st.sentInLastMinute <= s.maxMessagesPerMinute
    ensures var r := Step(st, s, c, message, t);
      && r.0.sentInLastMinute <= s.maxMessagesPerMinute
      && (r.0.sentInLastMinute > st.sentInLastMinute ==> r.1.Sent?)
      && (r.0.sentInLastMinute < st.sentInLastMinute ==> r.0.clock >= st.clock + MinuteMs)
  {
    var now := st.clock;
    if InHours(s, now) {
      MinuteCheckBelowCap(st, s);
      var st1 := MinuteCheck(st, s);
      var st2 := st1.(clock := st1.clock + SpacingWait(st.lastSentTime, now, s));
      assert st2.sentInLastMinute == st1.sentInLastMinute && st2.clock >= st1.clock;
    }
  }

  // ---------------------------------------------------------------------------
  // Properties of a batch

  /** What every pass keeps: the counter within the cap, and no recorded time
      after the clock. */
  ghost predicate GateInvariant(st: DispatchState, s: Settings) {
    && st.sentInLastMinute <= s.maxMessagesPerMinute
    && st.lastSentTime <= st.clock
    && forall p :: p in st.failedAttempts ==> st.failedAttempts[p].lastAttempt <= st.clock
  }

  lemma {:induction false} StepKeepsInvariant(st: DispatchState, s: Settings, c: Contact, message: string, t: TransportResult)
    requires s.maxMessagesPerMinute > 0 && GateInvariant(st, s)
    ensures GateInvariant(Step(st, s, c, message, t).0, s)
    ensures Step(st, s, c, message, t).0.clock >= st.clock
  {
    CounterBound(st, s, c, message, t);
    StepLedgerFrame(st, s, c, message, t);
    StepStamps(st, s, c, message, t);
    var after := Step(st, s, c, message, t).0;
    forall p | p in after.failedAttempts ensures after.failedAttempts[p].lastAttempt <= after.clock {
      if p != c.phone {
        assert SameEntry(after.failedAttempts, st.failedAttempts, p);
      }
    }
  }

  /** A batch keeps the invariant and never moves the clock back. */
  lemma {:induction false} RunKeepsInvariant(st: DispatchState, s: Settings, cs: seq<Contact>, message: string, net: nat -> TransportResult)
    requires s.maxMessagesPerMinute > 0 && GateInvariant(st, s)
    ensures GateInvariant(Run(st, s, cs, message, net).state, s)
    ensures Run(st, s, cs, message, net).state.clock >= st.clock
    decreases |cs|
  {
    if cs != [] {
      var prev := Run(st, s, cs[..|cs| - 1], message, net);
      RunKeepsInvariant(st, s, cs[..|cs| - 1], message, net);
      StepKeepsInvariant(prev.state, s, cs[|cs| - 1], message, net(|cs| - 1));
    }
  }

  /** Failure isolation: the ledger entry of a phone that no contact of the
      batch has is the same after the batch. */
  lemma {:induction false} RunIsolation(st: DispatchState, s: Settings, cs: seq<Contact>, message: string, net: nat -> TransportResult, phone: string)
    requires forall i :: 0 <= i < |cs| ==> cs[i].phone != phone
    ensures SameEntry(Run(st, s, cs, message, net).state.failedAttempts, st.failedAttempts, phone)
    decreases |cs|
  {
    if cs != [] {
      var init := cs[..|cs| - 1];
      var prev := Run(st, s, init, message, net);
      RunIsolation(st, s, init, message, net, phone);
      StepLedgerFrame(prev.state, s, cs[|cs| - 1], message, net(|cs| - 1));
      var step := Step(prev.state, s, cs[|cs| - 1], message, net(|cs| - 1));
      assert Run(st, s, cs, message, net).state == step.0;
      assert SameEntry(step.0.failedAttempts, prev.state.failedAttempts, phone);
    }
  }

  /** The loop over one more contact is one more pass. */
  lemma RunExtends(st: DispatchState, s: Settings, cs: seq<Contact>, message: string, net: nat -> TransportResult, i: nat)
    requires i < |cs|
    ensures var prev := Run(st, s, cs[..i], message, net);
      var step := Step(prev.state, s, cs[i], message, net(i));
      Run(st, s, cs[..i + 1], message, net) == Batch(step.0, prev.outcomes + [step.1], false)
  {
    assert cs[..i + 1][..i] == cs[..i];
  }

  /** The outcome of each contact is its own pass, taken in list order: an
      error of one contact never stops the ones after it. */
  lemma {:induction false} RunVisitsEveryContact(st: DispatchState, s: Settings, cs: seq<Contact>, message: string, net: nat -> TransportResult, k: nat)
    requires k < |cs|
    ensures var before := Run(st, s, cs[..k], message, net).state;
      Run(st, s, cs, message, net).outcomes[k] == Step(before, s, cs[k], message, net(k)).1
    decreases |cs|
  {
    if k < |cs| - 1 {
      RunVisitsEveryContact(st, s, cs[..|cs| - 1], message, net, k);
      assert cs[..|cs| - 1][..k] == cs[..k];
    } else {
      assert cs[..|cs| - 1] == cs[..k];
    }
  }

  /** The times of a batch's sends: each lies between the starting clock and
      the recorded time of the last send, and each comes at least
      `delayBetweenMessages` after every earlier one. */
  lemma {:induction false} RunSendTimes(st: DispatchState, s: Settings, cs: seq<Contact>, message: string, net: nat -> TransportResult)
    requires 0 < st.clock && st.lastSentTime <= st.clock
    ensures var b := Run(st, s, cs, message, net);
      && st.clock <= b.state.clock
      && b.state.lastSentTime <= b.state.clock
      && (forall i :: 0 <= i < |b.outcomes| && b.outcomes[i].Sent? ==>
            st.clock <= b.outcomes[i].at <= b.state.lastSentTime)
      && (forall i, j :: 0 <= i < j < |b.outcomes| && b.outcomes[i].Sent? && b.outcomes[j].Sent? ==>
            b.outcomes[j].at >= b.outcomes[i].at + s.delayBetweenMessages)
    decreases |cs|
  {
    if cs != [] {
      var prev := Run(st, s, cs[..|cs| - 1], message, net);
      RunSendTimes(st, s, cs[..|cs| - 1], message, net);
      var c, t := cs[|cs| - 1], net(|cs| - 1);
      StepStamps(prev.state, s, c, message, t);
      TransportTiming(prev.state, s, c, message, t);
      var step := Step(prev.state, s, c, message, t);
      var b := Run(st, s, cs, message, net);
      assert b.outcomes == prev.outcomes + [step.1] && b.state == step.0;
      forall i, j | 0 <= i < j < |b.outcomes| && b.outcomes[i].Sent? && b.outcomes[j].Sent?
        ensures b.outcomes[j].at >= b.outcomes[i].at + s.delayBetweenMessages
      {
        if j == |b.outcomes| - 1 {
          assert b.outcomes[i] == prev.outcomes[i];
          assert prev.state.lastSentTime >= b.outcomes[i].at > 0;
        } else {
          assert b.outcomes[i] == prev.outcomes[i] && b.outcomes[j] == prev.outcomes[j];
        }
      }
    }
  }

  /** Throttling: any two sends of a batch, the first not at time 0, are at
      least `delayBetweenMessages` apart. */
  lemma RunSpacesSends(st: DispatchState, s: Settings, cs: seq<Contact>, message: string, net: nat -> TransportResult, i: nat, j: nat)
    requires 0 < st.clock && st.lastSentTime <= st.clock
    requires var b := Run(st, s, cs, message, net);
      i < j < |b.outcomes| && b.outcomes[i].Sent? && b.outcomes[j].Sent?
    ensures var b := Run(st, s, cs, message, net);
      b.outcomes[j].at >= b.outcomes[i].at + s.delayBetweenMessages
  {
    RunSendTimes(st, s, cs, message, net);
  }

  // ---------------------------------------------------------------------------
  // The loop as written: `now` is declared inside the `try` and read in the
  // `catch`, where it is out of scope, so the catch block itself throws; and a
  // success records `now`, read before the waits, as the time of the last send.

  /** The `try` as written: as `Attempt`, except that a success records the
      `now` of the pass as the time of the last send. */
  function AttemptAsWritten(st: DispatchState, s: Settings, c: Contact, message: string, t: TransportResult): (r: (DispatchState, Outcome))
    ensures r.1 == Attempt(st, s, c, message, t).1
    ensures r.0.failedAttempts == Attempt(st, s, c, message, t).0.failedAttempts
    ensures r.1.Sent? ==> r.0.lastSentTime == st.clock
  {
    var r := Attempt(st, s, c, message, t);
    if r.1.Sent? then (r.0.(lastSentTime := st.clock), r.1) else r
  }

  /** The `catch` as written: reading `now` throws before a missing entry is
      created; an existing entry gets its count raised and keeps its old
      `lastAttempt`. */
  function CatchAsWritten(st: DispatchState, phone: string): DispatchState {
    if phone in st.failedAttempts
    then st.(failedAttempts := st.failedAttempts[phone := st.failedAttempts[phone].(count := st.failedAttempts[phone].count + 1)])
    else st
  }

  /** The loop as written: the first error leaves the loop. */
  function RunAsWritten(st: DispatchState, s: Settings, cs: seq<Contact>, message: string, net: nat -> TransportResult): (b: Batch)
    ensures |b.outcomes| <= |cs|
    ensures !b.aborted ==> |b.outcomes| == |cs|
    decreases |cs|
  {
    if cs == [] then Batch(st, [], false)
    else
      var prev := RunAsWritten(st, s, cs[..|cs| - 1], message, net);
      if prev.aborted then prev
      else
        var attempt := AttemptAsWritten(prev.state, s, cs[|cs| - 1], message, net(|cs| - 1));
        if attempt.1.Sent? then Batch(attempt.0, prev.outcomes + [attempt.1], false)
        else Batch(CatchAsWritten(attempt.0, cs[|cs| - 1].phone), prev.outcomes + [attempt.1], true)
  }

  /** As written, the loop goes through the contacts in order and stops at
      the first one whose pass throws: every outcome before the last is a
      success, an aborted batch ends on a failure, and a finished one holds
      only successes. */
  lemma {:induction false} RunAsWrittenShape(st: DispatchState, s: Settings, cs: seq<Contact>, message: string, net: nat -> TransportResult)
    ensures var b := RunAsWritten(st, s, cs, message, net);
      && (b.aborted ==> |b.outcomes| > 0 && !b.outcomes[|b.outcomes| - 1].Sent?)
      && (forall i :: 0 <= i < |b.outcomes| - 1 ==> b.outcomes[i].Sent?)
      && (!b.aborted ==> forall i :: 0 <= i < |b.outcomes| ==> b.outcomes[i].Sent?)
    decreases |cs|
  {
    if cs != [] {
      var init := cs[..|cs| - 1];
      RunAsWrittenShape(st, s, init, message, net);
      var prev := RunAsWritten(st, s, init, message, net);
      var b := RunAsWritten(st, s, cs, message, net);
      if prev.aborted {
        assert b == prev;
      } else {
        var o := AttemptAsWritten(prev.state, s, cs[|cs| - 1], message, net(|cs| - 1)).1;
        assert b.outcomes == prev.outcomes + [o] && b.aborted == !o.Sent?;
      }
    }
  }

  /** As written, no ledger entry is ever created: an empty ledger stays empty,
      so the cooldown can never start. */
  lemma {:induction false} AsWrittenNeverCreatesEntries(st: DispatchState, s: Settings, cs: seq<Contact>, message: string, net: nat -> TransportResult)
    ensures RunAsWritten(st, s, cs, message, net).state.failedAttempts.Keys <= st.failedAttempts.Keys
    decreases |cs|
  {
    if cs != [] {
      var prev := RunAsWritten(st, s, cs[..|cs| - 1], message, net);
      AsWrittenNeverCreatesEntries(st, s, cs[..|cs| - 1], message, net);
      if !prev.aborted {
        AttemptKeepsKeys(prev.state, s, cs[|cs| - 1], message, net(|cs| - 1));
        var attempt := AttemptAsWritten(prev.state, s, cs[|cs| - 1], message, net(|cs| - 1));
        assert CatchAsWritten(attempt.0, cs[|cs| - 1].phone).failedAttempts.Keys == attempt.0.failedAttempts.Keys;
      }
    }
  }

  /** The discrepancy on a concrete input: two contacts, the clock at midnight
      (outside the default hours). As written the batch stops after the first
      contact and records nothing; the loop with `now` in scope visits both and
      records both failures. */
  lemma AsWrittenDropsRemainingContacts(c1: Contact, c2: Contact, message: string, net: nat -> TransportResult)
    requires c1.phone != c2.phone
    ensures var st := DispatchState(0, 0, map[], 0, None);
      var written := RunAsWritten(st, DefaultSettings(), [c1, c2], message, net);
      var fixed := Run(st, DefaultSettings(), [c1, c2], message, net);
      && written.aborted && |written.outcomes| == 1 && written.state.failedAttempts == map[]
      && !fixed.aborted && |fixed.outcomes| == 2
      && fixed.state.failedAttempts == map[c1.phone := FailRecord(1, 0), c2.phone := FailRecord(1, 0)]
  {
    var st := DispatchState(0, 0, map[], 0, None);
    var s := DefaultSettings();
    assert !InHours(s, 0);
    assert [c1, c2][..1] == [c1];
    assert [c1][..0] == [];
    // the pass for c1, from the initial state
    assert Attempt(st, s, c1, message, net(0)) == (st, Failed(c1.phone, OutsideHours));
    var st1 := RecordFailure(st, s, c1.phone, 0);
    assert st1 == st.(failedAttempts := map[c1.phone := FailRecord(1, 0)]);
    assert Run(st, s, [c1], message, net).state == st1;
    assert AttemptAsWritten(st, s, c1, message, net(0)) == (st, Failed(c1.phone, OutsideHours));
    assert RunAsWritten(st, s, [c1], message, net) == Batch(st, [Failed(c1.phone, OutsideHours)], true);
    // the pass for c2, after it
    assert Attempt(st1, s, c2, message, net(1)) == (st1, Failed(c2.phone, OutsideHours));
    assert RecordFailure(st1, s, c2.phone, 0).failedAttempts == map[c1.phone := FailRecord(1, 0), c2.phone := FailRecord(1, 0)];
  }

  /** One pass with default settings, an empty ledger, an unfilled minute and
      a transport that delivers at once: the only wait is the spacing wait,
      and the message goes out when it ends. */
  lemma InstantSend(st: DispatchState, c: Contact, message: string)
    requires c.phone != "" && st.failedAttempts == map[]
    requires InHours(DefaultSettings(), st.clock)
    requires st.sentInLastMinute < DefaultSettings().maxMessagesPerMinute
    ensures var at := st.clock + SpacingWait(st.lastSentTime, st.clock, DefaultSettings());
      Attempt(st, DefaultSettings(), c, message, TransportResult(true, 0))
      == (st.(clock := at, sentInLastMinute := st.sentInLastMinute + 1, lastSentTime := at),
          Sent(c.phone, FormatNumber(c.phone), ExpandTags(message, c), at))
  {
    assert st.failedAttempts - {c.phone} == map[];
  }

  /** The last pass of a corrected run that sends. */
  lemma RunSnocSent(st: DispatchState, s: Settings, cs: seq<Contact>, c: Contact, message: string, net: nat -> TransportResult)
    requires Attempt(Run(st, s, cs, message, net).state, s, c, message, net(|cs|)).1.Sent?
    ensures var prev := Run(st, s, cs, message, net);
      var a := Attempt(prev.state, s, c, message, net(|cs|));
      Run(st, s, cs + [c], message, net) == Batch(a.0, prev.outcomes + [a.1], false)
  {
    assert (cs + [c])[..|cs|] == cs;
  }

  /** The last pass of an as-written run that sends. */
  lemma RunAsWrittenSnocSent(st: DispatchState, s: Settings, cs: seq<Contact>, c: Contact, message: string, net: nat -> TransportResult)
    requires !RunAsWritten(st, s, cs, message, net).aborted
    requires Attempt(RunAsWritten(st, s, cs, message, net).state, s, c, message, net(|cs|)).1.Sent?
    ensures var prev := RunAsWritten(st, s, cs, message, net);
      var b := RunAsWritten(st, s, cs + [c], message, net);
      && !b.aborted
      && b.outcomes == prev.outcomes + [Attempt(prev.state, s, c, message, net(|cs|)).1]
  {
    assert (cs + [c])[..|cs|] == cs;
  }

  /** The spacing on a concrete input: three contacts, a transport that always
      delivers at once, a start at 10:00. As written, the third message goes out
      at the same instant as the second, because the second recorded the time
      before its wait; with the time of the call recorded, the three go out
      3 seconds apart. */
  lemma AsWrittenSendsTogether(c1: Contact, c2: Contact, c3: Contact, message: string, net: nat -> TransportResult)
    requires c1.phone != "" && c2.phone != "" && c3.phone != ""
    requires forall i :: net(i) == TransportResult(true, 0)
    ensures var st := DispatchState(0, 0, map[], 36000000, None);
      var written := RunAsWritten(st, DefaultSettings(), [c1, c2, c3], message, net);
      var fixed := Run(st, DefaultSettings(), [c1, c2, c3], message, net);
      && !written.aborted && |written.outcomes| == 3
      && written.outcomes[1].Sent? && written.outcomes[2].Sent?
      && written.outcomes[1].at == written.outcomes[2].at == 36003000
      && |fixed.outcomes| == 3
      && fixed.outcomes[0].Sent? && fixed.outcomes[1].Sent? && fixed.outcomes[2].Sent?
      && fixed.outcomes[0].at == 36000000 && fixed.outcomes[1].at == 36003000 && fixed.outcomes[2].at == 36006000
  {
    WrittenSendsTogether(c1, c2, c3, message, net);
    FixedSendsApart(c1, c2, c3, message, net);
  }

  /** The third pass of `AsWrittenSendsTogether`, from the state after two
      sends at 10:00:03, with the last send recorded at 10:00:00 as written or
      at 10:00:03 when corrected. */
  lemma ThirdPass(st: DispatchState, c: Contact, message: string, at: nat)
    requires c.phone != ""
    requires st.sentInLastMinute == 2 && st.failedAttempts == map[] && st.clock == 36003000
    requires st.lastSentTime == 36000000 || st.lastSentTime == 36003000
    requires at == (if st.lastSentTime == 36000000 then 36003000 else 36006000)
    ensures Attempt(st, DefaultSettings(), c, message, TransportResult(true, 0)).1
      == Sent(c.phone, FormatNumber(c.phone), ExpandTags(message, c), at)
  {
    assert HourOf(st.clock) == 10;
    InstantSend(st, c, message);
  }

  /** The as-written half of `AsWrittenSendsTogether`. */
  lemma WrittenSendsTogether(c1: Contact, c2: Contact, c3: Contact, message: string, net: nat -> TransportResult)
    requires c1.phone != "" && c2.phone != "" && c3.phone != ""
    requires forall i :: net(i) == TransportResult(true, 0)
    ensures var written := RunAsWritten(DispatchState(0, 0, map[], 36000000, None), DefaultSettings(), [c1, c2, c3], message, net);
      && !written.aborted && |written.outcomes| == 3
      && written.outcomes[1].Sent? && written.outcomes[2].Sent?
      && written.outcomes[1].at == written.outcomes[2].at == 36003000
  {
    var T := 36000000;
    var st := DispatchState(0, 0, map[], T, None);
    var w2 := DispatchState(2, T, map[], T + 3000, None);
    WrittenFirstTwo(c1, c2, message, net);
    assert net(2) == TransportResult(true, 0);
    // third pass: no wait at all
    ThirdPass(w2, c3, message, T + 3000);
    var o1 := Sent(c1.phone, FormatNumber(c1.phone), ExpandTags(message, c1), T);
    var o2 := Sent(c2.phone, FormatNumber(c2.phone), ExpandTags(message, c2), T + 3000);
    var o3 := Sent(c3.phone, FormatNumber(c3.phone), ExpandTags(message, c3), T + 3000);
    assert Attempt(w2, DefaultSettings(), c3, message, net(2)).1 == o3;
    RunAsWrittenSnocSent(st, DefaultSettings(), [c1, c2], c3, message, net);
    assert [c1, c2] + [c3] == [c1, c2, c3];
    assert [o1, o2] + [o3] == [o1, o2, o3];
  }

  /** The first two passes as written: the second waits 3 seconds but records
      the time from before its wait. */
  lemma WrittenFirstTwo(c1: Contact, c2: Contact, message: string, net: nat -> TransportResult)
    requires c1.phone != "" && c2.phone != ""
    requires forall i :: net(i) == TransportResult(true, 0)
    ensures RunAsWritten(DispatchState(0, 0, map[], 36000000, None), DefaultSettings(), [c1, c2], message, net)
      == Batch(DispatchState(2, 36000000, map[], 36003000, None),
               [Sent(c1.phone, FormatNumber(c1.phone), ExpandTags(message, c1), 36000000),
                Sent(c2.phone, FormatNumber(c2.phone), ExpandTags(message, c2), 36003000)], false)
  {
    var T := 36000000;
    var st := DispatchState(0, 0, map[], T, None);
    var s := DefaultSettings();
    assert net(0) == TransportResult(true, 0) && net(1) == TransportResult(true, 0);
    assert [c1, c2][..1] == [c1];
    assert [c1][..0] == [];
    assert HourOf(T) == 10;
    var o1 := Sent(c1.phone, FormatNumber(c1.phone), ExpandTags(message, c1), T);
    var s1 := DispatchState(1, T, map[], T, None);
    InstantSend(st, c1, message);
    assert RunAsWritten(st, s, [c1], message, net) == Batch(s1, [o1], false);
    InstantSend(s1, c2, message);
  }

  /** The corrected half of `AsWrittenSendsTogether`. */
  lemma FixedSendsApart(c1: Contact, c2: Contact, c3: Contact, message: string, net: nat -> TransportResult)
    requires c1.phone != "" && c2.phone != "" && c3.phone != ""
    requires forall i :: net(i) == TransportResult(true, 0)
    ensures var fixed := Run(DispatchState(0, 0, map[], 36000000, None), DefaultSettings(), [c1, c2, c3], message, net);
      && |fixed.outcomes| == 3
      && fixed.outcomes[0].Sent? && fixed.outcomes[1].Sent? && fixed.outcomes[2].Sent?
      && fixed.outcomes[0].at == 36000000 && fixed.outcomes[1].at == 36003000 && fixed.outcomes[2].at == 36006000
  {
    var T := 36000000;
    var st := DispatchState(0, 0, map[], T, None);
    var s2 := DispatchState(2, T + 3000, map[], T + 3000, None);
    FixedFirstTwo(c1, c2, message, net);
    assert net(2) == TransportResult(true, 0);
    // third pass: another 3-second wait
    ThirdPass(s2, c3, message, T + 6000);
    var a := Attempt(s2, DefaultSettings(), c3, message, TransportResult(true, 0));
    RunSnocSent(st, DefaultSettings(), [c1, c2], c3, message, net);
    assert [c1, c2] + [c3] == [c1, c2, c3];
    var o1 := Sent(c1.phone, FormatNumber(c1.phone), ExpandTags(message, c1), T);
    var o2 := Sent(c2.phone, FormatNumber(c2.phone), ExpandTags(message, c2), T + 3000);
    assert Run(st, DefaultSettings(), [c1, c2, c3], message, net) == Batch(a.0, [o1, o2] + [a.1], false);
  }

  /** The first two passes, corrected: the second waits 3 seconds and records
      the time it sends at. */
  lemma FixedFirstTwo(c1: Contact, c2: Contact, message: string, net: nat -> TransportResult)
    requires c1.phone != "" && c2.phone != ""
    requires forall i :: net(i) == TransportResult(true, 0)
    ensures Run(DispatchState(0, 0, map[], 36000000, None), DefaultSettings(), [c1, c2], message, net)
      == Batch(DispatchState(2, 36003000, map[], 36003000, None),
               [Sent(c1.phone, FormatNumber(c1.phone), ExpandTags(message, c1), 36000000),
                Sent(c2.phone, FormatNumber(c2.phone), ExpandTags(message, c2), 36003000)], false)
  {
    var T := 36000000;
    var st := DispatchState(0, 0, map[], T, None);
    var s := DefaultSettings();
    assert net(0) == TransportResult(true, 0) && net(1) == TransportResult(true, 0);
    assert [c1, c2][..1] == [c1];
    assert [c1][..0] == [];
    assert HourOf(T) == 10;
    var o1 := Sent(c1.phone, FormatNumber(c1.phone), ExpandTags(message, c1), T);
    var s1 := DispatchState(1, T, map[], T, None);
    InstantSend(st, c1, message);
    assert Run(st, s, [c1], message, net) == Batch(s1, [o1], false);
    InstantSend(s1, c2, message);
  }


}
