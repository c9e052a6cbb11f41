/** The contacts store (src/stores/contacts.js) as an object whose actions update
    its fields in place. `clock` stands for `Date.now()`: it supplies the ids and
    creation times of new records and the `now` of each delivery pass, and the
    waits, the transport and the passing of time between actions (`Tick`) move
    it forward. Timers created by a scheduled send are kept in `timers` until
    the event loop fires them (`FireTimer`). */
module ContactsStore {
  import opened Seqs
  import opened ContactsModel
  import opened Dispatch

  /** A pending `setTimeout` of `sendMessageToGroup`: when it fires, the group's
      contacts as they were when it was scheduled, and the message. */
  datatype Timer = Timer(fireAt: int, contacts: seq<Contact>, message: string)

  /** The time `setTimeout` actually waits for a requested delay `d`: the delay
      is converted to a signed 32-bit integer, wrapping modulo 2^32, and a
      negative result means no wait. So a delay of 2^31 ms (about 24.8 days)
      or more does not wait as asked. */
  function TimerDelay(d: int): (w: nat)
    ensures w < 0x8000_0000
    ensures 0 <= d < 0x8000_0000 ==> w == d
    ensures 0x8000_0000 <= d < 0x1_0000_0000 ==> w == 0
    ensures w == d % 0x1_0000_0000 || w == 0
  {
    var x := d % 0x1_0000_0000;
    if x >= 0x8000_0000 then 0 else x
  }

  /** A broadcast scheduled 30 days ahead fires at once. */
  lemma ThirtyDaysAheadFiresAtOnce(d: int)
    requires d == 30 * 24 * 60 * 60 * 1000
    ensures TimerDelay(d) == 0
  {
  }

  const AddedNotice: string := "Contato adicionado com sucesso!"
  const RemovedNotice: string := "Contato removido com sucesso!"
  const UpdatedNotice: string := "Contato atualizado com sucesso!"
  const ScheduledNotice: string := "Mensagem agendada com sucesso!"
  const SentNotice: string := "Mensagens enviadas com sucesso!"
  const CancelledNotice: string := "Mensagem agendada cancelada com sucesso!"
  const PastDateError: string := "Erro ao enviar mensagem para o grupo: A data de agendamento deve ser futura"

  class Store {
    var contacts: seq<Contact>
    var scheduledMessages: seq<ScheduledMessage>
    var messagesSentInLastMinute: nat
    var lastMessageSentTime: nat
    var failedAttempts: map<string, FailRecord>
    var clock: nat
    var error: Option<string>
    var successMessage: Option<string>
    var timers: seq<Timer>
    const settings: Settings

    /** The fields a delivery pass reads and writes. */
    function Snapshot(): DispatchState
      reads this
    {
      DispatchState(messagesSentInLastMinute, lastMessageSentTime, failedAttempts, clock, successMessage)
    }

    ghost predicate Valid()
      reads this
    {
      settings == DefaultSettings() && GateInvariant(Snapshot(), settings)
    }

    /** The initial state of the store, at time `now`. */
    constructor (now: nat)
      ensures Valid()
      ensures contacts == [] && scheduledMessages == [] && timers == []
      ensures Snapshot() == DispatchState(0, 0, map[], now, None)
      ensures error == None
    {
      contacts := [];
      scheduledMessages := [];
      messagesSentInLastMinute := 0;
      lastMessageSentTime := 0;
      failedAttempts := map[];
      clock := now;
      error := None;
      successMessage := None;
      timers := [];
      settings := DefaultSettings();
    }

    /** Time passes between two actions of the operator: `Date.now()` moves on
        by `d` milliseconds and nothing else changes. */
    method Tick(d: nat)
      requires Valid()
      modifies this`clock
      ensures Valid()
      ensures clock == old(clock) + d
    {
      clock := clock + d;
    }

    /** `addContact`: append the new record, with the current time as id and
        creation time. */
    method AddContact(form: ContactForm)
      requires Valid()
      modifies this
      ensures Valid()
      ensures contacts == old(contacts) + [NewContact(form, clock, clock)]
      ensures successMessage == Some(AddedNotice)
      ensures unchanged(this`scheduledMessages, this`timers, this`error, this`clock)
      ensures unchanged(this`messagesSentInLastMinute, this`lastMessageSentTime, this`failedAttempts)
    {
      contacts := contacts + [NewContact(form, clock, clock)];
      successMessage := Some(AddedNotice);
    }

    /** `removeContact`. */
    method RemoveContact(id: int)
      requires Valid()
      modifies this
      ensures Valid()
      ensures contacts == WithoutContact(old(contacts), id)
      ensures successMessage == Some(RemovedNotice)
      ensures unchanged(this`scheduledMessages, this`timers, this`error, this`clock)
      ensures unchanged(this`messagesSentInLastMinute, this`lastMessageSentTime, this`failedAttempts)
    {
      contacts := WithoutContact(contacts, id);
      successMessage := Some(RemovedNotice);
    }

    /** `updateContact`: an unknown id changes nothing, not even the notice. */
    method UpdateContact(id: int, patch: ContactPatch) returns (found: bool)
      requires Valid()
      modifies this
      ensures Valid()
      ensures found <==> exists j :: 0 <= j < |old(contacts)| && old(contacts)[j].id == id
      ensures contacts == UpdatedContacts(old(contacts), id, patch)
      ensures successMessage == if found then Some(UpdatedNotice) else old(successMessage)
      ensures unchanged(this`scheduledMessages, this`timers, this`error, this`clock)
      ensures unchanged(this`messagesSentInLastMinute, this`lastMessageSentTime, this`failedAttempts)
    {
      var index := FirstIndex(contacts, HasContactId(id));
      found := index.Some?;
      if found {
        contacts := UpdatedContacts(contacts, id, patch);
        successMessage := Some(UpdatedNotice);
      }
    }

    /** One pass of the loop of `sendMessagesWithDelay`, the `catch` included. */
    method DeliverOne(c: Contact, message: string, t: TransportResult) returns (o: Outcome)
      requires Valid()
      modifies this
      ensures Valid()
      ensures (Snapshot(), o) == Step(old(Snapshot()), settings, c, message, t)
      ensures unchanged(this`contacts, this`scheduledMessages, this`timers, this`error)
    {
      StepKeepsInvariant(Snapshot(), settings, c, message, t);
      var now := clock;
      o := TryDeliver(c, message, t);
      if !o.Sent? {
        CatchFailure(c.phone, now);
      }
    }

    /** The body of the `try`: the hour check, the two waits, the cooldown check
        and the send, with the success bookkeeping. */
    method TryDeliver(c: Contact, message: string, t: TransportResult) returns (o: Outcome)
      modifies this
      ensures (Snapshot(), o) == Attempt(old(Snapshot()), settings, c, message, t)
      ensures unchanged(this`contacts, this`scheduledMessages, this`timers, this`error)
    {
      var now := clock;
      if !InHours(settings, now) {
        o := Failed(c.phone, OutsideHours);
        return;
      }
      WaitForSlot(now);
      if c.phone in failedAttempts && failedAttempts[c.phone].count >= settings.maxRetries {
        if now - failedAttempts[c.phone].lastAttempt < settings.cooldownPeriod {
          o := Failed(c.phone, Cooldown);
          return;
        }
        failedAttempts := failedAttempts[c.phone := FailRecord(0, now)];
      }
      o := SendAndCount(c, message, t);
    }

    /** The per-minute wait and the spacing wait, both measured from `now`. */
    method WaitForSlot(now: nat)
      modifies this`clock, this`messagesSentInLastMinute
      ensures var st1 := MinuteCheck(old(Snapshot()), settings);
        Snapshot() == st1.(clock := st1.clock + SpacingWait(old(lastMessageSentTime), now, settings))
    {
      if messagesSentInLastMinute >= settings.maxMessagesPerMinute {
        clock := clock + MinuteMs;
        messagesSentInLastMinute := 0;
      }
      if lastMessageSentTime != 0 && now - lastMessageSentTime < settings.delayBetweenMessages {
        clock := clock + (settings.delayBetweenMessages - (now - lastMessageSentTime));
      }
    }

    /** `sendMessageToContact` followed, on success, by the updates of the two
        counters and the removal of the phone's failure entry; the time of the
        last send is the time of the call. */
    method SendAndCount(c: Contact, message: string, t: TransportResult) returns (o: Outcome)
      modifies this`clock, this`messagesSentInLastMinute, this`lastMessageSentTime, this`failedAttempts
      ensures (Snapshot(), o) == Deliver(old(Snapshot()), c, message, t)
    {
      var callTime := clock;
      o := SendMessageToContact(c, message, t);
      if o.Sent? {
        messagesSentInLastMinute := messagesSentInLastMinute + 1;
        lastMessageSentTime := callTime;
        failedAttempts := failedAttempts - {c.phone};
      }
    }

    /** The `catch`, with `now` in scope: count one more failure for the phone,
        stamp it with `now`, and warn once the limit is reached. */
    method CatchFailure(phone: string, now: nat)
      modifies this`failedAttempts, this`successMessage
      ensures Snapshot() == RecordFailure(old(Snapshot()), settings, phone, now)
    {
      var count := (if phone in failedAttempts then failedAttempts[phone].count else 0) + 1;
      failedAttempts := failedAttempts[phone := FailRecord(count, now)];
      if count >= settings.maxRetries {
        successMessage := Some(LimitNotice(phone));
      }
    }

    /** `sendMessageToContact`: refuse a contact without a phone, otherwise call
        the transport with the formatted number and the expanded template. Only
        the clock changes. */
    method SendMessageToContact(c: Contact, message: string, t: TransportResult) returns (o: Outcome)
      modifies this`clock
      ensures o.phone == c.phone
      ensures c.phone == "" ==> o == Failed(c.phone, MissingPhone) && clock == old(clock)
      ensures c.phone != "" ==>
        var number := FormatNumber(c.phone);
        var text := ExpandTags(message, c);
        && o == (if t.delivered then Sent(c.phone, number, text, old(clock))
                 else Failed(c.phone, TransportFailure(number, text, old(clock))))
        && clock == old(clock) + t.elapsed
    {
      if c.phone == "" {
        o := Failed(c.phone, MissingPhone);
      } else {
        var number := FormatNumber(c.phone);
        var text := ExpandTags(message, c);
        var at := clock;
        clock := clock + t.elapsed;
        if t.delivered {
          o := Sent(c.phone, number, text, at);
        } else {
          o := Failed(c.phone, TransportFailure(number, text, at));
        }
      }
    }

    /** `sendMessagesWithDelay`: one pass per contact, in list order. */
    method SendMessagesWithDelay(cs: seq<Contact>, message: string, net: nat -> TransportResult) returns (outcomes: seq<Outcome>)
      requires Valid()
      modifies this
      ensures Valid()
      ensures Snapshot() == Run(old(Snapshot()), settings, cs, message, net).state
      ensures outcomes == Run(old(Snapshot()), settings, cs, message, net).outcomes
      ensures unchanged(this`contacts, this`scheduledMessages, this`timers, this`error)
    {
      ghost var start := Snapshot();
      outcomes := [];
      for i := 0 to |cs|
        invariant Valid()
        invariant Snapshot() == Run(start, settings, cs[..i], message, net).state
        invariant outcomes == Run(start, settings, cs[..i], message, net).outcomes
        invariant unchanged(this`contacts, this`scheduledMessages, this`timers, this`error)
      {
        RunExtends(start, settings, cs, message, net, i);
        var o := DeliverOne(cs[i], message, net(i));
        outcomes := outcomes + [o];
      }
      assert cs[..|cs|] == cs;
    }

    /** The scheduling branch of `sendMessageToGroup`: a time in the future
        records the entry and arms a timer over the members as they are now;
        any other time is refused with the past-date error. */
    method ScheduleGroupSend(group: string, members: seq<Contact>, message: string, when: int)
      returns (ok: bool)
      requires Valid()
      modifies this
      ensures Valid()
      ensures unchanged(this`contacts)
      ensures ok <==> when > old(clock)
      ensures !ok ==> error == Some(PastDateError) && unchanged(this`scheduledMessages, this`timers)
      ensures !ok ==> Snapshot() == old(Snapshot())
      ensures ok ==> error == None
      ensures ok ==> scheduledMessages == old(scheduledMessages) + [ScheduledMessage(old(clock), group, message, when, "scheduled")]
      ensures ok ==> timers == old(timers) + [Timer(old(clock) + TimerDelay(when - old(clock)), members, message)]
      ensures ok && when - old(clock) < 0x8000_0000 ==> timers[|timers| - 1].fireAt == when
      ensures ok ==> Snapshot() == old(Snapshot()).(notice := Some(ScheduledNotice))
    {
      if when <= clock {
        error := Some(PastDateError);
        ok := false;
      } else {
        error := None;
        timers := timers + [Timer(clock + TimerDelay(when - clock), members, message)];
        scheduledMessages := scheduledMessages + [ScheduledMessage(clock, group, message, when, "scheduled")];
        successMessage := Some(ScheduledNotice);
        ok := true;
      }
    }

    /** `sendMessageToGroup`. With a time, the send is scheduled if the time is
        in the future and refused otherwise; without one, the group is sent to
        at once and the operator is told so whatever the individual outcomes. */
    method SendMessageToGroup(group: string, message: string, scheduledTime: Option<int>, net: nat -> TransportResult)
      returns (ok: bool, outcomes: seq<Outcome>)
      requires Valid()
      modifies this
      ensures Valid()
      ensures unchanged(this`contacts)
      ensures var members := ContactsByGroup(old(contacts), group);
        match scheduledTime
        case Some(when) =>
          && outcomes == []
          && (ok <==> when > old(clock))
          && (!ok ==> error == Some(PastDateError) && unchanged(this`scheduledMessages, this`timers))
          && (!ok ==> Snapshot() == old(Snapshot()))
          && (ok ==> error == None)
          && (ok ==> scheduledMessages == old(scheduledMessages) + [ScheduledMessage(old(clock), group, message, when, "scheduled")])
          && (ok ==> timers == old(timers) + [Timer(old(clock) + TimerDelay(when - old(clock)), members, message)])
          && (ok && when - old(clock) < 0x8000_0000 ==> timers[|timers| - 1].fireAt == when)
          && (ok ==> Snapshot() == old(Snapshot()).(notice := Some(ScheduledNotice)))
        case None =>
          && ok && error == None
          && unchanged(this`scheduledMessages, this`timers)
          && var b := Run(old(Snapshot()), settings, members, message, net);
          && outcomes == b.outcomes
          && Snapshot() == b.state.(notice := Some(SentNotice))
    {
      var members := ContactsByGroup(contacts, group);
      outcomes := [];
      match scheduledTime {
        case Some(when) =>
          ok := ScheduleGroupSend(group, members, message, when);
        case None =>
          error := None;
          outcomes := SendMessagesWithDelay(members, message, net);
          successMessage := Some(SentNotice);
          ok := true;
      }
    }

    /** The event loop runs the k-th pending timer: the clock reaches its time
        and the captured contacts are sent to. Its scheduled-message entry is
        left as it is. */
    method FireTimer(k: nat, net: nat -> TransportResult) returns (outcomes: seq<Outcome>)
      requires Valid() && k < |timers|
      modifies this
      ensures Valid()
      ensures timers == old(timers[..k] + timers[k + 1..])
      ensures var t := old(timers[k]);
        var woken := old(Snapshot()).(clock := if t.fireAt > old(clock) then t.fireAt as nat else old(clock));
        var b := Run(woken, settings, t.contacts, t.message, net);
        outcomes == b.outcomes && Snapshot() == b.state
      ensures unchanged(this`contacts, this`scheduledMessages, this`error)
    {
      var t := timers[k];
      timers := timers[..k] + timers[k + 1..];
      if t.fireAt > clock {
        clock := t.fireAt as nat;
      }
      outcomes := SendMessagesWithDelay(t.contacts, t.message, net);
    }

    /** `cancelScheduledMessage`: the entry goes, the pending timer stays. */
    method CancelScheduledMessage(id: int)
      requires Valid()
      modifies this
      ensures Valid()
      ensures scheduledMessages == WithoutScheduled(old(scheduledMessages), id)
      ensures timers == old(timers)
      ensures successMessage == Some(CancelledNotice)
      ensures unchanged(this`contacts, this`error, this`clock)
      ensures unchanged(this`messagesSentInLastMinute, this`lastMessageSentTime, this`failedAttempts)
    {
      scheduledMessages := WithoutScheduled(scheduledMessages, id);
      successMessage := Some(CancelledNotice);
    }

    /** `getGroups`. */
    function GetGroups(): (r: seq<string>)
      reads this
      ensures forall g :: g in r <==> exists i :: 0 <= i < |contacts| && contacts[i].group == g
      ensures forall i, j :: 0 <= i < j < |r| ==> r[i] != r[j]
    {
      Groups(contacts)
    }

    /** `getContactsByGroup`. */
    function GetContactsByGroup(group: string): (r: seq<Contact>)
      reads this
      ensures forall c :: c in r <==> c in contacts && c.group == group
    {
      ContactsByGroup(contacts, group)
    }

    /** `getScheduledMessages`: sorts the stored list itself by time and returns it. */
    method GetScheduledMessages() returns (r: seq<ScheduledMessage>)
      modifies this`scheduledMessages
      ensures r == scheduledMessages
      ensures SortedByTime(r) && multiset(r) == multiset(old(scheduledMessages))
      ensures forall t :: Ties(r, t) == Ties(old(scheduledMessages), t)
      ensures SortedByTime(old(scheduledMessages)) ==> r == old(scheduledMessages)
    {
      forall t ensures Ties(SortByTime(scheduledMessages), t) == Ties(scheduledMessages, t) {
        SortByTimeStable(scheduledMessages, t);
      }
      if SortedByTime(scheduledMessages) {
        SortByTimeOfSorted(scheduledMessages);
      }
      scheduledMessages := SortByTime(scheduledMessages);
      r := scheduledMessages;
    }
  }
}
