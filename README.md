# Verified model of the botzapvoice dispatcher and auto-reply rules

This project is a Dafny model of two parts of the botzapvoice WhatsApp bot.

The first is the bulk dispatcher of the contacts store (`src/stores/contacts.js`). It covers:

- the contact list and its getters;
- the scheduled-message list;
- the `{nome}`/`{telefone}`/`{grupo}` template expansion;
- the phone-number formatting;
- `sendMessageToGroup`;
- the delivery loop of `sendMessagesWithDelay`. Each contact goes through the same checks in order: the hour window, the per-minute counter, the spacing between sends and the per-phone cooldown. In the corrected loop every error is recorded in the `failedAttempts` ledger; as written, the first error ends the loop (see Findings).

The second is the rule-based part of the backend (`backend/index.js`). It covers:

- choosing the auto-reply whose trigger occurs in a text;
- the replies of the incoming-message handler and of `/api/send-message`;
- the `@c.us` suffix;
- the edits that the `/api/auto-messages` routes make to the stored list;
- the validation of the AI switch.

Modules:

- `Seqs`: `Option`, together with the `findIndex` and `filter` array operations.
- `Text`: the ASCII character classes, `includes` and lower-casing.
- `ContactsModel`: contacts, settings, template expansion, number formatting, the group getters and sorting by time.
- `Dispatch`: the delivery loop as functions.
  - `Step` is one pass, `catch` included.
  - `Run` is the whole loop.
  - `RunAsWritten` is the loop as the source actually executes it; `Run` corrects the two defects listed under Findings.
- `ContactsStore`: class `Store`.
  - Its fields are the store's state, and its methods update them in place. `Tick` lets time pass between two actions of the operator.
  - Each method is proved equal to the function it corresponds to. For example, `SendMessagesWithDelay` is a loop whose invariant ties the fields to `Run`.
- `AutoReply`: trigger selection, the replies, the number suffix and the list edits, as functions.
- `AutoMessageRoutes`: class `ConfigFiles`, whose fields hold the contents of `autoMessages.json` and `aiConfig.json`. Its route methods update those fields.

Time is a `clock` field, in milliseconds, that stands for `Date.now()`:

- The one-minute wait and the spacing wait move the clock forward.
- The time a send takes is part of the transport's answer, so it moves the clock forward too.
- The transport is an oracle, `net(i)`, that gives the result for the i-th contact of a batch.
- The AI service, the WhatsApp client and the file system are inputs.

The time of the previous send is `lastSentTime`. A value of 0 stands for the initial `null`, since the source treats both alike. A missing phone is the empty string.

Where the code and its evident intent differ, the model follows the code, except for the two defects under Findings:

- `cancelScheduledMessage` removes the list entry but not the pending timer, so a cancelled broadcast still fires. `Store.CancelScheduledMessage` leaves `timers` unchanged, and `Store.FireTimer` still runs that timer's batch.
- An entry whose count is below the limit never expires. Failures keep adding up across days.
- With `now` in scope (see Findings), an out-of-hours contact is recorded as a failure. As written, it ends the batch and nothing is recorded.
- A scheduled send returns `true` rather than an id.
- The scheduled entry keeps the status `scheduled` after its timer fires.
- The contacts a scheduled send delivers to are the group's members when it was scheduled.
- The delay of a scheduled send goes to `setTimeout`, which takes a 32-bit signed delay. A send scheduled 2^31 ms (about 24.8 days) or more ahead does not wait: one scheduled 30 days ahead goes out at once. `ContactsStore.TimerDelay` gives the delay actually waited.
- `/api/send-message` never forwards the text it is given. It sends a matching entry's response, or otherwise the AI's answer, whether or not the AI switch is on.
- With `now` in scope (see Findings), the notice after an immediate group send always reads "Mensagens enviadas com sucesso!", even when every contact failed, and it overwrites a retry-limit warning. As written, the first failure makes the send end with the error set and `false`, and the retry-limit warning can never be shown.

## Model

| member | source | states |
|---|---|---|
| `ContactsModel.NewContact` | src/stores/contacts.js:30-37 | the pushed record carries the given id, name, phone and creation time, and its group is the given one or "Geral" when none was given (never empty) |
| `ContactsModel.WithoutContact` | src/stores/contacts.js:42-46 | exactly the contacts with a different id remain, each as many times as before; an absent id leaves the list unchanged |
| `ContactsModel.WithoutContactKeepsOrder` | src/stores/contacts.js:43 | removal keeps the order of the remaining contacts: removing from a concatenation removes from each part |
| `ContactsModel.RemoveUndoesAdd` | src/stores/contacts.js:30-46 | removing the id of a just-added contact, when no earlier contact had it, restores the list |
| `ContactsModel.UpdatedContacts` | src/stores/contacts.js:48-55 | the first contact with the id gets the patch merged over it, every other position is unchanged; no match leaves the list unchanged |
| `ContactsModel.ContactsByGroup` | src/stores/contacts.js:339-341 | exactly the contacts of that group, each as many times as stored |
| `ContactsModel.AddedContactJoinsItsGroup` | src/stores/contacts.js:339-341 | filtering keeps stored order: a new contact lands at the end of its own group and no other group changes |
| `ContactsModel.Groups` | src/stores/contacts.js:335-337 | a label is listed iff some contact has it, and no label is listed twice |
| `ContactsModel.WithoutScheduled` | src/stores/contacts.js:328-331 | exactly the scheduled messages with a different id remain, each with its multiplicity |
| `ContactsModel.WithoutScheduledKeepsOrder` | src/stores/contacts.js:329 | cancelling keeps the order of the remaining messages: removing from a concatenation removes from each part |
| `ContactsModel.SortByTime` | src/stores/contacts.js:343-345 | the result is in ascending order of time and is a permutation of the input |
| `ContactsModel.InsertByTimeTies` | src/stores/contacts.js:344 | an inserted message goes ahead of every message with the same time |
| `ContactsModel.SortByTimeStable` | src/stores/contacts.js:344 | the sort is stable: for every time, the messages with that time come out in their original order |
| `ContactsModel.SortByTimeOfSorted` | src/stores/contacts.js:344 | sorting an already sorted list changes nothing |
| `ContactsModel.SortKeepsTiesExample` | src/stores/contacts.js:344 | two messages with the same time keep their order |
| `ContactsModel.ExpandTagAtFront` | src/stores/contacts.js:313-325 | a leading `{tag}` becomes the name, phone or group when the tag, lower-cased, is nome, telefone or grupo, and stays verbatim with its braces otherwise |
| `ContactsModel.ExpandPlainChar` | src/stores/contacts.js:314 | a first character other than `{` is copied and the scan goes on after it |
| `ContactsModel.ExpandPlainPrefix` | src/stores/contacts.js:314 | text before the first brace passes through unchanged |
| `ContactsModel.ExpandWithoutBraces` | src/stores/contacts.js:314 | a template without braces is returned as it is |
| `ContactsModel.ExpandUnmatchedBrace` | src/stores/contacts.js:314 | a `{` not followed by word characters and a closing `}` is kept, and the scan goes on after it |
| `ContactsModel.ExpandBraceBeforeTag` | src/stores/contacts.js:314 | in `{{tag}...`, the outer brace is kept and the inner `{tag}` is expanded |
| `ContactsModel.WordRunOfWord` | src/stores/contacts.js:314 | the tag pattern takes the whole run of word characters before a non-word character |
| `ContactsModel.ExpandExample` | src/stores/contacts.js:316-317 | "Oi {NOME}" expands to "Oi " followed by the name |
| `ContactsModel.ExpandUnknownExample` | src/stores/contacts.js:322-323 | "{foo}" is left as "{foo}" |
| `ContactsModel.FormatNumberShape` | src/stores/contacts.js:281-287 | the number is the phone's digits, with "55" in front only when they lack it, then one "@c.us"; it starts with 55 and is all digits before the suffix |
| `ContactsModel.FormatNumberIdempotent` | src/stores/contacts.js:281-287 | formatting a formatted number changes nothing |
| `Dispatch.Deliver` | src/stores/contacts.js:241-250 | the send touches no ledger entry but the contact's own and never moves the clock back; a success adds one to the counter, deletes the contact's entry and records the time of the transport call as the last send (corrected, see Findings); a failure changes neither counter, last-send time nor ledger |
| `Dispatch.Attempt` | src/stores/contacts.js:204-241 | the checks and the send touch no other phone's entry and never move the clock back |
| `Dispatch.Step` | src/stores/contacts.js:203-266 | a pass yields the outcome of its own contact and never moves the clock back |
| `Dispatch.StepStamps` | src/stores/contacts.js:241-260 | after a pass the contact's entry is absent or stamped with the pass's `now`; the last-send time changes only on a success, to the time of the transport call, which lies between `now` and the clock after the pass |
| `Dispatch.AttemptFailureEntry` | src/stores/contacts.js:229-241 | when the `try` throws, the contact's entry is as before, or the reset record (count 0, `now`) after a lifted cooldown; the last-send time is untouched |
| `Dispatch.Run` | src/stores/contacts.js:202-267 | the loop never aborts and yields exactly one outcome per contact |
| `Dispatch.RunExtends` | src/stores/contacts.js:202-267 | the loop over one more contact is the loop so far followed by that contact's pass |
| `Dispatch.StepLedgerFrame` | src/stores/contacts.js:248-260 | a pass changes no ledger entry of another phone |
| `Dispatch.SuccessClearsLedger` | src/stores/contacts.js:241-250 | a success deletes the entry, adds one to the counter and records the time of the transport call as the last send |
| `Dispatch.FailureRecorded` | src/stores/contacts.js:252-260 | every error leaves an entry stamped `now` with count one more than before (1 if it was absent or a cooldown was just lifted) |
| `Dispatch.OutsideHoursRefused` | src/stores/contacts.js:205-210 | the contact is refused for the hour exactly when the hour is outside [start, end); then no wait happens |
| `Dispatch.CooldownBlocks` | src/stores/contacts.js:229-235 | refused for cooldown exactly when in hours with count ≥ maxRetries and `now - lastAttempt` < cooldownPeriod |
| `Dispatch.CooldownLifts` | src/stores/contacts.js:236-241 | after the cooldown the transport is called; a success removes the entry and a failure leaves count 1 |
| `Dispatch.SentMessageShape` | src/stores/contacts.js:270-299 | no transport call without a phone; a send goes to the formatted number with the expanded template |
| `Dispatch.TransportTiming` | src/stores/contacts.js:212-226 | the call comes after exactly the minute wait (if at the cap) and `delay - elapsed` measured from `now` (if too soon), so at least `delay` after the recorded last-send time |
| `Dispatch.RunSendTimes` | src/stores/contacts.js:202-267 | in a batch every send lies between the starting clock and the recorded last-send time, and comes at least `delay` after every earlier send |
| `Dispatch.RunSpacesSends` | src/stores/contacts.js:18 | any two sends of a batch that starts after time 0 are at least `delayBetweenMessages` apart |
| `Dispatch.MinuteCheckBelowCap` | src/stores/contacts.js:213-216 | after the per-minute check the counter is below the cap, and the minute is waited exactly when the cap was reached |
| `Dispatch.CounterBound` | src/stores/contacts.js:213-244 | the counter never exceeds the cap, grows only on success and falls only after a minute's wait |
| `Dispatch.StepKeepsInvariant` | src/stores/contacts.js:203-266 | a pass keeps the counter within the cap and every recorded time at or before the clock |
| `Dispatch.RunKeepsInvariant` | src/stores/contacts.js:202-267 | the whole loop keeps that invariant and never moves the clock back |
| `Dispatch.RunIsolation` | src/stores/contacts.js:202-267 | the ledger entry of a phone outside the batch is the same after the batch |
| `Dispatch.RunVisitsEveryContact` | src/stores/contacts.js:202-267 | the k-th outcome is the k-th contact's own pass on the state left by the first k; no error stops the rest |
| `Dispatch.AttemptAsWritten` | src/stores/contacts.js:204-245 | the `try` as written gives the same outcome and ledger as `Attempt`, but a success records the pass's `now`, read before the waits, as the last send |
| `Dispatch.RunAsWritten` | src/stores/contacts.js:201-268 | as executed: at most one outcome per contact, and one per contact when nothing aborted |
| `Dispatch.RunAsWrittenShape` | src/stores/contacts.js:201-268 | as executed: every outcome before the last is a success, an aborted batch ends on the failing contact, a finished one holds only successes |
| `Dispatch.AttemptKeepsKeys` | src/stores/contacts.js:229-250 | the `try` never adds a ledger entry |
| `Dispatch.AsWrittenNeverCreatesEntries` | src/stores/contacts.js:256-260 | as executed, no ledger entry is ever created |
| `Dispatch.AsWrittenDropsRemainingContacts` | src/stores/contacts.js:205-260 | two contacts at midnight: as executed, one outcome and an empty ledger; with `now` in scope, both visited and both recorded |
| `Dispatch.AsWrittenSendsTogether` | src/stores/contacts.js:205-245 | three contacts at 10:00 with an instant transport: as executed, the second and third messages both go out at 10:00:03; with the call time recorded, they go out at 10:00:00, 10:00:03 and 10:00:06 |
| `ContactsStore.Store.constructor` | src/stores/contacts.js:4-27 | empty lists, zero counter, no last send, empty ledger, the default security settings |
| `ContactsStore.Store.Tick` | src/stores/contacts.js:32 | `Date.now()` moves on by the given amount between two actions; only the clock changes and the invariant is kept |
| `ContactsStore.Store.AddContact` | src/stores/contacts.js:30-40 | appends `NewContact` with the clock as id and creation time and sets the notice; nothing else changes |
| `ContactsStore.Store.RemoveContact` | src/stores/contacts.js:42-46 | the list becomes `WithoutContact` and the notice is set |
| `ContactsStore.Store.UpdateContact` | src/stores/contacts.js:48-55 | reports whether the id exists; merges into the first match and sets the notice only then |
| `ContactsStore.Store.DeliverOne` | src/stores/contacts.js:203-266 | the fields after one pass equal `Step` of the fields before, and the invariant is kept |
| `ContactsStore.Store.TryDeliver` | src/stores/contacts.js:204-250 | the `try` body leaves the fields as `Attempt` says |
| `ContactsStore.Store.WaitForSlot` | src/stores/contacts.js:212-226 | the two waits advance the clock and reset the counter as `MinuteCheck` and `SpacingWait` say |
| `ContactsStore.Store.SendAndCount` | src/stores/contacts.js:241-250 | the send with its success bookkeeping leaves the fields as `Deliver` says, recording the time of the call as the last send |
| `ContactsStore.Store.CatchFailure` | src/stores/contacts.js:252-265 | the `catch` with `now` in scope leaves the fields as `RecordFailure` says |
| `ContactsStore.Store.SendMessageToContact` | src/stores/contacts.js:270-311 | a missing phone is refused with no clock change; otherwise the formatted number and expanded text go to the transport |
| `ContactsStore.Store.SendMessagesWithDelay` | src/stores/contacts.js:201-268 | the loop leaves the fields and the outcomes that `Run` gives, keeping the invariant |
| `ContactsStore.TimerDelay` | src/stores/contacts.js:171-175 | `setTimeout` waits the requested delay when it is below 2^31 ms, and not at all for a delay in [2^31, 2^32) |
| `ContactsStore.ThirtyDaysAheadFiresAtOnce` | src/stores/contacts.js:171-175 | a delay of 30 days does not wait |
| `ContactsStore.Store.ScheduleGroupSend` | src/stores/contacts.js:162-186 | a time not after the clock sets the past-date error and changes nothing else; a later time appends one "scheduled" entry stamped with the clock and one timer over the given members, firing after `TimerDelay` of the requested delay, and sets the scheduled notice |
| `ContactsStore.Store.SendMessageToGroup` | src/stores/contacts.js:155-199 | a past or present time sets the error, sends nothing and appends nothing; a future time appends one "scheduled" entry and one timer over the group's members that fires after `TimerDelay` of the requested delay, at the requested time when that delay is below 2^31 ms; no time runs `Run` over exactly the group's members in stored order |
| `ContactsStore.Store.FireTimer` | src/stores/contacts.js:173-175 | the timer is consumed and its captured contacts are sent to at its firing time; the scheduled entry is left as it is |
| `ContactsStore.Store.CancelScheduledMessage` | src/stores/contacts.js:328-331 | the entry is filtered out, the notice is set, and the pending timer stays |
| `ContactsStore.Store.GetGroups` | src/stores/contacts.js:335-337 | the distinct labels of the stored contacts |
| `ContactsStore.Store.GetContactsByGroup` | src/stores/contacts.js:339-341 | exactly the stored contacts of the group |
| `ContactsStore.Store.GetScheduledMessages` | src/stores/contacts.js:343-345 | the stored list itself becomes sorted by time, as a stable permutation, and is returned; a sorted list is left as it is, so a second call changes nothing |
| `AutoReply.FindAutoMessage` | backend/index.js:105-108 | the first entry in list order whose non-empty trigger occurs in the text ignoring case; none iff no entry matches; an empty trigger is never chosen |
| `AutoReply.LowerIdempotent` | backend/index.js:107 | lower-casing twice is lower-casing once |
| `AutoReply.MatchIgnoresCase` | backend/index.js:253-256 | the match does not depend on the case of the text or of the trigger |
| `AutoReply.MatchIffOccurs` | backend/index.js:253-256 | a match is exactly a non-empty trigger occurring at some position of the lower-cased text |
| `AutoReply.TriggerInTextMatches` | backend/index.js:105-108 | a non-empty trigger matches any text that contains it |
| `AutoReply.IncomingReply` | backend/index.js:96-212 | no reply iff no entry matches and the AI is off |
| `AutoReply.MatchedReplyIgnoresAI` | backend/index.js:110-140 | with a match, the switch and the AI's answer do not affect the reply; a non-audio entry replies with its response |
| `AutoReply.UnmatchedReplyIsAI` | backend/index.js:142-204 | with no match and the AI on, the reply is the AI's answer, or the apology when that failed |
| `AutoReply.SuffixNumber` | backend/index.js:246 | a number containing "@c.us" is kept, any other gets "@c.us" appended; the result contains it |
| `AutoReply.SuffixNumberIdempotent` | backend/index.js:246 | suffixing twice is suffixing once |
| `AutoReply.SuffixKeepsFormattedNumber` | backend/index.js:246 | a number formatted by the store passes through the route unchanged |
| `AutoReply.SendMessageRoute` | backend/index.js:236-324 | with a match, 200 and the first matching entry's response to the suffixed number; with none, 200 and the AI's answer iff that answer is usable, otherwise 500 and nothing sent (an empty `response` gives the missing-field error) |
| `AutoReply.RouteAgreesWithHandler` | backend/index.js:105-140 | for a matching text entry, or no match and a usable AI answer, the route sends exactly the text the handler (AI on) replies with |
| `AutoReply.RouteUsesAIWithoutMatch` | backend/index.js:264-319 | with no match the route sends the AI's answer, whatever the switch |
| `AutoReply.NewAutoMessage` | backend/index.js:394-398 | the creation time is now; the id is now unless the body carries one |
| `AutoReply.Created` | backend/index.js:393-400 | one entry more, at the end; earlier entries unchanged |
| `AutoReply.Updated` | backend/index.js:409-417 | no result (404) iff no entry has the id; otherwise the first such entry is merged and every other is unchanged |
| `AutoReply.Deleted` | backend/index.js:425-428 | exactly the entries with a different id remain; an absent id leaves the list unchanged |
| `AutoReply.DeleteUndoesCreate` | backend/index.js:391-432 | deleting a just-created entry's fresh id restores the list |
| `AutoReply.DeletedKeepsOrder` | backend/index.js:426 | deletion keeps the remaining entries in their original order |
| `AutoMessageRoutes.ConfigFiles.constructor` | backend/index.js:15-24 | an existing, empty `autoMessages.json` and the `aiConfig.json` that is created with the AI off |
| `AutoMessageRoutes.ConfigFiles.PostAutoMessage` | backend/index.js:391-405 | the stored list becomes `Created` of the old one; status 200 |
| `AutoMessageRoutes.ConfigFiles.PutAutoMessage` | backend/index.js:407-421 | 404 with nothing written iff no entry has the id, else 200 and the list becomes `Updated` |
| `AutoMessageRoutes.ConfigFiles.DeleteAutoMessage` | backend/index.js:423-432 | the list becomes `Deleted`; always 200 |
| `AutoMessageRoutes.ConfigFiles.PutAIStatus` | backend/index.js:338-377 | a non-boolean gets 400 and changes nothing; a boolean is stored and echoed |
| `AutoMessageRoutes.ConfigFiles.HandleIncoming` | backend/index.js:96-212 | the reply is `IncomingReply` over the stored list and switch: none iff no match and the switch off; with a match the switch does not matter; with no match and the switch on, the AI's answer or the apology |
| `AutoMessageRoutes.ConfigFiles.SendMessage` | backend/index.js:236-324 | the route over the stored list, delivering to the suffixed number |

## Left out

- The hour is the UTC hour of the clock, `(t / 3600000) % 24`. The conversion to local time done by `getHours()` is not modelled.
- `toLowerCase` is modelled on ASCII letters only. Unicode case mapping is not modelled.
- The tag pattern's `\w` and `\d` are ASCII in JavaScript, so the template and digit handling are exact.
- Invalid dates are not modelled. In the source, a scheduled time that parses to `NaN` passes the "future" check and its timer fires at once. Here a scheduled time is an integer; `None` stands for every falsy value, including the epoch 0.
- `isLoading`, `localStorage` (`saveContacts`/`loadContacts`), `console` output and the three-second reset of `successMessage` are not modelled; they are timers and storage.
- The fetch wrappers of the store (`loadAutoMessages`, `addAutoMessage`, `deleteAutoMessage`, `toggleAI`) are not part of this model.
- File read and write failures of the backend, which lead to status 500, are not modelled. Neither is the empty-file fallback `|| '[]'`. The same holds for the failure of `client.sendMessage`, the prompt text sent to the AI, and the `!client` check, which can never fire.
- `parseInt` of a route parameter is an input: `Some(n)` for a parsed number, `None` for `NaN`, which equals no id.
- Ids read from files are integers. A string id, which `===` would never match, is not modelled.
- `createdAt` is kept as milliseconds rather than as an ISO string.
- Only the message `"Resposta da IA não contém o campo response"` of a route 500 is modelled. The other 500 messages are left as the empty string.
- Concurrency is not modelled. A scheduled batch firing while an immediate one is waiting could interleave in the source; the model runs each batch to completion.
- The per-minute counter is a count that is reset after a 60-second wait, exactly as in the source. It is not a rolling window, and no rolling-window property is claimed.
- `ContactsModel.Groups` does not state the order of the labels. Set insertion order is first appearance; the contract states membership and distinctness only.
- `ContactsStore.Store.SendMessageToGroup`, `ContactsStore.Store.SendMessagesWithDelay`, `ContactsStore.Store.DeliverOne`, `ContactsStore.Store.CatchFailure` and `ContactsStore.Store.FireTimer` run the corrected pass (see Findings). As written, the first failing contact makes `sendMessagesWithDelay` throw: an immediate group send returns `false` with a `ReferenceError` message, and a timer's batch stops with an unhandled rejection. As written, a success also records the `now` from before the waits, so sends are not kept apart.
- `ContactsStore.Store.SendAndCount` and `Dispatch.Deliver` record the time of the transport call as the last send, where the source records the `now` of the pass; `Dispatch.AttemptAsWritten` and `Dispatch.RunAsWritten` keep the source's stamp.
- A missing `autoMessages.json` is not modelled. `ensureAIConfigFile` creates only `aiConfig.json`; without the list file every `readFileSync` of it throws, the routes answer 500 and the handler never replies. `AutoMessageRoutes.ConfigFiles` starts from an existing, empty list file.

## Findings

| source | as written | input that shows it | evidently intended | confidence | as-written member | corrected member |
|---|---|---|---|---|---|---|
| src/stores/contacts.js:205-260 | `now` is declared with `const` inside the `try` but read in the `catch`, where it is out of scope. The first error of any contact throws a `ReferenceError` out of the loop, and the remaining contacts are never attempted. A missing ledger entry is never created, so the cooldown can never start. | Two contacts in a group, sent at 00:00 (outside 8–20h): the batch stops after the first, and the ledger stays empty | Each error is recorded with the pass's `now` and the loop continues with the next contact | high; not executed | `Dispatch.AsWrittenDropsRemainingContacts` | `Dispatch.Run` |
| src/stores/contacts.js:205-245 | The spacing wait is measured from `now`, read before the waits, and a success records that same `now` as the last send. The pass after a spacing wait therefore finds the full delay already elapsed and does not wait, so the gaps between sends alternate between about `delay - elapsed` and the transport time. | Three contacts at 10:00 with a transport that answers at once: the second and third messages both go out at 10:00:03 | At least `delayBetweenMessages` (3 s) between any two messages | medium; not executed | `Dispatch.AsWrittenSendsTogether` | `Dispatch.RunSpacesSends` |
