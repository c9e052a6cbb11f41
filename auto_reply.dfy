/** The rule-based side of the backend (backend/index.js): choosing the
    auto-reply for a text, the replies of the incoming-message handler and of
    the `/api/send-message` route, the `@c.us` suffix, and the edits the
    `/api/auto-messages` routes make to the stored list. The JSON files are
    values here; the AI service and the WhatsApp client are inputs. */
module AutoReply {
  import opened Seqs
  import opened Text
  import opened ContactsModel

  /** An entry of `autoMessages.json`; an absent text field is the empty string.
      `kind` is the entry's `type`; `createdAt` is in milliseconds. */
  datatype AutoMessage = AutoMessage(
    id: int, trigger: string, response: string, kind: string, audioFile: string, createdAt: nat)

  /** A request body: `None` marks a field the body does not carry. */
  datatype AutoMessagePatch = AutoMessagePatch(
    id: Option<int>, trigger: Option<string>, response: Option<string>,
    kind: Option<string>, audioFile: Option<string>, createdAt: Option<nat>)

  // ---------------------------------------------------------------------------
  // Trigger selection

  /** `m.trigger && text.toLowerCase().includes(m.trigger.toLowerCase())`. */
  predicate Matches(m: AutoMessage, text: string) {
    m.trigger != "" && Contains(Lower(text), Lower(m.trigger))
  }

  function MatchesText(text: string): AutoMessage -> bool {
    (m: AutoMessage) => Matches(m, text)
  }

  /** `autoMessages.find(...)`: the first entry whose trigger occurs in the text,
      ignoring case. An entry without a trigger is never chosen. */
  function FindAutoMessage(list: seq<AutoMessage>, text: string): (r: Option<AutoMessage>)
    ensures r.Some? ==> exists k :: (0 <= k < |list| && list[k] == r.value
      && Matches(list[k], text) && forall j :: 0 <= j < k ==> !Matches(list[j], text))
    ensures r.None? <==> forall j :: 0 <= j < |list| ==> !Matches(list[j], text)
    ensures r.Some? ==> r.value.trigger != ""
  {
    match FirstIndex(list, MatchesText(text))
    case None => None
    case Some(k) => Some(list[k])
  }

  /** Lower-casing twice is lower-casing once. */
  lemma {:induction false} LowerIdempotent(s: string)
    ensures Lower(Lower(s)) == Lower(s)
    decreases |s|
  {
    if s != [] {
      LowerIdempotent(s[1..]);
      assert Lower(s)[1..] == Lower(s[1..]);
    }
  }

  lemma {:induction false} LowerAppend(a: string, b: string)
    ensures Lower(a + b) == Lower(a) + Lower(b)
    decreases |a|
  {
    if a == [] {
      assert a + b == b;
    } else {
      assert (a + b)[1..] == a[1..] + b;
      LowerAppend(a[1..], b);
    }
  }

  /** The match ignores the case of both the text and the trigger. */
  lemma MatchIgnoresCase(m: AutoMessage, text: string)
    ensures Matches(m, Lower(text)) == Matches(m, text)
    ensures Matches(m.(trigger := Lower(m.trigger)), text) == Matches(m, text)
  {
    LowerIdempotent(text);
    LowerIdempotent(m.trigger);
  }

  /** A match is exactly an occurrence of the lower-cased trigger in the
      lower-cased text, at some position. */
  lemma MatchIffOccurs(m: AutoMessage, text: string)
    ensures Matches(m, text) <==> m.trigger != "" && exists i :: OccursAt(Lower(text), Lower(m.trigger), i)
  {
    ContainsIffOccurs(Lower(text), Lower(m.trigger));
    if m.trigger != "" && exists i :: OccursAt(Lower(text), Lower(m.trigger), i) {
      assert Contains(Lower(text), Lower(m.trigger));
      assert Matches(m, text);
    }
  }

  /** A non-empty trigger matches every text it appears in, whatever the case
      of the surrounding text. */
  lemma TriggerInTextMatches(m: AutoMessage, before: string, after: string)
    requires m.trigger != ""
    ensures Matches(m, before + m.trigger + after)
  {
    var text := before + m.trigger + after;
    LowerAppend(before + m.trigger, after);
    LowerAppend(before, m.trigger);
    var low := Lower(text);
    assert low == Lower(before) + Lower(m.trigger) + Lower(after);
    assert low[|before|..|before| + |m.trigger|] == Lower(m.trigger);
    assert OccursAt(low, Lower(m.trigger), |before|);
    ContainsIffOccurs(low, Lower(m.trigger));
  }

  // ---------------------------------------------------------------------------
  // Replies

  const AudioApology: string := "Desculpe, houve um erro ao processar o áudio."
  const AiApology: string :=
    "Desculpe, tive um problema ao processar sua mensagem. Por favor, tente novamente em alguns instantes."

  /** What the AI service gave: the body's `response` field, or a failure (the
      call failed or answered with a non-OK status). A body without `response`
      is `AiText("")`: an empty or missing `response` is not usable, and the
      route answers it with the missing-field error. */
  datatype AiAnswer = AiText(text: string) | AiFailed {
    predicate Usable() { AiText? && text != "" }
  }

  /** What the handler sends back to the sender of a message. */
  datatype Reply = NoReply | TextReply(text: string) | VoiceReply(audioFile: string, caption: string)

  /** The outcome of the audio branch, which depends on the file system and the
      client: whether the audio file exists, and whether the voice send went through. */
  datatype AudioEnv = AudioEnv(fileExists: bool, voiceSent: bool)

  /** The `message` handler: an auto-reply when a trigger matches (as a voice
      note for an audio entry that names a file), otherwise the AI's answer when
      the AI is on, otherwise nothing. */
  function IncomingReply(list: seq<AutoMessage>, body: string, aiEnabled: bool, audio: AudioEnv, ai: AiAnswer): (r: Reply)
    ensures FindAutoMessage(list, body).None? && !aiEnabled ==> r == NoReply
    ensures r == NoReply ==> FindAutoMessage(list, body).None? && !aiEnabled
  {
    match FindAutoMessage(list, body)
    case Some(m) =>
      if m.kind == "audio" && m.audioFile != "" then
        if audio.fileExists && audio.voiceSent then VoiceReply(m.audioFile, m.response)
        else TextReply(AudioApology)
      else TextReply(m.response)
    case None =>
      if !aiEnabled then NoReply
      else if ai.Usable() then TextReply(ai.text)
      else TextReply(AiApology)
  }

  /** When a trigger matches, the entry decides the reply: the AI switch and the
      AI's answer play no part. */
  lemma MatchedReplyIgnoresAI(list: seq<AutoMessage>, body: string, audio: AudioEnv, on1: bool, on2: bool, ai1: AiAnswer, ai2: AiAnswer)
    requires FindAutoMessage(list, body).Some?
    ensures IncomingReply(list, body, on1, audio, ai1) == IncomingReply(list, body, on2, audio, ai2)
    ensures var m := FindAutoMessage(list, body).value;
      !(m.kind == "audio" && m.audioFile != "") ==> IncomingReply(list, body, on1, audio, ai1) == TextReply(m.response)
  {
  }

  /** With no match and the AI on, the reply is the AI's answer or, when that
      failed, the apology. */
  lemma UnmatchedReplyIsAI(list: seq<AutoMessage>, body: string, audio: AudioEnv, ai: AiAnswer)
    requires FindAutoMessage(list, body).None?
    ensures IncomingReply(list, body, true, audio, ai) == if ai.Usable() then TextReply(ai.text) else TextReply(AiApology)
  {
  }

  // ---------------------------------------------------------------------------
  // `/api/send-message`

  /** `number.includes('@c.us') ? number : number + '@c.us'`. */
  function SuffixNumber(number: string): (r: string)
    ensures Contains(r, ContactSuffix)
    ensures Contains(number, ContactSuffix) ==> r == number
    ensures !Contains(number, ContactSuffix) ==> r == number + ContactSuffix
  {
    if Contains(number, ContactSuffix) then number
    else
      ContainsOwnSuffix(number, ContactSuffix);
      number + ContactSuffix
  }

  lemma SuffixNumberIdempotent(number: string)
    ensures SuffixNumber(SuffixNumber(number)) == SuffixNumber(number)
  {
  }

  /** A number formatted by the contacts store already carries the suffix, so
      the route passes it through unchanged. */
  lemma SuffixKeepsFormattedNumber(phone: string)
    ensures SuffixNumber(FormatNumber(phone)) == FormatNumber(phone)
  {
    FormatNumberShape(phone);
    var r := FormatNumber(phone);
    assert r == r[..|r| - |ContactSuffix|] + ContactSuffix;
    ContainsOwnSuffix(r[..|r| - |ContactSuffix|], ContactSuffix);
  }

  datatype Delivery = Delivery(to: string, text: string)

  /** The answer of the route: the status, what was handed to the client, and
      the `message` (on 200) or `error` (on 500) field. */
  datatype RouteReply = RouteReply(status: nat, delivery: Option<Delivery>, note: string)

  const AutoSentNote: string := "Mensagem automática enviada com sucesso"
  const SentNote: string := "Mensagem enviada com sucesso"
  const MissingResponseError: string := "Resposta da IA não contém o campo response"

  /** The route: the text sent is the matching entry's response, or else the
      AI's answer to the given text; the given text itself is never forwarded. */
  function SendMessageRoute(list: seq<AutoMessage>, number: string, message: string, ai: AiAnswer): (r: RouteReply)
    ensures r.status == 200 <==> r.delivery.Some?
    ensures r.status == 200 || r.status == 500
    ensures r.delivery.Some? ==> r.delivery.value.to == SuffixNumber(number)
    ensures r.delivery.Some? ==>
      (exists k :: 0 <= k < |list| && Matches(list[k], message) && r.delivery.value.text == list[k].response)
      || (ai.AiText? && r.delivery.value.text == ai.text)
    ensures FindAutoMessage(list, message).Some? ==>
      r == RouteReply(200, Some(Delivery(SuffixNumber(number), FindAutoMessage(list, message).value.response)), AutoSentNote)
    ensures FindAutoMessage(list, message).None? ==> (r.status == 200 <==> ai.Usable())
    ensures FindAutoMessage(list, message).None? && ai.Usable() ==>
      r == RouteReply(200, Some(Delivery(SuffixNumber(number), ai.text)), SentNote)
    ensures FindAutoMessage(list, message).None? && ai.AiText? && ai.text == "" ==>
      r == RouteReply(500, None, MissingResponseError)
  {
    var to := SuffixNumber(number);
    match FindAutoMessage(list, message)
    case Some(m) => RouteReply(200, Some(Delivery(to, m.response)), AutoSentNote)
    case None =>
      if ai.Usable() then RouteReply(200, Some(Delivery(to, ai.text)), SentNote)
      else RouteReply(500, None, if ai.AiText? then MissingResponseError else "")
  }

  /** Unlike the incoming-message handler, the route asks the AI whether or not
      it is switched on: with no matching entry and a usable answer, it sends
      that answer. */
  lemma RouteUsesAIWithoutMatch(list: seq<AutoMessage>, number: string, message: string, ai: AiAnswer)
    requires FindAutoMessage(list, message).None? && ai.Usable()
    ensures SendMessageRoute(list, number, message, ai).delivery == Some(Delivery(SuffixNumber(number), ai.text))
  {
  }

  /** The route and the handler answer alike: for a text entry that matches,
      and, with the AI on, for a text that matches nothing and a usable answer,
      the route sends exactly the text the handler replies with. */
  lemma RouteAgreesWithHandler(list: seq<AutoMessage>, number: string, message: string, audio: AudioEnv, ai: AiAnswer)
    requires FindAutoMessage(list, message).Some? ==>
      var m := FindAutoMessage(list, message).value; !(m.kind == "audio" && m.audioFile != "")
    requires FindAutoMessage(list, message).None? ==> ai.Usable()
    ensures var r := SendMessageRoute(list, number, message, ai);
      r.delivery.Some? && IncomingReply(list, message, true, audio, ai) == TextReply(r.delivery.value.text)
  {
    if FindAutoMessage(list, message).Some? {
      MatchedReplyIgnoresAI(list, message, audio, true, true, ai, ai);
    } else {
      UnmatchedReplyIsAI(list, message, audio, ai);
    }
  }

  // ---------------------------------------------------------------------------
  // Edits of the stored list

  /** `{ id: now, ...body, createdAt: now }`: an id in the body wins over the
      generated one; a `createdAt` in the body does not. */
  function NewAutoMessage(body: AutoMessagePatch, now: nat): (m: AutoMessage)
    ensures m.createdAt == now
    ensures body.id.None? ==> m.id == now
    ensures body.id.Some? ==> m.id == body.id.value
  {
    AutoMessage(body.id.GetOr(now), body.trigger.GetOr(""), body.response.GetOr(""),
                body.kind.GetOr(""), body.audioFile.GetOr(""), now)
  }

  /** `{ ...entry, ...body }`. */
  function MergeAutoMessage(m: AutoMessage, body: AutoMessagePatch): AutoMessage {
    AutoMessage(body.id.GetOr(m.id), body.trigger.GetOr(m.trigger), body.response.GetOr(m.response),
                body.kind.GetOr(m.kind), body.audioFile.GetOr(m.audioFile), body.createdAt.GetOr(m.createdAt))
  }

  /** `msg.id === parseInt(param)`; an unparsable parameter (`NaN`) is `None`
      and equals no id. */
  function HasKey(key: Option<int>): AutoMessage -> bool {
    (m: AutoMessage) => key == Some(m.id)
  }

  function LacksKey(key: Option<int>): AutoMessage -> bool {
    (m: AutoMessage) => key != Some(m.id)
  }

  /** POST: the new entry goes at the end. */
  function Created(list: seq<AutoMessage>, body: AutoMessagePatch, now: nat): (r: seq<AutoMessage>)
    ensures |r| == |list| + 1
    ensures r[..|list|] == list
    ensures r[|list|] == NewAutoMessage(body, now)
  {
    list + [NewAutoMessage(body, now)]
  }

  /** PUT: merge the body into the first entry with the id; `None` (the 404)
      when there is none. */
  function Updated(list: seq<AutoMessage>, key: Option<int>, body: AutoMessagePatch): (r: Option<seq<AutoMessage>>)
    ensures r.None? <==> forall j :: 0 <= j < |list| ==> key != Some(list[j].id)
    ensures r.Some? ==> |r.value| == |list| && exists k :: (0 <= k < |list| && key == Some(list[k].id)
      && (forall j :: 0 <= j < k ==> key != Some(list[j].id))
      && r.value[k] == MergeAutoMessage(list[k], body)
      && forall j :: 0 <= j < |list| && j != k ==> r.value[j] == list[j])
  {
    ReplaceFirst(list, HasKey(key), (m: AutoMessage) => MergeAutoMessage(m, body))
  }

  /** DELETE: keep the entries whose id differs, in order. */
  function Deleted(list: seq<AutoMessage>, key: Option<int>): (r: seq<AutoMessage>)
    ensures forall m :: m in r <==> m in list && key != Some(m.id)
    ensures forall m :: multiset(r)[m] == if key != Some(m.id) then multiset(list)[m] else 0
    ensures (forall j :: 0 <= j < |list| ==> key != Some(list[j].id)) ==> r == list
  {
    var r := Filter(list, LacksKey(key));
    forall m | m in list && key != Some(m.id) ensures m in r {
      assert multiset(list)[m] > 0;
    }
    if forall j :: 0 <= j < |list| ==> key != Some(list[j].id) then
      FilterKeepsAll(list, LacksKey(key)); r
    else r
  }

  /** Deleting the id of an entry just created, when no earlier entry had it,
      gives back the list from before. */
  lemma DeleteUndoesCreate(list: seq<AutoMessage>, body: AutoMessagePatch, now: nat)
    requires forall j :: 0 <= j < |list| ==> list[j].id != NewAutoMessage(body, now).id
    ensures Deleted(Created(list, body, now), Some(NewAutoMessage(body, now).id)) == list
  {
    var m := NewAutoMessage(body, now);
    var key := Some(m.id);
    FilterAppend(list, [m], LacksKey(key));
    FilterKeepsAll(list, LacksKey(key));
    assert Filter([m], LacksKey(key)) == [] + Filter([], LacksKey(key));
  }

  /** Deleting keeps the relative order of what remains: deleting from a
      concatenation deletes from each part. */
  lemma DeletedKeepsOrder(a: seq<AutoMessage>, b: seq<AutoMessage>, key: Option<int>)
    ensures Deleted(a + b, key) == Deleted(a, key) + Deleted(b, key)
  {
    FilterAppend(a, b, LacksKey(key));
  }
}
