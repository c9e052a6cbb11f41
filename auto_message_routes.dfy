/** The backend's stored configuration (backend/index.js): the list kept in
    `autoMessages.json` and the switch kept in `aiConfig.json`, as the fields of
    one object. Each route reads the list, changes it, and writes it back; here
    the write is the assignment of the field. */
module AutoMessageRoutes {
  import opened Seqs
  import opened AutoReply

  const NotFoundError: string := "Mensagem não encontrada"
  const InvalidFlagError: string := "Valor inválido para isAIEnabled. Deve ser um booleano."

  /** The answer of an editing route: its status and its `error` or `message` text. */
  datatype Response = Response(status: nat, text: string)

  class ConfigFiles {
    var messages: seq<AutoMessage>
    var isAIEnabled: bool

    /** An existing, empty `autoMessages.json` and the `aiConfig.json` that
        `ensureAIConfigFile` writes when it is missing. A missing
        `autoMessages.json` is not modelled: reading it throws, so every route
        answers 500 and the handler never replies. */
    constructor ()
      ensures messages == [] && !isAIEnabled
    {
      messages := [];
      isAIEnabled := false;
    }

    /** POST `/api/auto-messages`. */
    method PostAutoMessage(body: AutoMessagePatch, now: nat) returns (res: Response)
      modifies this`messages
      ensures messages == Created(old(messages), body, now)
      ensures res.status == 200
    {
      messages := messages + [NewAutoMessage(body, now)];
      res := Response(200, "");
    }

    /** PUT `/api/auto-messages/:id`: 404 and no write when no entry has the id. */
    method PutAutoMessage(key: Option<int>, body: AutoMessagePatch) returns (res: Response)
      modifies this`messages
      ensures res.status == 200 || res.status == 404
      ensures res.status == 404 <==> Updated(old(messages), key, body).None?
      ensures res.status == 404 ==> messages == old(messages) && res.text == NotFoundError
      ensures res.status == 200 ==> messages == Updated(old(messages), key, body).value
    {
      var index := FirstIndex(messages, HasKey(key));
      if index.Some? {
        messages := messages[index.value := MergeAutoMessage(messages[index.value], body)];
        res := Response(200, "");
      } else {
        res := Response(404, NotFoundError);
      }
    }

    /** DELETE `/api/auto-messages/:id`: succeeds whether or not the id exists. */
    method DeleteAutoMessage(key: Option<int>) returns (res: Response)
      modifies this`messages
      ensures messages == Deleted(old(messages), key)
      ensures res.status == 200
    {
      messages := Deleted(messages, key);
      res := Response(200, "");
    }

    /** PUT `/api/auto-messages/ai-status`. `value` is the body's `isAIEnabled`
        when it is a boolean and `None` for anything else (absent, a string, a
        number): then the answer is 400 and nothing is written. */
    method PutAIStatus(value: Option<bool>) returns (res: Response)
      modifies this`isAIEnabled
      ensures value.None? ==> res == Response(400, InvalidFlagError) && isAIEnabled == old(isAIEnabled)
      ensures value.Some? ==> res.status == 200 && isAIEnabled == value.value
      ensures value.Some? ==> res.text == if value.value then "IA ativada com sucesso" else "IA desativada com sucesso"
    {
      if value.None? {
        res := Response(400, InvalidFlagError);
        return;
      }
      isAIEnabled := value.value;
      res := Response(200, if isAIEnabled then "IA ativada com sucesso" else "IA desativada com sucesso");
    }

    /** The `message` handler, reading both files. */
    method HandleIncoming(body: string, audio: AudioEnv, ai: AiAnswer) returns (reply: Reply)
      ensures reply == NoReply <==> FindAutoMessage(messages, body).None? && !isAIEnabled
      ensures FindAutoMessage(messages, body).Some? ==>
        reply == IncomingReply(messages, body, false, audio, AiFailed)
      ensures FindAutoMessage(messages, body).None? && isAIEnabled ==>
        reply == if ai.Usable() then TextReply(ai.text) else TextReply(AiApology)
      ensures reply == IncomingReply(messages, body, isAIEnabled, audio, ai)
    {
      reply := IncomingReply(messages, body, isAIEnabled, audio, ai);
      if FindAutoMessage(messages, body).Some? {
        MatchedReplyIgnoresAI(messages, body, audio, isAIEnabled, false, ai, AiFailed);
      } else if isAIEnabled {
        UnmatchedReplyIsAI(messages, body, audio, ai);
      }
    }

    /** POST `/api/send-message`, reading the list; the switch is not consulted. */
    method SendMessage(number: string, message: string, ai: AiAnswer) returns (reply: RouteReply)
      ensures reply == SendMessageRoute(messages, number, message, ai)
      ensures reply.delivery.Some? ==> reply.delivery.value.to == SuffixNumber(number)
    {
      reply := SendMessageRoute(messages, number, message, ai);
    }
  }
}
