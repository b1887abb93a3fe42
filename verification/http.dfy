/** The WhatsApp webhook (src/convex/http.ts): the GET subscription check,
    the POST receiver that walks the payload and answers each text message,
    and the sanitising that decides whether a reply is sent to the Graph API.
    Environment variables are a `SendConfig`, the parsed request body is a
    `Json` value, the message processor is a function parameter, and a send
    is the request it would issue (the network is not modelled). */
module Http {
  import opened Wrappers
  import opened Text
  import opened WhatsApp

  // ---------------------------------------------------------------------
  // JSON values

  datatype Json =
    | JNull
    | JBool(b: bool)
    | JNum(n: real)
    | JStr(s: string)
    | JArr(items: seq<Json>)
    | JObj(fields: map<string, Json>)

  /** `j?.key`: the member of an object, nothing for anything else (a
      property of `null`, a number, a string or an array that JSON cannot
      set). */
  function Field(j: Option<Json>, key: string): (r: Option<Json>)
    ensures r.Some? <==> j.Some? && j.value.JObj? && key in j.value.fields
    ensures r.Some? ==> r.value == j.value.fields[key]
  {
    if j.Some? && j.value.JObj? && key in j.value.fields then Some(j.value.fields[key]) else None
  }

  /** `x ?? ""`: null and undefined become the empty string. */
  function OrEmpty(j: Option<Json>): (r: Json)
    ensures r != JNull
    ensures j.Some? && j.value != JNull ==> r == j.value
    ensures j.None? || j.value == JNull ==> r == JStr("")
  {
    if j.None? || j.value == JNull then JStr("") else j.value
  }

  /** JavaScript truthiness of a JSON value. */
  predicate Truthy(j: Json) {
    match j
    case JNull => false
    case JBool(b) => b
    case JNum(n) => n != 0.0
    case JStr(s) => s != ""
    case JArr(_) => true
    case JObj(_) => true
  }

  /** `String(j)`; `show` renders numbers as JavaScript does. */
  function ToJsString(j: Json, show: real -> string): string {
    match j
    case JNull => "null"
    case JBool(b) => if b then "true" else "false"
    case JNum(n) => show(n)
    case JStr(s) => s
    case JArr(items) =>
      JoinWith(",", seq(|items|, i requires 0 <= i < |items| =>
                          if items[i] == JNull then "" else ToJsString(items[i], show)))
    case JObj(_) => "[object Object]"
  }

  // ---------------------------------------------------------------------
  // sendWhatsAppText

  /** `WHATSAPP_TOKEN` and `WHATSAPP_PHONE_NUMBER_ID`. */
  datatype SendConfig = SendConfig(token: Option<string>, phoneNumberId: Option<string>)

  /** What a send does: nothing (with the warning's reason) or one POST to
      the Graph API. */
  datatype SendPlan =
    | Skipped(reason: string)
    | Post(url: string, authorization: string, payload: Json)

  const MaxBody: nat := 4000

  /** The request body the Graph API receives. */
  function TextPayload(to: string, body: string): Json {
    JObj(map["messaging_product" := JStr("whatsapp"), "to" := JStr(to), "type" := JStr("text"),
             "text" := JObj(map["body" := JStr(body)])])
  }

  /** An absent or empty setting. */
  predicate Unset(v: Option<string>) {
    v.None? || v.value == ""
  }

  /** `sendWhatsAppText(to, body)`: skipped when either setting is missing,
      when the trimmed recipient is empty, or when the body cut to 4000
      characters and trimmed is empty; otherwise one POST carrying the
      trimmed recipient and that body. Failures of the request are only
      logged, so a send never fails. */
  function PlanSend(cfg: SendConfig, to: string, body: string): (r: SendPlan)
    ensures r.Post? <==> !Unset(cfg.token) && !Unset(cfg.phoneNumberId) && Trim(to) != [] && Trim(Take(body, MaxBody)) != []
    ensures r.Post? ==>
              && r.url == "https://graph.facebook.com/v20.0/" + cfg.phoneNumberId.value + "/messages"
              && r.authorization == "Bearer " + cfg.token.value
              && r.payload == TextPayload(Trim(to), Trim(Take(body, MaxBody)))
    ensures Unset(cfg.token) || Unset(cfg.phoneNumberId) ==>
              r == Skipped("missing WHATSAPP_TOKEN or WHATSAPP_PHONE_NUMBER_ID")
  {
    if Unset(cfg.token) || Unset(cfg.phoneNumberId) then
      Skipped("missing WHATSAPP_TOKEN or WHATSAPP_PHONE_NUMBER_ID")
    else
      var safeTo := Trim(to);
      var safeBody := Trim(Take(body, MaxBody));
      if safeTo == [] then Skipped("empty 'to' phone number")
      else if safeBody == [] then Skipped("empty message body")
      else Post("https://graph.facebook.com/v20.0/" + cfg.phoneNumberId.value + "/messages",
                "Bearer " + cfg.token.value, TextPayload(safeTo, safeBody))
  }

  /** The text a POST carries is at most 4000 characters, has no white
      space at either end, and is a piece of the first 4000 characters of
      the reply that dropped only white space. */
  lemma SentBodyIsSanitised(cfg: SendConfig, to: string, body: string)
    requires PlanSend(cfg, to, body).Post?
    ensures var sent := Trim(Take(body, MaxBody));
            && PlanSend(cfg, to, body).payload.fields["text"] == JObj(map["body" := JStr(sent)])
            && 0 < |sent| <= MaxBody
            && !IsSpace(sent[0]) && !IsSpace(sent[|sent| - 1])
            && var i := LeadingSpaces(Take(body, MaxBody));
               i + |sent| <= |Take(body, MaxBody)| && sent == body[i..i + |sent|]
  {
    var cut := Take(body, MaxBody);
    var sent := Trim(cut);
    var i := LeadingSpaces(cut);
    assert sent == cut[i..i + |sent|];
    assert cut[i..i + |sent|] == body[i..i + |sent|];
  }

  // ---------------------------------------------------------------------
  // GET /webhooks/whatsapp

  datatype HttpResponse = HttpResponse(status: nat, body: string)

  /** The subscription handshake: with mode "subscribe" and a non-empty
      token and challenge, the challenge is echoed exactly when a verify
      token is configured and equal to the token; any other request is
      malformed. */
  function VerifyWebhook(mode: Option<string>, token: Option<string>, challenge: Option<string>,
                         verifyToken: Option<string>): (r: HttpResponse)
    ensures r.status == 200 <==> mode == Some("subscribe") && !Unset(token) && !Unset(challenge)
                                 && !Unset(verifyToken) && token == verifyToken
    ensures r.status == 200 ==> r.body == challenge.value
    ensures r.status == 403 <==> mode == Some("subscribe") && !Unset(token) && !Unset(challenge)
                                 && (Unset(verifyToken) || token != verifyToken)
    ensures r.status == 403 ==> r.body == "Forbidden"
    ensures r.status == 400 <==> !(mode == Some("subscribe") && !Unset(token) && !Unset(challenge))
    ensures r.status == 400 ==> r.body == "Bad Request"
  {
    if mode == Some("subscribe") && !Unset(token) && !Unset(challenge) then
      if !Unset(verifyToken) && token == verifyToken then HttpResponse(200, challenge.value)
      else HttpResponse(403, "Forbidden")
    else HttpResponse(400, "Bad Request")
  }

  // ---------------------------------------------------------------------
  // POST /webhooks/whatsapp

  /** What the message processor does with one message: answer (with a
      `response` string, or without one) or throw. */
  datatype Outcome = Replied(response: Option<string>) | Threw

  /** A call of `sendWhatsAppText(to, body)`. */
  datatype SendCall = SendCall(to: string, body: string)

  /** The result of the POST handler: the processor's state afterwards, the
      sends in order, and the HTTP response. */
  datatype PostResult<S> = PostResult(state: S, sends: seq<SendCall>, response: HttpResponse)

  /** Where the handler finds the messages: a payload without an `entry`
      array, or whose first change lists statuses, yields none to process;
      otherwise `entry[0].changes[0].value.messages` if it is an array. */
  datatype Envelope = Invalid | StatusUpdate | Messages(msgs: seq<Json>)

  function First(j: Option<Json>): Option<Json> {
    if j.Some? && j.value.JArr? && |j.value.items| > 0 then Some(j.value.items[0]) else None
  }

  /** `body.entry` is an array. */
  predicate HasEntries(body: Option<Json>) {
    Field(body, "entry").Some? && Field(body, "entry").value.JArr?
  }

  /** `body?.entry?.[0]?.changes?.[0]?.value`: the value of the first change
      of the first entry, if there is one. */
  function ChangeValue(body: Option<Json>): Option<Json> {
    Field(First(Field(First(Field(body, "entry")), "changes")), "value")
  }

  /** `Array.isArray(j) && j.length > 0` */
  predicate NonEmptyArray(j: Option<Json>) {
    j.Some? && j.value.JArr? && |j.value.items| > 0
  }

  /** `Array.isArray(j) ? j : []` */
  function ArrayItems(j: Option<Json>): seq<Json> {
    if j.Some? && j.value.JArr? then j.value.items else []
  }

  /** Which case a payload is: without an `entry` array it is invalid; with
      one, a first change whose value lists statuses makes it a status
      update, and otherwise its messages are the value's `messages` array
      (none if that is not an array). */
  function ReadEnvelope(body: Option<Json>): (e: Envelope)
    ensures e.Invalid? <==> !HasEntries(body)
    ensures e.StatusUpdate? <==> HasEntries(body) && NonEmptyArray(Field(ChangeValue(body), "statuses"))
    ensures e.Messages? ==> e.msgs == ArrayItems(Field(ChangeValue(body), "messages"))
  {
    var entries := Field(body, "entry");
    if !(entries.Some? && entries.value.JArr?) then Invalid
    else
      var entry := First(entries);
      var changes := Field(entry, "changes");
      var change := if changes.Some? && changes.value.JArr? then First(changes) else None;
      var value := Field(change, "value");
      var statuses := Field(value, "statuses");
      var messages := Field(value, "messages");
      if statuses.Some? && statuses.value.JArr? && |statuses.value.items| > 0 then StatusUpdate
      else if messages.Some? && messages.value.JArr? then Messages(messages.value.items)
      else Messages([])
  }

  /** `msg?.type === "text"`. */
  function IsTextMessage(msg: Json): (b: bool)
    ensures b <==> msg.JObj? && "type" in msg.fields && msg.fields["type"] == JStr("text")
  {
    Field(Some(msg), "type") == Some(JStr("text"))
  }

  /** `msg.id ?? ""`, `msg.text?.body ?? ""` and `msg.from ?? ""`. */
  function MessageId(msg: Json): Json { OrEmpty(Field(Some(msg), "id")) }
  function MessageText(msg: Json): Json { OrEmpty(Field(Field(Some(msg), "text"), "body")) }
  function MessageFrom(msg: Json): Json { OrEmpty(Field(Some(msg), "from")) }

  /** A text message whose id, text and sender are truthy. */
  function PassesChecks(msg: Json): (b: bool)
    ensures b ==> IsTextMessage(msg) && Field(Some(msg), "id").Some? && Field(Some(msg), "from").Some?
                  && Field(Field(Some(msg), "text"), "body").Some?
    ensures Accepted(msg).Some? ==> b
  {
    IsTextMessage(msg) && Truthy(MessageId(msg)) && Truthy(MessageText(msg)) && Truthy(MessageFrom(msg))
  }

  /** The message is handed to the processor: it is a text message whose
      id, text and sender are truthy, and all three are strings (the
      processor's argument validation throws otherwise). */
  function Accepted(msg: Json): (r: Option<Inbound>)
    ensures r.Some? ==> IsTextMessage(msg) && r.value.phone != "" && r.value.text != "" && r.value.messageId != ""
    ensures r.Some? ==> MessageFrom(msg) == JStr(r.value.phone) && MessageText(msg) == JStr(r.value.text)
                        && MessageId(msg) == JStr(r.value.messageId)
  {
    var id, text, from := MessageId(msg), MessageText(msg), MessageFrom(msg);
    if IsTextMessage(msg) && id.JStr? && text.JStr? && from.JStr? && Truthy(id) && Truthy(text) && Truthy(from)
    then Some(Inbound(from.s, text.s, id.s))
    else None
  }

  const Notice: string := "\U{26A0}\U{FE0F} Sorry, something went wrong. Please try again."
  const DefaultReply: string := "\U{2705} Received."

  /** The generic notice after a failure, sent only if `from` is truthy. */
  function NoticeTo(msg: Json, show: real -> string): (r: seq<SendCall>)
    ensures |r| <= 1
    ensures |r| == 1 <==> Truthy(MessageFrom(msg))
    ensures |r| == 1 ==> r[0].body == Notice
    ensures |r| == 1 ==> r[0].to == ToJsString(MessageFrom(msg), show)
  {
    if Truthy(MessageFrom(msg)) then [SendCall(ToJsString(MessageFrom(msg), show), Notice)] else []
  }

  /** One turn of the loop: skip non-text and incomplete messages, process
      the rest and send the reply (cut to 4000 characters), or send the
      notice when processing throws. */
  function Step<S>(s: S, msg: Json, process: (S, Inbound) -> (S, Outcome), show: real -> string): (r: (S, seq<SendCall>))
    ensures |r.1| <= 1
    ensures !PassesChecks(msg) ==> r == (s, [])
    ensures PassesChecks(msg) && Accepted(msg).None? ==> r == (s, NoticeTo(msg, show))
    ensures Accepted(msg).Some? ==>
              var m := Accepted(msg).value;
              && r.0 == process(s, m).0
              && (process(s, m).1.Replied? ==>
                    r.1 == [SendCall(m.phone, Take(process(s, m).1.response.GetOr(DefaultReply), MaxBody))])
              && (process(s, m).1.Threw? ==> r.1 == [SendCall(m.phone, Notice)])
  {
    if !IsTextMessage(msg) then (s, [])
    else
      var id, text, from := MessageId(msg), MessageText(msg), MessageFrom(msg);
      if !Truthy(id) || !Truthy(text) || !Truthy(from) then (s, [])
      else if !(id.JStr? && text.JStr? && from.JStr?) then (s, NoticeTo(msg, show))
      else
        var (s', outcome) := process(s, Inbound(from.s, text.s, id.s));
        match outcome
        case Threw => (s', NoticeTo(msg, show))
        case Replied(response) => (s', [SendCall(from.s, Take(response.GetOr(DefaultReply), MaxBody))])
  }

  /** The loop over the messages, in payload order. */
  function Steps<S>(s: S, msgs: seq<Json>, process: (S, Inbound) -> (S, Outcome), show: real -> string)
    : (r: (S, seq<SendCall>))
    ensures |r.1| <= |msgs|
    decreases |msgs|
  {
    if |msgs| == 0 then (s, [])
    else
      var (s1, c1) := Step(s, msgs[0], process, show);
      var (s2, c2) := Steps(s1, msgs[1..], process, show);
      (s2, c1 + c2)
  }

  const Received: HttpResponse := HttpResponse(200, "EVENT_RECEIVED")

  /** The POST handler: whatever the body, the answer is 200
      "EVENT_RECEIVED"; the messages of a well-formed payload without
      statuses are processed one by one. */
  function HandlePost<S>(s: S, body: Option<Json>, process: (S, Inbound) -> (S, Outcome),
                         show: real -> string): (r: PostResult<S>)
    ensures r.response == HttpResponse(200, "EVENT_RECEIVED")
    ensures !ReadEnvelope(body).Messages? ==> r.state == s && r.sends == []
    ensures ReadEnvelope(body).Messages? ==> |r.sends| <= |ReadEnvelope(body).msgs|
    ensures ReadEnvelope(body).Messages? ==>
              (r.state, r.sends) == Steps(s, ReadEnvelope(body).msgs, process, show)
  {
    match ReadEnvelope(body)
    case Messages(msgs) =>
      var (s', sends) := Steps(s, msgs, process, show);
      PostResult(s', sends, Received)
    case _ => PostResult(s, [], Received)
  }

  // ---------------------------------------------------------------------
  // Properties of the loop

  /** The messages the processor is given, in payload order. */
  function AcceptedAll(msgs: seq<Json>): seq<Inbound> {
    if |msgs| == 0 then []
    else (if Accepted(msgs[0]).Some? then [Accepted(msgs[0]).value] else []) + AcceptedAll(msgs[1..])
  }

  /** A processor that records what it is given. */
  function Recorder(log: seq<Inbound>, m: Inbound): (seq<Inbound>, Outcome) {
    (log + [m], Replied(None))
  }

  /** Each accepted message reaches the processor exactly once, in payload
      order, and nothing else does. */
  lemma {:induction false} ProcessedInOrder(log: seq<Inbound>, msgs: seq<Json>, show: real -> string)
    ensures Steps(log, msgs, Recorder, show).0 == log + AcceptedAll(msgs)
    decreases |msgs|
  {
    if |msgs| > 0 {
      var (s1, _) := Step(log, msgs[0], Recorder, show);
      assert s1 == log + (if Accepted(msgs[0]).Some? then [Accepted(msgs[0]).value] else []);
      ProcessedInOrder(s1, msgs[1..], show);
    }
  }

  /** The loop over a payload with one more message is the loop over the
      rest followed by one turn for the last message: its state is threaded
      on, and its sends come after the earlier ones. */
  lemma {:induction false} StepsSnoc<S>(s: S, msgs: seq<Json>, msg: Json, process: (S, Inbound) -> (S, Outcome),
                                         show: real -> string)
    ensures Steps(s, msgs + [msg], process, show).0
            == Step(Steps(s, msgs, process, show).0, msg, process, show).0
    ensures Steps(s, msgs + [msg], process, show).1
            == Steps(s, msgs, process, show).1 + Step(Steps(s, msgs, process, show).0, msg, process, show).1
    decreases |msgs|
  {
    if |msgs| == 0 {
      assert (msgs + [msg])[1..] == [];
    } else {
      var s1 := Step(s, msgs[0], process, show).0;
      var c1 := Step(s, msgs[0], process, show).1;
      assert (msgs + [msg])[0] == msgs[0];
      assert (msgs + [msg])[1..] == msgs[1..] + [msg];
      StepsSnoc(s1, msgs[1..], msg, process, show);
      var c2 := Steps(s1, msgs[1..], process, show).1;
      var c' := Step(Steps(s1, msgs[1..], process, show).0, msg, process, show).1;
      assert c1 + (c2 + c') == (c1 + c2) + c';
    }
  }

  /** A POST with messages hands exactly the accepted messages to the
      processor, once each and in payload order. */
  lemma HandlePostInOrder(log: seq<Inbound>, body: Option<Json>, show: real -> string)
    requires ReadEnvelope(body).Messages?
    ensures HandlePost(log, body, Recorder, show).state == log + AcceptedAll(ReadEnvelope(body).msgs)
  {
    ProcessedInOrder(log, ReadEnvelope(body).msgs, show);
  }

  /** With a processor that always throws, every message that passes the
      checks yields exactly the notice to its sender. */
  lemma {:induction false} FailuresOnlyNotify<S>(s: S, msgs: seq<Json>, process: (S, Inbound) -> (S, Outcome),
                                                  show: real -> string)
    requires forall t: S, m: Inbound :: process(t, m).1 == Threw
    ensures var sends := Steps(s, msgs, process, show).1;
            && |sends| == |AcceptedAll(msgs)| + NoticeCount(msgs)
            && forall k | 0 <= k < |sends| :: sends[k].body == Notice
    decreases |msgs|
  {
    if |msgs| > 0 {
      var (s1, c1) := Step(s, msgs[0], process, show);
      FailuresOnlyNotify(s1, msgs[1..], process, show);
      var c2 := Steps(s1, msgs[1..], process, show).1;
      assert Steps(s, msgs, process, show).1 == c1 + c2;
    }
  }

  /** The messages whose fields pass the truthiness checks but are not all
      strings: the processor's argument validation throws for them. */
  function NoticeCount(msgs: seq<Json>): nat {
    if |msgs| == 0 then 0
    else
      var msg := msgs[0];
      (if PassesChecks(msg) && Accepted(msg).None? then 1 else 0)
      + NoticeCount(msgs[1..])
  }

  /** A payload whose first change lists statuses is acknowledged without
      processing any of its messages, whatever else it carries. */
  lemma StatusesWin<S>(s: S, body: Option<Json>, process: (S, Inbound) -> (S, Outcome), show: real -> string)
    requires HasEntries(body) && NonEmptyArray(Field(ChangeValue(body), "statuses"))
    ensures HandlePost(s, body, process, show) == PostResult(s, [], Received)
  {
    assert ReadEnvelope(body) == StatusUpdate;
  }

  /** Each reply handed to the sender holds at most 4000 characters. */
  lemma {:induction false} RepliesBounded<S>(s: S, msgs: seq<Json>, process: (S, Inbound) -> (S, Outcome),
                                             show: real -> string)
    ensures forall c | c in Steps(s, msgs, process, show).1 :: |c.body| <= MaxBody
    decreases |msgs|
  {
    if |msgs| > 0 {
      var (s1, c1) := Step(s, msgs[0], process, show);
      RepliesBounded(s1, msgs[1..], process, show);
    }
  }
}
