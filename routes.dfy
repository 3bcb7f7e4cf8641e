/** The decisions of the two `/webhook` routes: the verification handshake (`GET`) and the
    handling of a notification (`POST`), which broadcasts the extracted message to the
    event-stream subscribers and answers the sender with an echo. */
module Routes {
  import opened Wrappers
  import opened JsValues
  import opened WhatsApp
  import opened ClientManagement
  import opened Registry

  const GraphApiUrl: string := "https://graph.facebook.com"
  const GraphApiVersion: string := "v21.0"

  /** What a handler sends: `res.sendStatus(code)`, or `res.status(code).send(body)`. */
  datatype Response = Status(code: int) | StatusWithBody(code: int, body: JsValue)

  /** `req.query[name]`: the parsed query parameter, `undefined` when absent. */
  function Param(query: map<string, JsValue>, name: string): (r: JsValue)
    ensures r == if name in query then query[name] else Undefined
  {
    Get(Obj(query), Key(name))
  }

  /** `GET /webhook`: the subscription handshake, against the configured verify token. */
  function VerifyWebhook(query: map<string, JsValue>, secret: string): (r: Response)
    ensures r.code == 400 <==>
              !Truthy(Param(query, "hub.mode")) || !Truthy(Param(query, "hub.verify_token"))
    ensures r.code == 200 <==>
              Param(query, "hub.mode") == Str("subscribe") &&
              Param(query, "hub.verify_token") == Str(secret) && secret != ""
    ensures r.code == 200 ==> r == StatusWithBody(200, Param(query, "hub.challenge"))
    ensures r.code != 200 ==> r.Status? && (r.code == 400 || r.code == 403)
  {
    var mode := Param(query, "hub.mode");
    var challenge := Param(query, "hub.challenge");
    var verifyToken := Param(query, "hub.verify_token");
    if !Truthy(mode) || !Truthy(verifyToken) then
      Status(400)
    else if mode == Str("subscribe") && verifyToken == Str(secret) then
      StatusWithBody(200, challenge)
    else
      Status(403)
  }

  /** The query of the handshake the platform performs when a webhook is registered. */
  function HandshakeQuery(verifyToken: string, challenge: string): map<string, JsValue> {
    map["hub.mode" := Str("subscribe"), "hub.verify_token" := Str(verifyToken),
        "hub.challenge" := Str(challenge)]
  }

  /** The handshake succeeds, echoing the challenge verbatim, exactly when the token it
      carries is the configured one (which the server refuses to start without). */
  lemma HandshakeEchoesChallenge(verifyToken: string, challenge: string, secret: string)
    requires secret != ""
    ensures VerifyWebhook(HandshakeQuery(verifyToken, challenge), secret) ==
              if verifyToken == secret then StatusWithBody(200, Str(challenge))
              else if verifyToken == "" then Status(400)
              else Status(403)
  {
    var query := HandshakeQuery(verifyToken, challenge);
    assert Param(query, "hub.mode") == Str("subscribe");
    assert Param(query, "hub.verify_token") == Str(verifyToken);
    assert Param(query, "hub.challenge") == Str(challenge);
  }

  /** The echo request `sendMessage` makes to the Graph API. */
  datatype SendRequest = SendRequest(url: string, accessToken: string, to: JsValue, text: string)

  /** What the Graph API call does: resolves, or rejects with an error. */
  datatype SendOutcome = Delivered | Rejected(error: JsError)

  /** What `POST /webhook` did: the status sent, the record broadcast to the subscribers
      (if any) and the echo request made (if any). */
  datatype PostOutcome = PostOutcome(status: int, broadcast: Option<MessageData>, send: Option<SendRequest>)

  /** The status of the catch block: 400 for an error whose message is
      'Invalid message format', and 500 for anything else. */
  function StatusFor(e: JsError): (code: int)
    ensures code == 400 <==> HasMessage(e, InvalidFormat)
    ensures code == 400 || code == 500
  {
    if HasMessage(e, InvalidFormat) then 400 else 500
  }

  /** `${FB_GRAPH_API_URL}/${FB_GRAPH_API_VERSION}/${phoneNumberId}/messages` */
  function MessagesUrl(phoneNumberId: JsValue): (r: Result<string, JsError>)
    ensures r.Success? <==> ToJsString(phoneNumberId).Success?
    ensures r.Failure? ==> r.error == TypeError
    ensures r.Success? ==>
              r.value == "https://graph.facebook.com/v21.0/" + ToJsString(phoneNumberId).value + "/messages"
  {
    var id :- ToJsString(phoneNumberId);
    Success(GraphApiUrl + "/" + GraphApiVersion + "/" + id + "/messages")
  }

  /** The request `sendMessage(phoneNumberId, from, `Echo: ${messageBody}`)` makes. Both
      template literals can throw a TypeError before anything is sent. */
  function EchoRequest(data: MessageData, accessToken: string): (r: Result<SendRequest, JsError>)
    ensures r.Failure? ==> r.error == TypeError
    ensures r.Success? <==> ToJsString(data.messageBody).Success? && ToJsString(data.phoneNumberId).Success?
    ensures r.Success? ==>
              r.value.to == data.from && r.value.accessToken == accessToken &&
              r.value.text == "Echo: " + ToJsString(data.messageBody).value &&
              r.value.url == GraphApiUrl + "/" + GraphApiVersion + "/" + ToJsString(data.phoneNumberId).value + "/messages"
  {
    var text :- ToJsString(data.messageBody);
    var url :- MessagesUrl(data.phoneNumberId);
    Success(SendRequest(url, accessToken, data.from, "Echo: " + text))
  }

  /** `POST /webhook`. `accessToken` is the configured Graph API token and `outcome` is what
      the Graph API call does with the echo request, if one is made. */
  function HandleWebhookPost(body: JsValue, accessToken: string, outcome: SendOutcome): (r: PostOutcome)
    ensures r.status == 200 || r.status == 400 || r.status == 500
    ensures r.status == 200 <==> r.send.Some? && outcome.Delivered?
    ensures r.send.Some? ==> r.broadcast.Some?
    ensures !Truthy(Get(body, Key("object"))) ==> r.broadcast.None? && r.send.None?
    ensures !Nullish(body) && !Truthy(Get(body, Key("object"))) ==> r.status == 400
    ensures Nullish(body) ==> r.status == 500
    ensures r.broadcast.Some? <==> Truthy(Get(body, Key("object"))) && ExtractMessageData(body).Success?
    ensures r.broadcast.Some? ==> r.broadcast.value == ExtractMessageData(body).value
    ensures r.broadcast.Some? ==>
              (r.send.Some? <==> EchoRequest(r.broadcast.value, accessToken).Success?)
    ensures r.send.Some? ==> r.send.value == EchoRequest(r.broadcast.value, accessToken).value
    ensures Truthy(Get(body, Key("object"))) && ExtractMessageData(body).Failure? ==>
              r.status == StatusFor(ExtractMessageData(body).error)
    ensures r.send.Some? && outcome.Rejected? ==> r.status == StatusFor(outcome.error)
    ensures r.broadcast.Some? && r.send.None? ==> r.status == StatusFor(TypeError) == 500
  {
    var objectMember := Access(body, [Key("object")]);
    if objectMember.Failure? then
      PostOutcome(StatusFor(objectMember.error), None, None)
    else if !Truthy(objectMember.value) then
      PostOutcome(400, None, None)
    else
      match ExtractMessageData(body)
      case Failure(e) => PostOutcome(StatusFor(e), None, None)
      case Success(data) =>
        match EchoRequest(data, accessToken)
        case Failure(e) => PostOutcome(StatusFor(e), Some(data), None)
        case Success(request) =>
          var status := match outcome
                        case Delivered => 200
                        case Rejected(e) => StatusFor(e);
          PostOutcome(status, Some(data), Some(request))
  }

  /** A notification that carries no message is answered 400, and nothing is broadcast or sent. */
  lemma PostWithoutMessage(body: JsValue, accessToken: string, outcome: SendOutcome)
    requires !Truthy(Chain(body, MessagePath))
    ensures HandleWebhookPost(body, accessToken, outcome).status ==
              if Nullish(body) then 500 else 400
    ensures HandleWebhookPost(body, accessToken, outcome).broadcast.None?
    ensures HandleWebhookPost(body, accessToken, outcome).send.None?
  {
    ExtractMessageDataSpec(body);
  }

  /** A message whose change lacks `metadata`, or which lacks `text`, is answered 500 rather
      than 400, and nothing is broadcast or sent. */
  lemma PostWithIncompleteMessage(body: JsValue, accessToken: string, outcome: SendOutcome)
    requires Truthy(Get(body, Key("object"))) && Truthy(Chain(body, MessagePath))
    requires Nullish(Chain(body, MetadataPath)) || Nullish(Chain(body, TextPath))
    ensures HandleWebhookPost(body, accessToken, outcome) == PostOutcome(500, None, None)
  {
    ExtractMessageDataSpec(body);
  }

  /** A text notification from `from`, received on `phoneNumberId`, is broadcast as is and
      echoed back to its sender through the Graph API endpoint of that number; the answer is
      200 when the echo is delivered. */
  lemma PostTextNotification(phoneNumberId: string, from: string, text: string,
                             accessToken: string, outcome: SendOutcome)
    ensures var r := HandleWebhookPost(TextNotification(Str(phoneNumberId), Str(from), Str(text)), accessToken, outcome);
            && r.broadcast == Some(MessageData(Str(phoneNumberId), Str(from), Str(text)))
            && r.send == Some(SendRequest(GraphApiUrl + "/" + GraphApiVersion + "/" + phoneNumberId + "/messages",
                                          accessToken, Str(from), "Echo: " + text))
            && r.status == if outcome.Delivered? then 200 else StatusFor(outcome.error)
  {
    var body := TextNotification(Str(phoneNumberId), Str(from), Str(text));
    ExtractTextNotification(Str(phoneNumberId), Str(from), Str(text));
    assert Get(body, Key("object")) == Str("whatsapp_business_account");
  }

  /** `POST /webhook` run against the subscriber registry: the same steps in the same order,
      with the broadcast performed on `manager`. `serialise` stands for `JSON.stringify`. */
  method PostWebhook(manager: ClientManager, body: JsValue, accessToken: string, outcome: SendOutcome,
                     serialise: MessageData -> string)
    returns (status: int, send: Option<SendRequest>)
    requires manager.Valid()
    modifies manager`clients, manager.clients`output
    ensures manager.Valid()
    ensures status == HandleWebhookPost(body, accessToken, outcome).status
    ensures send == HandleWebhookPost(body, accessToken, outcome).send
    ensures HandleWebhookPost(body, accessToken, outcome).broadcast.None? ==>
              manager.clients == old(manager.clients) &&
              forall c :: c in old(manager.clients) ==> c.output == old(c.output)
    ensures HandleWebhookPost(body, accessToken, outcome).broadcast.Some? ==>
              var data := HandleWebhookPost(body, accessToken, outcome).broadcast.value;
              && manager.clients == Without(old(manager.clients), old(manager.Failing()))
              && forall c :: c in old(manager.clients) ==>
                   c.output == if !c.writableEnded && !c.writeFails
                               then old(c.output) + [Frame(serialise(data))]
                               else old(c.output)
  {
    send := None;
    var objectMember := Access(body, [Key("object")]);
    if objectMember.Failure? {
      return StatusFor(objectMember.error), None;
    }
    if !Truthy(objectMember.value) {
      return 400, None;
    }
    var extracted := ExtractMessageData(body);
    if extracted.Failure? {
      return StatusFor(extracted.error), None;
    }
    var data := extracted.value;
    manager.Broadcast(data, serialise);
    var request := EchoRequest(data, accessToken);
    if request.Failure? {
      return StatusFor(request.error), None;
    }
    send := Some(request.value);
    status := if outcome.Delivered? then 200 else StatusFor(outcome.error);
  }
}
