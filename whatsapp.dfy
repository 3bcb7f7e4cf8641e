/** `WhatsAppHandler.extractMessageData`: validates the shape of an incoming webhook
    notification and projects out the three fields the server uses. */
module WhatsApp {
  import opened Wrappers
  import opened JsValues

  /** The message of the Error thrown for a notification without a message. */
  const InvalidFormat: string := "Invalid message format"

  /** The record `{ phoneNumberId, from, messageBody }`. Its fields are whatever the
      payload holds at those places, `undefined` included. */
  datatype MessageData = MessageData(phoneNumberId: JsValue, from: JsValue, messageBody: JsValue)

  /** `entry[0].changes[0].value`, the change that carries the message. */
  const ValuePath: seq<Step> := [Key("entry"), Index(0), Key("changes"), Index(0), Key("value")]

  /** `entry[0].changes[0].value.messages[0]`, the first message. */
  const MessagePath: seq<Step> := ValuePath + [Key("messages"), Index(0)]

  /** `entry[0].changes[0].value.metadata` */
  const MetadataPath: seq<Step> := ValuePath + [Key("metadata")]

  /** `entry[0].changes[0].value.messages[0].text` */
  const TextPath: seq<Step> := MessagePath + [Key("text")]

  /** `extractMessageData(body)`. The guard reads `body.entry` plainly and the rest of the
      path to the first message optionally; when that message is falsy it throws
      `Error('Invalid message format')`. Otherwise the fields are read with plain property
      accesses, which throw a TypeError when `metadata` or `text` is absent. */
  function ExtractMessageData(body: JsValue): (r: Result<MessageData, JsError>)
    ensures r.Failure? ==> r.error == TypeError || r.error == Error(InvalidFormat)
  {
    var entry :- Access(body, [Key("entry")]);
    if !Truthy(Chain(entry, MessagePath[1..])) then
      Failure(Error(InvalidFormat))
    else
      var change :- Access(body, ValuePath);
      var phoneNumberId :- Access(change, [Key("metadata"), Key("phone_number_id")]);
      var from :- Access(change, [Key("messages"), Index(0), Key("from")]);
      var messageBody :- Access(change, [Key("messages"), Index(0), Key("text"), Key("body")]);
      Success(MessageData(phoneNumberId, from, messageBody))
  }

  /** The outcome of `extractMessageData`, stated on the payload's paths:
      - a `null` or `undefined` body throws a TypeError;
      - otherwise it throws 'Invalid message format' exactly when the first message is falsy;
      - with a message present it succeeds exactly when `metadata` and `text` are present,
        and then returns the three fields found at their places;
      - every other failure is a TypeError. */
  lemma {:induction false} ExtractMessageDataSpec(body: JsValue)
    ensures Nullish(body) ==> ExtractMessageData(body) == Failure(TypeError)
    ensures !Nullish(body) ==>
              (ExtractMessageData(body) == Failure(Error(InvalidFormat)) <==>
               !Truthy(Chain(body, MessagePath)))
    ensures Truthy(Chain(body, MessagePath)) ==>
              (ExtractMessageData(body).Success? <==>
               !Nullish(Chain(body, MetadataPath)) && !Nullish(Chain(body, TextPath)))
    ensures ExtractMessageData(body).Success? ==>
              ExtractMessageData(body).value == MessageData(
                Chain(body, MetadataPath + [Key("phone_number_id")]),
                Chain(body, MessagePath + [Key("from")]),
                Chain(body, TextPath + [Key("body")]))
    ensures ExtractMessageData(body).Failure? && !HasMessage(ExtractMessageData(body).error, InvalidFormat) ==>
              ExtractMessageData(body).error == TypeError
  {
    if !Nullish(body) {
      var entry := Get(body, Key("entry"));
      assert Access(body, [Key("entry")]) == Success(entry);
      assert [Key("entry")] + MessagePath[1..] == MessagePath;
      ChainAppend(body, [Key("entry")], MessagePath[1..]);
      assert Chain(body, [Key("entry")]) == entry;
      if Truthy(Chain(body, MessagePath)) {
        ExtractPresentMessage(body);
      }
    }
  }

  /** Once the first message is present, the plain reads down to `value` cannot throw, and
      only a missing `metadata` or `text` makes the field reads throw. */
  lemma ExtractPresentMessage(body: JsValue)
    requires !Nullish(body) && Truthy(Chain(body, MessagePath))
    ensures ExtractMessageData(body) ==
              if Nullish(Chain(body, MetadataPath)) || Nullish(Chain(body, TextPath)) then Failure(TypeError)
              else Success(MessageData(
                Chain(body, MetadataPath + [Key("phone_number_id")]),
                Chain(body, MessagePath + [Key("from")]),
                Chain(body, TextPath + [Key("body")])))
  {
    AccessOfLiveChain(body, ValuePath, [Key("messages"), Index(0)]);
    var change := Chain(body, ValuePath);
    ChainAppend(body, ValuePath, [Key("messages"), Index(0)]);
    ChainSnoc(body, ValuePath, Key("metadata"));
    ChainSnoc(body, MetadataPath, Key("phone_number_id"));
    ChainSnoc(body, MessagePath, Key("from"));
    ChainSnoc(body, MessagePath, Key("text"));
    ChainSnoc(body, TextPath, Key("body"));
    FieldsOfChange(change);
  }

  /** The three field reads below a change whose first message is present. */
  lemma FieldsOfChange(change: JsValue)
    requires Truthy(Chain(change, [Key("messages"), Index(0)]))
    ensures var message := Chain(change, [Key("messages"), Index(0)]);
            var metadata := Get(change, Key("metadata"));
            var text := Get(message, Key("text"));
            && Access(change, [Key("metadata"), Key("phone_number_id")]) ==
                 (if Nullish(metadata) then Failure(TypeError) else Success(Get(metadata, Key("phone_number_id"))))
            && Access(change, [Key("messages"), Index(0), Key("from")]) == Success(Get(message, Key("from")))
            && Access(change, [Key("messages"), Index(0), Key("text"), Key("body")]) ==
                 (if Nullish(text) then Failure(TypeError) else Success(Get(text, Key("body"))))
  {
    var messages := Get(change, Key("messages"));
    assert Chain(change, [Key("messages"), Index(0)]) == Get(messages, Index(0));
  }

  /** The notification a WhatsApp Business account delivers for one incoming text message,
      reduced to the members the server reads. */
  function TextNotification(phoneNumberId: JsValue, from: JsValue, text: JsValue): JsValue {
    Obj(map["object" := Str("whatsapp_business_account"),
            "entry" := Arr([TextEntry(phoneNumberId, from, text)])])
  }

  function TextEntry(phoneNumberId: JsValue, from: JsValue, text: JsValue): JsValue {
    Obj(map["changes" := Arr([TextChange(phoneNumberId, from, text)])])
  }

  function TextChange(phoneNumberId: JsValue, from: JsValue, text: JsValue): JsValue {
    Obj(map["value" := TextValue(phoneNumberId, from, text)])
  }

  /** The `value` member of the one change of a text notification. */
  function TextValue(phoneNumberId: JsValue, from: JsValue, text: JsValue): JsValue {
    Obj(map["metadata" := Obj(map["phone_number_id" := phoneNumberId]),
            "messages" := Arr([TextMessage(from, text)])])
  }

  function TextMessage(from: JsValue, text: JsValue): JsValue {
    Obj(map["from" := from, "text" := Obj(map["body" := text])])
  }

  /** Extraction recovers exactly the three fields a well-formed notification was built from. */
  lemma ExtractTextNotification(phoneNumberId: JsValue, from: JsValue, text: JsValue)
    ensures ExtractMessageData(TextNotification(phoneNumberId, from, text)) ==
              Success(MessageData(phoneNumberId, from, text))
  {
    var body := TextNotification(phoneNumberId, from, text);
    ExtractMessageDataSpec(body);
    TextNotificationValue(phoneNumberId, from, text);
    TextValueFields(body, phoneNumberId, from, text);
  }

  /** Where the fields of a message sit below the change that carries it. */
  lemma TextValueFields(body: JsValue, phoneNumberId: JsValue, from: JsValue, text: JsValue)
    requires Chain(body, ValuePath) == TextValue(phoneNumberId, from, text)
    ensures && Chain(body, MessagePath).Obj?
            && Chain(body, MetadataPath).Obj?
            && Chain(body, TextPath).Obj?
            && Chain(body, MetadataPath + [Key("phone_number_id")]) == phoneNumberId
            && Chain(body, MessagePath + [Key("from")]) == from
            && Chain(body, TextPath + [Key("body")]) == text
  {
    TextValueMessage(body, phoneNumberId, from, text);
    ChainSnoc(body, ValuePath, Key("metadata"));
    ChainSnoc(body, MetadataPath, Key("phone_number_id"));
    ChainSnoc(body, MessagePath, Key("from"));
    ChainSnoc(body, MessagePath, Key("text"));
    ChainSnoc(body, TextPath, Key("body"));
  }

  /** The first message below the `value` of a text notification. */
  lemma TextValueMessage(body: JsValue, phoneNumberId: JsValue, from: JsValue, text: JsValue)
    requires Chain(body, ValuePath) == TextValue(phoneNumberId, from, text)
    ensures Chain(body, MessagePath) == TextMessage(from, text)
  {
    var value := TextValue(phoneNumberId, from, text);
    var message := TextMessage(from, text);
    assert NatString(0) == "0";
    assert MessagePath == ValuePath + [Key("messages")] + [Index(0)];
    ChainSnoc(body, ValuePath, Key("messages"));
    ChainSnoc(body, ValuePath + [Key("messages")], Index(0));
    assert Get(value, Key("messages")) == Arr([message]);
  }

  /** The change a text notification carries is found at `entry[0].changes[0].value`. */
  lemma TextNotificationValue(phoneNumberId: JsValue, from: JsValue, text: JsValue)
    ensures Chain(TextNotification(phoneNumberId, from, text), ValuePath) == TextValue(phoneNumberId, from, text)
  {
    var body := TextNotification(phoneNumberId, from, text);
    TextNotificationEntry(phoneNumberId, from, text);
    TextEntryValue(phoneNumberId, from, text);
    assert ValuePath == [Key("entry"), Index(0)] + [Key("changes"), Index(0), Key("value")];
    ChainAppend(body, [Key("entry"), Index(0)], [Key("changes"), Index(0), Key("value")]);
  }

  lemma TextNotificationEntry(phoneNumberId: JsValue, from: JsValue, text: JsValue)
    ensures Chain(TextNotification(phoneNumberId, from, text), [Key("entry"), Index(0)]) ==
              TextEntry(phoneNumberId, from, text)
  {
    var body := TextNotification(phoneNumberId, from, text);
    assert NatString(0) == "0";
    assert [Key("entry")] + [Index(0)] == [Key("entry"), Index(0)];
    ChainOne(body, Key("entry"));
    ChainSnoc(body, [Key("entry")], Index(0));
  }

  lemma TextEntryValue(phoneNumberId: JsValue, from: JsValue, text: JsValue)
    ensures Chain(TextEntry(phoneNumberId, from, text), [Key("changes"), Index(0), Key("value")]) ==
              TextValue(phoneNumberId, from, text)
  {
    var entry := TextEntry(phoneNumberId, from, text);
    assert NatString(0) == "0";
    assert [Key("changes")] + [Index(0)] == [Key("changes"), Index(0)];
    assert [Key("changes"), Index(0)] + [Key("value")] == [Key("changes"), Index(0), Key("value")];
    ChainOne(entry, Key("changes"));
    ChainSnoc(entry, [Key("changes")], Index(0));
    ChainSnoc(entry, [Key("changes"), Index(0)], Key("value"));
  }
}
