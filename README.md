# WhatsApp webhook bridge, modelled in Dafny

The server in `index.js` does three things:

- It receives WhatsApp Business webhook notifications on `POST /webhook`.
- It forwards each extracted message to the browsers subscribed to its server-sent-events stream.
- It answers the sender with an `Echo: …` message through the Graph API.

`GET /webhook` implements the subscription handshake the platform performs when the webhook is registered.

This project models the sequential logic of that server and proves what it does.

## Modules

- `wrappers.dfy`: `Option` and `Result`.
- `js.dfy` (`JsValues`): the JavaScript semantics the handlers depend on:
  - parsed JSON and query values as a datatype, with `undefined`;
  - truthiness;
  - property reads (`Get`);
  - the optional chain `?.` (`Chain`) and the plain chain (`Access`), which throws a TypeError on `null`/`undefined`;
  - the string conversion a template literal performs (`ToJsString`).
- `registry.dfy` (`Registry`): the insertion-ordered JavaScript `Set`, as a duplicate-free sequence:
  - `Insert` is `Set.add`;
  - `Delete` is `Set.delete`;
  - `Without(s, drop)` deletes a whole set of members;
  - `Run` replays a session of add/remove operations.
- `clients.dfy` (`ClientManagement`): the `ClientManager` class.
  - It is a Dafny class whose `clients` field is reassigned by `AddClient` and `RemoveClient`.
  - `Broadcast` is a loop over a snapshot of the set. It writes one frame to every open stream and removes a client in mid-iteration when its write throws.
  - It is proved against `Without(old(clients), old(Failing()))`, where `Failing()` is the set of clients whose stream is open and whose write throws.
  - Each client's output log is specified too.
- `whatsapp.dfy` (`WhatsApp`): `extractMessageData`.
  - It distinguishes the explicit `Error('Invalid message format')` from the implicit TypeError raised when `metadata` or `text` is absent.
- `routes.dfy` (`Routes`): the decisions of the two `/webhook` routes.
  - The `POST` route is a pure function of the body, the Graph API token and the outcome of the outbound call.
  - `PostWebhook` runs the same steps against a `ClientManager`, performing the broadcast on it.

## Model

| member | source | states |
|---|---|---|
| `ClientManagement.ClientManager.constructor` | index.js:28-30 | a new manager holds the empty set |
| `ClientManagement.Client.constructor` | index.js:153 | a new client `{ id, res }` has written nothing yet and carries its stream's `writableEnded` and write-throws flags |
| `ClientManagement.Frame` | index.js:46 | the frame is `data: `, then the serialised event, then the blank line; the event is recovered by stripping the first six and the last two characters |
| `ClientManagement.Client.Write` | index.js:46 | `res.write` either throws and writes nothing, or appends exactly the chunk to the stream's output |
| `ClientManagement.ClientManager.AddClient` | index.js:32-35 | the set becomes `old ∪ {c}`, stays duplicate-free, and a client already present keeps its place (the sequence is unchanged) |
| `ClientManagement.ClientManager.RemoveClient` | index.js:37-40 | the set becomes `old \ {c}`, the others keep their order, and removing an absent client changes nothing |
| `ClientManagement.ClientManager.VisitClient` | index.js:43-52 | one callback of `forEach`: the clients before `i` have been visited and the failing ones among them removed, and the rest of the snapshot is still in the set. Afterwards this holds for `i + 1`, and only the visited client's output has changed |
| `ClientManagement.ClientManager.Broadcast` | index.js:42-53 | the final set is the initial one without exactly the clients whose stream was open and whose write threw, in the original order; it never gains a client and stays duplicate-free. Every initial client with an open, working stream receives exactly one `data: <json>\n\n` frame; ended streams are neither written to nor removed; all others' outputs are unchanged. No error escapes |
| `ClientManagement.BroadcastStep` | index.js:43-51 | removing the visited client when its write throws, or keeping it otherwise, advances the set from "first `i` visited" to "first `i + 1` visited" |
| `ClientManagement.VisitedDistinct` | index.js:43-51 | the set is still duplicate-free at every point of the iteration |
| `Registry.Insert` | index.js:33 | `Set.add` leaves the members as the old ones plus `x`, keeps the old members in their places, and grows the set by at most one |
| `Registry.Delete` | index.js:38 | `Set.delete` removes `x`, never lengthens the set, and leaves it unchanged when `x` is absent |
| `Registry.InsertProperties` | index.js:33 | `Set.add` gives the old members plus `x`, stays duplicate-free, leaves the set unchanged when `x` is present, keeps the old order as a prefix, and is idempotent |
| `Registry.DeleteProperties` | index.js:38 | `Set.delete` gives the old members minus `x`, stays duplicate-free, does nothing when `x` is absent, and is idempotent |
| `Registry.WithoutProperties` | index.js:42-53 | deleting a set of members leaves exactly the other members, never lengthens the set, and keeps it duplicate-free |
| `Registry.RunContents` | index.js:32-40 | after any session of `addClient`/`removeClient` calls the set is duplicate-free. When no client is added again after its removal, the set holds exactly the clients added and never removed |
| `Registry.SessionCount` | index.js:32-40 | under the same condition, `clients.size` is the number of clients added and never removed |
| `JsValues.Access` | index.js:85-89 | a plain property chain either throws a TypeError or reads the same value as the optional chain |
| `JsValues.AccessSucceedsIff` | index.js:85-89 | a plain chain throws exactly when some step is taken on `null` or `undefined` |
| `JsValues.Truthy` | index.js:81 | the values `!x` treats as false are exactly `undefined`, `null`, `false`, `0` and `""`. The same test is made at index.js:101 and index.js:116 |
| `JsValues.Get` | index.js:81-89 | one read step as the optional chain takes it: an optional read (`?.`) on `null` or `undefined`, and any read on a boolean or a number, yields `undefined`, and so does a read of a key an object does not have. A plain read on `null` or `undefined` throws instead, as `Access` states |
| `JsValues.Chain` | index.js:81 | the empty chain is the value itself, and a non-empty `?.` chain that starts on `null`/`undefined` short-circuits to `undefined` |
| `JsValues.AccessOfLiveChain` | index.js:81-85 | when the optional chain to the first message is present, the plain reads along any prefix of it cannot throw |
| `JsValues.ChainAppend` | index.js:81-89 | reading a path is reading its prefix, then the rest |
| `JsValues.ToJsString` | index.js:134 | a template-literal conversion can fail only with a TypeError, and never fails on a primitive |
| `JsValues.JoinElements` | index.js:134 | joining an array's elements can fail only with a TypeError |
| `WhatsApp.ExtractMessageData` | index.js:80-91 | every failure is either a TypeError or the Error with message 'Invalid message format' |
| `WhatsApp.ExtractMessageDataSpec` | index.js:80-91 | a nullish body throws a TypeError. Otherwise 'Invalid message format' is thrown exactly when `entry[0].changes[0].value.messages[0]` is falsy. With a message present, extraction succeeds exactly when `metadata` and `text` are present, and then returns `metadata.phone_number_id`, `messages[0].from` and `messages[0].text.body`. Every other failure is a TypeError |
| `WhatsApp.ExtractPresentMessage` | index.js:85-90 | with the first message present, the outcome is a TypeError if `metadata` or `text` is absent, and otherwise the three fields |
| `WhatsApp.FieldsOfChange` | index.js:87-89 | the three plain field reads below `value` throw only on an absent `metadata` or `text` |
| `WhatsApp.ExtractTextNotification` | index.js:80-91 | a well-formed text notification yields exactly the phone number id, sender and text it was built from |
| `Routes.VerifyWebhook` | index.js:96-111 | 400 exactly when `hub.mode` or `hub.verify_token` is falsy. 200 exactly when the mode is `"subscribe"` and the token equals the configured one, and then the body is `hub.challenge` verbatim. 403 in every other case |
| `Routes.HandshakeEchoesChallenge` | index.js:101-110 | the platform's handshake echoes its challenge when it carries the configured token, gets 400 for an empty token and 403 for any other token |
| `Routes.StatusFor` | index.js:140 | the catch block answers 400 exactly for an error whose message is 'Invalid message format', and 500 otherwise |
| `Routes.Param` | index.js:97-99 | `req.query[name]` is the parsed parameter, or `undefined` when it is absent |
| `Routes.MessagesUrl` | index.js:64 | the URL is `https://graph.facebook.com/v21.0/<phoneNumberId>/messages`, and it fails, with a TypeError, exactly when `phoneNumberId` cannot be converted to a string |
| `Routes.EchoRequest` | index.js:62-72 | the request the call at index.js:131-135 makes: the echo goes to `from`, through `https://graph.facebook.com/v21.0/<phoneNumberId>/messages`, with text `"Echo: "` followed by the message body. It fails, with a TypeError, exactly when a template literal cannot convert its value |
| `Routes.HandleWebhookPost` | index.js:114-142 | the status is 200, 400 or 500. It is 200 exactly when the echo was sent and delivered. A falsy `body.object` gives 400 with no broadcast and no send. The extracted record is broadcast exactly when `body.object` is truthy and extraction succeeds, and always before any echo is sent. A failed extraction or a rejected send maps to the status of the catch block. A failed echo conversion, after the broadcast, gives 500 |
| `Routes.PostWithoutMessage` | index.js:114-142 | a notification without a first message is answered 400 (500 for a nullish body), and nothing is broadcast or sent |
| `Routes.PostWithIncompleteMessage` | index.js:114-142 | with a truthy `body.object`, a message lacking `metadata` or `text` is answered 500, not 400, and nothing is broadcast or sent |
| `Routes.PostTextNotification` | index.js:114-142 | a text notification is broadcast as extracted and echoed back to its sender through its number's endpoint: 200 when delivered, the catch block's status otherwise |
| `Routes.PostWebhook` | index.js:114-142 | running the route against the registry answers as `HandleWebhookPost` does. It broadcasts on the manager exactly when that function broadcasts, with the effect `Broadcast` states, and otherwise leaves the registry and every output untouched |

## Left out

- HTTP plumbing is not modelled: Express, body-parser, cors, `app.listen` and the error middleware. Requests arrive as values: the parsed query map, or the parsed body.
- `res.sendStatus(code)` is modelled as the code alone. The status-text body Express sends with it ("Bad Request", "Forbidden", …) is not modelled.
- `res.status(200).send(challenge)` is modelled as a response carrying the challenge value. Express's conversion of that value to bytes is not modelled.
- The outbound Graph API call is modelled only as far as the request it makes (URL, token, recipient, text). Its effect on the network is not modelled; its result is the `SendOutcome` parameter. The configured `TOKEN` is the `accessToken` parameter and `MYTOKEN` the `secret` parameter.
- The environment check that terminates the process is not modelled. `HandshakeEchoesChallenge` assumes its consequence, a non-empty secret.
- The event-stream endpoint is not modelled: its headers, the initial `connected` frame, the 30-second ping and the close handler. The close handler calls `removeClient`, which is modelled. `Date.now()` ids are kept as an opaque `id` and are not assumed unique; clients are compared by reference.
- `JSON.stringify` is an opaque `serialise` parameter. It is taken to be deterministic and never to throw, so `Broadcast` computes the frame once.
- Console logging is not modelled. The `console.log` of the extracted record reads only fields of a record that exists, so it cannot throw.
- `ClientManagement.Client` fixes each stream's `writableEnded` flag and whether its writes throw for the client's lifetime. A stream that ends, or starts failing, while registered is not modelled. Such a change would come from a connection event, which runs between operations and never inside a broadcast.
- Concurrency between requests is not modelled: each operation runs atomically, as it does on the single event loop.
- Strings are Dafny strings, which are sequences of Unicode scalar values; JavaScript strings are sequences of UTF-16 code units. Indexing and `length` therefore differ on characters outside the Basic Multilingual Plane, and a lone surrogate such as a JSON `\uD800` escape cannot be represented. No property here depends on this: every index step the handlers take on a string is followed by a named read, which yields `undefined` either way.
- JSON numbers are modelled as exact integers. Fractions are not modelled, and neither is double precision. `JSON.parse` rounds an integer beyond 2^53 to the nearest double, and `String(n)` prints the shortest digits that round-trip, switching to the exponent form from 10^21 on; the model prints the exact integer. So `String` of the parsed `1152921504606846976` is `"1152921504606847000"` in JavaScript, but `IntString` gives the digits as written. This affects `ToJsString`, `MessagesUrl` and `EchoRequest` on numeric fields. A parsed `-0` is folded into `0`, which prints and tests the same.
- Property reads model own data properties, plus `length` on strings and arrays. Inherited prototype members are not modelled: a payload key `toString` is read as an own value, never as `Object.prototype.toString`.
- Three behaviours of the code are worth noting:
  - A stream that has already ended is skipped by `broadcast`, and it is not removed from the set. Only a write that throws removes a client.
  - A notification whose first message is present but lacks `metadata` or `text` is answered 500, not 400. The plain reads of those fields throw a TypeError, not the 'Invalid message format' error.
  - `Set.add` would re-add a client that was removed. The server never does this: its one `addClient` call (index.js:153-154) passes an object created on the line before. So every session the server runs meets the "no client is added after its removal" condition of `RunContents` and `SessionCount`.
- The status after a rejected echo follows the code's test of the error's message. A rejection whose message is 'Invalid message format' would be answered 400; any other rejection is answered 500.
