# rusty-chat hub and client reducer, in Dafny

This project models the two halves of the rusty-chat protocol.

- **The chat hub** is `ChatServer` (backend/src/chat/chat.rs). It is one actor that owns a map from display name to a connection's reply handle. It handles one incoming frame per turn:
  - A login under a new name broadcasts "`<name>` joined!", registers the name, sends a login acknowledgement to the new connection alone, then broadcasts the roster.
  - A login under a known name does nothing.
  - A chat line is stamped with the clock and broadcast.
  - Anything else is dropped.
- **Broadcasts.** Every broadcast is an in-place `retain`. It delivers to each entry and keeps exactly the entries whose delivery succeeded.
- **The message shapes** are in backend/src/chat/message.rs:
  - the `Message` and `IncomingMessage` envelopes;
  - the `ChatMessage`, `SystemMessage` and `ChattersMessage` payloads, with their constructors and their derived serialisation.
- **The client's root component** is `Model::update` (frontend/src/main.rs). It decodes each received frame into `ServerMessages` and folds it into `login`, `chatters` and `messages`. It issues two effects: a socket send and a route change.

## Modules

- `json.dfy` (`Json`): frames as JSON values, and field lookup as serde's derived deserialisers do it.
  - A field must be present exactly once; a missing or duplicated field is an error.
  - Unknown fields are ignored.
  - It also covers the string-array round trip.
- `message.dfy` (`Messages`): the envelopes, the payload structs, their constructors and their serialisation.
  - The discriminator is written under the name "type".
  - `time` is a `u128`.
- `broadcast.dfy` (`Broadcast`): what one `retain` pass does.
  - `Retain` gives the registry afterwards.
  - `Fanout` gives the deliveries made, for a given visiting order.
  - `Inbox` gives what one handle received.
  - It also holds lemmas about who receives what.
- `chat.dfy` (`Chat`): the `Actions` envelope and its decoder, and the class `ChatServer` with `send_message`, `broadcast_message` and `handle`.
  - `outbox` records every successful delivery in order.
  - `live` is the set of handles whose `do_send` succeeds during the turn.
  - `now` is the clock reading.
  - `HashMap` iteration order is a nondeterministic choice. Each broadcast returns the order it used as a ghost result.
- `frontend.dfy` (`Frontend`): `ServerMessages` and its decoder, plus `Reduce`, which is `update` as a function of the state.
  - The class `Model` has `Update`, proved against `Reduce`.
  - `Replay` runs a sequence of actions. Three independent history definitions say what `Replay` leaves in each field.
- `wire.dfy` (`Wire`): the two programs against each other.
  - Each frame the hub builds decodes in the client to the variant it describes.
  - The frames of one login turn bring a newcomer's client, or an existing member's, into the intended state.

## Model

| member | source | states |
|---|---|---|
| Messages.NewChatMessage | backend/src/chat/message.rs:25-32 | the tag is "Message"; `chatter`, `time` and `text` are copied unchanged |
| Messages.NewChattersMessage | backend/src/chat/message.rs:50-55 | the tag is "Chatters"; the name list is kept unchanged, in the same order |
| Messages.ChatMessageJson | backend/src/chat/message.rs:15-22 | the serialised object has distinct member names; the tag is found under "type"; `time` is found under "time" as a number, which the `U128` type bounds to 0 <= time < 2^128 |
| Messages.SystemMessageJson | backend/src/chat/message.rs:35-40 | distinct member names; the tag is found under "type" |
| Messages.ChattersMessageJson | backend/src/chat/message.rs:42-47 | distinct member names; the tag is found under "type" |
| Json.StringsRoundTrip | backend/src/chat/message.rs:46 | a `Vec<String>` serialised as an array of strings reads back as the same list, in the same order |
| Json.FieldOfDistinct | backend/src/chat/message.rs:15-22 | in an object with distinct names, each member's value is what a derived deserialiser reads under that name |
| Chat.DecodeAction | backend/src/chat/chat.rs:10-15 | a decoded `Login` or `Message` action has its tag under "type" and each of its fields present exactly once, as strings |
| Chat.DecodeActionAccepts | backend/src/chat/chat.rs:10-15 | any object with the tag and the variant's fields each present once, as strings, decodes to that action; other members are ignored |
| Chat.DecodeActionJson | backend/src/chat/chat.rs:10-15 | whatever action a client serialises, the hub decodes back to the same action |
| Chat.ChatServer.constructor | backend/src/chat/chat.rs:17-19 | the hub starts with no chatters and no deliveries |
| Chat.ChatServer.SendMessage | backend/src/chat/chat.rs:26-33 | an encode error sends nothing; otherwise the frame is delivered to a live handle, and a dead handle is the `expect` panic |
| Chat.ChatServer.BroadcastMessage | backend/src/chat/chat.rs:35-42 | an encode error changes nothing; otherwise every entry is visited once, the registry becomes the entries with a live handle, and `outbox` grows by one delivery per live visited entry |
| Chat.ChatServer.ChatterNames | backend/src/chat/chat.rs:68 | the roster lists every registered name exactly once |
| Chat.ChatServer.Register | backend/src/chat/chat.rs:51-70 | the frames are the encoded payloads `JoinFrame` (chat.rs:52-55), `AckFrame` (chat.rs:59-65) and `RosterFrame` (chat.rs:67-69); join broadcast over the old registry, insert, acknowledgement to the new handle (or panic if it is dead), then the roster of the registry after insertion is broadcast over it |
| Chat.ChatServer.Handle | backend/src/chat/chat.rs:48-82 | undecodable frame or known name: nothing changes or is sent; new name: as `Register`; chat line: `ChatFrame` (chat.rs:78) broadcast with chatter, `now` and text unchanged, and no check of the sender |
| Chat.NewcomerInbox | backend/src/chat/chat.rs:52-69 | a newcomer whose connection is not already registered under another name receives the acknowledgement and then the roster, and not its own join notice |
| Chat.RejoinSeesOwnNotice | backend/src/chat/chat.rs:51-55 | a live connection already registered under another name that logs in under a new one receives that name's join notice |
| Chat.MemberInbox | backend/src/chat/chat.rs:52-69 | an earlier live member, whose connection is registered under that one name, receives the join notice and then the roster, and not the acknowledgement |
| Chat.AckOnlyToNewcomer | backend/src/chat/chat.rs:57-65 | no handle other than the one that logged in receives the acknowledgement |
| Chat.LoginFramesDiffer | backend/src/chat/chat.rs:52-69 | the join notice, acknowledgement and roster pairwise differ, because their "type" fields differ |
| Chat.RosterBroadcastKeepsAll | backend/src/chat/chat.rs:67-69 | with delivery fixed for the turn, the roster broadcast evicts nobody, so the roster sent equals the final registry's names |
| Chat.LoginGrowsRegistry | backend/src/chat/chat.rs:57 | while every registered connection is alive, a new-name login adds exactly one entry |
| Broadcast.Retain | backend/src/chat/chat.rs:37-39 | no name is added; kept names keep their handle and that handle is live; every live entry is kept |
| Broadcast.Fanout | backend/src/chat/chat.rs:37-39 | no more deliveries than visited entries; each carries the broadcast frame to a live, registered handle |
| Broadcast.PartialStep | backend/src/chat/chat.rs:39 | visiting one entry keeps it if its handle is live and removes it otherwise |
| Broadcast.FanoutInbox | backend/src/chat/chat.rs:37-39 | a live handle receives the frame once per name it is registered under; a dead one receives nothing; nothing else is received |
| Broadcast.FanoutSkipsUnregistered | backend/src/chat/chat.rs:37-39 | a handle registered under no name receives nothing |
| Broadcast.FanoutReachesSoleName | backend/src/chat/chat.rs:37-39 | a live handle registered under one name receives the frame exactly once |
| Broadcast.TurnInboxOfNewcomer | backend/src/chat/chat.rs:52-69 | the broadcast, unicast, broadcast sequence of a login gives the new handle, when it is not already registered under another name, exactly the unicast and the second broadcast |
| Broadcast.TurnInboxOfMember | backend/src/chat/chat.rs:52-69 | the same sequence gives a live member with one name exactly the two broadcasts |
| Frontend.DecodeServerMessage | frontend/src/main.rs:30-47 | a decoded `ServerMessages` value comes from an object whose "type" field names its variant |
| Frontend.Logged | frontend/src/main.rs:107-109 | an action logs at most one message: the chat-log message it carries |
| Frontend.Reduce | frontend/src/main.rs:85-119 | `Send` forwards its data to the socket and changes nothing; `Nop` does nothing; an acknowledgement other than "false" sets `login`, renders and requests the chat route; a roster replaces `chatters` and renders; only received frames change state; the render flag holds exactly when a frame decodes and is not the "false" acknowledgement; `login` and `chatters` change only to a received acknowledgement or roster; the log grows by exactly the logged message; the only effects are the socket send of `Send` and the route change after a login other than "false" |
| Frontend.Model.constructor | frontend/src/main.rs:75-82 | the client starts logged out, with empty roster and log |
| Frontend.Model.Update | frontend/src/main.rs:85-119 | `update` leaves the state, render flag and effect log that `Reduce` gives, and keeps only chat-log messages in `messages` |
| Frontend.ReplayMessages | frontend/src/main.rs:107-109 | after any actions, the log is the earlier log followed by every chat-log message received, in order |
| Frontend.ReplayChatters | frontend/src/main.rs:103-105 | after any actions, the roster is the last one received |
| Frontend.ReplayLogin | frontend/src/main.rs:94-101 | after any actions, the login is the last acknowledgement received other than "false" |
| Wire.JoinNoticeDecodes | backend/src/chat/chat.rs:52-55 | the join notice decodes in the client as `JoinSystem` with text "`<name>` joined!" |
| Wire.LoginAckDecodes | backend/src/chat/chat.rs:59-65 | the acknowledgement decodes as `LoginSystem` carrying the name |
| Wire.RosterDecodes | backend/src/chat/chat.rs:67-69 | the roster decodes as `Chatters` with the same names, in the same order |
| Wire.ChatNoticeDecodes | backend/src/chat/chat.rs:72-78 | a chat line decodes as `Message` with chatter, stamp and text unchanged |
| Wire.JoinNoticeLogged | frontend/src/main.rs:107-109 | a join notice is appended to the client's log, rendered, with no effect |
| Wire.RosterShown | frontend/src/main.rs:103-105 | a roster replaces the client's list of chatters and nothing else |
| Wire.LoginAckApplied | frontend/src/main.rs:94-101 | an acknowledgement logs the client in and changes its route, except under the name "false", which it ignores |
| Wire.ChatLineLogged | frontend/src/main.rs:107-109 | a chat line is appended to every client's log with sender, stamp and text unchanged |
| Wire.NewcomerSession | frontend/src/main.rs:94-105 | a fresh client that receives the newcomer's frames ends logged in under its name, with the roster and an empty log; under the name "false" it stays logged out |
| Wire.MemberSession | frontend/src/main.rs:103-109 | a member's client logs the join notice after its earlier messages, takes the new roster and keeps its login |

## Behaviour worth knowing

- **Join notice order.** The join notice is broadcast before the new entry is inserted (backend/src/chat/chat.rs:52-57).
  - A newcomer whose connection is not already registered under another name therefore receives the acknowledgement and then the roster, and never its own join notice.
  - The guard checks only the name (backend/src/chat/chat.rs:51), so one connection can log in under several names. Such a connection does receive the join notice of its new name, through its earlier entry (`Chat.RejoinSeesOwnNotice`).
  - Dead entries can be evicted before the new entry exists.
- **Failed acknowledgement.** A failed acknowledgement is not an eviction: `send_message` calls `expect`, so the actor panics (backend/src/chat/chat.rs:29).
- **Roster shape.** The roster is a `Vec` filled in the map's iteration order (backend/src/chat/chat.rs:68), listing each name once.
- **The name "false".** A login under the name "false" is registered by the hub. The client reads the acknowledgement "false" as a refusal (frontend/src/main.rs:95), so it stays logged out (`Wire.NewcomerSession`).

## Left out

- Printing JSON values to characters and parsing characters into them (serde_json). A frame is a JSON value or text that is not JSON. Whether `to_string` can fail is a parameter (`Encoded`); the hub's own payloads always encode.
- serde's other accepted input forms: struct fields given as a JSON array, and a variant selected by index. Neither client sends these.
- `SystemTime::now()` is the parameter `now`. The "no time" panic for a clock before the epoch is not modelled.
- The client's `time: f64`. It is modelled as the integer received, so rounding of stamps above 2^53 is not modelled.
- The actix runtime, mailboxes and concurrency. Delivery is the fixed set `live` for one turn.
  - A handle that dies between the join broadcast and the roster broadcast of the same turn is not modelled.
  - So a roster naming an entry that the same turn's broadcast then evicts cannot arise in the model.
- The actor's state after the `expect` panic. `Handle` reports `Panicked` with the state at that point, and what the runtime does next is not modelled.
- Logging (`println!`, `ConsoleService`).
- The websocket transport in backend/src/main.rs and the client's websocket and router services. The router is recorded only as the `RouteChange` effect.
- The UI components (frontend/src/components), `view` and `change`.
