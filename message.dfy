/**
 * The message shapes of the hub (backend/src/chat/message.rs): the two actor
 * envelopes and the three outbound payloads with their field-copying
 * constructors and their derived serialisation.
 */
module Messages {
  import opened Json

  /** 2^128: `ChatMessage.time` is a `u128`. */
  const U128_LIMIT: nat := 0x1_0000_0000_0000_0000_0000_0000_0000_0000

  type U128 = n: nat | n < U128_LIMIT

  /** An actor's reply handle (`Recipient<Message>`), known only by its identity. */
  datatype Recipient = Recipient(id: nat)

  /** What the hub hands to a connection: the already-encoded text. */
  datatype Message = Message(text: Text)

  /** What a connection hands to the hub: the raw frame and the sender's reply handle. */
  datatype IncomingMessage = IncomingMessage(addr: Recipient, text: Text)

  /** A chat line; `tag` is serialised under the field name "type". */
  datatype ChatMessage = ChatMessage(tag: string, chatter: string, time: U128, text: string)

  /** A login acknowledgement or a join notice; `tag` is serialised as "type". */
  datatype SystemMessage = SystemMessage(tag: string, text: string)

  /** The roster; `tag` is serialised as "type". */
  datatype ChattersMessage = ChattersMessage(tag: string, chatters: seq<string>)

  function NewChatMessage(chatter: string, time: U128, text: string): (r: ChatMessage)
    ensures r.tag == "Message"
    ensures r.chatter == chatter && r.time == time && r.text == text
  {
    ChatMessage("Message", chatter, time, text)
  }

  function NewChattersMessage(chatters: seq<string>): (r: ChattersMessage)
    ensures r.tag == "Chatters"
    ensures r.chatters == chatters
  {
    ChattersMessage("Chatters", chatters)
  }

  /*
   * The derived `Serialize` implementations: one member per struct field, in
   * declaration order, with the discriminator first and renamed to "type".
   */

  function ChatMessageJson(m: ChatMessage): (r: Json)
    ensures r.JObject? && DistinctNames(r.members)
    ensures Field(r.members, "type") == Some(JString(m.tag))
    ensures Field(r.members, "time") == Some(JNumber(m.time))
  {
    var r := JObject([("type", JString(m.tag)), ("chatter", JString(m.chatter)),
                      ("time", JNumber(m.time)), ("text", JString(m.text))]);
    FieldOfDistinct(r.members, 0);
    FieldOfDistinct(r.members, 2);
    r
  }

  function SystemMessageJson(m: SystemMessage): (r: Json)
    ensures r.JObject? && DistinctNames(r.members)
    ensures Field(r.members, "type") == Some(JString(m.tag))
  {
    var r := JObject([("type", JString(m.tag)), ("text", JString(m.text))]);
    FieldOfDistinct(r.members, 0);
    r
  }

  function ChattersMessageJson(m: ChattersMessage): (r: Json)
    ensures r.JObject? && DistinctNames(r.members)
    ensures Field(r.members, "type") == Some(JString(m.tag))
  {
    var r := JObject([("type", JString(m.tag)), ("chatters", StringArray(m.chatters))]);
    FieldOfDistinct(r.members, 0);
    r
  }
}
