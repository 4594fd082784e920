/**
 * The chat hub (backend/src/chat/chat.rs): a single actor that owns the map
 * from display name to reply handle and handles one incoming frame per turn.
 *
 * Delivery is an oracle: `live` is the set of handles whose `do_send`
 * succeeds during the turn. Every successful delivery is appended to
 * `outbox`. The wall clock is the parameter `now`.
 */
module Chat {
  import opened Json
  import opened Messages
  import opened Broadcast

  /**
   * The inbound envelope (`Actions`), internally tagged by "type". `Chat` is
   * the source's `Message` variant, renamed here so that it does not clash
   * with the `Message` envelope; its tag on the wire is still "Message".
   */
  datatype Action = Login(name: string) | Chat(chatter: string, text: string)

  /** The derived `Serialize` of `Actions`: what a client sends. */
  function ActionJson(a: Action): Json
  {
    match a
    case Login(name) => JObject([("type", JString("Login")), ("name", JString(name))])
    case Chat(chatter, text) =>
      JObject([("type", JString("Message")), ("chatter", JString(chatter)), ("text", JString(text))])
  }

  /**
   * `from_str::<Actions>`: the tag must be present once and name a variant,
   * and the variant's fields must be present once, as strings. Other fields
   * are ignored.
   */
  function DecodeAction(t: Text): (r: Option<Action>)
    ensures r.Some? ==> t.Document? && t.value.JObject?
    ensures r.Some? && r.value.Login? ==>
      Field(t.value.members, "type") == Some(JString("Login")) &&
      Field(t.value.members, "name") == Some(JString(r.value.name))
    ensures r.Some? && r.value.Chat? ==>
      Field(t.value.members, "type") == Some(JString("Message")) &&
      Field(t.value.members, "chatter") == Some(JString(r.value.chatter)) &&
      Field(t.value.members, "text") == Some(JString(r.value.text))
  {
    if !(t.Document? && t.value.JObject?) then None
    else
      var ms := t.value.members;
      var tag := Field(ms, "type");
      if tag == Some(JString("Login")) then
        match Field(ms, "name")
        case Some(JString(name)) => Some(Login(name))
        case _ => None
      else if tag == Some(JString("Message")) then
        match (Field(ms, "chatter"), Field(ms, "text"))
        case (Some(JString(chatter)), Some(JString(text))) => Some(Chat(chatter, text))
        case _ => None
      else None
  }

  /**
   * The converse of `DecodeAction`'s contract: any object whose tag and
   * fields are each present once, as strings, decodes to that action,
   * whatever other members it has.
   */
  lemma DecodeActionAccepts(ms: seq<(string, Json)>, x: string, y: string)
    ensures Field(ms, "type") == Some(JString("Login")) && Field(ms, "name") == Some(JString(x))
            ==> DecodeAction(Document(JObject(ms))) == Some(Login(x))
    ensures Field(ms, "type") == Some(JString("Message")) && Field(ms, "chatter") == Some(JString(x))
            && Field(ms, "text") == Some(JString(y))
            ==> DecodeAction(Document(JObject(ms))) == Some(Chat(x, y))
  {
  }

  /** Whatever a client serialises, the hub decodes back to the same action. */
  lemma DecodeActionJson(a: Action)
    ensures DecodeAction(Document(ActionJson(a))) == Some(a)
  {
    var ms := ActionJson(a).members;
    assert DistinctNames(ms);
    FieldOfDistinct(ms, 0);
    FieldOfDistinct(ms, 1);
    if a.Chat? {
      FieldOfDistinct(ms, 2);
    }
  }

  /** The result of `serde_json::to_string`. */
  datatype Encoded = Encoded(text: Text) | EncodeError

  /** `to_string` of a payload the hub builds; these payloads always serialise. */
  function ToString(j: Json): Encoded
  {
    Encoded(Document(j))
  }

  /* The four payloads the hub builds, after `to_string`. */

  function JoinFrame(name: string): Encoded
  {
    ToString(SystemMessageJson(SystemMessage("JoinSystem", name + " joined!")))
  }

  function AckFrame(name: string): Encoded
  {
    ToString(SystemMessageJson(SystemMessage("LoginSystem", name)))
  }

  function RosterFrame(names: seq<string>): Encoded
  {
    ToString(ChattersMessageJson(NewChattersMessage(names)))
  }

  function ChatFrame(chatter: string, time: U128, text: string): Encoded
  {
    ToString(ChatMessageJson(NewChatMessage(chatter, time, text)))
  }

  /* The same four, as a connection receives them. */

  function JoinNotice(name: string): Message
  {
    Message(JoinFrame(name).text)
  }

  function LoginAck(name: string): Message
  {
    Message(AckFrame(name).text)
  }

  function RosterNotice(names: seq<string>): Message
  {
    Message(RosterFrame(names).text)
  }

  function ChatNotice(chatter: string, time: U128, text: string): Message
  {
    Message(ChatFrame(chatter, time, text).text)
  }

  /** How one call of `handle` ended: normally, or in the `expect` panic of a failed unicast. */
  datatype Outcome = Handled | Panicked

  /** The registry right after a new name was inserted, following the join broadcast. */
  function Joined(m: Registry, live: set<Recipient>, name: string, addr: Recipient): Registry
  {
    Retain(m, live)[name := addr]
  }

  class ChatServer {
    var chatters: Registry
    /** Every successful delivery, in the order the hub made them. */
    var outbox: seq<Delivery>

    constructor ()
      ensures chatters == map[] && outbox == []
    {
      chatters := map[];
      outbox := [];
    }

    /**
     * `send_message`: a unicast. An encode error is logged and nothing is sent;
     * a delivery failure is the `expect` panic, reported as `panicked`.
     */
    method SendMessage(addr: Recipient, value: Encoded, live: set<Recipient>) returns (panicked: bool)
      modifies this`outbox
      ensures value.EncodeError? ==> !panicked && outbox == old(outbox)
      ensures value.Encoded? ==> panicked == (addr !in live)
      ensures value.Encoded? && addr in live ==> outbox == old(outbox) + [Delivery(addr, Message(value.text))]
      ensures value.Encoded? && addr !in live ==> outbox == old(outbox)
    {
      panicked := false;
      match value
      case EncodeError =>
      case Encoded(text) =>
        if addr in live {
          outbox := outbox + [Delivery(addr, Message(text))];
        } else {
          panicked := true;
        }
    }

    /**
     * `broadcast_message`: the in-place `retain`. Visits every entry once in
     * some order (returned as `order`), delivers to each, and removes exactly
     * the entries whose delivery failed. An encode error changes nothing.
     */
    method BroadcastMessage(value: Encoded, live: set<Recipient>) returns (ghost order: seq<string>)
      modifies this
      ensures value.EncodeError? ==> chatters == old(chatters) && outbox == old(outbox) && order == []
      ensures value.Encoded? ==> IsEnumeration(order, old(chatters).Keys)
      ensures value.Encoded? ==> chatters == Retain(old(chatters), live)
      ensures value.Encoded? ==> outbox == old(outbox) + Fanout(order, old(chatters), live, Message(value.text))
    {
      order := [];
      match value
      case EncodeError =>
      case Encoded(text) =>
        var pending := chatters.Keys;
        PartialStart(chatters, live);
        while pending != {}
          invariant pending <= old(chatters).Keys
          invariant NoDup(order) && Within(order, old(chatters))
          invariant forall i :: 0 <= i < |order| ==> order[i] !in pending
          invariant forall k :: k in old(chatters) ==> k in pending || k in order
          invariant chatters == Partial(old(chatters), pending, live)
          invariant outbox == old(outbox) + Fanout(order, old(chatters), live, Message(text))
          decreases pending
        {
          var name :| name in pending;
          PartialStep(old(chatters), pending, live, name);
          FanoutSnoc(order, name, old(chatters), live, Message(text));
          var addr := chatters[name];
          if addr in live {
            AppendAssoc(old(outbox), Fanout(order, old(chatters), live, Message(text)), [Delivery(addr, Message(text))]);
            outbox := outbox + [Delivery(addr, Message(text))];
          } else {
            chatters := chatters - {name};
          }
          pending := pending - {name};
          order := order + [name];
        }
        PartialEnd(old(chatters), live);
    }

    /** The names of the registry, each once, in the map's order (the Chatters payload). */
    method ChatterNames() returns (names: seq<string>)
      ensures IsEnumeration(names, chatters.Keys)
    {
      names := [];
      var pending := chatters.Keys;
      while pending != {}
        invariant pending <= chatters.Keys
        invariant NoDup(names)
        invariant forall i :: 0 <= i < |names| ==> names[i] in chatters && names[i] !in pending
        invariant forall k :: k in chatters ==> k in pending || k in names
        decreases pending
      {
        var k :| k in pending;
        names := names + [k];
        pending := pending - {k};
      }
    }

    /**
     * The body of the Login arm for a name not yet registered: a join notice
     * broadcast to the entries registered before it, its own entry, the login
     * acknowledgement to its handle alone, and a roster broadcast. The ghost
     * results are the visiting orders of the two broadcasts and the roster
     * that was sent.
     */
    method Register(name: string, addr: Recipient, live: set<Recipient>)
      returns (outcome: Outcome, ghost first: seq<string>, ghost roster: seq<string>, ghost second: seq<string>)
      requires name !in chatters
      modifies this
      ensures IsEnumeration(first, old(chatters).Keys)
      ensures outcome == (if addr in live then Handled else Panicked)
      ensures outcome == Panicked ==>
        && chatters == Joined(old(chatters), live, name, addr)
        && outbox == old(outbox) + Fanout(first, old(chatters), live, JoinNotice(name))
      ensures outcome == Handled ==>
        && IsEnumeration(roster, Joined(old(chatters), live, name, addr).Keys)
        && IsEnumeration(second, Joined(old(chatters), live, name, addr).Keys)
        && chatters == Retain(Joined(old(chatters), live, name, addr), live)
        && outbox == old(outbox) + LoginDeliveries(old(chatters), live, name, addr, first, roster, second)
    {
      roster, second := [], [];
      outcome := Handled;
      first := BroadcastMessage(JoinFrame(name), live);
      chatters := chatters[name := addr];
      var panicked := SendMessage(chatters[name], AckFrame(name), live);
      if panicked {
        outcome := Panicked;
        return;
      }
      ghost var acked := outbox;
      var names := ChatterNames();
      roster := names;
      second := BroadcastMessage(RosterFrame(names), live);
      ConcatAssoc(old(outbox), Fanout(first, old(chatters), live, JoinNotice(name)), [Delivery(addr, LoginAck(name))],
                  Fanout(second, Joined(old(chatters), live, name, addr), live, RosterNotice(roster)));
    }

    /**
     * `handle`: one incoming frame. A login under a new name is `Register`; a
     * login under a known name changes nothing and sends nothing. A chat line
     * is stamped with `now` and broadcast as it came, whoever sent it. An
     * undecodable frame is dropped.
     */
    method Handle(msg: IncomingMessage, now: U128, live: set<Recipient>)
      returns (outcome: Outcome, ghost first: seq<string>, ghost roster: seq<string>, ghost second: seq<string>)
      modifies this
      ensures DecodeAction(msg.text).None? ==>
        outcome == Handled && chatters == old(chatters) && outbox == old(outbox)
      ensures match DecodeAction(msg.text)
        case Some(Login(name)) =>
          if name in old(chatters) then
            outcome == Handled && chatters == old(chatters) && outbox == old(outbox)
          else
            && IsEnumeration(first, old(chatters).Keys)
            && outcome == (if msg.addr in live then Handled else Panicked)
            && (outcome == Panicked ==>
                  && chatters == Joined(old(chatters), live, name, msg.addr)
                  && outbox == old(outbox) + Fanout(first, old(chatters), live, JoinNotice(name)))
            && (outcome == Handled ==>
                  && IsEnumeration(roster, Joined(old(chatters), live, name, msg.addr).Keys)
                  && IsEnumeration(second, Joined(old(chatters), live, name, msg.addr).Keys)
                  && chatters == Retain(Joined(old(chatters), live, name, msg.addr), live)
                  && outbox == old(outbox) + LoginDeliveries(old(chatters), live, name, msg.addr, first, roster, second))
        case Some(Chat(chatter, text)) =>
          && outcome == Handled
          && IsEnumeration(first, old(chatters).Keys)
          && chatters == Retain(old(chatters), live)
          && outbox == old(outbox) + Fanout(first, old(chatters), live, ChatNotice(chatter, now, text))
        case None => true
    {
      outcome := Handled;
      first, roster, second := [], [], [];
      match DecodeAction(msg.text)
      case Some(Login(name)) =>
        if name !in chatters {
          outcome, first, roster, second := Register(name, msg.addr, live);
        }
      case Some(Chat(chatter, text)) =>
        first := BroadcastMessage(ChatFrame(chatter, now, text), live);
      case None =>
    }
  }

  /*
   * What a successful new-name login turn delivers. `first` and `second` are
   * the visiting orders of the join and roster broadcasts, as `Handle` returns
   * them; `LoginDeliveries` is what `Handle` appends to `outbox`.
   */

  function LoginDeliveries(m: Registry, live: set<Recipient>, name: string, addr: Recipient,
                           first: seq<string>, roster: seq<string>, second: seq<string>): seq<Delivery>
    requires Within(first, m) && Within(second, Joined(m, live, name, addr))
  {
    Turn(m, live, name, addr, first, second, JoinNotice(name), LoginAck(name), RosterNotice(roster))
  }

  lemma AppendAssoc<T>(a: seq<T>, b: seq<T>, c: seq<T>)
    ensures a + b + c == a + (b + c)
  {
  }

  lemma ConcatAssoc<T>(a: seq<T>, b: seq<T>, c: seq<T>, d: seq<T>)
    ensures a + b + c + d == a + (b + c + d)
  {
  }

  /**
   * A connection that logs in under a new name, and is not registered under
   * another one, receives the acknowledgement and then the roster, and no
   * join notice: the notice goes out before its entry exists.
   */
  lemma NewcomerInbox(m: Registry, live: set<Recipient>, name: string, addr: Recipient,
                      first: seq<string>, roster: seq<string>, second: seq<string>)
    requires name !in m && addr !in m.Values && addr in live
    requires IsEnumeration(first, m.Keys) && IsEnumeration(second, Joined(m, live, name, addr).Keys)
    ensures Inbox(LoginDeliveries(m, live, name, addr, first, roster, second), addr)
            == [LoginAck(name), RosterNotice(roster)]
  {
    TurnInboxOfNewcomer(m, live, name, addr, first, second, JoinNotice(name), LoginAck(name), RosterNotice(roster));
  }

  /**
   * The guard checks only the name: a live connection already registered
   * under another name that logs in again receives the join notice of its
   * new name through its earlier entry.
   */
  lemma RejoinSeesOwnNotice(m: Registry, live: set<Recipient>, name: string, addr: Recipient,
                            first: seq<string>, roster: seq<string>, second: seq<string>)
    requires name !in m && addr in m.Values && addr in live
    requires IsEnumeration(first, m.Keys) && Within(second, Joined(m, live, name, addr))
    ensures JoinNotice(name) in Inbox(LoginDeliveries(m, live, name, addr, first, roster, second), addr)
  {
    var joins := Fanout(first, m, live, JoinNotice(name));
    var rest := [Delivery(addr, LoginAck(name))] + Fanout(second, Joined(m, live, name, addr), live, RosterNotice(roster));
    assert LoginDeliveries(m, live, name, addr, first, roster, second) == joins + rest;
    InboxAppend(joins, rest, addr);
    var k :| k in m && m[k] == addr;
    assert k in NamesOf(m, addr);
    FanoutInbox(first, m, live, JoinNotice(name), addr);
    var got := Inbox(joins, addr);
    assert |got| > 0 && got[0] in got;
  }

  /**
   * A live connection registered under exactly one earlier name receives the
   * join notice and then the roster, and not the acknowledgement.
   */
  lemma MemberInbox(m: Registry, live: set<Recipient>, name: string, addr: Recipient,
                    first: seq<string>, roster: seq<string>, second: seq<string>, member: string)
    requires name !in m
    requires IsEnumeration(first, m.Keys) && IsEnumeration(second, Joined(m, live, name, addr).Keys)
    requires member in m && m[member] in live && m[member] != addr
    requires forall k :: k in m && m[k] == m[member] ==> k == member
    ensures Inbox(LoginDeliveries(m, live, name, addr, first, roster, second), m[member])
            == [JoinNotice(name), RosterNotice(roster)]
  {
    TurnInboxOfMember(m, live, name, addr, first, second, JoinNotice(name), LoginAck(name), RosterNotice(roster), member);
  }

  /** The three frames of a login turn are told apart by their "type" field. */
  lemma LoginFramesDiffer(name: string, joiner: string, roster: seq<string>)
    ensures JoinNotice(joiner) != LoginAck(name)
    ensures RosterNotice(roster) != LoginAck(name)
    ensures JoinNotice(joiner) != RosterNotice(roster)
  {
    assert Field(JoinNotice(joiner).text.value.members, "type") == Some(JString("JoinSystem"));
    assert Field(RosterNotice(roster).text.value.members, "type") == Some(JString("Chatters"));
    assert Field(LoginAck(name).text.value.members, "type") == Some(JString("LoginSystem"));
  }

  /** No handle other than the one that logged in receives the acknowledgement. */
  lemma AckOnlyToNewcomer(m: Registry, live: set<Recipient>, name: string, addr: Recipient,
                          first: seq<string>, roster: seq<string>, second: seq<string>, h: Recipient)
    requires Within(first, m) && Within(second, Joined(m, live, name, addr))
    requires h != addr
    ensures LoginAck(name) !in Inbox(LoginDeliveries(m, live, name, addr, first, roster, second), h)
  {
    var joins := Fanout(first, m, live, JoinNotice(name));
    var rosters := Fanout(second, Joined(m, live, name, addr), live, RosterNotice(roster));
    var ds := LoginDeliveries(m, live, name, addr, first, roster, second);
    assert ds == joins + [Delivery(addr, LoginAck(name))] + rosters;
    LoginFramesDiffer(name, name, roster);
    forall i | 0 <= i < |ds|
      ensures ds[i].msg != LoginAck(name) || ds[i].to == addr
    {
      if i < |joins| {
        assert ds[i] == joins[i];
      } else if i > |joins| {
        assert ds[i] == rosters[i - |joins| - 1];
      }
    }
  }

  /**
   * With delivery fixed for the turn, the join broadcast already removed every
   * dead entry, so the roster broadcast removes nothing: the registry the turn
   * ends with is the one the roster lists.
   */
  lemma RosterBroadcastKeepsAll(m: Registry, live: set<Recipient>, name: string, addr: Recipient)
    requires addr in live
    ensures Retain(Joined(m, live, name, addr), live) == Joined(m, live, name, addr)
  {
    var joined := Joined(m, live, name, addr);
    assert forall k :: k in joined ==> joined[k] in live;
  }

  /** While every registered connection is alive, a login under a new name adds exactly one entry. */
  lemma LoginGrowsRegistry(m: Registry, live: set<Recipient>, name: string, addr: Recipient)
    requires name !in m && addr in live
    requires forall k :: k in m ==> m[k] in live
    ensures |Retain(Joined(m, live, name, addr), live)| == |m| + 1
  {
    RosterBroadcastKeepsAll(m, live, name, addr);
    assert Retain(m, live) == m;
    assert Joined(m, live, name, addr).Keys == m.Keys + {name};
  }
}
