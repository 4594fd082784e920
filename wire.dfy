/**
 * The two programs against each other: every frame the hub sends decodes, in
 * the client, to the `ServerMessages` variant its payload describes, with the
 * payload's fields unchanged; and the frames a login turn delivers put the
 * client into the state the protocol intends.
 */
module Wire {
  import opened Json
  import Messages
  import Chat
  import Frontend

  lemma JoinNoticeDecodes(name: string)
    ensures Frontend.DecodeServerMessage(Chat.JoinNotice(name).text) == Some(Frontend.JoinSystem(name + " joined!"))
  {
    var ms := Chat.JoinNotice(name).text.value.members;
    FieldOfDistinct(ms, 0);
    FieldOfDistinct(ms, 1);
  }

  lemma LoginAckDecodes(name: string)
    ensures Frontend.DecodeServerMessage(Chat.LoginAck(name).text) == Some(Frontend.LoginSystem(name))
  {
    var ms := Chat.LoginAck(name).text.value.members;
    FieldOfDistinct(ms, 0);
    FieldOfDistinct(ms, 1);
  }

  lemma RosterDecodes(names: seq<string>)
    ensures Frontend.DecodeServerMessage(Chat.RosterNotice(names).text) == Some(Frontend.Chatters(names))
  {
    var ms := Chat.RosterNotice(names).text.value.members;
    FieldOfDistinct(ms, 0);
    FieldOfDistinct(ms, 1);
    StringsRoundTrip(names);
  }

  lemma ChatNoticeDecodes(chatter: string, time: Messages.U128, text: string)
    ensures Frontend.DecodeServerMessage(Chat.ChatNotice(chatter, time, text).text)
            == Some(Frontend.Message(chatter, time, text))
  {
    var ms := [("type", JString("Message")), ("chatter", JString(chatter)), ("time", JNumber(time)), ("text", JString(text))];
    assert Chat.ChatNotice(chatter, time, text).text == Document(JObject(ms));
    FieldOfDistinct(ms, 0);
    FieldOfDistinct(ms, 1);
    FieldOfDistinct(ms, 2);
    FieldOfDistinct(ms, 3);
    DecodesAsMessage(ms, chatter, time, text);
  }

  lemma DecodesAsMessage(ms: seq<(string, Json)>, chatter: string, time: int, text: string)
    requires Field(ms, "type") == Some(JString("Message"))
    requires Field(ms, "chatter") == Some(JString(chatter))
    requires Field(ms, "time") == Some(JNumber(time))
    requires Field(ms, "text") == Some(JString(text))
    ensures Frontend.DecodeServerMessage(Document(JObject(ms))) == Some(Frontend.Message(chatter, time, text))
  {
  }

  /** A join notice is logged after the client's earlier messages. */
  lemma JoinNoticeLogged(v: Frontend.View, name: string)
    ensures Frontend.Reduce(v, Frontend.Rx(Chat.JoinNotice(name).text))
            == Frontend.Step(v.(messages := v.messages + [Frontend.JoinSystem(name + " joined!")]), true, [])
  {
    JoinNoticeDecodes(name);
  }

  /** A roster replaces the client's list of chatters and nothing else. */
  lemma RosterShown(v: Frontend.View, roster: seq<string>)
    ensures Frontend.Reduce(v, Frontend.Rx(Chat.RosterNotice(roster).text))
            == Frontend.Step(v.(chatters := roster), true, [])
  {
    RosterDecodes(roster);
  }

  /**
   * An acknowledgement logs the client in and switches it to the chat route;
   * except under the name "false", which the hub accepts but the client takes
   * for a refusal and ignores.
   */
  lemma LoginAckApplied(v: Frontend.View, name: string)
    ensures Frontend.Reduce(v, Frontend.Rx(Chat.LoginAck(name).text))
            == if name == "false" then Frontend.Step(v, false, [])
               else Frontend.Step(v.(login := name), true, [Frontend.RouteChange(Frontend.ChatRoute)])
  {
    LoginAckDecodes(name);
  }

  /**
   * A fresh client that receives what the hub sends a newcomer (see
   * `Chat.NewcomerInbox`) is logged in under its name, shows the roster and
   * has an empty log; except under the name "false".
   */
  lemma NewcomerSession(name: string, roster: seq<string>)
    ensures Frontend.Replay(Frontend.View("", [], []),
                            [Frontend.Rx(Chat.LoginAck(name).text), Frontend.Rx(Chat.RosterNotice(roster).text)])
            == Frontend.View(if name == "false" then "" else name, [], roster)
  {
    var a0, a1 := Frontend.Rx(Chat.LoginAck(name).text), Frontend.Rx(Chat.RosterNotice(roster).text);
    var v0 := Frontend.View("", [], []);
    LoginAckApplied(v0, name);
    RosterShown(Frontend.Reduce(v0, a0).view, roster);
    ReplayTwo(v0, a0, a1);
  }

  /**
   * A client already in the room that receives what the hub sends it when
   * someone joins (see `Chat.MemberInbox`) logs the join notice after its
   * earlier messages, replaces its roster and keeps its login.
   */
  lemma MemberSession(v: Frontend.View, name: string, roster: seq<string>)
    ensures Frontend.Replay(v, [Frontend.Rx(Chat.JoinNotice(name).text), Frontend.Rx(Chat.RosterNotice(roster).text)])
            == Frontend.View(v.login, v.messages + [Frontend.JoinSystem(name + " joined!")], roster)
  {
    var a0, a1 := Frontend.Rx(Chat.JoinNotice(name).text), Frontend.Rx(Chat.RosterNotice(roster).text);
    JoinNoticeLogged(v, name);
    RosterShown(Frontend.Reduce(v, a0).view, roster);
    ReplayTwo(v, a0, a1);
  }

  /** Two actions replayed are two reductions in a row. */
  lemma ReplayTwo(v: Frontend.View, a0: Frontend.Action, a1: Frontend.Action)
    ensures Frontend.Replay(v, [a0, a1]) == Frontend.Reduce(Frontend.Reduce(v, a0).view, a1).view
  {
    assert [a0, a1][..1] == [a0];
    assert [a0][..0] == [];
    assert Frontend.Replay(v, [a0]) == Frontend.Reduce(v, a0).view;
  }

  /** A chat line reaches every client's log with the sender, stamp and text the hub gave it. */
  lemma ChatLineLogged(v: Frontend.View, chatter: string, time: Messages.U128, text: string)
    ensures Frontend.Reduce(v, Frontend.Rx(Chat.ChatNotice(chatter, time, text).text))
            == Frontend.Step(v.(messages := v.messages + [Frontend.Message(chatter, time, text)]), true, [])
  {
    ChatNoticeDecodes(chatter, time, text);
  }
}
