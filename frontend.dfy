/**
 * The browser client's root component (frontend/src/main.rs): it decodes the
 * frames the hub sends into `ServerMessages` and folds them into three pieces
 * of state, `login`, `chatters` and `messages`. Its two outside effects, a
 * socket send and a route change, are recorded in an effect log.
 */
module Frontend {
  import opened Json

  datatype AppRoute = ChatRoute | LoginRoute | IndexRoute

  /**
   * `ServerMessages`, internally tagged by "type". `time` is the JSON number
   * as received; the source keeps it as an `f64`.
   */
  datatype ServerMessage =
    | LoginSystem(text: string)
    | JoinSystem(text: string)
    | Message(chatter: string, time: int, text: string)
    | Chatters(chatters: seq<string>)

  /** The component's messages (`Actions`): a received frame, a frame to send, nothing. */
  datatype Action = Rx(data: Text) | Send(data: Text) | Nop

  /** The tag under which each variant is serialised. */
  function Tag(m: ServerMessage): string
  {
    match m
    case LoginSystem(_) => "LoginSystem"
    case JoinSystem(_) => "JoinSystem"
    case Message(_, _, _) => "Message"
    case Chatters(_) => "Chatters"
  }

  /**
   * `from_str::<ServerMessages>`: the tag must be present once and name a
   * variant; the variant's fields must be present once with the right JSON
   * type. Other fields are ignored.
   */
  function DecodeServerMessage(t: Text): (r: Option<ServerMessage>)
    ensures r.Some? ==> t.Document? && t.value.JObject?
    ensures r.Some? ==> Field(t.value.members, "type") == Some(JString(Tag(r.value)))
  {
    if !(t.Document? && t.value.JObject?) then None
    else
      var ms := t.value.members;
      var tag := Field(ms, "type");
      if tag == Some(JString("LoginSystem")) then
        match Field(ms, "text")
        case Some(JString(text)) => Some(LoginSystem(text))
        case _ => None
      else if tag == Some(JString("JoinSystem")) then
        match Field(ms, "text")
        case Some(JString(text)) => Some(JoinSystem(text))
        case _ => None
      else if tag == Some(JString("Message")) then
        match (Field(ms, "chatter"), Field(ms, "time"), Field(ms, "text"))
        case (Some(JString(chatter)), Some(JNumber(time)), Some(JString(text))) => Some(Message(chatter, time, text))
        case _ => None
      else if tag == Some(JString("Chatters")) then
        match Field(ms, "chatters")
        case Some(JArray(items)) =>
          (match Strings(items)
           case Some(names) => Some(Chatters(names))
           case None => None)
        case _ => None
      else None
  }

  /** A message that belongs in the chat log. */
  predicate IsNotice(m: ServerMessage)
  {
    m.JoinSystem? || m.Message?
  }

  datatype Effect = SocketSend(data: Text) | RouteChange(route: AppRoute)

  /** The component state that `update` touches. */
  datatype View = View(login: string, messages: seq<ServerMessage>, chatters: seq<string>)

  /** The result of one `update`: new state, the `ShouldRender` flag, effects issued. */
  datatype Step = Step(view: View, render: bool, effects: seq<Effect>)

  /** The frame a received action carries, decoded; nothing for other actions. */
  function Received(a: Action): Option<ServerMessage>
  {
    if a.Rx? then DecodeServerMessage(a.data) else None
  }

  /** What an action adds to the chat log: the frame it carries, if that decodes to a chat-log message. */
  function Logged(a: Action): (r: seq<ServerMessage>)
    ensures |r| <= 1 && forall m :: m in r ==> IsNotice(m) && Received(a) == Some(m)
  {
    match Received(a)
    case Some(m) => if IsNotice(m) then [m] else []
    case None => []
  }

  /**
   * `update` as a function of the state. Only received frames change the
   * state; a step that asks for no render changes nothing; the log only
   * grows, by at most one chat-log message; the only effects are the socket
   * send of a `Send` and the switch to the chat route after a login.
   */
  function Reduce(v: View, a: Action): (r: Step)
    ensures a.Rx? || r.view == v
    ensures !r.render ==> r.view == v
    ensures r.view.messages == v.messages + Logged(a)
    ensures a.Send? ==> r == Step(v, false, [SocketSend(a.data)])
    ensures a.Nop? ==> r == Step(v, false, [])
    ensures match Received(a)
      case Some(LoginSystem(t)) => t != "false" ==> r == Step(v.(login := t), true, [RouteChange(ChatRoute)])
      case Some(Chatters(ns)) => r == Step(v.(chatters := ns), true, [])
      case _ => true
    ensures r.render <==> Received(a).Some? && Received(a) != Some(LoginSystem("false"))
    ensures r.view.login == v.login || Received(a) == Some(LoginSystem(r.view.login))
    ensures r.view.chatters == v.chatters || Received(a) == Some(Chatters(r.view.chatters))
    ensures forall e :: e in r.effects ==>
      (a.Send? && e == SocketSend(a.data)) ||
      (e == RouteChange(ChatRoute) && Received(a) == Some(LoginSystem(r.view.login)) && r.view.login != "false")
  {
    match a
    case Send(data) => Step(v, false, [SocketSend(data)])
    case Rx(data) =>
      (match DecodeServerMessage(data)
       case Some(LoginSystem(text)) =>
         if text != "false" then Step(v.(login := text), true, [RouteChange(ChatRoute)])
         else Step(v, false, [])
       case Some(Chatters(names)) => Step(v.(chatters := names), true, [])
       case Some(x) => Step(v.(messages := v.messages + [x]), true, [])
       case None => Step(v, false, []))
    case Nop => Step(v, false, [])
  }

  class Model {
    var login: string
    var messages: seq<ServerMessage>
    var chatters: seq<string>
    /** Every socket send and route change issued, in order. */
    var effects: seq<Effect>

    /** Only chat-log messages are ever kept in `messages`. */
    ghost predicate Valid()
      reads this
    {
      forall i :: 0 <= i < |messages| ==> IsNotice(messages[i])
    }

    function Current(): View
      reads this
    {
      View(login, messages, chatters)
    }

    /** `create`: nobody logged in, nothing received. */
    constructor ()
      ensures Valid()
      ensures login == "" && messages == [] && chatters == [] && effects == []
    {
      login := "";
      messages := [];
      chatters := [];
      effects := [];
    }

    /** `update`. */
    method Update(msg: Action) returns (shouldRender: bool)
      requires Valid()
      modifies this
      ensures Valid()
      ensures Current() == Reduce(old(Current()), msg).view
      ensures shouldRender == Reduce(old(Current()), msg).render
      ensures effects == old(effects) + Reduce(old(Current()), msg).effects
    {
      match msg
      case Send(data) =>
        effects := effects + [SocketSend(data)];
        shouldRender := false;
      case Rx(data) =>
        match DecodeServerMessage(data) {
          case Some(LoginSystem(text)) =>
            if text != "false" {
              login := text;
              effects := effects + [RouteChange(ChatRoute)];
              return true;
            }
            shouldRender := false;
          case Some(Chatters(names)) =>
            chatters := names;
            shouldRender := true;
          case Some(x) =>
            messages := messages + [x];
            shouldRender := true;
          case None =>
            shouldRender := false;
        }
      case Nop =>
        shouldRender := false;
    }
  }

  /* The state after a whole sequence of actions, and three independent accounts of it. */

  function Replay(v: View, actions: seq<Action>): View
  {
    if actions == [] then v
    else Reduce(Replay(v, actions[..|actions| - 1]), actions[|actions| - 1]).view
  }

  /** The chat-log messages received, in order of arrival. */
  function Notices(actions: seq<Action>): seq<ServerMessage>
  {
    if actions == [] then []
    else Notices(actions[..|actions| - 1]) + Logged(actions[|actions| - 1])
  }

  /** The most recent roster received, if any. */
  function LastRoster(actions: seq<Action>): Option<seq<string>>
  {
    if actions == [] then None
    else match Received(actions[|actions| - 1])
      case Some(Chatters(names)) => Some(names)
      case _ => LastRoster(actions[..|actions| - 1])
  }

  /** The most recent login acknowledgement received, other than "false", if any. */
  function LastLogin(actions: seq<Action>): Option<string>
  {
    if actions == [] then None
    else match Received(actions[|actions| - 1])
      case Some(LoginSystem(text)) => if text != "false" then Some(text) else LastLogin(actions[..|actions| - 1])
      case _ => LastLogin(actions[..|actions| - 1])
  }

  /** The log is the earlier log followed by every chat-log message received, in order. */
  lemma {:induction false} ReplayMessages(v: View, actions: seq<Action>)
    ensures Replay(v, actions).messages == v.messages + Notices(actions)
  {
    if actions != [] {
      ReplayMessages(v, actions[..|actions| - 1]);
    }
  }

  /** The roster shown is the last one received. */
  lemma {:induction false} ReplayChatters(v: View, actions: seq<Action>)
    ensures Replay(v, actions).chatters == (match LastRoster(actions) case Some(names) => names case None => v.chatters)
  {
    if actions != [] {
      ReplayChatters(v, actions[..|actions| - 1]);
    }
  }

  /** The login is the last acknowledgement received other than "false". */
  lemma {:induction false} ReplayLogin(v: View, actions: seq<Action>)
    ensures Replay(v, actions).login == (match LastLogin(actions) case Some(name) => name case None => v.login)
  {
    if actions != [] {
      ReplayLogin(v, actions[..|actions| - 1]);
    }
  }
}
