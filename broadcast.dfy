/**
 * What one `broadcast_message` pass does to the registry and to the log of
 * deliveries (backend/src/chat/chat.rs): `HashMap::retain` visits every entry
 * once, in the map's own order, delivers the message to the entry's handle and
 * keeps exactly the entries whose delivery succeeded.
 */
module Broadcast {
  import opened Messages

  /** The `chatters` map: display name to reply handle. */
  type Registry = map<string, Recipient>

  /** One successful `do_send`: the handle and what it was given. */
  datatype Delivery = Delivery(to: Recipient, msg: Message)

  ghost predicate NoDup(s: seq<string>)
  {
    forall i, j :: 0 <= i < j < |s| ==> s[i] != s[j]
  }

  /** `o` lists every element of `keys` exactly once: a visiting order of a map. */
  ghost predicate IsEnumeration(o: seq<string>, keys: set<string>)
  {
    && NoDup(o)
    && (forall i :: 0 <= i < |o| ==> o[i] in keys)
    && (forall k :: k in keys ==> k in o)
  }

  ghost predicate Within(o: seq<string>, m: Registry)
  {
    forall i :: 0 <= i < |o| ==> o[i] in m
  }

  /** The registry after a broadcast: the entries whose handle accepted the message. */
  function Retain(m: Registry, live: set<Recipient>): (r: Registry)
    ensures r.Keys <= m.Keys
    ensures forall k :: k in r ==> r[k] == m[k] && r[k] in live
    ensures forall k :: k in m && m[k] in live ==> k in r
  {
    map k | k in m && m[k] in live :: m[k]
  }

  /** The registry part-way through a `retain` pass: unvisited entries, and visited ones that were live. */
  ghost function Partial(m: Registry, pending: set<string>, live: set<Recipient>): Registry
  {
    map k | k in m && (k in pending || m[k] in live) :: m[k]
  }

  lemma PartialStart(m: Registry, live: set<Recipient>)
    ensures Partial(m, m.Keys, live) == m
  {
  }

  lemma PartialEnd(m: Registry, live: set<Recipient>)
    ensures Partial(m, {}, live) == Retain(m, live)
  {
  }

  /** Visiting `name` keeps its entry if its handle is live and removes it otherwise. */
  lemma PartialStep(m: Registry, pending: set<string>, live: set<Recipient>, name: string)
    requires name in pending && pending <= m.Keys
    ensures name in Partial(m, pending, live) && Partial(m, pending, live)[name] == m[name]
    ensures Partial(m, pending - {name}, live)
            == if m[name] in live then Partial(m, pending, live) else Partial(m, pending, live) - {name}
  {
    var before, after := Partial(m, pending, live), Partial(m, pending - {name}, live);
    if m[name] in live {
      assert after.Keys == before.Keys;
    } else {
      assert after.Keys == before.Keys - {name};
    }
  }

  /**
   * The deliveries of one broadcast of `msg` that visits the names of `m` in
   * the order `o`: one per visited entry whose handle is live.
   */
  function Fanout(o: seq<string>, m: Registry, live: set<Recipient>, msg: Message): (r: seq<Delivery>)
    requires Within(o, m)
    ensures |r| <= |o|
    ensures forall i :: 0 <= i < |r| ==> r[i].msg == msg && r[i].to in live && r[i].to in m.Values
  {
    if o == [] then []
    else
      var last := o[|o| - 1];
      Fanout(o[..|o| - 1], m, live, msg) + (if m[last] in live then [Delivery(m[last], msg)] else [])
  }

  lemma FanoutSnoc(o: seq<string>, x: string, m: Registry, live: set<Recipient>, msg: Message)
    requires Within(o, m) && x in m
    ensures Fanout(o + [x], m, live, msg) == Fanout(o, m, live, msg) + (if m[x] in live then [Delivery(m[x], msg)] else [])
  {
    assert (o + [x])[..|o|] == o;
  }

  /** What handle `h` received from the deliveries `ds`, in order. */
  function Inbox(ds: seq<Delivery>, h: Recipient): (r: seq<Message>)
    ensures |r| <= |ds|
    ensures forall x :: x in r ==> Delivery(h, x) in ds
  {
    if ds == [] then []
    else
      var last := ds[|ds| - 1];
      Inbox(ds[..|ds| - 1], h) + (if last.to == h then [last.msg] else [])
  }

  /** The names under which `h` is registered. */
  function NamesOf(m: Registry, h: Recipient): set<string>
  {
    set k | k in m && m[k] == h
  }

  lemma {:induction false} InboxAppend(a: seq<Delivery>, b: seq<Delivery>, h: Recipient)
    ensures Inbox(a + b, h) == Inbox(a, h) + Inbox(b, h)
  {
    if b == [] {
      assert a + b == a;
    } else {
      var b' := b[..|b| - 1];
      assert (a + b)[..|a + b| - 1] == a + b';
      InboxAppend(a, b', h);
    }
  }

  /** How many of the names listed in `o` are registered to `h`, counted with repetition. */
  function Hits(o: seq<string>, m: Registry, h: Recipient): nat
    requires Within(o, m)
  {
    if o == [] then 0
    else Hits(o[..|o| - 1], m, h) + (if m[o[|o| - 1]] == h then 1 else 0)
  }

  lemma {:induction false} FanoutInboxHits(o: seq<string>, m: Registry, live: set<Recipient>, msg: Message, h: Recipient)
    requires Within(o, m)
    ensures |Inbox(Fanout(o, m, live, msg), h)| == (if h in live then Hits(o, m, h) else 0)
  {
    if o != [] {
      var p, x := o[..|o| - 1], o[|o| - 1];
      var step := if m[x] in live then [Delivery(m[x], msg)] else [];
      assert Fanout(o, m, live, msg) == Fanout(p, m, live, msg) + step;
      InboxAppend(Fanout(p, m, live, msg), step, h);
      if step != [] {
        InboxOfOne(step[0], h);
      }
      FanoutInboxHits(p, m, live, msg, h);
    }
  }

  lemma {:induction false} HitsCountsNames(o: seq<string>, m: Registry, h: Recipient)
    requires Within(o, m) && NoDup(o)
    ensures Hits(o, m, h) == |set k | k in o && m[k] == h|
  {
    if o != [] {
      var p, x := o[..|o| - 1], o[|o| - 1];
      var before := set k | k in p && m[k] == h;
      var after := set k | k in o && m[k] == h;
      assert x !in before by {
        assert forall i :: 0 <= i < |p| ==> p[i] == o[i];
      }
      if m[x] == h {
        assert after == before + {x};
        assert |after| == |before| + 1;
      } else {
        assert after == before;
      }
      HitsCountsNames(p, m, h);
    }
  }

  /**
   * Each live handle receives the broadcast message once for every name it is
   * registered under; a dead handle receives nothing; nobody receives
   * anything else.
   */
  lemma FanoutInbox(o: seq<string>, m: Registry, live: set<Recipient>, msg: Message, h: Recipient)
    requires IsEnumeration(o, m.Keys)
    ensures |Inbox(Fanout(o, m, live, msg), h)| == (if h in live then |NamesOf(m, h)| else 0)
    ensures forall x :: x in Inbox(Fanout(o, m, live, msg), h) ==> x == msg
  {
    FanoutInboxHits(o, m, live, msg, h);
    HitsCountsNames(o, m, h);
    assert (set k | k in o && m[k] == h) == NamesOf(m, h);
  }

  /** A handle registered under no name receives nothing from a broadcast. */
  lemma FanoutSkipsUnregistered(o: seq<string>, m: Registry, live: set<Recipient>, msg: Message, h: Recipient)
    requires IsEnumeration(o, m.Keys)
    requires h !in m.Values
    ensures Inbox(Fanout(o, m, live, msg), h) == []
  {
    FanoutInbox(o, m, live, msg, h);
    assert NamesOf(m, h) == {};
  }

  /** A live handle registered under exactly one name receives the message exactly once. */
  lemma FanoutReachesSoleName(o: seq<string>, m: Registry, live: set<Recipient>, msg: Message, name: string)
    requires IsEnumeration(o, m.Keys)
    requires name in m && m[name] in live
    requires forall k :: k in m && m[k] == m[name] ==> k == name
    ensures Inbox(Fanout(o, m, live, msg), m[name]) == [msg]
  {
    FanoutInbox(o, m, live, msg, m[name]);
    assert NamesOf(m, m[name]) == {name};
    var r := Inbox(Fanout(o, m, live, msg), m[name]);
    assert |r| == 1 && r[0] in r;
  }

  /*
   * The three steps of a new-name login, for arbitrary frames `join`, `ack`
   * and `roster`: a broadcast over `m`, a unicast to `addr`, and a broadcast
   * over `m` with its dead entries removed and `name` added for `addr`.
   */

  function Turn(m: Registry, live: set<Recipient>, name: string, addr: Recipient,
                first: seq<string>, second: seq<string>, join: Message, ack: Message, roster: Message): seq<Delivery>
    requires Within(first, m) && Within(second, Retain(m, live)[name := addr])
  {
    Fanout(first, m, live, join) + [Delivery(addr, ack)] + Fanout(second, Retain(m, live)[name := addr], live, roster)
  }

  /** A handle registered under no name owns, after it is added under `name`, that name alone. */
  lemma SoleNameAfterInsert(m: Registry, live: set<Recipient>, name: string, addr: Recipient)
    requires addr !in m.Values
    ensures var joined := Retain(m, live)[name := addr];
      name in joined && joined[name] == addr && forall k :: k in joined && joined[k] == addr ==> k == name
  {
    var joined := Retain(m, live)[name := addr];
    forall k | k in joined && k != name
      ensures joined[k] != addr
    {
      assert joined[k] == m[k] && m[k] in m.Values;
    }
  }

  lemma InboxOfThree(a: seq<Delivery>, b: seq<Delivery>, c: seq<Delivery>, h: Recipient)
    ensures Inbox(a + b + c, h) == Inbox(a, h) + Inbox(b, h) + Inbox(c, h)
  {
    InboxAppend(a + b, c, h);
    InboxAppend(a, b, h);
  }

  lemma InboxOfOne(d: Delivery, h: Recipient)
    ensures Inbox([d], h) == if d.to == h then [d.msg] else []
  {
    assert [d][..0] == [];
  }

  lemma TurnInboxOfNewcomer(m: Registry, live: set<Recipient>, name: string, addr: Recipient,
                            first: seq<string>, second: seq<string>, join: Message, ack: Message, roster: Message)
    requires name !in m && addr !in m.Values && addr in live
    requires IsEnumeration(first, m.Keys) && IsEnumeration(second, Retain(m, live)[name := addr].Keys)
    ensures Inbox(Turn(m, live, name, addr, first, second, join, ack, roster), addr) == [ack, roster]
  {
    var joined := Retain(m, live)[name := addr];
    var joins := Fanout(first, m, live, join);
    var rosters := Fanout(second, joined, live, roster);
    assert Inbox(joins, addr) == [] by {
      FanoutSkipsUnregistered(first, m, live, join, addr);
    }
    assert Inbox([Delivery(addr, ack)], addr) == [ack] by {
      InboxOfOne(Delivery(addr, ack), addr);
    }
    assert Inbox(rosters, addr) == [roster] by {
      SoleNameAfterInsert(m, live, name, addr);
      FanoutReachesSoleName(second, joined, live, roster, name);
    }
    InboxOfThree(joins, [Delivery(addr, ack)], rosters, addr);
  }

  lemma TurnInboxOfMember(m: Registry, live: set<Recipient>, name: string, addr: Recipient,
                          first: seq<string>, second: seq<string>, join: Message, ack: Message, roster: Message,
                          member: string)
    requires name !in m
    requires IsEnumeration(first, m.Keys) && IsEnumeration(second, Retain(m, live)[name := addr].Keys)
    requires member in m && m[member] in live && m[member] != addr
    requires forall k :: k in m && m[k] == m[member] ==> k == member
    ensures Inbox(Turn(m, live, name, addr, first, second, join, ack, roster), m[member]) == [join, roster]
  {
    var h := m[member];
    var joined := Retain(m, live)[name := addr];
    var joins := Fanout(first, m, live, join);
    var rosters := Fanout(second, joined, live, roster);
    assert Inbox(joins, h) == [join] by {
      FanoutReachesSoleName(first, m, live, join, member);
    }
    assert Inbox([Delivery(addr, ack)], h) == [] by {
      InboxOfOne(Delivery(addr, ack), h);
    }
    assert Inbox(rosters, h) == [roster] by {
      assert member in joined && joined[member] == h;
      forall k | k in joined && joined[k] == h
        ensures k == member
      {
        if k != name {
          assert m[k] == h;
        }
      }
      FanoutReachesSoleName(second, joined, live, roster, member);
    }
    InboxOfThree(joins, [Delivery(addr, ack)], rosters, h);
  }
}
