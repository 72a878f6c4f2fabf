/** The client processes behind their endpoints, and what a broadcast of the
    server does to all of them when every message travels over the wire. */
module Network {
  import opened CppString
  import opened KeyOrder
  import opened Messages
  import opened WireFormat
  import opened NodeData
  import opened RosterText
  import opened Registries
  import opened Client

  datatype Endpoint = Endpoint(ip: string, port: nat)

  /** One process listens at an endpoint. */
  type Net = map<Endpoint, ClientState>

  /** The process is who it was. */
  predicate SameProcess(c: ClientState, d: ClientState) {
    d.name == c.name && d.nickname == c.nickname && d.ip == c.ip && d.port == c.port
  }

  /** `Send` as far as the receiving process is concerned: the message is
      serialized, framed, decoded and handed to whatever listens there. */
  function Deliver(net: Net, p: Packet): Net {
    var e := Endpoint(p.ip, p.port);
    if e !in net then net
    else
      match Received(Wire(p.msg))
      case None => net
      case Some(m) => net[e := Down(net[e], m).0]
  }

  function DeliverAll(net: Net, ps: seq<Packet>): Net {
    if ps == [] then net else Deliver(DeliverAll(net, ps[..|ps| - 1]), ps[|ps| - 1])
  }

  lemma {:induction false} DeliverAppend(net: Net, a: seq<Packet>, b: seq<Packet>)
    ensures DeliverAll(net, a + b) == DeliverAll(DeliverAll(net, a), b)
  {
    hide Deliver;
    if b == [] {
      assert a + b == a;
    } else {
      DeliverAppend(net, a, b[..|b| - 1]);
      assert (a + b)[..|a + b| - 1] == a + b[..|b| - 1];
    }
  }

  /** Names, nicknames and IP addresses in which neither the wire format, the
      record nor the list finds a reserved character. */
  predicate CleanName(s: string) {
    Clean(s, ['-', '|', NUL, ':'])
  }

  lemma CleanNameIs(s: string)
    ensures CleanName(s) <==> s != "" && '-' !in s && '|' !in s && NUL !in s && ':' !in s
  {
    assert forall c :: c in ['-', '|', NUL, ':'] <==> c == '-' || c == '|' || c == NUL || c == ':';
  }

  /** `Node` writes names into a 128 byte buffer. */
  predicate GoodName(s: string) {
    CleanName(s) && |s| < 128
  }

  predicate GoodServer(s: string) {
    CleanField(s) && |s| < 128
  }

  lemma NamesAre(s: string)
    ensures GoodName(s) <==> s != "" && '-' !in s && '|' !in s && '\0' !in s && ':' !in s && |s| < 128
    ensures GoodServer(s) <==> s != "" && '-' !in s && '|' !in s && '\0' !in s && |s| < 128
  {
    CleanNameIs(s);
    CleanIs(s);
  }

  /** A registered client that runs listens where the server will look for it. */
  ghost predicate AtHome(net: Net, addr: map<string, string>) {
    forall e :: e in net && net[e].name in addr ==> AddressOf(addr[net[e].name]) == Address(e.ip, e.port)
  }

  ghost predicate Sendable(bodies: map<string, Msg>) {
    forall n :: n in bodies ==> bodies[n].clientDest == n && Deliverable(bodies[n])
  }

  /** Each listed client that runs has received its message, nobody else any. */
  ghost function Told(net: Net, ks: seq<string>, addr: map<string, string>, bodies: map<string, Msg>): Net
    requires Sendable(bodies)
  {
    map e | e in net ::
      var c := net[e];
      if c.name in ks && c.name in addr && c.name in bodies
      then (WireLength(bodies[c.name]); Down(c, bodies[c.name]).0)
      else c
  }

  lemma {:induction false} AddEntriesKeeps(c: ClientState, es: seq<Entry>)
    ensures AddEntries(c, es) == c.(roster := AddEntries(c, es).roster, events := AddEntries(c, es).events)
    decreases |es|
  {
    if es != [] {
      AddEntriesKeeps(c.(roster := Insert(c.roster, es[0].0, es[0].1), events := c.events + [AddEvent(es[0].0)]),
          es[1..]);
    }
  }

  lemma DownKeepsName(c: ClientState, m: Msg)
    requires |m.data| < NPOS
    ensures Down(c, m).0.name == c.name
    ensures m.clientDest != c.name ==> Down(c, m).0 == c
  {
    hide ReadList, RemEntry;
    AddEntriesKeeps(c, ReadList(m.data).0);
    RemEntryKeeps(c, m.data);
  }

  lemma RemEntryKeeps(c: ClientState, gone: string)
    ensures RemEntry(c, gone) == c.(roster := RemEntry(c, gone).roster, events := RemEntry(c, gone).events)
  {
  }

  lemma DeliverOne(net: Net, p: Packet)
    requires Deliverable(p.msg)
    ensures |p.msg.data| < NPOS
    ensures var e := Endpoint(p.ip, p.port);
      DeliverAll(net, [p]) == if e in net then net[e := Down(net[e], p.msg).0] else net
  {
    hide Down, Wire, Received;
    WireLength(p.msg);
    Arrives(p.msg);
    assert [p][..0] == [];
    assert DeliverAll(net, [p]) == Deliver(net, p);
  }

  /** Names stay, and a further name on the list matters to its bearer only. */
  lemma ToldOthers(net: Net, init: seq<string>, n: string, addr: map<string, string>, bodies: map<string, Msg>)
    requires Sendable(bodies) && n !in init
    ensures var before, after := Told(net, init, addr, bodies), Told(net, init + [n], addr, bodies);
      forall e :: e in net ==>
        && before[e].name == net[e].name
        && (net[e].name != n || n !in addr || n !in bodies ==> after[e] == before[e])
        && (net[e].name == n ==> before[e] == net[e])
  {
    hide Down;
    forall e | e in net && net[e].name in bodies
      ensures |bodies[net[e].name].data| < NPOS && Down(net[e], bodies[net[e].name]).0.name == net[e].name
    {
      WireLength(bodies[net[e].name]);
      DownKeepsName(net[e], bodies[net[e].name]);
    }
    forall e | e in net ensures net[e].name in init + [n] <==> net[e].name in init || net[e].name == n {
    }
  }

  /** One packet reaches its addressee if that runs, and changes nobody else. */
  lemma PacketTold(net: Net, init: seq<string>, n: string, addr: map<string, string>, bodies: map<string, Msg>)
    requires AtHome(net, addr) && Sendable(bodies) && n !in init
    ensures DeliverAll(Told(net, init, addr, bodies), Turn(n, addr, bodies)) == Told(net, init + [n], addr, bodies)
  {
    hide Down, AddressOf, Wire, Received, DeliverAll, Deliverable;
    var before, after := Told(net, init, addr, bodies), Told(net, init + [n], addr, bodies);
    ToldOthers(net, init, n, addr, bodies);
    if n in addr && n in bodies && AddressOf(addr[n]).Address? {
      var e := Endpoint(AddressOf(addr[n]).ip, AddressOf(addr[n]).port);
      DeliverOne(before, Packet(e.ip, e.port, bodies[n]));
      assert n in init + [n];
      if e in net {
        DownKeepsName(before[e], bodies[n]);
        assert after == before[e := Down(before[e], bodies[n]).0];
      } else {
        assert after == before;
      }
    } else {
      assert Turn(n, addr, bodies) == [];
      DeliverNone(before);
      assert after == before;
    }
  }

  lemma DeliverNone(net: Net)
    ensures DeliverAll(net, []) == net
  {
  }

  /** A broadcast delivers exactly what it is meant to. */
  lemma {:induction false} BroadcastEffect(net: Net, ks: seq<string>, addr: map<string, string>,
      bodies: map<string, Msg>)
    requires AtHome(net, addr) && Sendable(bodies) && Distinct(ks)
    ensures DeliverAll(net, Broadcast(ks, addr, bodies)) == Told(net, ks, addr, bodies)
  {
    hide Down, Turn;
    if ks == [] {
      assert Told(net, [], addr, bodies) == net;
    } else {
      var init, n := ks[..|ks| - 1], ks[|ks| - 1];
      BroadcastEffect(net, init, addr, bodies);
      DeliverAppend(net, Broadcast(init, addr, bodies), Turn(n, addr, bodies));
      PacketTold(net, init, n, addr, bodies);
      assert init + [n] == ks;
    }
  }
}
