/** What holds along every run of the whole system. */
module SystemRuns {
  import opened CppString
  import opened KeyOrder
  import opened Messages
  import opened WireFormat
  import opened NodeData
  import opened Registries
  import opened Server
  import opened Client
  import opened Network
  import opened RosterUpdates
  import opened Rosters
  import opened Delivery
  import opened Protocol
  import opened JoinEffects

  // ----- the sweep, one check at a time

  lemma SweptStep(s: System, readings: seq<int>, k: nat)
    requires Consistent(s.reg) && 0 < k <= |s.reg.ping.Keys| <= |readings|
    ensures var ks, before := Keys(s.reg.ping.Keys), SweptTo(s, readings, k - 1);
      var n := ks[k - 1];
      && (n in before.reg.ping ==> n in before.reg.addr)
      && SweptTo(s, readings, k) ==
           if n in before.reg.ping && readings[k - 1] - before.reg.ping[n] > PING_LIMIT
           then Removed(before, n)
           else before
  {
    hide RemUpdates, DeliverAll, Keys, SweepFrom, Consistent;
    var ks := Keys(s.reg.ping.Keys);
    SweepTurn(s.reg, s.server, ks, readings, k - 1);
    SweepShrinks(s.reg, s.server, ks, readings, k - 1);
    var (q, sent) := SweepFrom(s.reg, s.server, ks, readings, k - 1);
    ConsistentKeys(q);
    DeliverAppend(s.net, sent, RemUpdates(q, s.server, ks[k - 1]));
    MoreGone(s.reg.addr.Keys, q.addr, ks[k - 1]);
  }

  lemma ConsistentKeys(r: Registry)
    requires Consistent(r)
    ensures r.addr.Keys == r.ping.Keys == r.nicks.Keys
  {
    hide SoundEntry;
  }

  lemma InvConsistent(s: System)
    requires Inv(s)
    ensures Consistent(s.reg)
  {
  }

  lemma MoreGone(names: set<string>, addr: map<string, string>, n: string)
    requires addr.Keys <= names
    ensures n in addr ==> names - (addr - {n}).Keys == (names - addr.Keys) + {n}
  {
    assert (addr - {n}).Keys == addr.Keys - {n};
  }

  lemma SweptNone(s: System, readings: seq<int>)
    requires |s.reg.ping.Keys| <= |readings|
    ensures SweptTo(s, readings, 0) == s
  {
  }

  /** t is a good successor of s. */
  ghost predicate Kept(s: System, t: System) {
    && Inv(t) && t.clock >= s.clock && s.gone <= t.gone
    && (Sound(s) ==> Sound(t))
    && (Agrees(s) ==> Agrees(t))
    && (Sound(s) && ViewsMatch(s) ==> ViewsMatch(t))
  }

  lemma {:induction false} SweepKeeps(s: System, readings: seq<int>, k: nat)
    requires Inv(s) && k <= |s.reg.ping.Keys| <= |readings|
    ensures Kept(s, SweptTo(s, readings, k)) && SweptTo(s, readings, k).clock == s.clock
  {
    hide Inv, Kept, SweptTo;
    if k == 0 {
      SweptNone(s, readings);
      KeptRefl(s);
    } else {
      SweepKeeps(s, readings, k - 1);
      var before := SweptTo(s, readings, k - 1);
      KeptGood(s, before);
      CheckKeeps(s, readings, k);
      KeptTrans(s, before, SweptTo(s, readings, k));
    }
  }

  lemma KeptRefl(s: System)
    requires Inv(s)
    ensures Kept(s, s)
  {
  }

  lemma KeptGood(s: System, t: System)
    requires Kept(s, t)
    ensures Inv(t)
  {
    hide Inv;
  }

  lemma KeptTrans(s: System, t: System, u: System)
    requires Kept(s, t) && Kept(t, u)
    ensures Kept(s, u)
  {
    hide Inv, Sound, Agrees, ViewsMatch;
  }

  /** One check of the sweep. */
  lemma CheckKeeps(s: System, readings: seq<int>, k: nat)
    requires Inv(s) && 0 < k <= |s.reg.ping.Keys| <= |readings| && Inv(SweptTo(s, readings, k - 1))
    ensures Kept(SweptTo(s, readings, k - 1), SweptTo(s, readings, k))
    ensures SweptTo(s, readings, k).clock == SweptTo(s, readings, k - 1).clock
  {
    hide Inv, Kept, Removed, SweptTo, Keys;
    InvConsistent(s);
    SweptStep(s, readings, k);
    var before := SweptTo(s, readings, k - 1);
    KeptRefl(before);
    if SweptTo(s, readings, k) != before {
      RemovedKeeps(before, Keys(s.reg.ping.Keys)[k - 1]);
    }
  }

  lemma RemovedKeeps(s: System, n: string)
    requires Inv(s) && n in s.reg.addr
    ensures Kept(s, Removed(s, n)) && Removed(s, n).clock == s.clock
  {
    hide Inv, Sound, Agrees, ViewsMatch;
    RemoveKeepsInv(s, n);
    if Agrees(s) { AgreesIsSound(s); }
    if Sound(s) { RemoveKeepsRosters(s, n); }
  }

  // ----- clock and pings

  lemma LaterBounds(clock: int, readings: seq<int>, i: nat)
    requires Rising(clock, readings) && i < |readings|
    ensures clock <= readings[i] <= Later(clock, readings)
  {
  }

  lemma ClockGoesOn(s: System, readings: seq<int>)
    requires Rising(s.clock, readings)
    ensures s.clock <= Later(s.clock, readings)
  {
    if readings != [] { LaterBounds(s.clock, readings, |readings| - 1); }
  }

  lemma LaterKeeps(s: System, clock: int)
    requires clock >= s.clock
    ensures var t := s.(clock := clock);
      (Inv(s) ==> Inv(t)) && (Sound(s) <==> Sound(t)) && (Agrees(s) <==> Agrees(t))
          && (ViewsMatch(s) <==> ViewsMatch(t))
  {
    hide NicknameOf, AddressOf, Record, GoodProcess, Consistent, GoodRegistry, Mirrors, ViewMatches;
    var t := s.(clock := clock);
    if Inv(s) {
      forall e | e in s.net ensures ProcessInv(t, e) { assert ProcessInv(s, e); }
    }
  }

  lemma PingMsgSendable(server: string, dest: string)
    requires GoodServer(server) && GoodName(dest)
    ensures Deliverable(PingMsg(server, dest))
  {
    hide Clean;
    VoidIsField();
    CleanNameIsField(dest);
    WireLength(PingMsg(server, dest));
  }

  /** Pings change nothing but stamps. */
  lemma PingIs(s: System, answered: set<string>, readings: seq<int>)
    requires Inv(s) && Enabled(s, Ping(answered, readings))
    ensures Pinged(s, answered, readings) ==
      s.(reg := s.reg.(ping := Stamped(s.reg.ping, Keys(s.reg.addr.Keys), answered, readings, |readings|)),
         clock := Later(s.clock, readings))
  {
    hide Inv, Broadcast, DeliverAll, Keys, Wire, PingBodies;
    AllAtHomeAlready(s);
    SameClients(s);
    PingsTold(s, Keys(s.reg.addr.Keys));
  }

  lemma PingsTold(s: System, ks: seq<string>)
    requires Inv(s) && AtHome(s.net, s.reg.addr) && Distinct(ks)
    ensures DeliverAll(s.net, Broadcast(ks, s.reg.addr, PingBodies(s.reg.addr, s.server))) == s.net
  {
    hide AtHome, Broadcast, DeliverAll, PingBodies, Told;
    PingsSendable(s);
    BroadcastEffect(s.net, ks, s.reg.addr, PingBodies(s.reg.addr, s.server));
    PingsUnnoticed(s.net, ks, s.reg.addr, s.server);
  }

  lemma PingsSendable(s: System)
    requires Inv(s)
    ensures Sendable(PingBodies(s.reg.addr, s.server))
  {
    hide Deliverable, GoodName, GoodServer, ProcessInv, Consistent;
    forall n | n in s.reg.addr ensures Deliverable(PingMsg(s.server, n)) {
      PingMsgSendable(s.server, n);
    }
  }

  lemma PingsUnnoticed(net: Net, ks: seq<string>, addr: map<string, string>, server: string)
    requires Sendable(PingBodies(addr, server))
    ensures Told(net, ks, addr, PingBodies(addr, server)) == net
  {
    hide Deliverable, Wire;
    assert forall c: ClientState, n :: Down(c, PingMsg(server, n)).0 == c;
  }

  lemma AllAtHomeAlready(s: System)
    requires Inv(s)
    ensures AtHome(s.net, s.reg.addr)
  {
    hide NicknameOf, AddressOf, Record;
    forall e | e in s.net && s.net[e].name in s.reg.addr
      ensures s.reg.addr[s.net[e].name] == Record(s.net[e].nickname, s.net[e].ip, s.net[e].port)
    {
      assert ProcessInv(s, e);
    }
    AllAtHome(s, s.reg.addr);
  }

  lemma StampsKeep(r: Registry, answered: set<string>, readings: seq<int>, clock: int)
    requires Consistent(r) && |r.addr.Keys| == |readings| && Rising(clock, readings)
    requires forall n :: n in r.ping ==> r.ping[n] <= clock
    ensures var ping := Stamped(r.ping, Keys(r.addr.Keys), answered, readings, |readings|);
      ping.Keys == r.ping.Keys && forall n :: n in ping ==> ping[n] <= Later(clock, readings)
  {
    hide Keys, Stamped, SoundEntry, Rising, Later;
    var ks := Keys(r.addr.Keys);
    var ping := Stamped(r.ping, ks, answered, readings, |ks|);
    forall n
      ensures n in ping <==> n in r.ping
      ensures n in ping ==> ping[n] <= Later(clock, readings)
    {
      StampKeeps(r.ping, ks, answered, readings, clock, n);
    }
  }

  lemma StampKeeps(ping: map<string, int>, ks: seq<string>, answered: set<string>, readings: seq<int>, clock: int,
      n: string)
    requires Distinct(ks) && |ks| == |readings| && Rising(clock, readings) && (n in ks ==> n in ping)
    requires n in ping ==> n in ks && ping[n] <= clock
    ensures var after := Stamped(ping, ks, answered, readings, |ks|);
      (n in after <==> n in ping) && (n in after ==> after[n] <= Later(clock, readings))
  {
    hide Stamped;
    assert ks[..|ks|] == ks;
    StampedExact(ping, ks, answered, readings, |ks|, n);
    if n in ping {
      var i :| 0 <= i < |ks| && ks[i] == n;
      LaterBounds(clock, readings, i);
    }
  }

  lemma PingKeeps(s: System, answered: set<string>, readings: seq<int>)
    requires Enabled(s, Ping(answered, readings)) && Inv(s)
    ensures var t := Next(s, Ping(answered, readings));
      Inv(t) && (Sound(s) <==> Sound(t)) && (Agrees(s) <==> Agrees(t)) && (ViewsMatch(s) <==> ViewsMatch(t))
  {
    hide Inv, Pinged, Mirrors, SoundRoster, ViewMatches, Keys, Stamped, DistinctNicks, Later;
    PingIs(s, answered, readings);
    PingKeepsInv(s, answered, readings);
  }

  lemma PingKeepsInv(s: System, answered: set<string>, readings: seq<int>)
    requires Enabled(s, Ping(answered, readings)) && Inv(s)
    ensures Inv(Next(s, Ping(answered, readings)))
  {
    hide Pinged, Record, GoodProcess, GoodNames, Consistent, Keys, Stamped, GoodName, GoodServer, SendText, Rising;
    PingIs(s, answered, readings);
    StampsKeep(s.reg, answered, readings, s.clock);
    var t := Pinged(s, answered, readings);
    OtherStamps(s.reg, t.reg);
    forall e | e in s.net ensures ProcessInv(t, e) { assert ProcessInv(s, e); }
  }

  lemma OtherStamps(r: Registry, q: Registry)
    requires Consistent(r) && q.addr == r.addr && q.nicks == r.nicks && q.ping.Keys == r.ping.Keys
    ensures Consistent(q)
  {
    hide SoundEntry;
    forall n | n in q.addr ensures SoundEntry(q, n) {
      assert SoundEntry(r, n);
      SameEntry(r, q, n);
    }
  }

  lemma SameEntry(r: Registry, q: Registry, n: string)
    requires n in r.addr && n in r.nicks && r.addr == q.addr && r.nicks == q.nicks && SoundEntry(r, n)
    ensures SoundEntry(q, n)
  {
  }

  // ----- text messages

  ghost predicate OneEventMore(s: System, net: Net, f: Endpoint, x: Event) {
    && f in s.net && s.net[f].name in s.reg.addr && !x.ListAdd? && !x.ListRem?
    && net == s.net[f := s.net[f].(events := s.net[f].events + [x])]
  }

  /** A text message only adds one event, at a registered client. */
  lemma TextIs(s: System, e: Endpoint, dest: string, text: string)
    requires Inv(s) && e in s.net
    ensures var net := SendText(s.server, s.reg, s.net, e, dest, text).net;
      net == s.net || exists f, x :: OneEventMore(s, net, f, x)
  {
    hide Wire, Received, Exchange, AddressOf, Answer;
    match TextRequest(s.net[e], dest, text)
    case None =>
    case Some(request) =>
      match Received(Wire(request))
      case None =>
      case Some(m) =>
        if m.serverDest == s.server && m.msgType == SendMessage && Forward(s.reg, s.server, m).Some? {
          var p := Forward(s.reg, s.server, m).value;
          ReceivedSafe(request, m);
          ForwardIs(s, m, p);
        }
  }

  lemma ReceivedSafe(request: Msg, m: Msg)
    requires Received(Wire(request)) == Some(m)
    ensures WireSafe(m)
  {
    ReceivedIsSafe(request, "");
    assert Wire(request) + "" == Wire(request);
  }

  lemma ForwardIs(s: System, m: Msg, p: Packet)
    requires Inv(s) && WireSafe(m) && m.msgType == SendMessage
    requires m.serverDest == s.server && Forward(s.reg, s.server, m) == Some(p)
    ensures var x := Exchange(s.net, p);
      x == None || x.value.0 == s.net || exists f, ev :: OneEventMore(s, x.value.0, f, ev)
  {
    hide Wire, Received, Clean, AddressOf, NicknameOf, Record, Payload;
    VoidIsField();
    assert WireSafe(p.msg);
    WireRoundTrip(p.msg, "");
    assert Wire(p.msg) + "" == Wire(p.msg);
    var f := Endpoint(p.ip, p.port);
    if f in s.net && Received(Wire(p.msg)).Some? {
      assert Received(Wire(p.msg)).value == p.msg;
      var c := s.net[f];
      if p.msg.clientDest != c.name {
        assert s.net[f := c] == s.net;
      } else {
        assert c.name in s.reg.addr;
        var ev := match Payload(p.msg.data) case None => UndefinedEvent case Some(q) => MessageEvent(q.0, q.1);
        assert Down(c, p.msg).0 == c.(events := c.events + [ev]);
        assert Exchange(s.net, p).None? || OneEventMore(s, Exchange(s.net, p).value.0, f, ev);
      }
    }
  }

  lemma TextKeeps(s: System, e: Endpoint, dest: string, text: string)
    requires Enabled(s, Text(e, dest, text)) && Inv(s)
    ensures var t := Next(s, Text(e, dest, text));
      Inv(t) && (Sound(s) <==> Sound(t)) && (Agrees(s) <==> Agrees(t)) && (ViewsMatch(s) <==> ViewsMatch(t))
  {
    hide SendText, Inv, Defined;
    TextIs(s, e, dest, text);
    var net := SendText(s.server, s.reg, s.net, e, dest, text).net;
    if net != s.net {
      var f, x :| OneEventMore(s, net, f, x);
      EventKeeps(s, net, f, x);
    } else {
      assert s.(net := net) == s;
    }
  }

  lemma EventKeeps(s: System, net: Net, f: Endpoint, x: Event)
    requires Inv(s) && OneEventMore(s, net, f, x)
    ensures var t := s.(net := net);
      Inv(t) && (Sound(s) <==> Sound(t)) && (Agrees(s) <==> Agrees(t)) && (ViewsMatch(s) <==> ViewsMatch(t))
  {
    hide GoodRegistry, Mirrors, SoundRoster, DistinctNicks, ViewMatches, Consistent, GoodServer, ProcessInv;
    var t := s.(net := net);
    forall g | g in s.net
      ensures ProcessInv(t, g) && t.net[g].roster == s.net[g].roster && t.net[g].name == s.net[g].name
      ensures ViewMatches(t.net[g]) <==> ViewMatches(s.net[g])
    {
      EventAt(s, net, f, x, g);
    }
  }

  lemma EventAt(s: System, net: Net, f: Endpoint, x: Event, g: Endpoint)
    requires OneEventMore(s, net, f, x) && g in s.net && ProcessInv(s, g)
    ensures var t := s.(net := net);
      && ProcessInv(t, g) && t.net[g].roster == s.net[g].roster && t.net[g].name == s.net[g].name
      && (ViewMatches(t.net[g]) <==> ViewMatches(s.net[g]))
  {
    hide Record, GoodName, CleanName, ViewOf;
    QuietEvent(s.net[f].events, x);
  }

  lemma QuietEvent(events: seq<Event>, x: Event)
    requires !x.ListAdd? && !x.ListRem?
    ensures ViewOf(events + [x]) == ViewOf(events)
  {
    ViewAppend(events, x);
  }

  // ----- starting and stopping processes

  lemma LaunchKeeps(s: System, e: Endpoint, c: ClientState)
    requires Enabled(s, Launch(e, c)) && Inv(s)
    ensures var t := Next(s, Launch(e, c));
      Inv(t) && (Sound(s) <==> Sound(t)) && (Agrees(s) <==> Agrees(t)) && (ViewsMatch(s) <==> ViewsMatch(t))
  {
    hide Record, GoodProcess, GoodRegistry, Mirrors, SoundRoster, ViewMatches, Consistent, GoodServer, SendText;
    var t := Next(s, Launch(e, c));
    forall f | f in s.net ensures ProcessInv(t, f) && t.net[f] == s.net[f] && s.net[f].name != c.name {
      assert ProcessInv(s, f);
    }
    assert ProcessInv(t, e);
  }

  lemma CrashKeeps(s: System, e: Endpoint)
    requires Inv(s) && e in s.net
    ensures var t := Next(s, Crash(e));
      Inv(t) && (Sound(s) ==> Sound(t)) && (Agrees(s) ==> Agrees(t)) && (ViewsMatch(s) ==> ViewsMatch(t))
  {
    hide NicknameOf, AddressOf, Record, GoodProcess, GoodRegistry, Mirrors, ViewMatches, Consistent;
    var t := Next(s, Crash(e));
    forall f | f in t.net ensures ProcessInv(t, f) { assert ProcessInv(s, f); }
  }
}
