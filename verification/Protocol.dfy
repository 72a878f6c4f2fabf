/** The whole system as a state machine: one server, any number of client
    processes, and every step that touches the rosters. */
module Protocol {
  import opened CppString
  import opened KeyOrder
  import opened Messages
  import opened WireFormat
  import opened NodeData
  import opened RosterText
  import opened Registries
  import opened Server
  import opened Client
  import opened Network
  import opened RosterUpdates
  import opened Rosters
  import opened Delivery
  import Decimal

  datatype System = System(
    server: string, reg: Registry, net: Net, clock: int,
    used: set<string>,   // names of all processes so far
    gone: set<string>)   // names the server has removed

  datatype Step =
    | Launch(at: Endpoint, process: ClientState)
    | Crash(at: Endpoint)
    | Join(at: Endpoint, now: int, heard: bool)              // one attempt; heard: the reply arrived
    | Ping(answered: set<string>, readings: seq<int>)
    | Sweep(readings: seq<int>)
    | Sleep(duration: nat)
    | Text(at: Endpoint, dest: string, text: string)

  function Start(server: string): System {
    System(server, EMPTY, map[], 0, {}, {})
  }

  predicate GoodProcess(e: Endpoint, c: ClientState) {
    && c.ip == e.ip && c.port == e.port && c.port < 0x1_0000
    && GoodName(c.name) && GoodName(c.nickname) && CleanName(c.ip)
    && |Record(c.nickname, c.ip, c.port)| < 128
  }

  /** What a launched process must be like: its record fits into 128 bytes. */
  lemma GoodProcessIs(e: Endpoint, c: ClientState)
    ensures GoodProcess(e, c) <==>
      && c.ip == e.ip && c.port == e.port && c.port < 65_536
      && GoodName(c.name) && GoodName(c.nickname) && CleanName(c.ip)
      && |Record(c.nickname, c.ip, c.port)| < 128
  {
  }

  /** Clock readings in the order they are taken, none before the clock. */
  ghost predicate Rising(clock: int, readings: seq<int>) {
    && (forall i :: 0 <= i < |readings| ==> clock <= readings[i])
    && (forall i, j :: 0 <= i < j < |readings| ==> readings[i] <= readings[j])
  }

  function Later(clock: int, readings: seq<int>): int {
    if readings == [] then clock else readings[|readings| - 1]
  }

  function Registered(s: System, e: Endpoint, now: int): Registry
    requires e in s.net
  {
    var c := s.net[e];
    var data := Record(c.nickname, c.ip, c.port);
    if NicknameOf(data).Some? then Register(s.reg, c.name, data, now) else s.reg
  }

  /** What can happen and has a result in the code. A new process has a new name;
      a client tries to register until it has heard the server, and the list
      sent to it fits into a message; a text is one that neither the server nor
      the receiver fails to decode and that is not answered by an error. */
  ghost predicate Enabled(s: System, step: Step) {
    match step
    case Launch(e, c) =>
      && e !in s.net && GoodProcess(e, c) && c.name !in s.used
      && !c.connected && c.roster == map[] && c.events == []
    case Crash(e) => e in s.net
    case Join(e, now, _) =>
      && e in s.net && !s.net[e].connected && now >= s.clock
      && |Wire(ListMsg(s.server, s.net[e].name, Registered(s, e, now).nicks))| <= CONTENT_LIMIT
    case Ping(_, readings) => |readings| == |s.reg.addr.Keys| && Rising(s.clock, readings)
    case Sweep(readings) => |readings| == |s.reg.ping.Keys| && Rising(s.clock, readings)
    case Sleep(_) => true
    case Text(e, dest, text) => e in s.net && Defined(s.net, SendText(s.server, s.reg, s.net, e, dest, text))
  }

  /** Nothing is in the way of a new process, a crash, a sleep, or a ping round
      and a sweep on a clock that stands still, whoever answers. */
  lemma AlwaysPossible(s: System, e: Endpoint, c: ClientState, answered: set<string>, duration: nat)
    requires GoodProcess(e, c) && c == ClientState(c.name, c.nickname, e.ip, e.port, false, c.server, map[], [])
    ensures e !in s.net && c.name !in s.used ==> Enabled(s, Launch(e, c))
    ensures e in s.net ==> Enabled(s, Crash(e))
    ensures Enabled(s, Ping(answered, seq(|s.reg.addr.Keys|, _ => s.clock)))
    ensures Enabled(s, Sweep(seq(|s.reg.ping.Keys|, _ => s.clock)))
    ensures Enabled(s, Sleep(duration))
  {
  }

  /** The reply to a registration reaches the client. */
  function Hear(net: Net, e: Endpoint, reply: Msg): Net
    requires e in net
  {
    match Received(Wire(reply))
    case None => net
    case Some(r) =>
      if r.msgType == ErrorType then net else net[e := net[e].(connected := true, server := r.serverSrc)]
  }

  function Joined(s: System, e: Endpoint, now: int, heard: bool): System
    requires e in s.net
  {
    match Received(Wire(ConnectRequest(s.net[e])))
    case None => s
    case Some(m) =>
      if m.msgType == AddClient && NicknameOf(m.data).None? then s
      else
        var (reg, updates) := DownEffect(s.reg, s.server, m, now);
        var net := if heard then Hear(s.net, e, AddReply(s.server, m)) else s.net;
        s.(reg := reg, net := DeliverAll(net, updates), clock := now)
  }

  function Pinged(s: System, answered: set<string>, readings: seq<int>): System
    requires |s.reg.addr.Keys| <= |readings|
  {
    var ks := Keys(s.reg.addr.Keys);
    s.(reg := s.reg.(ping := Stamped(s.reg.ping, ks, answered, readings, |ks|)),
       net := DeliverAll(s.net, Broadcast(ks, s.reg.addr, PingBodies(s.reg.addr, s.server))),
       clock := Later(s.clock, readings))
  }

  /** The sweep after k checks. */
  function SweptTo(s: System, readings: seq<int>, k: nat): System
    requires |s.reg.ping.Keys| <= |readings| && k <= |s.reg.ping.Keys|
  {
    var (reg, sent) := SweepFrom(s.reg, s.server, Keys(s.reg.ping.Keys), readings, k);
    s.(reg := reg, net := DeliverAll(s.net, sent), gone := s.gone + (s.reg.addr.Keys - reg.addr.Keys))
  }

  function Swept(s: System, readings: seq<int>): System
    requires |s.reg.ping.Keys| <= |readings|
  {
    SweptTo(s, readings, |s.reg.ping.Keys|).(clock := Later(s.clock, readings))
  }

  function Next(s: System, step: Step): System
    requires Enabled(s, step)
  {
    match step
    case Launch(e, c) => s.(net := s.net[e := c], used := s.used + {c.name})
    case Crash(e) => s.(net := s.net - {e})
    case Join(e, now, heard) => Joined(s, e, now, heard)
    case Ping(answered, readings) => Pinged(s, answered, readings)
    case Sweep(readings) => Swept(s, readings)
    case Sleep(duration) => s.(clock := s.clock + duration)
    case Text(e, dest, text) => s.(net := SendText(s.server, s.reg, s.net, e, dest, text).net)
  }

  ghost predicate IsRun(s: System, steps: seq<Step>)
    decreases |steps|
  {
    steps == [] || (Enabled(s, steps[0]) && IsRun(Next(s, steps[0]), steps[1..]))
  }

  ghost function Run(s: System, steps: seq<Step>): System
    requires IsRun(s, steps)
    decreases |steps|
  {
    if steps == [] then s else Run(Next(s, steps[0]), steps[1..])
  }

  // ----- invariants

  ghost predicate ProcessInv(s: System, e: Endpoint)
    requires e in s.net
  {
    var c := s.net[e];
    && GoodProcess(e, c) && c.name in s.used
    && (c.connected ==> c.server == s.server)
    && (c.name in s.reg.addr ==> s.reg.addr[c.name] == Record(c.nickname, c.ip, c.port))
    && (c.name !in s.reg.addr && c.name !in s.gone ==> c.roster == map[] && c.events == [])
  }

  /** Holds in every reachable state. */
  ghost predicate Inv(s: System) {
    && GoodServer(s.server)
    && Consistent(s.reg) && GoodRegistry(s.reg)
    && s.reg.addr.Keys <= s.used && s.gone <= s.used
    && (forall n :: n in s.reg.ping ==> s.reg.ping[n] <= s.clock)
    && (forall e :: e in s.net ==> ProcessInv(s, e))
    && (forall e, f :: e in s.net && f in s.net && s.net[e].name == s.net[f].name ==> e == f)
  }

  /** No registered client that runs has a wrong entry. */
  ghost predicate Sound(s: System) {
    forall e :: e in s.net && s.net[e].name in s.reg.addr ==> SoundRoster(s.net[e].roster, s.reg.nicks)
  }

  /** Every registered client that runs has the inverse of the server's map. */
  ghost predicate Agrees(s: System) {
    && DistinctNicks(s.reg.nicks)
    && forall e :: e in s.net && s.net[e].name in s.reg.addr ==> Mirrors(s.net[e].roster, s.reg.nicks)
  }

  /** The view of every registered client that runs lists its roster. */
  ghost predicate ViewsMatch(s: System) {
    forall e :: e in s.net && s.net[e].name in s.reg.addr ==> ViewMatches(s.net[e])
  }

  lemma RegisteredAtHome(s: System, e: Endpoint)
    requires Inv(s) && e in s.net
    ensures var c := s.net[e];
      var data := Record(c.nickname, c.ip, c.port);
      && NicknameOf(data) == Some(c.nickname) && AddressOf(data) == Address(e.ip, e.port)
      && (c.name in s.reg.addr ==> c.name in s.reg.nicks && s.reg.nicks[c.name] == c.nickname)
  {
    hide NicknameOf, AddressOf, Record;
    var c := s.net[e];
    assert ProcessInv(s, e);
    CleanNameIs(c.nickname);
    CleanNameIs(c.ip);
    RecordSafeIs(c.nickname);
    RecordSafeIs(c.ip);
    RecordRoundTrip(c.nickname, c.ip, c.port);
    if c.name in s.reg.addr { assert SoundEntry(s.reg, c.name); }
  }

  lemma AllAtHome(s: System, addr: map<string, string>)
    requires Inv(s)
    requires forall n :: n in s.reg.addr && n in addr ==> addr[n] == s.reg.addr[n]
    requires forall e :: e in s.net && s.net[e].name in addr ==>
      addr[s.net[e].name] == Record(s.net[e].nickname, s.net[e].ip, s.net[e].port)
    ensures AtHome(s.net, addr)
  {
    hide AddressOf, NicknameOf, Record;
    forall e | e in s.net && s.net[e].name in addr
      ensures AddressOf(addr[s.net[e].name]) == Address(e.ip, e.port)
    {
      RegisteredAtHome(s, e);
    }
  }

  // ----- joining, step by step over the wire

  lemma RecordChars(c: ClientState, e: Endpoint)
    requires GoodProcess(e, c)
    ensures CleanField(Record(c.nickname, c.ip, c.port))
  {
    CleanNameIs(c.nickname);
    CleanNameIs(c.ip);
    CleanIs(Record(c.nickname, c.ip, c.port));
    forall x | x in Decimal.Print(c.port) ensures x != '-' && x != '|' && x != NUL {
    }
  }

  lemma RequestArrives(c: ClientState, e: Endpoint)
    requires GoodProcess(e, c)
    ensures Received(Wire(ConnectRequest(c))) == Some(ConnectRequest(c))
  {
    hide Clean, Record, Wire, Received;
    RecordChars(c, e);
    VoidIsField();
    CleanNameIsField(c.name);
    WireLength(ConnectRequest(c));
    Arrives(ConnectRequest(c));
  }

  lemma ReplyArrives(server: string, c: ClientState, e: Endpoint)
    requires GoodProcess(e, c) && GoodServer(server)
    ensures Received(Wire(AddReply(server, ConnectRequest(c)))) == Some(AddReply(server, ConnectRequest(c)))
  {
    hide Clean, Record, Wire, Received;
    RecordChars(c, e);
    VoidIsField();
    CleanNameIsField(c.name);
    WireLength(AddReply(server, ConnectRequest(c)));
    Arrives(AddReply(server, ConnectRequest(c)));
  }

  /** The processes once the reply is heard or lost. */
  function AfterReply(s: System, e: Endpoint, heard: bool): Net
    requires e in s.net
  {
    if heard then s.net[e := s.net[e].(connected := true, server := s.server)] else s.net
  }

  /** One attempt to register, in terms of maps only. */
  lemma JoinIs(s: System, e: Endpoint, now: int, heard: bool)
    requires Inv(s) && Enabled(s, Join(e, now, heard))
    ensures var r := Registered(s, e, now);
      var net := AfterReply(s, e, heard);
      && r.addr == Insert(s.reg.addr, s.net[e].name, Record(s.net[e].nickname, s.net[e].ip, s.net[e].port))
      && r.ping == Insert(s.reg.ping, s.net[e].name, now)
      && r.nicks == Insert(s.reg.nicks, s.net[e].name, s.net[e].nickname)
      && Consistent(r) && GoodRegistry(r)
      && Joined(s, e, now, heard) ==
           s.(reg := r, clock := now, net := map f | f in net :: AfterAdd(net[f], r, s.net[e].name, s.net[e].nickname))
  {
    hide NicknameOf, AddressOf, Record, Wire, Received, AddUpdates, DeliverAll, Clean, AfterAdd, Consistent,
        GoodRegistry;
    var c, net := s.net[e], AfterReply(s, e, heard);
    var data := Record(c.nickname, c.ip, c.port);
    assert ProcessInv(s, e);
    RegisteredAtHome(s, e);
    JoinOverWire(s, e, now, heard);
    var r := Registered(s, e, now);
    RegisterKeeps(s.reg, c.name, data, now);
    RegisterNames(s.reg, c.name, data, now);
    JoinHome(s, e, now, heard);
    AddEffect(net, r, s.server, c.name, data);
  }

  /** A client that has not heard the server can try again exactly when the list
      it would be sent arrives as it was written. */
  lemma JoinPossibleIff(s: System, e: Endpoint, now: int, heard: bool)
    requires Inv(s) && e in s.net && !s.net[e].connected && now >= s.clock
    ensures var list := ListMsg(s.server, s.net[e].name, Registered(s, e, now).nicks);
      Enabled(s, Join(e, now, heard)) <==> Received(Wire(list)) == Some(list)
  {
    hide Wire, Received, Registered, Consistent, NicknameOf, AddressOf, Record;
    var list := ListMsg(s.server, s.net[e].name, Registered(s, e, now).nicks);
    assert Wire(list) + "" == Wire(list);
    WireRoundTrip(list, "");
    if Enabled(s, Join(e, now, heard)) {
      JoinIs(s, e, now, heard);
      assert ProcessInv(s, e);
      ListMsgSendable(s.server, s.net[e].name, Registered(s, e, now).nicks);
    }
  }

  /** The clock after each step is the last reading taken in it. */
  lemma ClockIs(s: System, step: Step)
    requires Enabled(s, step) && Inv(s)
    ensures var t := Next(s, step);
      match step
      case Join(_, now, _) => t.clock == now
      case Ping(_, readings) => t.clock == if readings == [] then s.clock else readings[|readings| - 1]
      case Sweep(readings) => t.clock == if readings == [] then s.clock else readings[|readings| - 1]
      case Sleep(duration) => t.clock == s.clock + duration
      case _ => t.clock == s.clock
  {
    hide Inv, Joined, SendText, Defined, Registered, Wire, SweptTo, Rising;
    if step.Join? { JoinIs(s, step.at, step.now, step.heard); }
  }

  /** Request and reply arrive as they were sent. */
  lemma JoinOverWire(s: System, e: Endpoint, now: int, heard: bool)
    requires e in s.net && GoodProcess(e, s.net[e]) && GoodServer(s.server)
    requires NicknameOf(Record(s.net[e].nickname, s.net[e].ip, s.net[e].port)).Some?
    ensures var c := s.net[e];
      var data := Record(c.nickname, c.ip, c.port);
      Joined(s, e, now, heard) ==
        s.(reg := Registered(s, e, now), clock := now,
           net := DeliverAll(AfterReply(s, e, heard), AddUpdates(Registered(s, e, now), s.server, c.name, data)))
  {
    hide NicknameOf, Record, Wire, Received, AddUpdates, DeliverAll, Clean;
    RequestArrives(s.net[e], e);
    ReplyArrives(s.server, s.net[e], e);
  }

  lemma RegisterNames(r: Registry, name: string, data: string, now: int)
    requires GoodRegistry(r) && GoodName(name) && NicknameOf(data).Some? && GoodName(NicknameOf(data).value)
    ensures GoodRegistry(Register(r, name, data, now))
  {
    hide NicknameOf, Clean;
  }

  lemma JoinHome(s: System, e: Endpoint, now: int, heard: bool)
    requires Inv(s) && e in s.net
    ensures AtHome(AfterReply(s, e, heard), Registered(s, e, now).addr)
  {
    hide NicknameOf, AddressOf, Record;
    var c, r, net := s.net[e], Registered(s, e, now), AfterReply(s, e, heard);
    RegisteredAtHome(s, e);
    forall f | f in s.net && s.net[f].name in r.addr
      ensures r.addr[s.net[f].name] == Record(s.net[f].nickname, s.net[f].ip, s.net[f].port)
    {
      assert ProcessInv(s, f);
      if s.net[f].name == c.name { assert f == e; }
    }
    AllAtHome(s, r.addr);
    assert forall f :: f in net ==> net[f].name == s.net[f].name;
  }

  // ----- each kind of step keeps the invariant

  lemma AfterAddKeeps(c: ClientState, r: Registry, src: string, nick: string)
    ensures AfterAdd(c, r, src, nick)
        == c.(roster := AfterAdd(c, r, src, nick).roster, events := AfterAdd(c, r, src, nick).events)
  {
    hide Entries;
    AddEntriesKeeps(c, Entries(r.nicks));
    AddEntriesKeeps(c, [(nick, src)]);
  }

  lemma JoinKeepsProcess(s: System, e: Endpoint, now: int, heard: bool, f: Endpoint)
    requires Enabled(s, Join(e, now, heard)) && Inv(s) && f in s.net
    ensures f in Joined(s, e, now, heard).net && ProcessInv(Joined(s, e, now, heard), f)
    ensures Joined(s, e, now, heard).net[f].name == s.net[f].name
  {
    hide Inv, NicknameOf, Record, AfterAdd, Joined, Registered, GoodName, CleanName, Consistent, GoodRegistry, Wire;
    JoinIs(s, e, now, heard);
    var c, r := s.net[e], Registered(s, e, now);
    EachInv(s, e);
    EachInv(s, f);
    AfterAddKeeps(AfterReply(s, e, heard)[f], r, c.name, c.nickname);
    if s.net[f].name !in r.addr {
      NotRegisteredUntouched(s.net[f], r, c.name, c.nickname);
    }
    if s.net[e].name == s.net[f].name { OneProcess(s, e, f); }
  }

  lemma EachInv(s: System, e: Endpoint)
    requires Inv(s) && e in s.net
    ensures ProcessInv(s, e)
  {
    hide ProcessInv;
  }

  lemma OneProcess(s: System, e: Endpoint, f: Endpoint)
    requires Inv(s) && e in s.net && f in s.net && s.net[e].name == s.net[f].name
    ensures e == f
  {
    hide ProcessInv;
  }

  lemma JoinKeepsInv(s: System, e: Endpoint, now: int, heard: bool)
    requires Enabled(s, Join(e, now, heard)) && Inv(s)
    ensures Inv(Joined(s, e, now, heard))
  {
    hide NicknameOf, Record, AfterAdd, Joined, Registered, Consistent, GoodRegistry, Wire, ProcessInv, GoodServer,
        SendText;
    JoinIs(s, e, now, heard);
    var t := Joined(s, e, now, heard);
    JoinerUsed(s, e);
    JoinStamps(s, e, now);
    forall f | f in t.net ensures f in s.net && ProcessInv(t, f) && t.net[f].name == s.net[f].name {
      JoinKeepsProcess(s, e, now, heard, f);
    }
  }

  lemma JoinStamps(s: System, e: Endpoint, now: int)
    requires Inv(s) && e in s.net && now >= s.clock
    ensures forall n :: n in Insert(s.reg.ping, s.net[e].name, now) ==> Insert(s.reg.ping, s.net[e].name, now)[n] <= now
  {
    hide ProcessInv;
  }

  lemma JoinerUsed(s: System, e: Endpoint)
    requires Inv(s) && e in s.net
    ensures s.net[e].name in s.used
  {
    assert ProcessInv(s, e);
  }

  lemma NotRegisteredUntouched(c: ClientState, r: Registry, src: string, nick: string)
    requires c.name !in r.addr
    ensures AfterAdd(c, r, src, nick) == c
  {
  }

  /** Removing one client: the broadcast, then the three erasures. */
  function Removed(s: System, n: string): System {
    s.(reg := Unregister(s.reg, n), net := DeliverAll(s.net, RemUpdates(s.reg, s.server, n)), gone := s.gone + {n})
  }

  lemma RemoveIs(s: System, n: string)
    requires Inv(s) && n in s.reg.addr
    ensures Removed(s, n).net == map e | e in s.net :: AfterRem(s.net[e], s.reg, n)
  {
    hide AddressOf, NicknameOf, Record, DeliverAll, RemUpdates, AfterRem;
    forall e | e in s.net && s.net[e].name in s.reg.addr
      ensures s.reg.addr[s.net[e].name] == Record(s.net[e].nickname, s.net[e].ip, s.net[e].port)
    {
      assert ProcessInv(s, e);
    }
    AllAtHome(s, s.reg.addr);
    RemEffect(s.net, s.reg, s.server, n);
  }

  lemma RemoveKeepsInv(s: System, n: string)
    requires Inv(s) && n in s.reg.addr
    ensures Inv(Removed(s, n))
  {
    hide NicknameOf, AddressOf, Record, DeliverAll, RemUpdates, RemEntry, Clean;
    RemoveIs(s, n);
    UnregisterKeeps(s.reg, n);
    var t := Removed(s, n);
    forall e | e in s.net ensures ProcessInv(t, e) && t.net[e].name == s.net[e].name {
      assert ProcessInv(s, e);
      RemEntryKeeps(s.net[e], n);
    }
  }

  lemma RemoveKeepsRosters(s: System, n: string)
    requires Inv(s) && n in s.reg.addr && Sound(s)
    ensures Sound(Removed(s, n))
    ensures Agrees(s) ==> Agrees(Removed(s, n))
    ensures ViewsMatch(s) ==> ViewsMatch(Removed(s, n))
  {
    hide NicknameOf, AddressOf, Record, DeliverAll, RemUpdates, RemEntry, Clean, Mirrors, ViewMatches;
    RemoveIs(s, n);
    var t := Removed(s, n);
    forall e | e in s.net && t.net[e].name in t.reg.addr
      ensures s.net[e].name in s.reg.addr && s.net[e].name != n && t.net[e] == RemEntry(s.net[e], n)
    {
      RemEntryKeeps(s.net[e], n);
    }
    forall e | e in s.net && t.net[e].name in t.reg.addr
      ensures SoundRoster(t.net[e].roster, t.reg.nicks)
      ensures Agrees(s) ==> Mirrors(t.net[e].roster, t.reg.nicks)
      ensures ViewsMatch(s) ==> ViewMatches(t.net[e])
    {
      RemRoster(s.net[e], n, s.reg.nicks);
      KeysFit(s, e);
      if ViewMatches(s.net[e]) { RemKeepsView(s.net[e], n); }
    }
  }

  /** The keys of a sound roster are nicknames the server has. */
  lemma KeysFit(s: System, e: Endpoint)
    requires Inv(s) && Sound(s) && e in s.net && s.net[e].name in s.reg.addr
    ensures forall k :: k in s.net[e].roster ==> FitsEvent(k)
  {
    hide NicknameOf, AddressOf;
    forall k | k in s.net[e].roster ensures FitsEvent(k) {
      var n := s.net[e].roster[k];
      assert GoodName(s.reg.nicks[n]);
      CleanNameIs(s.reg.nicks[n]);
    }
  }
}
