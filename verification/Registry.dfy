/** The server's three maps as a value, and what each server operation does to
    them and sends. */
module Registries {
  import opened CppString
  import opened KeyOrder
  import opened Messages
  import opened NodeData
  import opened RosterText

  /** clientNameToIPMap, clientPingList and clientNicknameToName (which maps
      names to nicknames), all keyed by client name. */
  datatype Registry = Registry(addr: map<string, string>, ping: map<string, int>, nicks: map<string, string>)

  /** A message and the address `Send` is called with. */
  datatype Packet = Packet(ip: string, port: nat, msg: Msg)

  const EMPTY: Registry := Registry(map[], map[], map[])

  /** 5 * 1E9 nanoseconds. */
  const PING_LIMIT: int := 5_000_000_000

  /** `std::map::insert`: an existing entry stays. */
  function Insert<V>(m: map<string, V>, k: string, v: V): map<string, V> {
    if k in m then m else m[k := v]
  }

  // ----- executeAddClient, removeClient

  function Register(r: Registry, src: string, data: string, now: int): Registry
    requires NicknameOf(data).Some?
  {
    Registry(Insert(r.addr, src, data), Insert(r.ping, src, now), Insert(r.nicks, src, NicknameOf(data).value))
  }

  function Unregister(r: Registry, n: string): Registry {
    Registry(r.addr - {n}, r.ping - {n}, r.nicks - {n})
  }

  // ----- broadcasts

  function PacketTo(address: string, m: Msg): seq<Packet> {
    match AddressOf(address)
    case Address(ip, port) => [Packet(ip, port, m)]
    case _ => []
  }

  /** One message to each of the listed clients that has one coming, in order. */
  function Broadcast(ks: seq<string>, addr: map<string, string>, bodies: map<string, Msg>): seq<Packet> {
    if ks == [] then []
    else
      var n := ks[|ks| - 1];
      Broadcast(ks[..|ks| - 1], addr, bodies) + Turn(n, addr, bodies)
  }

  /** What one turn of a broadcast loop sends. */
  function Turn(n: string, addr: map<string, string>, bodies: map<string, Msg>): seq<Packet> {
    if n in addr && n in bodies then PacketTo(addr[n], bodies[n]) else []
  }

  lemma BroadcastEnds(ks: seq<string>, addr: map<string, string>, bodies: map<string, Msg>)
    ensures Broadcast(ks[..0], addr, bodies) == []
    ensures Broadcast(ks[..|ks|], addr, bodies) == Broadcast(ks, addr, bodies)
  {
    assert ks[..|ks|] == ks;
  }

  lemma BroadcastTurn(ks: seq<string>, i: nat, addr: map<string, string>, bodies: map<string, Msg>)
    requires i < |ks|
    ensures Broadcast(ks[..i + 1], addr, bodies) == Broadcast(ks[..i], addr, bodies) + Turn(ks[i], addr, bodies)
  {
    assert ks[..i + 1][..i] == ks[..i];
  }

  function EntryMsg(server: string, dest: string, nick: string, name: string): Msg {
    Msg(UpdateAddClients, VOID, dest, server, VOID, ListText([(nick, name)]), Normal)
  }

  function ListMsg(server: string, dest: string, nicks: map<string, string>): Msg {
    Msg(UpdateAddClients, VOID, dest, server, VOID, ListText(Entries(nicks)), Normal)
  }

  function RemMsg(server: string, dest: string, gone: string): Msg {
    Msg(UpdateRemClients, VOID, dest, server, VOID, gone, Normal)
  }

  function PingMsg(server: string, dest: string): Msg {
    Msg(PingClient, VOID, dest, server, VOID, VOID, Normal)
  }

  /** To the joiner the whole list, to everyone else the new entry. */
  function AddBodies(r: Registry, server: string, src: string, data: string): map<string, Msg>
    requires NicknameOf(data).Some?
  {
    map n | n in r.addr ::
      if n == src then ListMsg(server, src, r.nicks) else EntryMsg(server, n, NicknameOf(data).value, src)
  }

  function AddUpdates(r: Registry, server: string, src: string, data: string): seq<Packet>
    requires NicknameOf(data).Some?
  {
    Broadcast(Keys(r.addr.Keys), r.addr, AddBodies(r, server, src, data))
  }

  function RemBodies(r: Registry, server: string, gone: string): map<string, Msg> {
    map n | n in r.addr && n != gone :: RemMsg(server, n, gone)
  }

  function RemUpdates(r: Registry, server: string, gone: string): seq<Packet> {
    Broadcast(Keys(r.addr.Keys), r.addr, RemBodies(r, server, gone))
  }

  function PingBodies(addr: map<string, string>, server: string): map<string, Msg> {
    map n | n in addr :: PingMsg(server, n)
  }

  // ----- the ping thread

  /** The ping list after the first k clients of ks have been pinged; an
      answering client is stamped with the clock reading of its turn. */
  function Stamped(ping: map<string, int>, ks: seq<string>, answered: set<string>, readings: seq<int>,
      k: nat): map<string, int>
    requires k <= |ks| && |ks| <= |readings|
  {
    if k == 0 then ping
    else
      var before := Stamped(ping, ks, answered, readings, k - 1);
      if ks[k - 1] in answered then before[ks[k - 1] := readings[k - 1]] else before
  }

  lemma StampedStart(ping: map<string, int>, ks: seq<string>, answered: set<string>, readings: seq<int>)
    requires |ks| <= |readings|
    ensures Stamped(ping, ks, answered, readings, 0) == ping
  {
  }

  lemma StampedTurn(ping: map<string, int>, ks: seq<string>, answered: set<string>, readings: seq<int>, i: nat)
    requires i < |ks| && |ks| <= |readings|
    ensures var before := Stamped(ping, ks, answered, readings, i);
      Stamped(ping, ks, answered, readings, i + 1) == if ks[i] in answered then before[ks[i] := readings[i]] else before
  {
  }

  /** Registry and packets after the sweep has checked the first k names. */
  function SweepFrom(r: Registry, server: string, ks: seq<string>, readings: seq<int>, k: nat): (Registry, seq<Packet>)
    requires k <= |ks| && |ks| <= |readings|
  {
    if k == 0 then (r, [])
    else
      var (q, sent) := SweepFrom(r, server, ks, readings, k - 1);
      var n := ks[k - 1];
      if n in q.ping && readings[k - 1] - q.ping[n] > PING_LIMIT
      then (Unregister(q, n), sent + RemUpdates(q, server, n))
      else (q, sent)
  }

  lemma SweepStart(r: Registry, server: string, ks: seq<string>, readings: seq<int>)
    requires |ks| <= |readings|
    ensures SweepFrom(r, server, ks, readings, 0) == (r, [])
  {
  }

  lemma SweepTurn(r: Registry, server: string, ks: seq<string>, readings: seq<int>, i: nat)
    requires i < |ks| && |ks| <= |readings|
    ensures var (q, sent) := SweepFrom(r, server, ks, readings, i);
      SweepFrom(r, server, ks, readings, i + 1) ==
        if ks[i] in q.ping && readings[i] - q.ping[ks[i]] > PING_LIMIT
        then (Unregister(q, ks[i]), sent + RemUpdates(q, server, ks[i]))
        else (q, sent)
  {
  }

  /** The clients whose check finds them silent for too long. */
  function Expired(ping: map<string, int>, ks: seq<string>, readings: seq<int>, k: nat): set<string>
    requires k <= |ks| && |ks| <= |readings|
  {
    set i | 0 <= i < k && ks[i] in ping && readings[i] - ping[ks[i]] > PING_LIMIT :: ks[i]
  }

  /** In nanoseconds: a client is gone if its check reads a clock more than
      5e9 past its stamp. */
  lemma ExpiredIff(ping: map<string, int>, ks: seq<string>, readings: seq<int>, k: nat, i: nat)
    requires i < k <= |ks| && |ks| <= |readings| && Distinct(ks) && ks[i] in ping
    ensures ks[i] in Expired(ping, ks, readings, k) <==> readings[i] - ping[ks[i]] > 5_000_000_000
  {
  }

  // ----- consistency

  /** The same clients everywhere, each with a usable address and with the
      nickname its address carries. */
  ghost predicate Consistent(r: Registry) {
    && r.addr.Keys == r.ping.Keys == r.nicks.Keys
    && forall n :: n in r.addr ==> SoundEntry(r, n)
  }

  ghost predicate SoundEntry(r: Registry, n: string)
    requires n in r.addr && n in r.nicks
  {
    AddressOf(r.addr[n]).Address? && NicknameOf(r.addr[n]) == Some(r.nicks[n])
  }

  lemma RegisterKeeps(r: Registry, src: string, data: string, now: int)
    requires Consistent(r) && AddressOf(data).Address?
    ensures Consistent(Register(r, src, data, now))
    ensures forall n :: n in r.addr ==> Register(r, src, data, now).addr[n] == r.addr[n]
  {
    hide NicknameOf, AddressOf;
    var q := Register(r, src, data, now);
    forall n | n in q.addr ensures SoundEntry(q, n) {
      if n in r.addr { assert SoundEntry(r, n); }
    }
  }

  lemma UnregisterKeeps(r: Registry, n: string)
    requires Consistent(r)
    ensures Consistent(Unregister(r, n))
  {
    var q := Unregister(r, n);
    forall m | m in q.addr ensures SoundEntry(q, m) { assert SoundEntry(r, m); }
  }

  /** The sweep removes exactly the expired clients, from all three maps, and
      leaves every other entry as it was. */
  lemma {:induction false} SweepExact(r: Registry, server: string, ks: seq<string>, readings: seq<int>, k: nat)
    requires Consistent(r) && k <= |ks| && |ks| <= |readings| && Distinct(ks)
    ensures var q := SweepFrom(r, server, ks, readings, k).0;
      var gone := Expired(r.ping, ks, readings, k);
      && q == Registry(r.addr - gone, r.ping - gone, r.nicks - gone)
      && Consistent(q)
  {
    hide Consistent, RemUpdates, Expired, Distinct;
    if k == 0 {
      NoneExpired(r.ping, ks, readings);
      assert r == Without(r, {});
    } else {
      SweepExact(r, server, ks, readings, k - 1);
      NotYetExpired(r.ping, ks, readings, k);
      ExpiredStep(r.ping, ks, readings, k);
      var gone, n := Expired(r.ping, ks, readings, k - 1), ks[k - 1];
      UnregisterKeeps(Without(r, gone), n);
      OneMoreGone(r, gone, n);
    }
  }

  /** The registry without these clients. */
  function Without(r: Registry, gone: set<string>): Registry {
    Registry(r.addr - gone, r.ping - gone, r.nicks - gone)
  }

  lemma OneMoreGone(r: Registry, gone: set<string>, n: string)
    ensures Unregister(Without(r, gone), n) == Without(r, gone + {n})
    ensures Without(r, gone + {}) == Without(r, gone)
    ensures n !in gone ==> (n in Without(r, gone).ping <==> n in r.ping)
    ensures n !in gone && n in r.ping ==> Without(r, gone).ping[n] == r.ping[n]
  {
  }

  /** The same, check by check. */
  lemma SweepSpares(r: Registry, server: string, ks: seq<string>, readings: seq<int>, k: nat, i: nat)
    requires Consistent(r) && k <= |ks| && |ks| <= |readings| && Distinct(ks) && i < k && ks[i] in r.ping
    ensures var q := SweepFrom(r, server, ks, readings, k).0;
      && (ks[i] in q.addr <==> readings[i] - r.ping[ks[i]] <= 5_000_000_000)
      && (ks[i] in q.ping <==> ks[i] in q.addr) && (ks[i] in q.nicks <==> ks[i] in q.addr)
  {
    hide SoundEntry, SweepFrom, Expired, Distinct;
    SweepExact(r, server, ks, readings, k);
    ExpiredIff(r.ping, ks, readings, k, i);
  }

  lemma SweepShrinks(r: Registry, server: string, ks: seq<string>, readings: seq<int>, k: nat)
    requires Consistent(r) && k <= |ks| && |ks| <= |readings| && Distinct(ks)
    ensures Consistent(SweepFrom(r, server, ks, readings, k).0)
    ensures SweepFrom(r, server, ks, readings, k).0.addr.Keys <= r.addr.Keys
  {
    hide Expired, SoundEntry, SweepFrom;
    SweepExact(r, server, ks, readings, k);
  }

  lemma NoneExpired(ping: map<string, int>, ks: seq<string>, readings: seq<int>)
    requires |ks| <= |readings|
    ensures Expired(ping, ks, readings, 0) == {}
  {
  }

  lemma ExpiredStep(ping: map<string, int>, ks: seq<string>, readings: seq<int>, k: nat)
    requires 0 < k <= |ks| && |ks| <= |readings|
    ensures Expired(ping, ks, readings, k) == Expired(ping, ks, readings, k - 1) +
      if ks[k - 1] in ping && readings[k - 1] - ping[ks[k - 1]] > PING_LIMIT then {ks[k - 1]} else {}
  {
  }

  // ----- who is told what

  /** Bodies addressed to the client they are for. */
  ghost predicate Addressed(bodies: map<string, Msg>) {
    forall n :: n in bodies ==> bodies[n].clientDest == n
  }

  lemma {:induction false} BroadcastCount(ks: seq<string>, addr: map<string, string>, bodies: map<string, Msg>,
      p: Packet)
    requires Distinct(ks) && Addressed(bodies)
    ensures multiset(Broadcast(ks, addr, bodies))[p] ==
      if p.msg.clientDest in ks && Meant(addr, bodies, p) then 1 else 0
  {
    if ks != [] {
      var init, last := ks[..|ks| - 1], ks[|ks| - 1];
      assert Broadcast(ks, addr, bodies) == Broadcast(init, addr, bodies) + Turn(last, addr, bodies);
      hide Turn, Broadcast, Meant, Distinct;
      LastOfDistinct(ks);
      BroadcastCount(init, addr, bodies, p);
      TurnCount(last, addr, bodies, p);
      CountBoth(Broadcast(init, addr, bodies), Turn(last, addr, bodies), p);
    }
  }

  /** p is the packet for its addressee. */
  predicate Meant(addr: map<string, string>, bodies: map<string, Msg>, p: Packet) {
    var n := p.msg.clientDest;
    n in addr && n in bodies && PacketTo(addr[n], bodies[n]) == [p]
  }

  lemma LastOfDistinct(ks: seq<string>)
    requires ks != [] && Distinct(ks)
    ensures var init, last := ks[..|ks| - 1], ks[|ks| - 1];
      Distinct(init) && last !in init && forall k :: k in ks <==> k in init || k == last
  {
    assert ks == ks[..|ks| - 1] + [ks[|ks| - 1]];
  }

  lemma CountBoth<T>(a: seq<T>, b: seq<T>, x: T)
    ensures multiset(a + b)[x] == multiset(a)[x] + multiset(b)[x]
  {
  }

  lemma TurnCount(n: string, addr: map<string, string>, bodies: map<string, Msg>, p: Packet)
    requires n in bodies ==> bodies[n].clientDest == n
    ensures multiset(Turn(n, addr, bodies))[p] == if n == p.msg.clientDest && Meant(addr, bodies, p) then 1 else 0
  {
    hide AddressOf;
  }

  /** Every survivor is told of every removed client exactly once, and of
      nobody else. */
  lemma {:induction false} SweepTellsOnce(r: Registry, server: string, ks: seq<string>, readings: seq<int>, k: nat,
      s: string, g: string)
    requires Consistent(r) && k <= |ks| && |ks| <= |readings| && Distinct(ks)
    requires s in r.addr && s !in Expired(r.ping, ks, readings, k)
    ensures var a := AddressOf(r.addr[s]);
      && a.Address?
      && multiset(SweepFrom(r, server, ks, readings, k).1)[Packet(a.ip, a.port, RemMsg(server, s, g))] ==
           if g in Expired(r.ping, ks, readings, k) then 1 else 0
  {
    hide NicknameOf, AddressOf, RemUpdates, Expired;
    assert SoundEntry(r, s);
    if k == 0 {
      NoneExpired(r.ping, ks, readings);
    } else {
      ExpiredStep(r.ping, ks, readings, k);
      SweepTellsOnce(r, server, ks, readings, k - 1, s, g);
      SweepExact(r, server, ks, readings, k - 1);
      var (q, sent) := SweepFrom(r, server, ks, readings, k - 1);
      var n := ks[k - 1];
      NotYetExpired(r.ping, ks, readings, k);
      if n in q.ping && readings[k - 1] - q.ping[n] > PING_LIMIT {
        RemovalTold(q, server, n, s, g);
      }
    }
  }

  lemma NotYetExpired(ping: map<string, int>, ks: seq<string>, readings: seq<int>, k: nat)
    requires 0 < k <= |ks| && |ks| <= |readings| && Distinct(ks)
    ensures ks[k - 1] !in Expired(ping, ks, readings, k - 1)
  {
  }

  /** A ping round pings each registered client exactly once, at its address. */
  lemma PingedOnce(addr: map<string, string>, server: string, n: string)
    requires n in addr && AddressOf(addr[n]).Address?
    ensures var a := AddressOf(addr[n]);
      multiset(Broadcast(Keys(addr.Keys), addr, PingBodies(addr, server)))[
        Packet(a.ip, a.port, Msg(PingClient, " ", n, server, " ", " ", Normal))] == 1
  {
    hide AddressOf, Keys, Broadcast;
    var a := AddressOf(addr[n]);
    BroadcastCount(Keys(addr.Keys), addr, PingBodies(addr, server), Packet(a.ip, a.port, PingMsg(server, n)));
  }

  /** A broadcast goes through its addressees in order. */
  lemma {:induction false} BroadcastInOrder(ks: seq<string>, addr: map<string, string>, bodies: map<string, Msg>)
    requires Ascending(ks) && Addressed(bodies)
    ensures var ps := Broadcast(ks, addr, bodies);
      InOrder(ps) && forall p :: p in ps ==> p.msg.clientDest in ks
  {
    if ks != [] {
      var init, last := ks[..|ks| - 1], ks[|ks| - 1];
      assert Broadcast(ks, addr, bodies) == Broadcast(init, addr, bodies) + Turn(last, addr, bodies);
      hide Before, Turn;
      LastOfAscending(ks);
      BroadcastInOrder(init, addr, bodies);
      TurnIs(last, addr, bodies);
      AppendInOrder(Broadcast(init, addr, bodies), Turn(last, addr, bodies), init, last, ks);
    }
  }

  /** Addressees in ascending order, none of them twice. */
  ghost predicate InOrder(ps: seq<Packet>) {
    forall i, j :: 0 <= i < j < |ps| ==> Before(ps[i].msg.clientDest, ps[j].msg.clientDest)
  }

  lemma AppendInOrder(ps: seq<Packet>, tail: seq<Packet>, init: seq<string>, last: string, ks: seq<string>)
    requires InOrder(ps) && forall p :: p in ps ==> p.msg.clientDest in init
    requires |tail| <= 1 && forall p :: p in tail ==> p.msg.clientDest == last
    requires (forall x :: x in init ==> x in ks && Before(x, last)) && last in ks
    ensures InOrder(ps + tail) && forall p :: p in ps + tail ==> p.msg.clientDest in ks
  {
    hide Before;
    assert forall i :: 0 <= i < |ps| ==> ps[i] in ps;
    assert forall i :: |ps| <= i < |ps + tail| ==> (ps + tail)[i] in tail;
  }

  lemma LastOfAscending(ks: seq<string>)
    requires ks != [] && Ascending(ks)
    ensures var init, last := ks[..|ks| - 1], ks[|ks| - 1];
      Ascending(init) && (forall x :: x in init ==> x in ks && Before(x, last)) && last in ks
  {
    hide Before;
    var init, last := ks[..|ks| - 1], ks[|ks| - 1];
    forall i, j | 0 <= i < j < |init| ensures Before(init[i], init[j]) {
      assert ks[i] == init[i] && ks[j] == init[j];
    }
    forall x | x in init ensures Before(x, last) {
      var i :| 0 <= i < |init| && init[i] == x;
      assert ks[i] == x;
    }
  }

  lemma TurnIs(n: string, addr: map<string, string>, bodies: map<string, Msg>)
    requires Addressed(bodies)
    ensures |Turn(n, addr, bodies)| <= 1 && forall p :: p in Turn(n, addr, bodies) ==> p.msg.clientDest == n
  {
    hide AddressOf;
  }

  /** One removal is told once to each of the other clients. */
  lemma RemovalTold(r: Registry, server: string, gone: string, s: string, g: string)
    requires s in r.addr && s != gone && AddressOf(r.addr[s]).Address?
    ensures var a := AddressOf(r.addr[s]);
      multiset(RemUpdates(r, server, gone))[Packet(a.ip, a.port, RemMsg(server, s, g))] == if g == gone then 1 else 0
  {
    hide AddressOf;
    var a := AddressOf(r.addr[s]);
    BroadcastCount(Keys(r.addr.Keys), r.addr, RemBodies(r, server, gone), Packet(a.ip, a.port, RemMsg(server, s, g)));
  }

  /** Nobody is told of their own removal. */
  lemma RemovedNotTold(r: Registry, server: string, gone: string)
    ensures forall p :: p in RemUpdates(r, server, gone) ==> p.msg.clientDest != gone
  {
    hide AddressOf;
    forall p | p in RemUpdates(r, server, gone) ensures p.msg.clientDest != gone {
      BroadcastCount(Keys(r.addr.Keys), r.addr, RemBodies(r, server, gone), p);
    }
  }

  /** An answering client is stamped with the reading of its own turn, every
      other stamp stays. */
  lemma {:induction false} StampedExact(ping: map<string, int>, ks: seq<string>, answered: set<string>,
      readings: seq<int>, k: nat, n: string)
    requires k <= |ks| && |ks| <= |readings| && Distinct(ks)
    ensures n in Stamped(ping, ks, answered, readings, k) <==> n in ping || (n in answered && n in ks[..k])
    ensures n in ping && !(n in answered && n in ks[..k]) ==> Stamped(ping, ks, answered, readings, k)[n] == ping[n]
    ensures forall i :: 0 <= i < k && ks[i] == n && n in answered ==>
      Stamped(ping, ks, answered, readings, k)[n] == readings[i]
  {
    if k > 0 {
      StampedExact(ping, ks, answered, readings, k - 1, n);
      assert ks[..k] == ks[..k - 1] + [ks[k - 1]];
    }
  }
}
