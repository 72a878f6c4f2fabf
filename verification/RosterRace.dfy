/** One registration overlapping one removal, region by region: exactly when the
    rosters agree once both are complete. */
module RosterRace {
  import opened CppString
  import opened KeyOrder
  import opened Messages
  import opened NodeData
  import opened RosterText
  import opened Registries
  import opened Client
  import opened Network
  import opened RosterUpdates
  import opened Rosters
  import opened Protocol
  import opened JoinEffects
  import opened SystemRuns
  import opened Interleaving

  /** A registration of src, whose data carry nick and which has this roster, and
      a removal of gone, both starting from these maps and processes. */
  datatype Setup = Setup(
    server: string, reg: Registry, net: Net, src: string, nick: string, data: string, first: map<string, string>,
    gone: string, now: int)

  /** All nicknames once the registration is complete. */
  function FullNicks(k: Setup): map<string, string> {
    Insert(k.reg.nicks, k.src, k.nick)
  }

  function Without<V>(m: map<string, V>, n: string, really: bool): map<string, V> {
    if really then m - {n} else m
  }

  /** a and r regions are complete; told: the removal's broadcast found the
      address of the registering client; heard: how many of the removal's regions
      came before the registration's broadcast. */
  datatype Progress = Progress(reg: Registry, net: Net, a: nat, r: nat, told: bool, heard: nat)

  predicate CanGo(p: Progress, adds: bool) {
    if adds then p.a < 4 else p.r < 4
  }

  function Go(k: Setup, p: Progress, adds: bool): Progress
    requires NicknameOf(k.data).Some? && CanGo(p, adds)
  {
    if adds then
      var (reg, net) := AddRegion(p.a, k.server, p.reg, p.net, k.src, k.data, k.now);
      Progress(reg, net, p.a + 1, p.r, p.told, if p.a == 3 then p.r else p.heard)
    else
      var (reg, net) := RemRegion(p.r, k.server, p.reg, p.net, k.gone);
      Progress(reg, net, p.a, p.r + 1, if p.r == 0 then k.src in k.reg.addr || p.a >= 1 else p.told, p.heard)
  }

  // ----- where the maps and the rosters are

  function RegAt(k: Setup, a: nat, r: nat): Registry {
    Registry(
      Without(if a >= 1 then Insert(k.reg.addr, k.src, k.data) else k.reg.addr, k.gone, r >= 2),
      Without(if a >= 2 then Insert(k.reg.ping, k.src, k.now) else k.reg.ping, k.gone, r >= 3),
      Without(if a >= 3 then FullNicks(k) else k.reg.nicks, k.gone, r >= 4))
  }

  /** What the roster of an uninvolved client mirrors. */
  function Target(k: Setup, a: nat, r: nat): map<string, string> {
    Without(if a == 4 then FullNicks(k) else k.reg.nicks, k.gone, r >= 1)
  }

  /** What an add or a remove message makes of a roster. */
  function Learn(roster: map<string, string>, es: seq<Entry>): map<string, string> {
    AddEntries(Holding(roster), es).roster
  }

  function Forget(roster: map<string, string>, gone: string): map<string, string> {
    RemEntry(Holding(roster), gone).roster
  }

  function Holding(roster: map<string, string>): ClientState {
    ClientState("", "", "", 0, false, "", roster, [])
  }

  /** The list that the registration's broadcast sends. */
  function ListAt(k: Setup, heard: nat): map<string, string> {
    Without(FullNicks(k), k.gone, heard == 4)
  }

  /** The roster of the registering client before and after that broadcast. */
  function Before(k: Setup, told: bool): map<string, string> {
    if told then Forget(k.first, k.gone) else k.first
  }

  function Own(k: Setup, a: nat, r: nat, told: bool, heard: nat): map<string, string> {
    if a < 4 then Before(k, told)
    else
      var learnt := Learn(Before(k, heard >= 1 && told), Entries(ListAt(k, heard)));
      if heard == 0 && r >= 1 then Forget(learnt, k.gone) else learnt
  }

  ghost predicate RosterOk(k: Setup, a: nat, r: nat, told: bool, heard: nat, d: ClientState) {
    && (d.name in k.reg.addr && d.name != k.src && d.name != k.gone ==> Mirrors(d.roster, Target(k, a, r)))
    && (d.name == k.src ==> d.roster == Own(k, a, r, told, heard))
  }

  ghost predicate OnTrack(k: Setup, p: Progress) {
    && p.a <= 4 && p.r <= 4 && p.heard <= p.r && (p.told ==> p.r >= 1)
    && p.reg == RegAt(k, p.a, p.r)
    && p.net.Keys == k.net.Keys
    && forall f :: f in k.net ==> p.net[f].name == k.net[f].name && RosterOk(k, p.a, p.r, p.told, p.heard, p.net[f])
  }

  /** What the overlap relies on: the clients in the maps, ... */
  ghost predicate Steady(k: Setup) {
    && k.src != k.gone && k.gone in k.reg.nicks && DistinctNicks(k.reg.nicks)
    && (k.src in k.reg.nicks <==> k.src in k.reg.addr)
    && (k.src in k.reg.nicks ==> k.reg.nicks[k.src] == k.nick)
    && (k.src !in k.reg.nicks ==> k.nick !in k.reg.nicks.Values)
  }

  /** ... what the formats carry, and where the processes are. */
  ghost predicate Carried(k: Setup) {
    && GoodServer(k.server) && NicknameOf(k.data) == Some(k.nick)
    && GoodName(k.src) && GoodName(k.nick) && GoodName(k.gone)
    && GoodNames(k.reg.nicks) && (forall n :: n in k.reg.addr ==> GoodName(n))
    && AtHome(k.net, Insert(k.reg.addr, k.src, k.data))
    && |Wire(ListMsg(k.server, k.src, FullNicks(k)))| <= CONTENT_LIMIT
    && |Wire(ListMsg(k.server, k.src, FullNicks(k) - {k.gone}))| <= CONTENT_LIMIT
  }

  // ----- one roster at a time

  lemma RemMirrors(d: ClientState, gone: string, nicks: map<string, string>)
    requires Mirrors(d.roster, nicks)
    ensures Mirrors(RemEntry(d, gone).roster, nicks - {gone})
  {
    hide RemEntry;
    RemRoster(d, gone, nicks);
  }

  lemma {:induction false} LearnIs(d: ClientState, c: ClientState, es: seq<Entry>)
    requires d.roster == c.roster
    ensures AddEntries(d, es).roster == AddEntries(c, es).roster
    decreases |es|
  {
    if es != [] {
      var e := es[0];
      LearnIs(d.(roster := Insert(d.roster, e.0, e.1), events := d.events + [AddEvent(e.0)]),
              c.(roster := Insert(c.roster, e.0, e.1), events := c.events + [AddEvent(e.0)]), es[1..]);
    }
  }

  lemma ForgetIs(d: ClientState, gone: string)
    ensures RemEntry(d, gone).roster == Forget(d.roster, gone)
  {
  }

  /** The removal's broadcast at one process. */
  lemma RemTellOk(k: Setup, a: nat, heard: nat, d: ClientState)
    requires a <= 4 && k.src != k.gone && heard == 0 && RosterOk(k, a, 0, false, heard, d)
    ensures var told := k.src in k.reg.addr || a >= 1;
      RosterOk(k, a, 1, told, heard, AfterRem(d, RegAt(k, a, 0), k.gone))
    ensures AfterRem(d, RegAt(k, a, 0), k.gone).name == d.name
  {
    hide RemEntry, Mirrors, Forget, Learn, Entries, ListAt;
    RemEntryKeeps(d, k.gone);
    ForgetIs(d, k.gone);
    if d.name in k.reg.addr && d.name != k.gone && d.name != k.src {
      RemMirrors(d, k.gone, Target(k, a, 0));
    }
  }

  /** Nicknames at the moment of the registration's broadcast. */
  lemma ListAtTell(k: Setup, r: nat)
    requires r <= 4
    ensures RegAt(k, 3, r).nicks == ListAt(k, r)
  {
  }

  lemma FullDistinct(k: Setup, r: nat)
    requires Steady(k)
    ensures DistinctNicks(FullNicks(k)) && DistinctNicks(ListAt(k, r))
  {
    if k.src !in k.reg.nicks { InsertedNicks(k.reg.nicks, k.src, k.nick); }
  }

  lemma OtherTellOk(k: Setup, r: nat, d: ClientState)
    requires Steady(k)
    requires Mirrors(d.roster, Target(k, 3, r))
    ensures Mirrors(AddEntries(d, [(k.nick, k.src)]).roster, Target(k, 4, r))
  {
    hide AddEntries;
    var before := Target(k, 3, r);
    assert k.src !in k.reg.nicks ==> k.nick !in before.Values;
    assert Insert(before, k.src, k.nick) == Target(k, 4, r);
    Bystander(d, before, k.nick, k.src);
  }

  /** The registration's broadcast at one process. */
  lemma AddTellOk(k: Setup, r: nat, told: bool, heard: nat, d: ClientState)
    requires r <= 4 && Steady(k) && (told ==> r >= 1)
    requires RosterOk(k, 3, r, told, heard, d)
    ensures RosterOk(k, 4, r, told, r, AfterAdd(d, RegAt(k, 3, r), k.src, k.nick))
    ensures AfterAdd(d, RegAt(k, 3, r), k.src, k.nick).name == d.name
  {
    AfterAddKeeps(d, RegAt(k, 3, r), k.src, k.nick);
    if d.name == k.src {
      AddressThere(k, r);
      OwnTellOk(k, r, told, heard, d);
    } else if d.name in k.reg.addr && d.name != k.gone {
      hide AddEntries, Entries, Mirrors, Target, Steady;
      OtherTellOk(k, r, d);
    }
  }

  lemma AddressThere(k: Setup, r: nat)
    requires Steady(k)
    ensures k.src in RegAt(k, 3, r).addr
  {
    hide DistinctNicks;
  }

  lemma OwnTellOk(k: Setup, r: nat, told: bool, heard: nat, d: ClientState)
    requires r <= 4 && (told ==> r >= 1) && d.roster == Own(k, 3, r, told, heard)
    ensures AddEntries(d, Entries(RegAt(k, 3, r).nicks)).roster == Own(k, 4, r, told, r)
  {
    hide AddEntries, Entries, Forget, ListAt, RegAt;
    ListAtTell(k, r);
    LearnIs(d, Holding(d.roster), Entries(ListAt(k, r)));
  }

  // ----- the regions keep on track

  lemma StillHome(net: Net, addr: map<string, string>, later: Net, fewer: map<string, string>)
    requires AtHome(net, addr) && later.Keys == net.Keys
    requires forall f :: f in net ==> later[f].name == net[f].name
    requires forall n :: n in fewer ==> n in addr && fewer[n] == addr[n]
    ensures AtHome(later, fewer)
  {
    hide AddressOf;
    forall f | f in later && later[f].name in fewer ensures AddressOf(fewer[later[f].name]) == Address(f.ip, f.port) {
      assert f in net && net[f].name in addr;
    }
  }

  lemma StillGood(k: Setup, a: nat, r: nat)
    requires Carried(k)
    ensures GoodRegistry(RegAt(k, a, r))
  {
    hide GoodName, NicknameOf, AtHome, Wire, GoodServer, ListMsg;
    var reg := RegAt(k, a, r);
    forall n | n in reg.nicks ensures n in FullNicks(k) && reg.nicks[n] == FullNicks(k)[n] {
    }
    forall n | n in reg.addr ensures GoodName(n) {
      assert n == k.src || n in k.reg.addr;
    }
  }

  /** Wherever the progress is, broadcasts find the processes. */
  lemma TrackAtHome(k: Setup, p: Progress)
    requires Carried(k) && OnTrack(k, p)
    ensures AtHome(p.net, p.reg.addr) && GoodRegistry(p.reg)
  {
    hide GoodName, NicknameOf, AtHome, Wire, GoodServer, RosterOk, GoodNames, GoodRegistry;
    StillGood(k, p.a, p.r);
    StillHome(k.net, Insert(k.reg.addr, k.src, k.data), p.net, p.reg.addr);
  }

  lemma RemTold(k: Setup, p: Progress)
    requires Carried(k) && OnTrack(k, p) && p.r == 0
    ensures NicknameOf(k.data).Some?
    ensures Go(k, p, false)
        == Progress(RegAt(k, p.a, 1), map e | e in p.net :: AfterRem(p.net[e], RegAt(k, p.a, 0), k.gone), p.a, 1,
                    k.src in k.reg.addr || p.a >= 1, p.heard)
    ensures RegAt(k, p.a, 0) == p.reg
  {
    hide GoodName, NicknameOf, AtHome, Wire, RosterOk, GoodNames, GoodRegistry, AfterRem, DeliverAll, RemUpdates,
        GoodServer;
    TrackAtHome(k, p);
    GoneIsGood(k);
    RemEffect(p.net, p.reg, k.server, k.gone);
  }

  lemma GoneIsGood(k: Setup)
    requires Carried(k)
    ensures GoodServer(k.server) && GoodName(k.gone)
  {
    hide GoodName, NicknameOf, AtHome, Wire, GoodServer;
  }

  lemma RemTellTrack(k: Setup, p: Progress)
    requires Steady(k) && Carried(k) && OnTrack(k, p) && p.r == 0
    ensures OnTrack(k, Go(k, p, false))
  {
    hide AfterRem, RosterOk, RegAt, Steady, Carried, Go;
    SteadyNames(k);
    RemTold(k, p);
    var q := Go(k, p, false);
    forall f | f in k.net ensures q.net[f].name == k.net[f].name && RosterOk(k, p.a, 1, q.told, p.heard, q.net[f]) {
      RemTellOk(k, p.a, p.heard, p.net[f]);
    }
  }

  lemma SteadyNames(k: Setup)
    requires Steady(k)
    ensures k.src != k.gone
  {
  }

  lemma ListAtTellFits(k: Setup, r: nat)
    requires Carried(k) && r <= 4
    ensures |Wire(ListMsg(k.server, k.src, RegAt(k, 3, r).nicks))| <= CONTENT_LIMIT
  {
    hide GoodName, NicknameOf, AtHome, Wire, GoodServer, GoodNames, ListMsg;
    ListAtTell(k, r);
  }

  lemma AddTellTrack(k: Setup, p: Progress)
    requires Steady(k) && Carried(k) && OnTrack(k, p) && p.a == 3
    ensures OnTrack(k, Go(k, p, true))
  {
    hide GoodName, NicknameOf, AtHome, Wire, RosterOk, GoodNames, GoodRegistry, AfterAdd, DeliverAll, AddUpdates,
        Steady, ListMsg;
    TrackAtHome(k, p);
    ListAtTellFits(k, p.r);
    AddEffect(p.net, p.reg, k.server, k.src, k.data);
    var q := Go(k, p, true);
    assert q.reg == p.reg == RegAt(k, 4, p.r);
    forall f | f in k.net ensures q.net[f].name == k.net[f].name && RosterOk(k, 4, p.r, p.told, p.r, q.net[f]) {
      AddTellOk(k, p.r, p.told, p.heard, p.net[f]);
    }
  }

  lemma QuietAdd(k: Setup, p: Progress)
    requires Steady(k) && NicknameOf(k.data) == Some(k.nick) && p.reg == RegAt(k, p.a, p.r) && p.a < 3
    ensures Go(k, p, true).reg == RegAt(k, p.a + 1, p.r) && Go(k, p, true).net == p.net
  {
    hide NicknameOf, DeliverAll, DistinctNicks, AddUpdates, RemRegion, Steady;
    SteadyNames(k);
  }

  lemma QuietRem(k: Setup, p: Progress)
    requires p.reg == RegAt(k, p.a, p.r) && 0 < p.r < 4 && NicknameOf(k.data).Some?
    ensures Go(k, p, false).reg == RegAt(k, p.a, p.r + 1) && Go(k, p, false).net == p.net
  {
    hide NicknameOf, DeliverAll, RemUpdates, AddRegion, Insert;
  }

  lemma QuietReg(k: Setup, p: Progress, adds: bool)
    requires Steady(k) && NicknameOf(k.data) == Some(k.nick) && p.reg == RegAt(k, p.a, p.r)
    requires if adds then p.a < 3 else 0 < p.r < 4
    ensures var q := Go(k, p, adds);
      q.reg == RegAt(k, q.a, q.r) && q.net == p.net && q.told == p.told && q.heard == p.heard
  {
    hide NicknameOf, AddRegion, RemRegion, RegAt, Steady;
    if adds { QuietAdd(k, p); } else { QuietRem(k, p); }
  }

  lemma SameRoster(k: Setup, a: nat, r: nat, b: nat, q: nat, told: bool, heard: nat, d: ClientState)
    requires RosterOk(k, a, r, told, heard, d) && (a == 4 <==> b == 4) && (r >= 1 <==> q >= 1) && a <= 4 && b <= 4
    ensures RosterOk(k, b, q, told, heard, d)
  {
    hide Mirrors, Forget, Learn, Entries;
  }

  /** Regions that only change a map. */
  lemma QuietTrack(k: Setup, p: Progress, adds: bool)
    requires Steady(k) && NicknameOf(k.data) == Some(k.nick) && OnTrack(k, p)
    requires if adds then p.a < 3 else 0 < p.r < 4
    ensures OnTrack(k, Go(k, p, adds))
  {
    hide NicknameOf, RosterOk, AddRegion, RemRegion, RegAt, Steady;
    QuietReg(k, p, adds);
    var q := Go(k, p, adds);
    forall f | f in k.net ensures q.net[f].name == k.net[f].name && RosterOk(k, q.a, q.r, q.told, q.heard, q.net[f]) {
      SameRoster(k, p.a, p.r, q.a, q.r, q.told, q.heard, p.net[f]);
    }
  }

  lemma StepOnTrack(k: Setup, p: Progress, adds: bool)
    requires Steady(k) && Carried(k) && OnTrack(k, p) && CanGo(p, adds)
    ensures NicknameOf(k.data).Some? && OnTrack(k, Go(k, p, adds))
  {
    hide OnTrack, NicknameOf, Go, Steady, Carried;
    CarriedNick(k);
    TrackBounds(k, p);
    if adds && p.a == 3 { AddTellTrack(k, p); }
    else if !adds && p.r == 0 { RemTellTrack(k, p); }
    else { QuietTrack(k, p, adds); }
  }

  lemma CarriedNick(k: Setup)
    requires Carried(k)
    ensures NicknameOf(k.data) == Some(k.nick)
  {
    hide NicknameOf, AtHome, GoodName, Wire;
  }

  lemma TrackBounds(k: Setup, p: Progress)
    requires OnTrack(k, p)
    ensures p.a <= 4 && p.r <= 4 && (p.told ==> p.r >= 1)
  {
  }

  // ----- schedules

  /** true: the registration runs its next region; false: the removal does. */
  function Play(k: Setup, p: Progress, schedule: seq<bool>): Progress
    requires NicknameOf(k.data).Some?
    decreases |schedule|
  {
    if schedule == [] then p
    else if CanGo(p, schedule[0]) then Play(k, Go(k, p, schedule[0]), schedule[1..])
    else Play(k, p, schedule[1..])
  }

  function Count(schedule: seq<bool>, who: bool): nat {
    if schedule == [] then 0 else (if schedule[0] == who then 1 else 0) + Count(schedule[1..], who)
  }

  /** How many regions of the removal come before the n-th further region of the
      registration. */
  function RemovalsBefore(schedule: seq<bool>, n: nat): nat {
    if schedule == [] || n == 0 then 0
    else if schedule[0] then RemovalsBefore(schedule[1..], n - 1)
    else 1 + RemovalsBefore(schedule[1..], n)
  }

  lemma {:induction false} PlayOnTrack(k: Setup, p: Progress, schedule: seq<bool>)
    requires Steady(k) && Carried(k) && OnTrack(k, p) && NicknameOf(k.data).Some?
    requires p.a + Count(schedule, true) == 4 && p.r + Count(schedule, false) == 4
    ensures var q := Play(k, p, schedule);
      && OnTrack(k, q) && q.a == 4 && q.r == 4
      && q.heard == (if p.a == 4 then p.heard else p.r + RemovalsBefore(schedule, 4 - p.a))
      && q.told == (if p.r >= 1 then p.told else k.src in k.reg.addr || p.a >= 1 || RemovalsBefore(schedule, 1) == 0)
    decreases |schedule|
  {
    hide Steady, Carried, NicknameOf, AddRegion, RemRegion, OnTrack;
    TrackBounds(k, p);
    if schedule != [] {
      StepOnTrack(k, p, schedule[0]);
      PlayOnTrack(k, Go(k, p, schedule[0]), schedule[1..]);
    }
  }

  // ----- main result

  /** The process at e registers while the client gone is removed. */
  function Overlap(s: System, e: Endpoint, gone: string, now: int): Setup
    requires e in s.net
  {
    var c := s.net[e];
    Setup(s.server, s.reg, s.net, c.name, c.nickname, Record(c.nickname, c.ip, c.port), c.roster, gone, now)
  }

  function Begin(k: Setup): Progress {
    Progress(k.reg, k.net, 0, 0, false, 0)
  }

  /** An agreeing state; a first or repeated registration, by a process that has
      not heard the server yet, with a nickname nobody else has; the removal of
      somebody else; lists that fit into a message. */
  ghost predicate Proper(s: System, e: Endpoint, gone: string, now: int) {
    && Inv(s) && Agrees(s) && e in s.net && !s.net[e].connected && now >= s.clock
    && gone in s.reg.addr && gone != s.net[e].name
    && (s.net[e].name !in s.reg.addr ==> s.net[e].nickname !in s.reg.nicks.Values)
    && var k := Overlap(s, e, gone, now);
      && |Wire(ListMsg(s.server, k.src, FullNicks(k)))| <= CONTENT_LIMIT
      && |Wire(ListMsg(s.server, k.src, FullNicks(k) - {gone}))| <= CONTENT_LIMIT
  }

  lemma ProperIsSteady(s: System, e: Endpoint, gone: string, now: int)
    requires Proper(s, e, gone, now)
    ensures e in s.net && Steady(Overlap(s, e, gone, now))
  {
    hide NicknameOf, AddressOf, Record, Clean, Mirrors, Wire, ProcessInv, GoodRegistry;
    RegisteredAtHome(s, e);
    SameClients(s);
  }

  lemma ProperIsCarried(s: System, e: Endpoint, gone: string, now: int)
    requires Proper(s, e, gone, now)
    ensures e in s.net && Carried(Overlap(s, e, gone, now))
  {
    hide NicknameOf, AddressOf, Record, GoodName, Agrees, Wire, Consistent, AtHome, GoodServer, ListMsg;
    RegisteredAtHome(s, e);
    assert ProcessInv(s, e);
    HomeWith(s, e);
  }

  lemma HomeWith(s: System, e: Endpoint)
    requires Inv(s) && e in s.net
    ensures AtHome(s.net, Insert(s.reg.addr, s.net[e].name, Record(s.net[e].nickname, s.net[e].ip, s.net[e].port)))
  {
    hide NicknameOf, AddressOf, Record, Clean, Consistent, GoodRegistry;
    RegisteredAtHome(s, e);
    AllAtHomeAlready(s);
    forall f | f in s.net && s.net[f].name == s.net[e].name ensures f == e {
    }
  }

  lemma BeginOnTrack(s: System, e: Endpoint, gone: string, now: int)
    requires Proper(s, e, gone, now)
    ensures e in s.net && OnTrack(Overlap(s, e, gone, now), Begin(Overlap(s, e, gone, now)))
  {
    hide Inv, Record, Wire, Mirrors, RosterOk;
    var k := Overlap(s, e, gone, now);
    assert k.reg == RegAt(k, 0, 0);
    forall f | f in s.net ensures RosterOk(k, 0, 0, false, 0, s.net[f]) {
      BeginRoster(s, e, gone, now, f);
    }
  }

  lemma BeginRoster(s: System, e: Endpoint, gone: string, now: int, f: Endpoint)
    requires Proper(s, e, gone, now) && f in s.net
    ensures e in s.net && RosterOk(Overlap(s, e, gone, now), 0, 0, false, 0, s.net[f])
  {
    hide Inv, Record, Wire, Mirrors, Learn, Forget, NicknameOf;
    var k := Overlap(s, e, gone, now);
    SameName(s, e, f);
    assert k.reg.nicks == Target(k, 0, 0);
  }

  /** The system once both are complete. */
  function Completed(s: System, e: Endpoint, gone: string, now: int, schedule: seq<bool>): System
    requires e in s.net && NicknameOf(Overlap(s, e, gone, now).data).Some?
  {
    var p := Play(Overlap(s, e, gone, now), Begin(Overlap(s, e, gone, now)), schedule);
    s.(reg := p.reg, net := p.net, gone := s.gone + {gone})
  }

  /** What the registering client must be like, and what must not happen: its
      roster has no wrong entry, except for one that the removal still takes
      back, and its broadcast does not fall between the broadcast of the removal
      and the removal's last erasure. */
  ghost predicate EndsWell(k: Setup, schedule: seq<bool>) {
    var heard, told := RemovalsBefore(schedule, 4), k.src in k.reg.addr || RemovalsBefore(schedule, 1) == 0;
    if heard == 0 then SoundRoster(k.first, FullNicks(k))
    else heard == 4 && SoundRoster(Before(k, told), FullNicks(k) - {k.gone})
  }

  /** For every interleaving of a registration with a removal: afterwards every
      roster is the inverse of the server's map if and only if this is so. */
  lemma OverlapAgreesIff(s: System, e: Endpoint, gone: string, now: int, schedule: seq<bool>)
    requires e in s.net && Proper(s, e, gone, now)
    requires Count(schedule, true) == 4 && Count(schedule, false) == 4
    ensures NicknameOf(Overlap(s, e, gone, now).data).Some?
    ensures Agrees(Completed(s, e, gone, now, schedule)) <==> EndsWell(Overlap(s, e, gone, now), schedule)
  {
    hide Proper, NicknameOf, Overlap, Play, Steady, Carried, OnTrack, SoundRoster, Before, Agrees;
    ProperIsSteady(s, e, gone, now);
    ProperIsCarried(s, e, gone, now);
    var k := Overlap(s, e, gone, now);
    CarriedNick(k);
    BeginOnTrack(s, e, gone, now);
    PlayOnTrack(k, Begin(k), schedule);
    var q := Play(k, Begin(k), schedule);
    Conclusion(s, e, gone, now, q);
  }

  /** A client that has never been registered, or only tries again: if and only
      if its broadcast did not fall into that gap. If it did, the client keeps an
      entry for the removed one. */
  lemma OnlyTheGapMatters(s: System, e: Endpoint, gone: string, now: int, schedule: seq<bool>)
    requires e in s.net && Proper(s, e, gone, now)
    requires s.net[e].roster == map[] || s.net[e].name in s.reg.addr
    requires Count(schedule, true) == 4 && Count(schedule, false) == 4
    ensures NicknameOf(Overlap(s, e, gone, now).data).Some?
    ensures Agrees(Completed(s, e, gone, now, schedule)) <==> !(0 < RemovalsBefore(schedule, 4) < 4)
  {
    hide Completed, Play, NicknameOf, Record, Wire, Forget, Inv;
    OverlapAgreesIff(s, e, gone, now, schedule);
    var k := Overlap(s, e, gone, now);
    RemovalsBounded(schedule, 4);
    EarlySound(s, e, gone, now);
  }

  lemma EarlySound(s: System, e: Endpoint, gone: string, now: int)
    requires e in s.net && Proper(s, e, gone, now)
    requires s.net[e].roster == map[] || s.net[e].name in s.reg.addr
    ensures var k := Overlap(s, e, gone, now);
      && SoundRoster(k.first, FullNicks(k)) && SoundRoster(Before(k, true), FullNicks(k) - {gone})
      && (k.src !in k.reg.addr ==> SoundRoster(Before(k, false), FullNicks(k) - {gone}))
  {
    hide Record, RemEntry, SoundRoster, Proper;
    var k := Overlap(s, e, gone, now);
    FirstIsSound(s, e, gone, now);
    RemRoster(Holding(k.first), gone, FullNicks(k));
    EmptyIsSound(FullNicks(k) - {gone});
  }

  lemma EmptyIsSound(nicks: map<string, string>)
    ensures SoundRoster(map[], nicks)
  {
  }

  lemma FirstIsSound(s: System, e: Endpoint, gone: string, now: int)
    requires e in s.net && Proper(s, e, gone, now)
    requires s.net[e].roster == map[] || s.net[e].name in s.reg.addr
    ensures SoundRoster(s.net[e].roster, Insert(s.reg.nicks, s.net[e].name, s.net[e].nickname))
  {
    hide Wire, Record, Inv, CompleteRoster, DistinctNicks, SoundRoster, Overlap, NicknameOf, AddressOf;
    SameClients(s);
    EmptyIsSound(Insert(s.reg.nicks, s.net[e].name, s.net[e].nickname));
    if s.net[e].name in s.reg.addr { assert Mirrors(s.net[e].roster, s.reg.nicks); }
  }

  lemma {:induction false} RemovalsBounded(schedule: seq<bool>, n: nat)
    ensures RemovalsBefore(schedule, n) <= Count(schedule, false)
  {
    if schedule != [] && n > 0 { RemovalsBounded(schedule[1..], if schedule[0] then n - 1 else n); }
  }

  lemma Conclusion(s: System, e: Endpoint, gone: string, now: int, p: Progress)
    requires e in s.net && Proper(s, e, gone, now)
    requires OnTrack(Overlap(s, e, gone, now), p) && p.a == 4 && p.r == 4
    ensures var k := Overlap(s, e, gone, now);
      Agrees(s.(reg := p.reg, net := p.net, gone := s.gone + {gone})) <==>
        if p.heard == 0 then SoundRoster(k.first, FullNicks(k))
        else p.heard == 4 && SoundRoster(Before(k, p.told), FullNicks(k) - {k.gone})
  {
    hide Record, Mirrors, Proper, Steady, Own, Before, SoundRoster;
    var k := Overlap(s, e, gone, now);
    ProperIsSteady(s, e, gone, now);
    SteadyEnds(k);
    var nicks := FullNicks(k) - {gone};
    assert p.reg.nicks == nicks == Target(k, 4, 4);
    forall f | f in s.net
      ensures f in p.net && p.net[f].name == s.net[f].name && RosterOk(k, 4, 4, p.told, p.heard, p.net[f])
    {
    }
    assert e in p.net && p.net[e].name in p.reg.addr;
    OwnMirrorsIff(k, p.told, p.heard);
    OthersMirror(s, e, gone, now, p);
  }

  /** Everybody else agrees. */
  lemma OthersMirror(s: System, e: Endpoint, gone: string, now: int, p: Progress)
    requires e in s.net && Proper(s, e, gone, now)
    requires OnTrack(Overlap(s, e, gone, now), p) && p.a == 4 && p.r == 4
    ensures forall f :: f in p.net && f != e && p.net[f].name in p.reg.addr ==>
      Mirrors(p.net[f].roster, FullNicks(Overlap(s, e, gone, now)) - {gone})
  {
    hide Inv, Record, Mirrors, Own, Agrees, Wire, RosterOk;
    var k := Overlap(s, e, gone, now);
    forall f | f in p.net && f != e && p.net[f].name in p.reg.addr
      ensures Mirrors(p.net[f].roster, FullNicks(k) - {gone})
    {
      SameName(s, e, f);
      OtherMirrors(k, p.told, p.heard, p.net[f]);
    }
  }

  lemma OtherMirrors(k: Setup, told: bool, heard: nat, d: ClientState)
    requires RosterOk(k, 4, 4, told, heard, d) && d.name != k.src && d.name in RegAt(k, 4, 4).addr
    ensures Mirrors(d.roster, FullNicks(k) - {k.gone})
  {
    hide Mirrors, Own;
  }

  // ----- the roster of the registering client in the end

  lemma OwnMirrorsIff(k: Setup, told: bool, heard: nat)
    requires Steady(k) && heard <= 4
    ensures Mirrors(Own(k, 4, 4, told, heard), FullNicks(k) - {k.gone}) <==>
      if heard == 0 then SoundRoster(k.first, FullNicks(k))
      else heard == 4 && SoundRoster(Before(k, told), FullNicks(k) - {k.gone})
  {
    hide Steady, Learn, Forget, Mirrors, SoundRoster;
    SteadyEnds(k);
    if heard == 0 {
      LearnThenForget(k.first, FullNicks(k), k.gone);
    } else if heard < 4 {
      LearntTooMuch(Before(k, told), FullNicks(k), k.gone);
    } else {
      LearntAll(Before(k, told), FullNicks(k) - {k.gone});
    }
  }

  lemma LearntAll(roster: map<string, string>, nicks: map<string, string>)
    requires DistinctNicks(nicks)
    ensures Mirrors(Learn(roster, Entries(nicks)), nicks) <==> SoundRoster(roster, nicks)
  {
    hide AddEntries, Entries;
    WholeListMirrors(Holding(roster), nicks);
  }

  /** The list leaves an entry under each of its nicknames. */
  lemma LearntKeys(roster: map<string, string>, nicks: map<string, string>)
    ensures var after := Learn(roster, Entries(nicks));
      && (forall n :: n in nicks ==> nicks[n] in after)
      && (forall k :: k in roster ==> k in after && after[k] == roster[k])
  {
    hide AddEntries, Entries;
    AddKeys(Holding(roster), Entries(nicks));
    EntriesAre(nicks);
  }

  lemma LearntTooMuch(roster: map<string, string>, nicks: map<string, string>, gone: string)
    requires DistinctNicks(nicks) && gone in nicks
    ensures !Mirrors(Learn(roster, Entries(nicks)), nicks - {gone})
  {
    hide Learn, Entries;
    LearntKeys(roster, nicks);
    var after := Learn(roster, Entries(nicks));
    GoneEntry(after, nicks, gone);
  }

  /** Whatever a roster has under the nickname of gone is wrong without gone. */
  lemma GoneEntry(roster: map<string, string>, nicks: map<string, string>, gone: string)
    requires DistinctNicks(nicks) && gone in nicks && nicks[gone] in roster
    ensures !SoundRoster(roster, nicks - {gone})
  {
    var n := roster[nicks[gone]];
    assert n in nicks - {gone} ==> n != gone && (nicks - {gone})[n] == nicks[n] != nicks[gone];
  }

  /** One entry for gone goes, if there is any; the others stay. */
  lemma Forgotten(roster: map<string, string>, gone: string)
    ensures var after := Forget(roster, gone);
      && (forall k :: k in after ==> k in roster && after[k] == roster[k])
      && (forall j, k :: j in roster && k in roster && j !in after && k !in after ==> j == k)
      && (forall k :: k in roster && k !in after ==> roster[k] == gone)
  {
    hide Keys;
  }

  lemma LearnThenForget(roster: map<string, string>, nicks: map<string, string>, gone: string)
    requires DistinctNicks(nicks) && gone in nicks
    ensures Mirrors(Forget(Learn(roster, Entries(nicks)), gone), nicks - {gone}) <==> SoundRoster(roster, nicks)
  {
    hide Learn, Forget, Entries;
    var learnt := Learn(roster, Entries(nicks));
    var after := Forget(learnt, gone);
    LearntAll(roster, nicks);
    LearntKeys(roster, nicks);
    Forgotten(learnt, gone);
    if SoundRoster(roster, nicks) {
      ForgetMirrors(learnt, nicks, gone);
    } else {
      var k :| k in roster && !(roster[k] in nicks && nicks[roster[k]] == k);
      if k !in after {
        assert nicks[gone] in learnt && nicks[gone] != k;
        GoneEntry(after, nicks, gone);
      }
    }
  }

  lemma ForgetMirrors(roster: map<string, string>, nicks: map<string, string>, gone: string)
    requires Mirrors(roster, nicks)
    ensures Mirrors(Forget(roster, gone), nicks - {gone})
  {
    hide RemEntry;
    RemRoster(Holding(roster), gone, nicks);
  }

  lemma SteadyEnds(k: Setup)
    requires Steady(k)
    ensures k.gone in FullNicks(k) && k.src != k.gone
    ensures DistinctNicks(FullNicks(k)) && DistinctNicks(FullNicks(k) - {k.gone})
  {
    FullDistinct(k, 0);
    FullDistinct(k, 4);
  }
}
