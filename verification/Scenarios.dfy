/** Runs in which the code falls short, one for each exact condition: they start
    with an empty server and any two new processes. */
module Scenarios {
  import opened CppString
  import opened KeyOrder
  import opened Messages
  import opened NodeData
  import opened RosterText
  import opened Registries
  import opened Client
  import opened Network
  import opened RosterUpdates
  import opened Rosters
  import opened Protocol
  import opened JoinEffects
  import opened SystemRuns
  import opened Theorems
  import opened RosterRace
  import opened SameNameRace
  import opened Meeting

  // ----- a sweep at one moment

  /** The clock stands still during the sweep. */
  function At(clock: int, checks: nat): seq<int> {
    seq(checks, _ => clock)
  }

  /** Who has been silent for too long. */
  function Overdue(ping: map<string, int>, clock: int): set<string> {
    set n | n in ping && clock - ping[n] > 5_000_000_000
  }

  lemma ExpiredAt(ping: map<string, int>, clock: int)
    ensures var ks := Keys(ping.Keys);
      Expired(ping, ks, At(clock, |ks|), |ks|) == Overdue(ping, clock)
  {
    var ks := Keys(ping.Keys);
    forall n | n in Overdue(ping, clock) ensures n in Expired(ping, ks, At(clock, |ks|), |ks|) {
      assert n in ks;
      var i :| 0 <= i < |ks| && ks[i] == n;
    }
  }

  lemma RemKeepsOthers(c: ClientState, gone: string, nick: string)
    requires nick in c.roster && c.roster[nick] != gone
    ensures nick in RemEntry(c, gone).roster && RemEntry(c, gone).roster[nick] == c.roster[nick]
  {
    hide Keys;
  }

  /** The process at e is the same and has the same entry for nick. */
  ghost predicate HasStill(net: Net, later: Net, e: Endpoint, nick: string)
    requires e in net && nick in net[e].roster
  {
    && e in later && SameProcess(net[e], later[e]) && later[e].connected == net[e].connected
    && nick in later[e].roster && later[e].roster[nick] == net[e].roster[nick]
  }

  /** A removal leaves the entries for others, and leaves alone who is not
      registered. */
  lemma RemovalLeaves(s: System, n: string, e: Endpoint, nick: string)
    requires Inv(s) && n in s.reg.addr && e in s.net && nick in s.net[e].roster
    requires s.net[e].name in s.reg.addr ==> s.net[e].roster[nick] != n
    ensures HasStill(s.net, Removed(s, n).net, e, nick)
  {
    hide Inv, RemUpdates, DeliverAll, RemEntry;
    RemoveIs(s, n);
    RemEntryKeeps(s.net[e], n);
    if s.net[e].name in s.reg.addr { RemKeepsOthers(s.net[e], n, nick); }
  }

  lemma {:induction false} SweepLeaves(s: System, readings: seq<int>, k: nat, e: Endpoint, nick: string)
    requires k <= |s.reg.ping.Keys| <= |readings| && Inv(s) && e in s.net && nick in s.net[e].roster
    requires s.net[e].name in s.reg.addr
        ==> s.net[e].roster[nick] !in Expired(s.reg.ping, Keys(s.reg.ping.Keys), readings, k)
    ensures HasStill(s.net, SweptTo(s, readings, k).net, e, nick)
  {
    hide Inv, SweptTo, Removed, Keys, Expired;
    if k == 0 {
      SweptNone(s, readings);
    } else {
      var ks, before := Keys(s.reg.ping.Keys), SweptTo(s, readings, k - 1);
      ExpiredStep(s.reg.ping, ks, readings, k);
      SweepLeaves(s, readings, k - 1, e, nick);
      SweepKeeps(s, readings, k - 1);
      KeptGood(s, before);
      InvConsistent(s);
      SweptStep(s, readings, k);
      RegisteredBefore(s, readings, k);
      if SweptTo(s, readings, k) != before { RemovalLeaves(before, ks[k - 1], e, nick); }
    }
  }

  /** A check sees the stamps the sweep started with. */
  lemma RegisteredBefore(s: System, readings: seq<int>, k: nat)
    requires 0 < k <= |s.reg.ping.Keys| <= |readings| && Consistent(s.reg)
    ensures var ks, before := Keys(s.reg.ping.Keys), SweptTo(s, readings, k - 1);
      && before.reg.addr.Keys <= s.reg.addr.Keys
      && (ks[k - 1] in before.reg.ping
          ==> ks[k - 1] in s.reg.ping && before.reg.ping[ks[k - 1]] == s.reg.ping[ks[k - 1]])
  {
    hide SoundEntry, SweepFrom, Keys, Expired, DeliverAll;
    SweepExact(s.reg, s.server, Keys(s.reg.ping.Keys), readings, k - 1);
  }

  lemma CanSweep(s: System)
    ensures Enabled(s, Sweep(At(s.clock, |s.reg.ping.Keys|)))
    ensures Later(s.clock, At(s.clock, |s.reg.ping.Keys|)) == s.clock
  {
  }

  lemma SweptMaps(s: System)
    requires Inv(s) && Enabled(s, Sweep(At(s.clock, |s.reg.ping.Keys|)))
    ensures var t, gone := Next(s, Sweep(At(s.clock, |s.reg.ping.Keys|))), Overdue(s.reg.ping, s.clock);
      && t.server == s.server && t.clock == Later(s.clock, At(s.clock, |s.reg.ping.Keys|))
      && t.reg == Registry(s.reg.addr - gone, s.reg.ping - gone, s.reg.nicks - gone)
  {
    hide Inv, SweepFrom, Keys, Expired, DeliverAll, Overdue, Consistent, At, Rising, Later;
    InvConsistent(s);
    SweepExact(s.reg, s.server, Keys(s.reg.ping.Keys), At(s.clock, |s.reg.ping.Keys|), |s.reg.ping.Keys|);
    ExpiredAt(s.reg.ping, s.clock);
  }

  /** A sweep at the current time, in terms of maps. */
  lemma SweepNow(s: System)
    requires Inv(s)
    ensures Enabled(s, Sweep(At(s.clock, |s.reg.ping.Keys|)))
    ensures var t, gone := Next(s, Sweep(At(s.clock, |s.reg.ping.Keys|))), Overdue(s.reg.ping, s.clock);
      && Kept(s, t) && t.clock == s.clock && t.server == s.server
      && t.reg == Registry(s.reg.addr - gone, s.reg.ping - gone, s.reg.nicks - gone)
  {
    hide Inv, Kept, Overdue, Enabled, Next, At, Later;
    CanSweep(s);
    StepKeeps(s, Sweep(At(s.clock, |s.reg.ping.Keys|)));
    SweptMaps(s);
  }

  lemma SweepNowLeaves(s: System, e: Endpoint, nick: string)
    requires Enabled(s, Sweep(At(s.clock, |s.reg.ping.Keys|))) && Inv(s) && e in s.net && nick in s.net[e].roster
    requires s.net[e].name in s.reg.addr ==> s.net[e].roster[nick] !in Overdue(s.reg.ping, s.clock)
    ensures HasStill(s.net, Next(s, Sweep(At(s.clock, |s.reg.ping.Keys|))).net, e, nick)
  {
    hide Inv, SweptTo, Keys, Expired, Overdue, HasStill;
    ExpiredAt(s.reg.ping, s.clock);
    SweepLeaves(s, At(s.clock, |s.reg.ping.Keys|), |s.reg.ping.Keys|, e, nick);
  }

  /** A ping round whose pongs are all lost changes nothing. */
  lemma PongsLost(s: System)
    requires Inv(s)
    ensures Enabled(s, Ping({}, At(s.clock, |s.reg.addr.Keys|)))
    ensures Next(s, Ping({}, At(s.clock, |s.reg.addr.Keys|))) == s
  {
    hide Inv, Pinged, Keys;
    var readings := At(s.clock, |s.reg.addr.Keys|);
    PingIs(s, {}, readings);
    NothingStamped(s.reg.ping, Keys(s.reg.addr.Keys), readings, |readings|);
  }

  lemma {:induction false} NothingStamped(ping: map<string, int>, ks: seq<string>, readings: seq<int>, k: nat)
    requires k <= |ks| && |ks| <= |readings|
    ensures Stamped(ping, ks, {}, readings, k) == ping
  {
    if k > 0 { NothingStamped(ping, ks, readings, k - 1); }
  }

  // ----- a removed client comes back with a wrong entry

  const LONG: int := 5_000_000_001

  /** e registers without hearing so, times out after f has registered, and so
      is not told when f times out as well. Both run all the time, but their
      pongs are lost. */
  function Away(e: Endpoint, c: ClientState, f: Endpoint, d: ClientState): seq<Step> {
    Launches(e, c, f, d) + [Join(e, 0, false)] + [Sleep(LONG)] + [Join(f, LONG, true)]
    + [Ping({}, At(LONG, 2))] + [Sweep(At(LONG, 2))]
    + [Sleep(LONG)] + [Ping({}, At(2 * LONG, 1))] + [Sweep(At(2 * LONG, 1))]
  }

  /** Up to the registration of e. */
  ghost predicate Unheard(server: string, s: System, e: Endpoint, c: ClientState, f: Endpoint, d: ClientState) {
    && Inv(s) && Agrees(s) && ViewsMatch(s) && s.server == server && s.clock == 0 && s.gone == {}
    && e in s.net && SameProcess(c, s.net[e]) && !s.net[e].connected
    && f in s.net && SameProcess(d, s.net[f]) && !s.net[f].connected
    && s.reg.nicks == map[c.name := c.nickname] && s.reg.ping == map[c.name := 0] && s.reg.addr.Keys == {c.name}
  }

  lemma JoinsUnheard(server: string, e: Endpoint, c: ClientState, f: Endpoint, d: ClientState)
    requires TwoNew(server, e, c, f, d)
    ensures var steps := Launches(e, c, f, d) + [Join(e, 0, false)];
      IsRun(Start(server), steps) && Unheard(server, Run(Start(server), steps), e, c, f, d)
  {
    hide Inv, Agrees, ViewsMatch, Enabled, Joined, GoodProcess, Launches, Run, IsRun;
    var s := Launched(server, e, c, f, d);
    TwoLaunched(server, e, c, f, d);
    JoinsAgreeing(s, e, false);
    Onwards(server, Launches(e, c, f, d), s, Join(e, 0, false));
  }

  /** ... and to that of f, so much later that e is overdue. */
  ghost predicate Late(server: string, s: System, e: Endpoint, c: ClientState, d: ClientState) {
    && Inv(s) && Agrees(s) && s.server == server && s.clock == LONG
    && e in s.net && SameProcess(c, s.net[e]) && !s.net[e].connected
    && d.nickname in s.net[e].roster && s.net[e].roster[d.nickname] == d.name
    && s.reg.nicks == map[c.name := c.nickname, d.name := d.nickname]
    && s.reg.ping == map[c.name := 0, d.name := LONG] && s.reg.addr.Keys == {c.name, d.name}
  }

  lemma JoinsLate(server: string, e: Endpoint, c: ClientState, f: Endpoint, d: ClientState)
    requires TwoNew(server, e, c, f, d)
    ensures var steps := Launches(e, c, f, d) + [Join(e, 0, false)] + [Sleep(LONG)] + [Join(f, LONG, true)];
      IsRun(Start(server), steps) && Late(server, Run(Start(server), steps), e, c, d)
  {
    hide Unheard, Late, Enabled, Next, TwoNew, Launches, Run, IsRun;
    JoinsUnheard(server, e, c, f, d);
    var steps := Launches(e, c, f, d) + [Join(e, 0, false)];
    var s := Run(Start(server), steps);
    LateIsNext(server, s, e, c, f, d);
    Onwards(server, steps, s, Sleep(LONG));
    Onwards(server, steps + [Sleep(LONG)], Next(s, Sleep(LONG)), Join(f, LONG, true));
  }

  lemma LateIsNext(server: string, s: System, e: Endpoint, c: ClientState, f: Endpoint, d: ClientState)
    requires Unheard(server, s, e, c, f, d) && TwoNew(server, e, c, f, d)
    ensures Enabled(s, Sleep(LONG)) && Enabled(Next(s, Sleep(LONG)), Join(f, LONG, true))
    ensures Late(server, Next(Next(s, Sleep(LONG)), Join(f, LONG, true)), e, c, d)
  {
    hide Inv, Agrees, ViewsMatch, Joined, New;
    LaterKeeps(s, LONG);
    assert Next(s, Sleep(LONG)) == s.(clock := LONG);
    LateJoin(server, s.(clock := LONG), e, c, f, d);
  }

  lemma LateJoin(server: string, t: System, e: Endpoint, c: ClientState, f: Endpoint, d: ClientState)
    requires Unheard(server, t.(clock := 0), e, c, f, d) && Inv(t) && Agrees(t) && t.clock == LONG
    requires e != f && c.name != d.name && c.nickname != d.nickname
    ensures Enabled(t, Join(f, LONG, true))
    ensures Late(server, Next(t, Join(f, LONG, true)), e, c, d)
  {
    hide Inv, Agrees, ViewsMatch, Next, Enabled, HasJoined;
    JoinsAgreeing(t, f, true);
    var u := Next(t, Join(f, LONG, true));
    JoinedMaps(t, u, f);
    JoinedOther(t, u, f, e);
    SameMaps(c.name, c.nickname, d.name, d.nickname);
    HasEntry(u, e, d.name);
  }

  lemma JoinedMaps(s: System, t: System, e: Endpoint)
    requires e in s.net && HasJoined(s, t, e, true)
    ensures t.reg.nicks == Insert(s.reg.nicks, s.net[e].name, s.net[e].nickname)
    ensures t.reg.ping == Insert(s.reg.ping, s.net[e].name, s.clock)
    ensures t.reg.addr.Keys == s.reg.addr.Keys + {s.net[e].name}
    ensures t.server == s.server && t.clock == s.clock
  {
    hide Insert, SameProcess;
  }

  lemma JoinedOther(s: System, t: System, e: Endpoint, f: Endpoint)
    requires e in s.net && f in s.net && f != e && HasJoined(s, t, e, true)
    ensures f in t.net && SameProcess(s.net[f], t.net[f]) && t.net[f].connected == s.net[f].connected
  {
    hide Insert, SameProcess;
  }

  lemma SameMaps(a: string, x: string, b: string, y: string)
    requires a != b
    ensures Insert(map[a := x], b, y) == map[a := x, b := y]
    ensures Insert(map[a := 0], b, LONG) == map[a := 0, b := LONG]
  {
  }

  lemma HasEntry(s: System, e: Endpoint, n: string)
    requires Agrees(s) && e in s.net && s.net[e].name in s.reg.addr && n in s.reg.nicks
    ensures s.reg.nicks[n] in s.net[e].roster && s.net[e].roster[s.reg.nicks[n]] == n
  {
  }

  /** ... and to the sweep that removes e. */
  ghost predicate Forgotten(s: System, e: Endpoint, c: ClientState, d: ClientState) {
    && Inv(s) && Agrees(s) && s.clock == LONG
    && e in s.net && SameProcess(c, s.net[e]) && !s.net[e].connected
    && d.nickname in s.net[e].roster && s.net[e].roster[d.nickname] == d.name
    && s.reg.ping == map[d.name := LONG] && s.reg.nicks.Keys == s.reg.addr.Keys == {d.name}
  }

  lemma FirstOverdue(a: string, b: string)
    requires a != b
    ensures |map[a := 0, b := LONG].Keys| == 2 && Overdue(map[a := 0, b := LONG], LONG) == {a}
    ensures map[a := 0, b := LONG] - {a} == map[b := LONG]
    ensures |map[b := LONG].Keys| == 1 && Overdue(map[b := LONG], 2 * LONG) == {b}
  {
    assert map[a := 0, b := LONG].Keys == {a, b} && map[b := LONG].Keys == {b};
  }

  lemma KeptAgrees(s: System, t: System)
    requires Kept(s, t) && Agrees(s)
    ensures Inv(t) && Agrees(t)
  {
    hide Inv, Agrees, Sound, ViewsMatch;
  }

  lemma OneLeft<V>(m: map<string, V>, a: string, b: string)
    requires a != b && m.Keys == {a, b}
    ensures (m - {a}).Keys == {b}
  {
  }

  lemma TimesOut(server: string, s: System, steps: seq<Step>, e: Endpoint, c: ClientState, d: ClientState)
    requires Leads(server, steps, s) && Late(server, s, e, c, d) && c.name != d.name
    ensures Enabled(s, Sweep(At(LONG, 2)))
    ensures var t := Next(s, Sweep(At(LONG, 2)));
      Leads(server, steps + [Ping({}, At(LONG, 2))] + [Sweep(At(LONG, 2))], t) && Forgotten(t, e, c, d)
  {
    hide Inv, Agrees, Enabled, Next, Overdue, Leads, At, Kept;
    FirstOverdue(c.name, d.name);
    assert |s.reg.addr.Keys| == |s.reg.ping.Keys|;
    PongsLost(s);
    SweepNow(s);
    SweepNowLeaves(s, e, d.nickname);
    var t := Next(s, Sweep(At(LONG, 2)));
    KeptAgrees(s, t);
    OneLeft(s.reg.addr, c.name, d.name);
    OneLeft(s.reg.nicks, c.name, d.name);
    Onwards(server, steps, s, Ping({}, At(LONG, 2)));
    Onwards(server, steps + [Ping({}, At(LONG, 2))], s, Sweep(At(LONG, 2)));
  }

  /** ... and to the one that removes f. */
  ghost predicate Empty(s: System, e: Endpoint, c: ClientState, d: ClientState) {
    && Inv(s) && Agrees(s) && s.clock == 2 * LONG
    && e in s.net && SameProcess(c, s.net[e]) && !s.net[e].connected
    && d.nickname in s.net[e].roster && s.net[e].roster[d.nickname] == d.name
    && s.reg == EMPTY
  }

  lemma BothTimeOut(server: string, s: System, steps: seq<Step>, e: Endpoint, c: ClientState, d: ClientState)
    requires Leads(server, steps, s) && Forgotten(s, e, c, d) && c.name != d.name
    ensures var more := steps + [Sleep(LONG)] + [Ping({}, At(2 * LONG, 1))] + [Sweep(At(2 * LONG, 1))];
      IsRun(Start(server), more) && Empty(Run(Start(server), more), e, c, d)
  {
    hide Inv, Agrees, Sound, ViewsMatch, IsRun, Run, At;
    LaterKeeps(s, 2 * LONG);
    Onwards(server, steps, s, Sleep(LONG));
    var t := s.(clock := 2 * LONG);
    assert t == Next(s, Sleep(LONG));
    hide Enabled, Next;
    LastTimeOut(server, t, steps + [Sleep(LONG)], e, c, d);
  }

  lemma LastTimeOut(server: string, t: System, steps: seq<Step>, e: Endpoint, c: ClientState, d: ClientState)
    requires Leads(server, steps, t) && Inv(t) && Agrees(t) && Forgotten(t.(clock := LONG), e, c, d)
        && t.clock == 2 * LONG
    requires c.name != d.name
    ensures var more := steps + [Ping({}, At(2 * LONG, 1))] + [Sweep(At(2 * LONG, 1))];
      IsRun(Start(server), more) && Empty(Run(Start(server), more), e, c, d)
  {
    hide Inv, Agrees, Kept, At, Enabled, Next, Overdue, IsRun, Run;
    FirstOverdue(c.name, d.name);
    PongsLost(t);
    SweepNow(t);
    SweepNowLeaves(t, e, d.nickname);
    KeptAgrees(t, Next(t, Sweep(At(2 * LONG, 1))));
    Onwards(server, steps, t, Ping({}, At(2 * LONG, 1)));
    Onwards(server, steps + [Ping({}, At(2 * LONG, 1))], t, Sweep(At(2 * LONG, 1)));
  }

  /** Back again, e registers, and has an entry for f, which the server no longer
      knows: no run condition but that of the theorems is violated. */
  lemma ReturnKeepsStaleEntry(server: string, e: Endpoint, c: ClientState, f: Endpoint, d: ClientState)
    requires TwoNew(server, e, c, f, d)
    ensures IsRun(Start(server), Away(e, c, f, d))
    ensures var s := Run(Start(server), Away(e, c, f, d));
      && Agrees(s) && Enabled(s, Join(e, 2 * LONG, true))
      && var t := Next(s, Join(e, 2 * LONG, true));
        && e in t.net && t.net[e].name in t.reg.addr && d.nickname in t.net[e].roster
        && t.net[e].roster[d.nickname] == d.name && d.name !in t.reg.nicks
        && !Sound(t) && !Agrees(t)
  {
    hide Inv, Agrees, Sound, IsRun, Run, Launches, New, Late, Empty, Forgotten;
    JoinsLate(server, e, c, f, d);
    var steps := Launches(e, c, f, d) + [Join(e, 0, false)] + [Sleep(LONG)] + [Join(f, LONG, true)];
    var s := Run(Start(server), steps);
    TimesOut(server, s, steps, e, c, d);
    BothTimeOut(server, Next(s, Sweep(At(LONG, 2))), steps + [Ping({}, At(LONG, 2))] + [Sweep(At(LONG, 2))], e, c, d);
    ComesBack(Run(Start(server), Away(e, c, f, d)), e, c, d);
  }

  lemma ComesBack(s: System, e: Endpoint, c: ClientState, d: ClientState)
    requires Empty(s, e, c, d) && c.name != d.name
    ensures Agrees(s) && Enabled(s, Join(e, 2 * LONG, true))
    ensures var t := Next(s, Join(e, 2 * LONG, true));
      && e in t.net && t.net[e].name in t.reg.addr && d.nickname in t.net[e].roster
      && t.net[e].roster[d.nickname] == d.name && d.name !in t.reg.nicks
      && !Sound(t) && !Agrees(t)
  {
    hide Inv, Agrees, Sound, Joined, Enabled, AddEntries;
    CanJoin(s, e, true);
    JoinAt(s, e, 2 * LONG, true, e);
    var x := AfterReply(s, e, true)[e];
    AddKeys(x, Entries(Insert(s.reg.nicks, c.name, c.nickname)));
    StaleMeansUnsound(Next(s, Join(e, 2 * LONG, true)), e, d.nickname);
  }

  lemma StaleMeansUnsound(s: System, e: Endpoint, nick: string)
    requires e in s.net && s.net[e].name in s.reg.addr && nick in s.net[e].roster
        && s.net[e].roster[nick] !in s.reg.nicks
    ensures !Sound(s) && !Agrees(s)
  {
  }

  // ----- a reply is lost

  /** e retries: its own view and that of f then list nicknames twice. */
  lemma RetryDoublesViews(server: string, e: Endpoint, c: ClientState, f: Endpoint, d: ClientState)
    requires TwoNew(server, e, c, f, d)
    ensures var steps := Launches(e, c, f, d) + [Join(f, 0, true)] + [Join(e, 0, false)];
      && IsRun(Start(server), steps)
      && var s := Run(Start(server), steps);
        && ViewsMatch(s) && Enabled(s, Join(e, 0, true))
        && var t := Next(s, Join(e, 0, true));
          && Agrees(t) && !ViewsMatch(t)
          && e in t.net && !ViewMatches(t.net[e]) && f in t.net && !ViewMatches(t.net[f])
  {
    hide Inv, Agrees, ViewsMatch, New, Launches, Run, IsRun, Joined, Enabled, ViewMatches, NoStaleEntry;
    SecondMeets(server, e, c, f, d, false);
    var steps := Launches(e, c, f, d) + [Join(f, 0, true)] + [Join(e, 0, false)];
    var s := Run(Start(server), steps);
    CanJoin(s, e, true);
    StepKeeps(s, Join(e, 0, true));
    StepAgreesIff(s, Join(e, 0, true));
    JoinerViewOf(s, e, 0, true);
    RetrySeenBy(s, e, f);
    JoinViewsIff(s, e, 0, true);
  }

  /** Whoever is registered lists the retrying client once more. */
  lemma RetrySeenBy(s: System, e: Endpoint, f: Endpoint)
    requires Inv(s) && Agrees(s) && ViewsMatch(s) && Enabled(s, Join(e, s.clock, true))
    requires s.net[e].name in s.reg.addr && f in s.net && f != e && s.net[f].name in s.reg.addr
    ensures var t := Next(s, Join(e, s.clock, true)); f in t.net && !ViewMatches(t.net[f])
  {
    hide Joined, Registered, Wire, NicknameOf, AddressOf, Record, Clean, Entries, AddEntries, Consistent, Mirrors;
    JoinAt(s, e, s.clock, true, f);
    RegisteredAtHome(s, e);
    assert ProcessInv(s, e);
    BystanderView(AfterReply(s, e, true)[f], s.reg.nicks, s.net[e].nickname, s.net[e].name);
  }

  // ----- a registration overlaps a removal

  /** A number of regions of the same thread. */
  function Many(adds: bool, n: nat): seq<bool> {
    if n == 0 then [] else [adds] + Many(adds, n - 1)
  }

  lemma {:induction false} ManyFirst(adds: bool, n: nat, rest: seq<bool>, m: nat)
    ensures forall who :: Count(Many(adds, n) + rest, who) == (if adds == who then n else 0) + Count(rest, who)
    ensures RemovalsBefore(Many(adds, n) + rest, m) ==
      if m == 0 then 0 else if adds then (if m <= n then 0 else RemovalsBefore(rest, m - n))
          else n + RemovalsBefore(rest, m)
  {
    if n == 0 {
      assert Many(adds, 0) + rest == rest;
    } else {
      var schedule := Many(adds, n) + rest;
      assert schedule[0] == adds && schedule[1..] == Many(adds, n - 1) + rest;
      ManyFirst(adds, n - 1, rest, m);
      if adds && m > 0 { ManyFirst(adds, n - 1, rest, m - 1); }
    }
  }

  /** The removal broadcasts just before the registration does. */
  const INTO_THE_GAP: seq<bool> := Many(true, 3) + (Many(false, 1) + (Many(true, 1) + (Many(false, 3) + [])))

  lemma GapSchedule()
    ensures Count(INTO_THE_GAP, true) == 4 && Count(INTO_THE_GAP, false) == 4
    ensures RemovalsBefore(INTO_THE_GAP, 4) == 1
  {
    hide Many;
    ManyFirst(false, 3, [], 1);
    ManyFirst(true, 1, Many(false, 3) + [], 1);
    ManyFirst(false, 1, Many(true, 1) + (Many(false, 3) + []), 1);
    ManyFirst(true, 3, Many(false, 1) + (Many(true, 1) + (Many(false, 3) + [])), 4);
  }

  /** f has registered and its pongs have been lost for too long; e registers
      while f is being removed: the rosters do not agree afterwards. */
  lemma GapLeavesStaleEntry(server: string, e: Endpoint, c: ClientState, f: Endpoint, d: ClientState)
    requires TwoNew(server, e, c, f, d)
    ensures var steps := Launches(e, c, f, d) + [Join(f, 0, true)] + [Sleep(LONG)] + [Ping({}, At(LONG, 1))];
      && IsRun(Start(server), steps)
      && var s := Run(Start(server), steps);
        && d.name in Overdue(s.reg.ping, LONG)
        && e in s.net && Enabled(s, Join(e, LONG, true)) && Proper(s, e, d.name, LONG)
        && NicknameOf(Overlap(s, e, d.name, LONG).data).Some?
        && !Agrees(Completed(s, e, d.name, LONG, INTO_THE_GAP))
  {
    hide Agrees, New, Launches, Run, IsRun, Wire, Proper, Overlap, Completed, Enabled, Next, OneMet, NicknameOf,
        Inv, At;
    FirstMeets(server, e, c, f, d);
    var steps := Launches(e, c, f, d) + [Join(f, 0, true)];
    var s := Run(Start(server), steps);
    OverlapPossible(server, s, e, c, f, d);
    SleptThrough(server, s, steps, |s.reg.addr.Keys|);
    GapSchedule();
    OverlapAgreesIff(s.(clock := LONG), e, d.name, LONG, INTO_THE_GAP);
  }

  /** A long sleep and a ping round without pongs. */
  lemma SleptThrough(server: string, s: System, steps: seq<Step>, clients: nat)
    requires Leads(server, steps, s) && Inv(s) && s.clock == 0 && |s.reg.addr.Keys| == clients
    ensures Leads(server, steps + [Sleep(LONG)] + [Ping({}, At(LONG, clients))], s.(clock := LONG))
    ensures Inv(s.(clock := LONG))
  {
    hide Inv, Leads, At;
    LaterKeeps(s, LONG);
    var t := s.(clock := LONG);
    assert Enabled(s, Sleep(LONG)) && Next(s, Sleep(LONG)) == t;
    hide Enabled, Next;
    PongsLost(t);
    Onwards(server, steps, s, Sleep(LONG));
    Onwards(server, steps + [Sleep(LONG)], t, Ping({}, At(LONG, clients)));
  }

  lemma OverlapPossible(server: string, s: System, e: Endpoint, c: ClientState, f: Endpoint, d: ClientState)
    requires OneMet(server, s, e, c, f, d) && TwoNew(server, e, c, f, d)
    ensures Inv(s) && s.clock == 0 && |s.reg.addr.Keys| == 1
    ensures var t := s.(clock := LONG);
      e in t.net && Proper(t, e, d.name, LONG) && Enabled(t, Join(e, LONG, true)) && d.name in Overdue(t.reg.ping, LONG)
  {
    hide Inv, Agrees, ViewsMatch, New, Wire, Record, ListMsg, NicknameOf;
    var t := s.(clock := LONG);
    LaterKeeps(s, LONG);
    var k := Overlap(t, e, d.name, LONG);
    NoRosterYet(t, e);
    ListFits(t, e, true);
    InvNames(t, e);
    MoreNames(t.reg.nicks, c.name, c.nickname);
    FewerNames(FullNicks(k), d.name);
    SmallListFits(t.server, c.name, FullNicks(k));
    SmallListFits(t.server, c.name, FullNicks(k) - {d.name});
  }

  lemma NoRosterYet(s: System, e: Endpoint)
    requires Inv(s) && e in s.net && s.net[e].name !in s.reg.addr && s.net[e].name !in s.gone
    ensures s.net[e].roster == map[]
  {
    assert ProcessInv(s, e);
  }

  lemma InvNames(s: System, e: Endpoint)
    requires Inv(s) && e in s.net
    ensures GoodNames(s.reg.nicks) && |s.server| < 128 && GoodName(s.net[e].name) && GoodName(s.net[e].nickname)
  {
    hide CleanName;
    assert ProcessInv(s, e);
  }

  lemma FewerNames(nicks: map<string, string>, n: string)
    requires GoodNames(nicks)
    ensures GoodNames(nicks - {n}) && |nicks - {n}| <= |nicks|
  {
    hide GoodName;
    assert (nicks - {n}).Keys <= nicks.Keys;
    FewerKeys((nicks - {n}).Keys, nicks.Keys);
  }

  lemma {:induction false} FewerKeys(a: set<string>, b: set<string>)
    requires a <= b
    ensures |a| <= |b|
  {
    if a != {} {
      var x :| x in a;
      FewerKeys(a - {x}, b - {x});
    }
  }

  // ----- a client registers again while it is being removed

  /** The removal has erased the address only when the registration inserts. */
  const HALF_WAY: seq<bool> := Many(false, 2) + (Many(true, 3) + (Many(false, 2) + (Many(true, 1) + [])))

  lemma HalfWaySchedule()
    ensures Count(HALF_WAY, true) == 4 && Count(HALF_WAY, false) == 4
    ensures RemovalsBefore(HALF_WAY, 1) == 2 && RemovalsBefore(HALF_WAY, 2) == 2
  {
    hide Many;
    var tail := Many(false, 2) + (Many(true, 1) + []);
    ManyFirst(true, 1, [], 1);
    ManyFirst(false, 2, Many(true, 1) + [], 1);
    ManyFirst(true, 3, tail, 1);
    ManyFirst(true, 3, tail, 2);
    ManyFirst(false, 2, Many(true, 3) + tail, 1);
    ManyFirst(false, 2, Many(true, 3) + tail, 2);
  }

  /** The reply to e and then its pongs are lost, it tries again while it is
      being removed, and ends up with an address but without a ping entry. */
  lemma RetryIsHalfRemoved(server: string, e: Endpoint, c: ClientState, f: Endpoint, d: ClientState)
    requires TwoNew(server, e, c, f, d)
    ensures var steps := Launches(e, c, f, d) + [Join(e, 0, false)] + [Sleep(LONG)] + [Ping({}, At(LONG, 1))];
      && IsRun(Start(server), steps)
      && var s := Run(Start(server), steps);
        && c.name in Overdue(s.reg.ping, LONG)
        && Enabled(s, Join(e, LONG, true))
        && var k := Overlap(s, e, c.name, LONG);
          && k.src == k.gone == c.name && NicknameOf(k.data).Some?
          && var q := Play(k, Begin(k), HALF_WAY).reg;
            c.name in q.addr && c.name !in q.ping && !Consistent(q)
  {
    hide Agrees, ViewsMatch, New, Launches, Run, IsRun, Play, Inv, Enabled, Next, At, Record, Consistent, NicknameOf;
    JoinsUnheard(server, e, c, f, d);
    var steps := Launches(e, c, f, d) + [Join(e, 0, false)];
    var s := Run(Start(server), steps);
    SleptThrough(server, s, steps, |s.reg.addr.Keys|);
    HalfRemoved(s.(clock := LONG), e, c.name);
  }

  lemma HalfRemoved(s: System, e: Endpoint, n: string)
    requires Inv(s) && e in s.net && s.net[e].name == n && !s.net[e].connected && |s.reg.nicks| < ALWAYS_FITS
    ensures Enabled(s, Join(e, s.clock, true))
    ensures var k := Overlap(s, e, n, s.clock);
      && NicknameOf(k.data).Some?
      && var q := Play(k, Begin(k), HALF_WAY).reg;
        n in q.addr && n !in q.ping && !Consistent(q)
  {
    hide Inv, Play, Record, NicknameOf, AddressOf, Consistent, Enabled;
    ListFits(s, e, true);
    RegisteredAtHome(s, e);
    InvConsistent(s);
    HalfWaySchedule();
    SameNameRaceIff(Overlap(s, e, n, s.clock), HALF_WAY);
  }
}
