/** The theorems have something to talk about: as long as the lists fit, every
    process can register, and any two clients can meet and talk. */
module Meeting {
  import opened CppString
  import opened KeyOrder
  import opened Messages
  import opened WireFormat
  import opened NodeData
  import opened RosterText
  import opened Registries
  import opened Client
  import opened Network
  import opened RosterUpdates
  import opened Delivery
  import opened DefinedTexts
  import opened Protocol
  import opened JoinEffects
  import opened Theorems
  import Decimal

  /** The list of so many clients fits into a message, however long their names. */
  const ALWAYS_FITS: nat := 14

  lemma {:induction false} BodyBound(es: seq<Entry>)
    requires forall i :: 0 <= i < |es| ==> |es[i].0| < 128 && |es[i].1| < 128
    ensures |Body(es)| <= 256 * |es|
  {
    if es != [] { BodyBound(es[1..]); }
  }

  lemma SmallListFits(server: string, dest: string, nicks: map<string, string>)
    requires |server| < 128 && |dest| < 128 && GoodNames(nicks) && |nicks| <= ALWAYS_FITS
    ensures |Wire(ListMsg(server, dest, nicks))| <= CONTENT_LIMIT
  {
    hide Clean, Wire;
    var es := Entries(nicks);
    forall i | 0 <= i < |es| ensures |es[i].0| < 128 && |es[i].1| < 128 {
      assert Keys(nicks.Keys)[i] in Keys(nicks.Keys);
    }
    BodyBound(es);
    WireLength(ListMsg(server, dest, nicks));
    assert |Decimal.Print(|es|)| <= 2;
  }

  lemma ListFits(s: System, e: Endpoint, heard: bool)
    requires Inv(s) && e in s.net && !s.net[e].connected && |s.reg.nicks| < ALWAYS_FITS
    ensures Enabled(s, Join(e, s.clock, heard))
  {
    hide NicknameOf, AddressOf, Record, Wire, ListMsg, Consistent, GoodNames, Clean;
    var c := s.net[e];
    RegisteredAtHome(s, e);
    assert ProcessInv(s, e);
    MoreNames(s.reg.nicks, c.name, c.nickname);
    SmallListFits(s.server, c.name, Insert(s.reg.nicks, c.name, c.nickname));
  }

  /** The process at e has registered, and has heard so or not. */
  ghost predicate HasJoined(s: System, t: System, e: Endpoint, heard: bool)
    requires e in s.net
  {
    && t.net.Keys == s.net.Keys && t.net[e].connected == heard
    && (forall f :: f in s.net ==> SameProcess(s.net[f], t.net[f]))
    && (forall f :: f in s.net && f != e ==> t.net[f].connected == s.net[f].connected)
    && t.reg.nicks == Insert(s.reg.nicks, s.net[e].name, s.net[e].nickname)
    && t.reg.ping == Insert(s.reg.ping, s.net[e].name, s.clock)
    && t.reg.addr.Keys == s.reg.addr.Keys + {s.net[e].name}
    && t.gone == s.gone && t.server == s.server && t.clock == s.clock
  }

  /** Whoever runs and is not connected can register. */
  lemma CanJoin(s: System, e: Endpoint, heard: bool)
    requires Inv(s) && e in s.net && !s.net[e].connected && |s.reg.nicks| < ALWAYS_FITS
    ensures Enabled(s, Join(e, s.clock, heard))
    ensures HasJoined(s, Next(s, Join(e, s.clock, heard)), e, heard)
  {
    hide Inv, Record, Wire, AfterAdd, Joined, Registered, Consistent, GoodRegistry, Enabled, Insert, NicknameOf;
    ListFits(s, e, heard);
    JoinIs(s, e, s.clock, heard);
    var c := s.net[e];
    AddedKeys(s.reg.addr, c.name, Record(c.nickname, c.ip, c.port));
    forall f | f in s.net
      ensures var x := AfterReply(s, e, heard)[f];
        var y := AfterAdd(x, Registered(s, e, s.clock), c.name, c.nickname);
        SameProcess(x, y) && x.connected == y.connected
    {
      AfterAddKeeps(AfterReply(s, e, heard)[f], Registered(s, e, s.clock), c.name, c.nickname);
    }
  }

  lemma MoreNames(nicks: map<string, string>, name: string, nick: string)
    requires GoodNames(nicks) && GoodName(name) && GoodName(nick) && |nicks| < ALWAYS_FITS
    ensures GoodNames(Insert(nicks, name, nick)) && |Insert(nicks, name, nick)| <= ALWAYS_FITS
  {
    hide GoodName;
  }

  /** A first registration under a nickname nobody has keeps agreement. */
  lemma JoinsAgreeing(s: System, e: Endpoint, heard: bool)
    requires Inv(s) && Agrees(s) && e in s.net && !s.net[e].connected && |s.reg.nicks| < ALWAYS_FITS
    requires s.net[e].name !in s.reg.addr && s.net[e].name !in s.gone && s.net[e].nickname !in s.reg.nicks.Values
    ensures Enabled(s, Join(e, s.clock, heard))
    ensures var t := Next(s, Join(e, s.clock, heard));
      Inv(t) && Agrees(t) && HasJoined(s, t, e, heard) && (ViewsMatch(s) ==> ViewsMatch(t))
  {
    hide Inv, Agrees, ViewsMatch, HasJoined, JoinOk, Enabled, Next;
    CanJoin(s, e, heard);
    JoinInOrder(s, e, s.clock, heard);
    StepKeeps(s, Join(e, s.clock, heard));
    StepAgreesIff(s, Join(e, s.clock, heard));
    if ViewsMatch(s) { StepViewsIff(s, Join(e, s.clock, heard)); }
  }

  // ----- runs, step by step

  /** The steps lead from the start of the server to s. */
  ghost predicate Leads(server: string, steps: seq<Step>, s: System) {
    IsRun(Start(server), steps) && Run(Start(server), steps) == s
  }

  lemma {:induction false} OneMore(s: System, steps: seq<Step>, step: Step)
    requires IsRun(s, steps) && Enabled(Run(s, steps), step)
    ensures IsRun(s, steps + [step]) && Run(s, steps + [step]) == Next(Run(s, steps), step)
    decreases |steps|
  {
    hide Enabled, Next;
    if steps == [] {
      assert ([] + [step])[1..] == [] && IsRun(Next(s, step), []);
    } else {
      assert (steps + [step])[1..] == steps[1..] + [step];
      OneMore(Next(s, steps[0]), steps[1..], step);
    }
  }

  lemma Onwards(server: string, steps: seq<Step>, s: System, step: Step)
    requires Leads(server, steps, s) && Enabled(s, step)
    ensures Leads(server, steps + [step], Next(s, step))
  {
    hide Enabled, Next, IsRun, Run;
    OneMore(Start(server), steps, step);
  }

  /** A process that has just started. */
  ghost predicate New(e: Endpoint, c: ClientState) {
    GoodProcess(e, c) && !c.connected && c.roster == map[] && c.events == []
  }

  /** Two new processes that can become agreeing clients. */
  ghost predicate TwoNew(server: string, e: Endpoint, c: ClientState, f: Endpoint, d: ClientState) {
    GoodServer(server) && New(e, c) && New(f, d) && e != f && c.name != d.name && c.nickname != d.nickname
  }

  function Launches(e: Endpoint, c: ClientState, f: Endpoint, d: ClientState): seq<Step> {
    [Launch(e, c)] + [Launch(f, d)]
  }

  function Launched(server: string, e: Endpoint, c: ClientState, f: Endpoint, d: ClientState): System {
    System(server, EMPTY, map[e := c, f := d], 0, {c.name, d.name}, {})
  }

  lemma TwoLaunched(server: string, e: Endpoint, c: ClientState, f: Endpoint, d: ClientState)
    requires TwoNew(server, e, c, f, d)
    ensures var s := Launched(server, e, c, f, d);
      Leads(server, Launches(e, c, f, d), s) && Inv(s) && Agrees(s) && ViewsMatch(s)
  {
    hide GoodProcess;
    StartIsGood(server);
    var s0 := Start(server);
    assert Leads(server, [], s0);
    var s1 := Next(s0, Launch(e, c));
    assert s1.net == map[e := c] && s1.used == {c.name};
    assert {} + {c.name} + {d.name} == {c.name, d.name};
    Onwards(server, [], s0, Launch(e, c));
    Onwards(server, [] + [Launch(e, c)], s1, Launch(f, d));
    assert [] + [Launch(e, c)] + [Launch(f, d)] == Launches(e, c, f, d);
    assert Next(s1, Launch(f, d)) == Launched(server, e, c, f, d);
  }

  /** Two clients of different names and nicknames start and register. */
  function Greeting(e: Endpoint, c: ClientState, f: Endpoint, d: ClientState): seq<Step> {
    Launches(e, c, f, d) + [Join(f, 0, true)] + [Join(e, 0, true)]
  }

  /** One of the two processes, f, has registered and heard so. */
  ghost predicate OneMet(server: string, s: System, e: Endpoint, c: ClientState, f: Endpoint, d: ClientState) {
    && Inv(s) && Agrees(s) && ViewsMatch(s) && s.server == server && s.clock == 0 && s.gone == {}
    && e in s.net && SameProcess(c, s.net[e]) && !s.net[e].connected
    && f in s.net && SameProcess(d, s.net[f]) && s.net[f].connected
    && s.reg.nicks == map[d.name := d.nickname] && s.reg.ping == map[d.name := 0] && s.reg.addr.Keys == {d.name}
  }

  lemma FirstMeets(server: string, e: Endpoint, c: ClientState, f: Endpoint, d: ClientState)
    requires TwoNew(server, e, c, f, d)
    ensures IsRun(Start(server), Launches(e, c, f, d) + [Join(f, 0, true)])
    ensures OneMet(server, Run(Start(server), Launches(e, c, f, d) + [Join(f, 0, true)]), e, c, f, d)
  {
    hide Inv, Agrees, ViewsMatch, Enabled, Joined, GoodProcess, Launches, Run, IsRun;
    var s := Launched(server, e, c, f, d);
    TwoLaunched(server, e, c, f, d);
    JoinsAgreeing(s, f, true);
    Onwards(server, Launches(e, c, f, d), s, Join(f, 0, true));
  }

  /** Both have. */
  ghost predicate BothMet(server: string, s: System, e: Endpoint, c: ClientState, f: Endpoint, d: ClientState,
      heard: bool) {
    && Inv(s) && Agrees(s) && ViewsMatch(s) && s.server == server && s.clock == 0 && s.gone == {}
    && e in s.net && SameProcess(c, s.net[e]) && s.net[e].connected == heard
    && f in s.net && SameProcess(d, s.net[f]) && s.net[f].connected
    && s.reg.nicks == map[c.name := c.nickname, d.name := d.nickname] && s.reg.addr.Keys == {c.name, d.name}
  }

  lemma SecondMeets(server: string, e: Endpoint, c: ClientState, f: Endpoint, d: ClientState, heard: bool)
    requires TwoNew(server, e, c, f, d)
    ensures var steps := Launches(e, c, f, d) + [Join(f, 0, true)] + [Join(e, 0, heard)];
      IsRun(Start(server), steps) && BothMet(server, Run(Start(server), steps), e, c, f, d, heard)
  {
    hide Inv, Agrees, ViewsMatch, Enabled, Joined, New, Launches, Run, IsRun;
    FirstMeets(server, e, c, f, d);
    var steps := Launches(e, c, f, d) + [Join(f, 0, true)];
    var s := Run(Start(server), steps);
    JoinsAgreeing(s, e, heard);
    Onwards(server, steps, s, Join(e, 0, heard));
  }

  /** Any two new processes end up agreeing with the server's map of the two. */
  lemma TwoMeet(server: string, e: Endpoint, c: ClientState, f: Endpoint, d: ClientState)
    requires TwoNew(server, e, c, f, d)
    ensures IsRun(Start(server), Greeting(e, c, f, d))
    ensures BothMet(server, Run(Start(server), Greeting(e, c, f, d)), e, c, f, d, true)
  {
    hide TwoNew, BothMet, Run, IsRun, Launches;
    SecondMeets(server, e, c, f, d, true);
  }

  /** Then every plain text from one to the other arrives and is acknowledged. */
  lemma MeetAndTalk(server: string, e: Endpoint, c: ClientState, f: Endpoint, d: ClientState, text: string)
    requires TwoNew(server, e, c, f, d) && PlainText(text) && '@' !in c.nickname
    ensures IsRun(Start(server), Greeting(e, c, f, d))
    ensures var s := Run(Start(server), Greeting(e, c, f, d));
      && e in s.net && f in s.net
      && var o := SendText(server, s.reg, s.net, e, d.nickname, text);
        && o.ret == RetSuccess
        && o.net == s.net[f := s.net[f].(events := s.net[f].events + [NewMessage(c.nickname, text)])]
  {
    hide Inv, Agrees, ViewsMatch, SendText, PlainText, TwoNew, Greeting, Run, IsRun;
    TwoMeet(server, e, c, f, d);
    var s := Run(Start(server), Greeting(e, c, f, d));
    AgreeingMeansConnected(s, e, f);
    DeliveredIffPlain(server, s.reg, s.net, e, d.nickname, text, f);
  }

  /** A bar as text is no step that the code has a result for. */
  lemma NobodySendsABar(server: string, e: Endpoint, c: ClientState, f: Endpoint, d: ClientState)
    requires TwoNew(server, e, c, f, d) && '@' !in c.nickname
    ensures IsRun(Start(server), Greeting(e, c, f, d))
    ensures var s := Run(Start(server), Greeting(e, c, f, d));
      && e in s.net && SendText(server, s.reg, s.net, e, d.nickname, "|").ret == Undefined
      && !Enabled(s, Text(e, d.nickname, "|"))
      && Enabled(s, Text(e, d.nickname, "a-b|c"))
  {
    hide Inv, Agrees, ViewsMatch, SendText, TwoNew, Greeting, Run, IsRun, Understood, Defined, Seen;
    TwoMeet(server, e, c, f, d);
    var s := Run(Start(server), Greeting(e, c, f, d));
    AgreeingMeansConnected(s, e, f);
    DefinedIffUnderstood(server, s.reg, s.net, e, d.nickname, "|", f);
    DefinedIffUnderstood(server, s.reg, s.net, e, d.nickname, "a-b|c", f);
    var room := Room(s.net[e], d.name, server);
    BarIsNotUnderstood(room);
    BarMayBeUnderstood(room);
    TextOutcome(server, s.reg, s.net, e, d.nickname, "|", f);
    NothingSeen(room);
  }

  /** When the receiver has crashed, the sender is left without a result, whatever
      the text. */
  lemma NobodyToTalkTo(server: string, e: Endpoint, c: ClientState, f: Endpoint, d: ClientState, text: string)
    requires TwoNew(server, e, c, f, d)
    ensures var steps := Greeting(e, c, f, d) + [Crash(f)];
      && IsRun(Start(server), steps)
      && var s := Run(Start(server), steps);
        && e in s.net && d.nickname in s.net[e].roster
        && SendText(server, s.reg, s.net, e, d.nickname, text).ret == Undefined
        && !Enabled(s, Text(e, d.nickname, text))
  {
    hide TwoNew, Greeting, Run, IsRun, BothMet, Enabled, Next, SendText;
    TwoMeet(server, e, c, f, d);
    var s := Run(Start(server), Greeting(e, c, f, d));
    AfterCrash(server, s, e, c, f, d, text);
    OneMore(Start(server), Greeting(e, c, f, d), Crash(f));
  }

  lemma AfterCrash(server: string, s: System, e: Endpoint, c: ClientState, f: Endpoint, d: ClientState, text: string)
    requires BothMet(server, s, e, c, f, d, true) && TwoNew(server, e, c, f, d)
    ensures Enabled(s, Crash(f))
    ensures var t := Next(s, Crash(f));
      && e in t.net && d.nickname in t.net[e].roster
      && SendText(server, t.reg, t.net, e, d.nickname, text).ret == Undefined
      && !Enabled(t, Text(e, d.nickname, text))
  {
    hide Inv, Agrees, ViewsMatch, New, SendText, Connected;
    AgreeingMeansConnected(s, e, f);
    StepKeeps(s, Crash(f));
    AgreesIsSound(s);
    assert s.(net := s.net - {f}) == Next(s, Crash(f));
    hide Enabled, Next;
    WithoutReceiver(s, e, d.nickname, f, text);
  }

  lemma WithoutReceiver(s: System, e: Endpoint, dest: string, f: Endpoint, text: string)
    requires var t := s.(net := s.net - {f}); Inv(t) && Sound(t)
    requires Connected(s.server, s.reg, s.net, e, dest, f) && e != f
    requires s.net[e].connected && s.net[e].name in s.reg.addr
    ensures var t := s.(net := s.net - {f});
      && dest in t.net[e].roster && SendText(s.server, t.reg, t.net, e, dest, text).ret == Undefined
      && !Enabled(t, Text(e, dest, text))
  {
    hide Inv, Sound, SendText, Defined, GoodName, GoodServer, AddressOf;
    var t := s.(net := s.net - {f});
    RegisteredIsEquipped(t, e, dest);
    UsableAddresses(t);
    OutOfReach(s.server, t.reg, t.net, e, dest, text);
    UndefinedIsNotDefined(t.net, SendText(s.server, t.reg, t.net, e, dest, text));
  }
}
