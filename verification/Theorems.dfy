/** The main results about whole runs of the system. */
module Theorems {
  import opened CppString
  import opened Messages
  import opened NodeData
  import opened Registries
  import opened Client
  import opened Network
  import opened RosterUpdates
  import opened Delivery
  import opened DefinedTexts
  import opened Protocol
  import opened JoinEffects
  import opened SystemRuns

  lemma StartIsGood(server: string)
    requires GoodServer(server)
    ensures Inv(Start(server)) && Sound(Start(server)) && Agrees(Start(server)) && ViewsMatch(Start(server))
  {
  }

  /** Every step keeps the invariant, and only joins can spoil the rosters. */
  lemma StepKeeps(s: System, step: Step)
    requires Inv(s) && Enabled(s, step)
    ensures Inv(Next(s, step)) && (!step.Join? ==> Kept(s, Next(s, step)))
  {
    hide Inv, Sound, Agrees, ViewsMatch, Joined, Pinged, SendText;
    match step
    case Launch(e, c) => LaunchKeeps(s, e, c);
    case Crash(e) => CrashKeeps(s, e);
    case Join(e, now, heard) => JoinKeepsInv(s, e, now, heard);
    case Ping(answered, readings) =>
      PingKeeps(s, answered, readings);
      PingIs(s, answered, readings);
      ClockGoesOn(s, readings);
    case Sweep(readings) =>
      SweepKeeps(s, readings, |s.reg.ping.Keys|);
      ClockGoesOn(s, readings);
      LaterKeeps(SweptTo(s, readings, |s.reg.ping.Keys|), Later(s.clock, readings));
    case Sleep(duration) => LaterKeeps(s, s.clock + duration);
    case Text(e, dest, text) => TextKeeps(s, e, dest, text);
  }

  // ----- roster agreement

  ghost predicate AlwaysAgrees(s: System, steps: seq<Step>)
    requires IsRun(s, steps)
    decreases |steps|
  {
    Agrees(s) && (steps == [] || AlwaysAgrees(Next(s, steps[0]), steps[1..]))
  }

  ghost predicate JoinsOk(s: System, steps: seq<Step>)
    requires IsRun(s, steps)
    decreases |steps|
  {
    steps == [] || ((steps[0].Join? ==> JoinOk(s, steps[0].at)) && JoinsOk(Next(s, steps[0]), steps[1..]))
  }

  lemma StepAgreesIff(s: System, step: Step)
    requires Inv(s) && Agrees(s) && Enabled(s, step)
    ensures Agrees(Next(s, step)) <==> (step.Join? ==> JoinOk(s, step.at))
  {
    hide Inv, Agrees, Joined, JoinOk;
    StepKeeps(s, step);
    if step.Join? { JoinAgreesIff(s, step.at, step.now, step.heard); }
  }

  lemma {:induction false} AgreementFrom(s: System, steps: seq<Step>)
    requires Inv(s) && Agrees(s) && IsRun(s, steps)
    ensures AlwaysAgrees(s, steps) <==> JoinsOk(s, steps)
    decreases |steps|
  {
    hide Inv, Agrees, JoinOk, Next, Enabled;
    if steps != [] {
      var t := Next(s, steps[0]);
      StepKeeps(s, steps[0]);
      StepAgreesIff(s, steps[0]);
      if Agrees(t) { AgreementFrom(t, steps[1..]); } else { AlwaysMeansNow(t, steps[1..]); }
    }
  }

  lemma AlwaysMeansNow(s: System, steps: seq<Step>)
    requires IsRun(s, steps)
    ensures AlwaysAgrees(s, steps) ==> Agrees(s)
  {
  }

  /** In every run, the rosters of all registered clients are the inverse of the
      server's map after every step if and only if every attempt to register is
      a repeated one or brings an unused nickname and no stale entry. */
  lemma RosterAgreementIff(server: string, steps: seq<Step>)
    requires GoodServer(server) && IsRun(Start(server), steps)
    ensures AlwaysAgrees(Start(server), steps) <==> JoinsOk(Start(server), steps)
  {
    StartIsGood(server);
    AgreementFrom(Start(server), steps);
  }

  /** Nobody registers under a name the server has removed. */
  ghost predicate NoReturn(s: System, steps: seq<Step>)
    requires IsRun(s, steps)
    decreases |steps|
  {
    steps == [] || (
      && (steps[0].Join? ==> s.net[steps[0].at].name !in s.gone)
      && NoReturn(Next(s, steps[0]), steps[1..]))
  }

  /** Nobody registers for the first time with a nickname in use. */
  ghost predicate NewNicks(s: System, steps: seq<Step>)
    requires IsRun(s, steps)
    decreases |steps|
  {
    steps == [] || (
      && (steps[0].Join?
          ==> s.net[steps[0].at].name in s.reg.addr || s.net[steps[0].at].nickname !in s.reg.nicks.Values)
      && NewNicks(Next(s, steps[0]), steps[1..]))
  }

  lemma FirstTimersAreClean(s: System, e: Endpoint)
    requires Inv(s) && e in s.net && s.net[e].name !in s.reg.addr && s.net[e].name !in s.gone
    ensures NoStaleEntry(s, e)
  {
    hide NicknameOf, AddressOf, Record, GoodProcess, Consistent, GoodRegistry;
    assert ProcessInv(s, e);
  }

  /** With distinct nicknames and without returning names, agreement is never
      lost, whatever joins, retries, crashes, pings, sweeps and texts (of those
      that the code has a result for) happen. */
  lemma {:induction false} DistinctNicksAgree(s: System, steps: seq<Step>)
    requires Inv(s) && Agrees(s) && IsRun(s, steps) && NoReturn(s, steps) && NewNicks(s, steps)
    ensures AlwaysAgrees(s, steps)
    decreases |steps|
  {
    hide Inv, Agrees, Next, Enabled, NoStaleEntry;
    if steps != [] {
      StepKeeps(s, steps[0]);
      StepAgreesIff(s, steps[0]);
      if steps[0].Join? { JoinInOrder(s, steps[0].at, steps[0].now, steps[0].heard); }
      DistinctNicksAgree(Next(s, steps[0]), steps[1..]);
    }
  }

  lemma JoinInOrder(s: System, e: Endpoint, now: int, heard: bool)
    requires Inv(s) && Enabled(s, Join(e, now, heard))
    requires s.net[e].name in s.reg.addr || (s.net[e].name !in s.gone && s.net[e].nickname !in s.reg.nicks.Values)
    ensures JoinOk(s, e)
  {
    hide Inv, NoStaleEntry, Wire, Registered;
    if s.net[e].name !in s.reg.addr { FirstTimersAreClean(s, e); }
  }

  /** The same, from the start of the server. */
  lemma RosterAgreement(server: string, steps: seq<Step>)
    requires GoodServer(server) && IsRun(Start(server), steps)
    requires NoReturn(Start(server), steps) && NewNicks(Start(server), steps)
    ensures AlwaysAgrees(Start(server), steps)
  {
    StartIsGood(server);
    DistinctNicksAgree(Start(server), steps);
  }

  // ----- roster safety with repeated nicknames

  ghost predicate AlwaysSound(s: System, steps: seq<Step>)
    requires IsRun(s, steps)
    decreases |steps|
  {
    Sound(s) && (steps == [] || AlwaysSound(Next(s, steps[0]), steps[1..]))
  }

  /** Every attempt to register comes from a process without a wrong entry. */
  ghost predicate JoinsClean(s: System, steps: seq<Step>)
    requires IsRun(s, steps)
    decreases |steps|
  {
    steps == [] || ((steps[0].Join? ==> NoStaleEntry(s, steps[0].at)) && JoinsClean(Next(s, steps[0]), steps[1..]))
  }

  lemma StepSoundIff(s: System, step: Step)
    requires Inv(s) && Sound(s) && Enabled(s, step)
    ensures Sound(Next(s, step)) <==> (step.Join? ==> NoStaleEntry(s, step.at))
  {
    hide Inv, Sound, Joined, NoStaleEntry;
    StepKeeps(s, step);
    if step.Join? { JoinSoundIff(s, step.at, step.now, step.heard); }
  }

  lemma {:induction false} SoundFrom(s: System, steps: seq<Step>)
    requires Inv(s) && Sound(s) && IsRun(s, steps)
    ensures AlwaysSound(s, steps) <==> JoinsClean(s, steps)
    decreases |steps|
  {
    hide Inv, Sound, Next, Enabled, NoStaleEntry;
    if steps != [] {
      var t := Next(s, steps[0]);
      StepKeeps(s, steps[0]);
      StepSoundIff(s, steps[0]);
      if Sound(t) { SoundFrom(t, steps[1..]); } else { SoundMeansNow(t, steps[1..]); }
    }
  }

  lemma SoundMeansNow(s: System, steps: seq<Step>)
    requires IsRun(s, steps)
    ensures AlwaysSound(s, steps) ==> Sound(s)
  {
  }

  /** In every run, even when nicknames repeat: no registered client ever maps a
      nickname to a name the server no longer has or that bears another one, if
      and only if nobody tries to register while holding such an entry. */
  lemma RosterSafetyIff(server: string, steps: seq<Step>)
    requires GoodServer(server) && IsRun(Start(server), steps)
    ensures AlwaysSound(Start(server), steps) <==> JoinsClean(Start(server), steps)
  {
    StartIsGood(server);
    SoundFrom(Start(server), steps);
  }

  lemma {:induction false} NoReturnIsClean(s: System, steps: seq<Step>)
    requires Inv(s) && Sound(s) && IsRun(s, steps) && NoReturn(s, steps)
    ensures JoinsClean(s, steps)
    decreases |steps|
  {
    hide Inv, Sound, Next, Enabled, NoStaleEntry;
    if steps != [] {
      StepKeeps(s, steps[0]);
      if steps[0].Join? { JoinStaysSound(s, steps[0].at, steps[0].now, steps[0].heard); }
      NoReturnIsClean(Next(s, steps[0]), steps[1..]);
    }
  }

  lemma JoinStaysSound(s: System, e: Endpoint, now: int, heard: bool)
    requires Inv(s) && Sound(s) && Enabled(s, Join(e, now, heard))
    requires s.net[e].name in s.reg.addr || s.net[e].name !in s.gone
    ensures NoStaleEntry(s, e) && Sound(Next(s, Join(e, now, heard)))
  {
    hide Inv, Sound, NoStaleEntry, Wire, Registered, Joined;
    JoinSoundIff(s, e, now, heard);
    if s.net[e].name in s.reg.addr { OwnRosterSound(s, e); } else { FirstTimersAreClean(s, e); }
  }

  /** In particular if nobody registers under a name the server has removed. */
  lemma RosterSafety(server: string, steps: seq<Step>)
    requires GoodServer(server) && IsRun(Start(server), steps) && NoReturn(Start(server), steps)
    ensures AlwaysSound(Start(server), steps)
  {
    StartIsGood(server);
    NoReturnIsClean(Start(server), steps);
    RosterSafetyIff(server, steps);
  }

  // ----- views

  /** Every attempt to register is the first of its process. */
  ghost predicate NoRetry(s: System, steps: seq<Step>)
    requires IsRun(s, steps)
    decreases |steps|
  {
    steps == [] || (
      && (steps[0].Join? ==> s.net[steps[0].at].name !in s.reg.addr)
      && NoRetry(Next(s, steps[0]), steps[1..]))
  }

  ghost predicate AlwaysViewed(s: System, steps: seq<Step>)
    requires IsRun(s, steps)
    decreases |steps|
  {
    ViewsMatch(s) && (steps == [] || AlwaysViewed(Next(s, steps[0]), steps[1..]))
  }

  lemma StepViewsIff(s: System, step: Step)
    requires Inv(s) && Agrees(s) && ViewsMatch(s) && Enabled(s, step)
    requires step.Join? ==> s.net[step.at].name in s.reg.addr || s.net[step.at].nickname !in s.reg.nicks.Values
    requires step.Join? ==> s.net[step.at].name !in s.gone
    ensures Agrees(Next(s, step))
    ensures ViewsMatch(Next(s, step)) <==> (step.Join? ==> s.net[step.at].name !in s.reg.addr)
  {
    hide Inv, Agrees, ViewsMatch, Sound, Joined, JoinOk;
    StepKeeps(s, step);
    StepAgreesIff(s, step);
    AgreesIsSound(s);
    if step.Join? {
      JoinInOrder(s, step.at, step.now, step.heard);
      JoinViewsIff(s, step.at, step.now, step.heard);
    }
  }

  lemma {:induction false} ViewsFrom(s: System, steps: seq<Step>)
    requires Inv(s) && Agrees(s) && ViewsMatch(s) && IsRun(s, steps)
    requires NoReturn(s, steps) && NewNicks(s, steps)
    ensures AlwaysViewed(s, steps) <==> NoRetry(s, steps)
    decreases |steps|
  {
    hide Inv, Agrees, ViewsMatch, Next, Enabled;
    if steps != [] {
      var t := Next(s, steps[0]);
      StepKeeps(s, steps[0]);
      StepViewsIff(s, steps[0]);
      if ViewsMatch(t) { ViewsFrom(t, steps[1..]); } else { ViewedMeansNow(t, steps[1..]); }
    }
  }

  lemma ViewedMeansNow(s: System, steps: seq<Step>)
    requires IsRun(s, steps)
    ensures AlwaysViewed(s, steps) ==> ViewsMatch(s)
  {
  }

  /** With distinct nicknames and without returning names, every view lists
      exactly the keys of its client's roster after every step if and only if
      nobody registers twice. */
  lemma ViewRefinementIff(server: string, steps: seq<Step>)
    requires GoodServer(server) && IsRun(Start(server), steps)
    requires NoReturn(Start(server), steps) && NewNicks(Start(server), steps)
    ensures AlwaysViewed(Start(server), steps) <==> NoRetry(Start(server), steps)
  {
    StartIsGood(server);
    ViewsFrom(Start(server), steps);
  }

  // ----- end-to-end delivery

  lemma {:induction false} RunKeepsInv(s: System, steps: seq<Step>)
    requires Inv(s) && IsRun(s, steps)
    ensures Inv(Run(s, steps))
    decreases |steps|
  {
    hide Inv, Agrees, Next, Enabled;
    if steps != [] {
      StepKeeps(s, steps[0]);
      RunKeepsInv(Next(s, steps[0]), steps[1..]);
    }
  }

  lemma AgreeingMeansConnected(s: System, e: Endpoint, f: Endpoint)
    requires Inv(s) && Agrees(s) && e in s.net && f in s.net && s.net[e].connected
    requires s.net[e].name in s.reg.addr && s.net[f].name in s.reg.addr
    ensures Connected(s.server, s.reg, s.net, e, s.net[f].nickname, f)
  {
    hide NicknameOf, AddressOf, Record, Clean;
    assert ProcessInv(s, e) && ProcessInv(s, f);
    RegisteredAtHome(s, f);
  }

  /** In whatever agreeing state a run ends, a registered and connected client
      that sends text to the nickname of a registered client reaches exactly that
      client at its registered address, makes it raise the sender's nickname and
      the text, and returns success, if and only if the text is plain (not empty,
      without reserved characters, below 1024 characters) and the sender's
      nickname without `@`. */
  lemma EndToEndDelivery(server: string, steps: seq<Step>, e: Endpoint, f: Endpoint, text: string)
    requires GoodServer(server) && IsRun(Start(server), steps) && Agrees(Run(Start(server), steps))
    requires var s := Run(Start(server), steps);
      && e in s.net && s.net[e].connected && s.net[e].name in s.reg.addr
      && f in s.net && s.net[f].name in s.reg.addr
    ensures var s := Run(Start(server), steps);
      SendText(s.server, s.reg, s.net, e, s.net[f].nickname, text) ==
        Outcome(RetSuccess,
                s.net[f := s.net[f].(events := s.net[f].events + [NewMessage(s.net[e].nickname, text)])],
                Some(Packet(f.ip, f.port, Forwarded(s.net[e], s.net[f].name, s.server, text))))
      <==> PlainText(text) && '@' !in s.net[e].nickname
  {
    hide Inv, Agrees, SendText, PlainText, Connected;
    StartIsGood(server);
    RunKeepsInv(Start(server), steps);
    var s := Run(Start(server), steps);
    AgreeingMeansConnected(s, e, f);
    DeliveredIffPlain(s.server, s.reg, s.net, e, s.net[f].nickname, text, f);
  }

  /** In such a state the text has a result in the code if and only if it is
      understood. */
  lemma TextEnabledIff(server: string, steps: seq<Step>, e: Endpoint, f: Endpoint, text: string)
    requires GoodServer(server) && IsRun(Start(server), steps) && Agrees(Run(Start(server), steps))
    requires var s := Run(Start(server), steps);
      && e in s.net && s.net[e].connected && s.net[e].name in s.reg.addr && '@' !in s.net[e].nickname
      && f in s.net && s.net[f].name in s.reg.addr
    ensures var s := Run(Start(server), steps);
      Enabled(s, Text(e, s.net[f].nickname, text)) <==>
        var room := Room(s.net[e], s.net[f].name, s.server);
        room >= 3564 && Understood(text, room)
  {
    hide Inv, Agrees, SendText, Understood, Connected, Defined, Room;
    StartIsGood(server);
    RunKeepsInv(Start(server), steps);
    var s := Run(Start(server), steps);
    AgreeingMeansConnected(s, e, f);
    DefinedIffUnderstood(s.server, s.reg, s.net, e, s.net[f].nickname, text, f);
  }

  lemma RegisteredIsEquipped(s: System, e: Endpoint, dest: string)
    requires Inv(s) && Sound(s) && e in s.net && s.net[e].connected && s.net[e].name in s.reg.addr
    requires dest in s.net[e].roster
    ensures Equipped(s.server, s.net, e, dest)
  {
    hide GoodServer, CleanName, Consistent;
    assert ProcessInv(s, e);
  }

  lemma UsableAddresses(s: System)
    requires Inv(s)
    ensures forall n :: n in s.reg.addr ==> AddressOf(s.reg.addr[n]).Address?
  {
    hide AddressOf, NicknameOf, ProcessInv, GoodRegistry;
    forall n | n in s.reg.addr ensures AddressOf(s.reg.addr[n]).Address? { assert SoundEntry(s.reg, n); }
  }

  /** Which texts of a registered and connected client are steps, whoever the
      bearer of the nickname is: those for an unknown nickname, and those that
      the server can read, whose bearer runs at its registered address, and
      that can be announced there. */
  lemma AnyTextEnabledIff(server: string, steps: seq<Step>, e: Endpoint, dest: string, text: string)
    requires GoodServer(server) && IsRun(Start(server), steps) && Sound(Run(Start(server), steps))
    requires var s := Run(Start(server), steps);
      e in s.net && s.net[e].connected && s.net[e].name in s.reg.addr
    ensures var s := Run(Start(server), steps);
      dest in s.net[e].roster ==> Equipped(s.server, s.net, e, dest) && s.net[e].nickname != ""
    ensures var s := Run(Start(server), steps);
      Enabled(s, Text(e, dest, text)) <==>
        (dest in s.net[e].roster ==>
          var to := s.net[e].roster[dest];
          && Readable(s.net[e], to, s.server, text) && Reachable(s.reg, s.net, to)
          && Announced(s.net[e].nickname, Piece(ServerReads(s.net[e], to, s.server, text))))
  {
    hide Inv, Sound, SendText, Readable, Reachable, Announced, Defined, ServerReads, Equipped;
    StartIsGood(server);
    RunKeepsInv(Start(server), steps);
    var s := Run(Start(server), steps);
    if dest in s.net[e].roster {
      RegisteredIsEquipped(s, e, dest);
      UsableAddresses(s);
      DefinedTextIff(s.server, s.reg, s.net, e, dest, text);
      EquippedIs(s.server, s.net, e, dest);
    } else {
      UnknownNickname(s.server, s.reg, s.net, e, dest, text);
    }
  }

  lemma EquippedIs(server: string, net: Net, e: Endpoint, dest: string)
    requires Equipped(server, net, e, dest)
    ensures e in net && dest in net[e].roster && Bearable(net[e], net[e].roster[dest], server)
  {
    hide Bearable;
  }
}
