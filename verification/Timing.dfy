/** How long a silent client stays registered, over whole runs. */
module Timing {
  import opened CppString
  import opened KeyOrder
  import opened Messages
  import opened WireFormat
  import opened NodeData
  import opened Registries
  import opened Network
  import opened RosterUpdates
  import opened Delivery
  import opened Protocol
  import opened JoinEffects
  import opened SystemRuns
  import opened Theorems

  /** Who the sweep lets stay: exactly those whose check reads a clock of at most
      the limit past their stamp. */
  lemma SweepSparesIff(s: System, readings: seq<int>, i: nat)
    requires Enabled(s, Sweep(readings)) && Inv(s) && i < |readings|
    ensures var n, t := Keys(s.reg.ping.Keys)[i], Next(s, Sweep(readings));
      && n in s.reg.ping
      && (n in t.reg.addr <==> readings[i] <= s.reg.ping[n] + 5_000_000_000)
      && (n in t.reg.addr <==> n in t.reg.ping) && (n in t.reg.addr <==> n in t.reg.nicks)
      && (n !in t.reg.addr ==> n in t.gone)
      && (n in t.reg.addr ==>
           && t.reg.addr[n] == s.reg.addr[n] && t.reg.ping[n] == s.reg.ping[n]
           && t.reg.nicks[n] == s.reg.nicks[n])
  {
    hide Inv, DeliverAll, Consistent, SweepFrom, Keys, Expired, Distinct;
    InvConsistent(s);
    ConsistentKeys(s.reg);
    var ks := Keys(s.reg.ping.Keys);
    assert ks[i] in ks;
    SweepExact(s.reg, s.server, ks, readings, |ks|);
    ExpiredIff(s.reg.ping, ks, readings, |ks|, i);
  }

  /** A stamp renewed in a ping round is the clock of the client's turn, and with
      it the client outlives the following sweep exactly when its check comes
      within the limit. */
  lemma RenewedSurvivesIff(s: System, answered: set<string>, pings: seq<int>, checks: seq<int>, i: nat)
    requires Enabled(s, Ping(answered, pings)) && Inv(s) && i < |pings|
    requires Keys(s.reg.addr.Keys)[i] in answered
    requires Enabled(Next(s, Ping(answered, pings)), Sweep(checks))
    ensures var n := Keys(s.reg.addr.Keys)[i];
      && i < |checks|
      && (n in Next(Next(s, Ping(answered, pings)), Sweep(checks)).reg.addr <==> checks[i] <= pings[i] + 5_000_000_000)
  {
    hide Inv, Enabled, Next, Keys;
    StampAfterPing(s, answered, pings, i);
    OneCheckEach(Next(s, Ping(answered, pings)), checks);
    OnePingEach(s, answered, pings);
    SweepSparesIff(Next(s, Ping(answered, pings)), checks, i);
  }

  lemma StampAfterPing(s: System, answered: set<string>, pings: seq<int>, i: nat)
    requires Enabled(s, Ping(answered, pings)) && Inv(s) && i < |pings|
    ensures var n, t := Keys(s.reg.addr.Keys)[i], Next(s, Ping(answered, pings));
      && Inv(t) && t.reg.ping.Keys == s.reg.addr.Keys == t.reg.addr.Keys
      && (n in answered ==> t.reg.ping[n] == pings[i])
  {
    hide Inv, Sound, Agrees, ViewsMatch, Pinged, Keys, Stamped, Rising, SendText;
    PingIs(s, answered, pings);
    PingKeeps(s, answered, pings);
    SameClients(s);
    var t := Next(s, Ping(answered, pings));
    SameClients(t);
    PingStamp(s.reg, answered, pings, i);
  }

  lemma OnePingEach(s: System, answered: set<string>, pings: seq<int>)
    requires Enabled(s, Ping(answered, pings))
    ensures |pings| == |s.reg.addr.Keys|
  {
  }

  lemma OneCheckEach(s: System, checks: seq<int>)
    requires Enabled(s, Sweep(checks))
    ensures |checks| == |s.reg.ping.Keys| && Rising(s.clock, checks)
  {
  }

  lemma PingStamp(r: Registry, answered: set<string>, pings: seq<int>, i: nat)
    requires |r.addr.Keys| == |pings| && i < |pings| && r.addr.Keys == r.ping.Keys
    ensures var ks := Keys(r.addr.Keys);
      var ping := Stamped(r.ping, ks, answered, pings, |pings|);
      ks[i] in answered ==> ks[i] in ping && ping[ks[i]] == pings[i]
  {
    hide Keys, Stamped;
    var ks := Keys(r.addr.Keys);
    assert ks[i] in ks;
    StampedExact(r.ping, ks, answered, pings, |ks|, ks[i]);
  }

  /** A ping changes no process, and it is answered without an error exactly when
      the client itself still runs at its registered address: with nobody there
      the connection fails, and anybody else hangs up. */
  lemma PongIff(s: System, n: string)
    requires Inv(s) && n in s.reg.addr
    ensures var a := AddressOf(s.reg.addr[n]);
      && a.Address?
      && var x := Exchange(s.net, Packet(a.ip, a.port, PingMsg(s.server, n)));
        && x.Some? && x.value.0 == s.net
        && (x.value.1.msgType != ErrorType
            <==> Endpoint(a.ip, a.port) in s.net && s.net[Endpoint(a.ip, a.port)].name == n)
  {
    hide NicknameOf, AddressOf, Wire, Received, ProcessInv, Clean;
    assert SoundEntry(s.reg, n) && GoodName(n);
    PingMsgSendable(s.server, n);
    Arrives(PingMsg(s.server, n));
    AckArrives();
  }

  /** No ping round hears n. */
  ghost predicate Silent(steps: seq<Step>, n: string) {
    forall i :: 0 <= i < |steps| && steps[i].Ping? ==> n !in steps[i].answered
  }

  /** n is known to the server or has been removed, and its stamp is old. */
  ghost predicate Aging(s: System, n: string, since: int) {
    && (n in s.reg.addr || n in s.gone)
    && (n in s.reg.ping ==> s.reg.ping[n] <= since)
  }

  lemma StepAges(s: System, step: Step, n: string, since: int)
    requires Enabled(s, step) && Inv(s) && Aging(s, n, since)
    requires step.Ping? ==> n !in step.answered
    requires step.Join? && s.net[step.at].name == n ==> n !in s.gone
    ensures Aging(Next(s, step), n, since) && Next(s, step).clock >= s.clock
  {
    hide Inv, Joined, Pinged, SendText, Aging, Swept;
    ClockAdvances(s, step);
    match step
    case Join(e, now, heard) => JoinAges(s, e, now, heard, n, since);
    case Ping(answered, readings) => PingAges(s, answered, readings, n, since);
    case Sweep(readings) => SweepAges(s, readings, n, since);
    case _ => SameAge(s, Next(s, step), n, since);
  }

  lemma ClockAdvances(s: System, step: Step)
    requires Enabled(s, step) && Inv(s)
    ensures Next(s, step).clock >= s.clock
  {
    hide Inv, Enabled, Next, Sound, Agrees, ViewsMatch, Joined;
    StepKeeps(s, step);
    if step.Join? { JoinClock(s, step.at, step.now, step.heard); }
  }

  lemma JoinClock(s: System, e: Endpoint, now: int, heard: bool)
    requires Enabled(s, Join(e, now, heard)) && Inv(s)
    ensures Next(s, Join(e, now, heard)).clock >= s.clock
  {
    hide Inv, Joined, Registered, Wire;
    JoinIs(s, e, now, heard);
  }

  lemma SameAge(s: System, t: System, n: string, since: int)
    requires Aging(s, n, since) && t.reg == s.reg && t.gone == s.gone
    ensures Aging(t, n, since)
  {
  }

  lemma JoinAges(s: System, e: Endpoint, now: int, heard: bool, n: string, since: int)
    requires Enabled(s, Join(e, now, heard)) && Inv(s) && Aging(s, n, since)
    requires s.net[e].name == n ==> n !in s.gone
    ensures Aging(Joined(s, e, now, heard), n, since)
  {
    hide Inv, Joined, Registered, Wire, Record, AfterAdd, Consistent, GoodRegistry;
    JoinIs(s, e, now, heard);
    SameClients(s);
  }

  lemma PingAges(s: System, answered: set<string>, readings: seq<int>, n: string, since: int)
    requires Enabled(s, Ping(answered, readings)) && Inv(s) && Aging(s, n, since) && n !in answered
    ensures Aging(Next(s, Ping(answered, readings)), n, since)
  {
    hide Inv, Pinged, Keys, Stamped, Rising;
    PingIs(s, answered, readings);
    StampedExact(s.reg.ping, Keys(s.reg.addr.Keys), answered, readings, |readings|, n);
  }

  lemma SweepAges(s: System, readings: seq<int>, n: string, since: int)
    requires Enabled(s, Sweep(readings)) && Inv(s) && Aging(s, n, since)
    ensures Aging(Next(s, Sweep(readings)), n, since)
  {
    hide Inv, DeliverAll, Consistent, SweepFrom, Keys, Expired, Distinct, Rising;
    InvConsistent(s);
    ConsistentKeys(s.reg);
    var ks := Keys(s.reg.ping.Keys);
    SweepExact(s.reg, s.server, ks, readings, |ks|);
  }

  /** n does not register again once it has been removed. */
  ghost predicate StaysAway(s: System, steps: seq<Step>, n: string)
    requires IsRun(s, steps)
    decreases |steps|
  {
    steps == [] || (
      && (steps[0].Join? && s.net[steps[0].at].name == n ==> n !in s.gone)
      && StaysAway(Next(s, steps[0]), steps[1..], n))
  }

  lemma {:induction false} RunAges(s: System, steps: seq<Step>, n: string, since: int)
    requires Inv(s) && IsRun(s, steps) && Aging(s, n, since) && Silent(steps, n) && StaysAway(s, steps, n)
    ensures var t := Run(s, steps);
      Inv(t) && Aging(t, n, since) && t.clock >= s.clock
    decreases |steps|
  {
    hide Inv, Next, Enabled, Aging;
    if steps != [] {
      assert !steps[0].Ping? || n !in steps[0].answered;
      StepKeeps(s, steps[0]);
      StepAges(s, steps[0], n, since);
      assert Silent(steps[1..], n) by {
        forall i | 0 <= i < |steps[1..]| && steps[1..][i].Ping? ensures n !in steps[1..][i].answered {
          assert steps[1..][i] == steps[i + 1];
        }
      }
      RunAges(Next(s, steps[0]), steps[1..], n, since);
    }
  }

  /** A client registered before a sleep longer than the limit that no ping round
      hears afterwards, and that does not register again after its removal, is
      gone at the end of the next sweep, whatever else happens in between. */
  lemma SilentClientIsRemoved(s: System, duration: nat, steps: seq<Step>, readings: seq<int>, n: string)
    requires IsRun(Next(s, Sleep(duration)), steps) && StaysAway(Next(s, Sleep(duration)), steps, n) && Silent(steps, n)
    requires Enabled(Run(Next(s, Sleep(duration)), steps), Sweep(readings))
    requires Inv(s) && n in s.reg.addr && duration > 5_000_000_000
    ensures n !in Next(Run(Next(s, Sleep(duration)), steps), Sweep(readings)).reg.addr
  {
    hide Inv, Enabled, Next, IsRun, Run, StaysAway, Silent, Aging;
    CanSleep(s, duration);
    var slept := Next(s, Sleep(duration));
    StepKeeps(s, Sleep(duration));
    AfterSleep(s, duration, n);
    RunAges(slept, steps, n, s.clock);
    OverdueIsRemoved(Run(slept, steps), readings, n, s.clock);
  }

  lemma CanSleep(s: System, duration: nat)
    ensures Enabled(s, Sleep(duration))
  {
  }

  lemma AfterSleep(s: System, duration: nat, n: string)
    requires Enabled(s, Sleep(duration)) && Inv(s) && n in s.reg.addr
    ensures Aging(Next(s, Sleep(duration)), n, s.clock) && Next(s, Sleep(duration)).clock == s.clock + duration
  {
    hide ProcessInv, GoodRegistry, SoundEntry, Sound, Agrees, ViewsMatch;
  }

  lemma OverdueIsRemoved(t: System, readings: seq<int>, n: string, since: int)
    requires Enabled(t, Sweep(readings)) && Inv(t) && Aging(t, n, since) && t.clock > since + 5_000_000_000
    ensures n !in Next(t, Sweep(readings)).reg.addr
  {
    hide Inv, Keys, Enabled, Next, Rising;
    SameClients(t);
    StillHere(t, readings, n);
    OneCheckEach(t, readings);
    if n in t.reg.addr {
      var ks := Keys(t.reg.ping.Keys);
      assert n in ks;
      var i :| 0 <= i < |ks| && ks[i] == n;
      LaterBounds(t.clock, readings, i);
      SweepSparesIff(t, readings, i);
    }
  }

  lemma StillHere(s: System, readings: seq<int>, n: string)
    requires Inv(s) && Enabled(s, Sweep(readings))
    ensures n in Next(s, Sweep(readings)).reg.addr ==> n in s.reg.addr
  {
    hide NicknameOf, AddressOf, ProcessInv, GoodRegistry, SoundEntry, DeliverAll, SweepFrom;
    SweepShrinks(s.reg, s.server, Keys(s.reg.ping.Keys), readings, |readings|);
  }
}
