/** In no run does a roster update, a removal or a text overrun the buffer of an
    event: nobody ever raises an event that the code has no room for. */
module Overruns {
  import opened KeyOrder
  import opened Messages
  import opened NodeData
  import opened RosterText
  import opened Registries
  import opened Client
  import opened Network
  import opened RosterUpdates
  import opened Rosters
  import opened Delivery
  import opened Protocol
  import opened JoinEffects
  import opened SystemRuns
  import opened Theorems

  /** Only events with a result so far, and only nicknames that give some. */
  ghost predicate Fine(c: ClientState) {
    UndefinedEvent !in c.events && forall k :: k in c.roster ==> FitsEvent(k)
  }

  ghost predicate AllFine(s: System) {
    forall e :: e in s.net ==> Fine(s.net[e])
  }

  lemma {:induction false} AddStaysFine(c: ClientState, es: seq<Entry>)
    requires Fine(c) && AllFit(es)
    ensures Fine(AddEntries(c, es))
    decreases |es|
  {
    if es != [] {
      assert FitsEvent(es[0].0);
      var d := c.(roster := Insert(c.roster, es[0].0, es[0].1), events := c.events + [AddEvent(es[0].0)]);
      assert Fine(d);
      AddStaysFine(d, es[1..]);
    }
  }

  lemma RemStaysFine(c: ClientState, gone: string)
    requires Fine(c)
    ensures Fine(RemEntry(c, gone))
  {
    hide Keys;
  }

  lemma AfterAddFine(c: ClientState, r: Registry, src: string, nick: string)
    requires Fine(c) && GoodNames(r.nicks) && GoodName(nick)
    ensures Fine(AfterAdd(c, r, src, nick))
  {
    hide AddEntries, Entries, Fine, GoodNames, FitsEvent, GoodName;
    EntriesFit(r.nicks);
    NickFits(nick);
    if c.name in r.addr && c.name == src { AddStaysFine(c, Entries(r.nicks)); }
    if c.name in r.addr && c.name != src { AddStaysFine(c, [(nick, src)]); }
  }

  lemma JoinStaysFine(s: System, e: Endpoint, now: int, heard: bool)
    requires Enabled(s, Join(e, now, heard)) && Inv(s) && AllFine(s)
    ensures AllFine(Joined(s, e, now, heard))
  {
    hide Inv, Joined, Registered, AfterAdd, Record, Wire, Consistent, GoodNames;
    JoinIs(s, e, now, heard);
    ShortNick(s, e);
    var r, c := Registered(s, e, now), s.net[e];
    forall f | f in s.net ensures Fine(AfterAdd(AfterReply(s, e, heard)[f], r, c.name, c.nickname)) {
      AfterAddFine(AfterReply(s, e, heard)[f], r, c.name, c.nickname);
    }
  }

  lemma ShortNick(s: System, e: Endpoint)
    requires Inv(s) && e in s.net
    ensures GoodName(s.net[e].nickname)
  {
    hide GoodName;
    assert ProcessInv(s, e);
  }

  lemma RemovedStaysFine(s: System, n: string)
    requires Inv(s) && n in s.reg.addr && AllFine(s)
    ensures AllFine(Removed(s, n))
  {
    hide Inv, DeliverAll, RemUpdates, RemEntry, Fine;
    RemoveIs(s, n);
    forall e | e in s.net ensures Fine(AfterRem(s.net[e], s.reg, n)) {
      RemStaysFine(s.net[e], n);
    }
  }

  lemma CheckStaysFine(s: System, readings: seq<int>, k: nat)
    requires 0 < k <= |s.reg.ping.Keys| <= |readings| && Inv(s)
    requires var t := SweptTo(s, readings, k - 1); Inv(t) && AllFine(t)
    ensures AllFine(SweptTo(s, readings, k))
  {
    hide Inv, AllFine, SweptTo, Removed, Keys;
    InvConsistent(s);
    SweptStep(s, readings, k);
    var before := SweptTo(s, readings, k - 1);
    if SweptTo(s, readings, k) != before { RemovedStaysFine(before, Keys(s.reg.ping.Keys)[k - 1]); }
  }

  lemma {:induction false} SweepStaysFine(s: System, readings: seq<int>, k: nat)
    requires k <= |s.reg.ping.Keys| <= |readings| && Inv(s) && AllFine(s)
    ensures AllFine(SweptTo(s, readings, k))
  {
    hide Inv, AllFine, SweptTo, Kept;
    if k == 0 {
      SweptNone(s, readings);
    } else {
      SweepStaysFine(s, readings, k - 1);
      SweepKeeps(s, readings, k - 1);
      KeptGood(s, SweptTo(s, readings, k - 1));
      CheckStaysFine(s, readings, k);
    }
  }

  lemma TextStaysFine(s: System, e: Endpoint, dest: string, text: string)
    requires Enabled(s, Text(e, dest, text)) && Inv(s) && AllFine(s)
    ensures AllFine(Next(s, Text(e, dest, text)))
  {
    hide Inv, SendText;
    TextIs(s, e, dest, text);
    var net := SendText(s.server, s.reg, s.net, e, dest, text).net;
    if net != s.net {
      var f, x :| OneEventMore(s, net, f, x);
      assert net[f].events == s.net[f].events + [x] && |net[f].events| == |s.net[f].events| + 1;
      assert Fine(s.net[f]);
    }
  }

  lemma StepStaysFine(s: System, step: Step)
    requires Enabled(s, step) && Inv(s) && AllFine(s)
    ensures AllFine(Next(s, step))
  {
    hide Inv, Joined, Pinged, SendText, SweptTo, Fine, GoodProcess;
    match step
    case Launch(e, c) => NewIsFine(c);
    case Join(e, now, heard) => JoinStaysFine(s, e, now, heard);
    case Ping(answered, readings) => PingIs(s, answered, readings);
    case Sweep(readings) => SweepStaysFine(s, readings, |s.reg.ping.Keys|);
    case Text(e, dest, text) => TextStaysFine(s, e, dest, text);
    case _ =>
  }

  lemma NewIsFine(c: ClientState)
    ensures c.roster == map[] && c.events == [] ==> Fine(c)
  {
  }

  lemma {:induction false} RunStaysFine(s: System, steps: seq<Step>)
    requires IsRun(s, steps) && Inv(s) && AllFine(s)
    ensures AllFine(Run(s, steps))
    decreases |steps|
  {
    hide Inv, Next, Enabled, AllFine;
    if steps != [] {
      StepKeeps(s, steps[0]);
      StepStaysFine(s, steps[0]);
      RunStaysFine(Next(s, steps[0]), steps[1..]);
    }
  }

  /** In every run, every event that any process has raised is one with a result. */
  lemma NoOverruns(server: string, steps: seq<Step>, e: Endpoint)
    requires GoodServer(server) && IsRun(Start(server), steps) && e in Run(Start(server), steps).net
    ensures UndefinedEvent !in Run(Start(server), steps).net[e].events
  {
    hide Inv;
    StartIsGood(server);
    RunStaysFine(Start(server), steps);
    assert Fine(Run(Start(server), steps).net[e]);
  }
}
