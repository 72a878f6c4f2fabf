/** The views of all clients over all runs, whether or not nicknames repeat, names
    return or rosters agree. */
module Views {
  import opened KeyOrder
  import opened NodeData
  import opened RosterText
  import opened Registries
  import opened Client
  import opened Network
  import opened RosterUpdates
  import opened Rosters
  import opened Delivery
  import opened Protocol
  import opened JoinEffects
  import opened SystemRuns
  import opened Theorems
  import opened Overruns

  /** The view of every process, registered or not, lists its roster. */
  ghost predicate AllViewed(s: System) {
    forall e :: e in s.net ==> ViewMatches(s.net[e])
  }

  /** An attempt to register tells nobody of a nickname he has an entry for. */
  ghost predicate JoinFresh(s: System, e: Endpoint)
    requires e in s.net
  {
    var c := s.net[e];
    && Fresh(c.roster, Entries(Insert(s.reg.nicks, c.name, c.nickname)))
    && forall f :: f in s.net && f != e && s.net[f].name in s.reg.addr ==> c.nickname !in s.net[f].roster
  }

  /** One process at an attempt. */
  lemma JoinViewAt(s: System, e: Endpoint, now: int, heard: bool, f: Endpoint)
    requires Enabled(s, Join(e, now, heard)) && Inv(s) && f in s.net && ViewMatches(s.net[f])
    ensures var t := Joined(s, e, now, heard);
      && f in t.net
      && (ViewMatches(t.net[f]) <==>
           if f == e then Fresh(s.net[e].roster, Entries(Insert(s.reg.nicks, s.net[e].name, s.net[e].nickname)))
           else s.net[f].name in s.reg.addr ==> s.net[e].nickname !in s.net[f].roster)
  {
    hide Inv, Joined, Registered, SendText, Record, Entries, AddEntries, Fresh, ViewMatches, GoodNames;
    JoinAt(s, e, now, heard, f);
    SameName(s, e, f);
    var d, nicks := AfterReply(s, e, heard)[f], Insert(s.reg.nicks, s.net[e].name, s.net[e].nickname);
    SameViewed(s.net[f], d);
    if f == e {
      JoinedNamesFit(s, e);
      ViewKeptIffFresh(d, Entries(nicks));
    } else if s.net[f].name in s.reg.addr {
      JoinedNamesFit(s, e);
      OneIsFresh(d.roster, s.net[e].nickname, s.net[e].name);
      ViewKeptIffFresh(d, [(s.net[e].nickname, s.net[e].name)]);
    } else {
      Untouched(s, e, now, heard, f);
    }
  }

  lemma SameViewed(c: ClientState, d: ClientState)
    requires d.roster == c.roster && d.events == c.events
    ensures ViewMatches(d) <==> ViewMatches(c)
  {
  }

  lemma OneIsFresh(roster: map<string, string>, nick: string, name: string)
    ensures Fresh(roster, [(nick, name)]) <==> nick !in roster
  {
    assert [(nick, name)][1..] == [];
  }

  lemma JoinedNamesFit(s: System, e: Endpoint)
    requires Inv(s) && e in s.net
    ensures AllFit(Entries(Insert(s.reg.nicks, s.net[e].name, s.net[e].nickname)))
    ensures AllFit([(s.net[e].nickname, s.net[e].name)])
  {
    hide Entries, FitsEvent, GoodName, Consistent, GoodServer;
    assert ProcessInv(s, e);
    NickFits(s.net[e].nickname);
    EntriesFit(Insert(s.reg.nicks, s.net[e].name, s.net[e].nickname));
  }

  /** Nobody tells who is not registered. */
  lemma Untouched(s: System, e: Endpoint, now: int, heard: bool, f: Endpoint)
    requires Enabled(s, Join(e, now, heard)) && Inv(s) && f in s.net && f != e && s.net[f].name !in s.reg.addr
    ensures var t := Joined(s, e, now, heard); f in t.net && t.net[f] == s.net[f]
  {
    hide Inv, Joined, Registered, SendText, Record, AfterAdd, Consistent, GoodRegistry;
    JoinIs(s, e, now, heard);
    SameName(s, e, f);
    NotRegisteredUntouched(s.net[f], Registered(s, e, now), s.net[e].name, s.net[e].nickname);
  }

  lemma JoinViewedIff(s: System, e: Endpoint, now: int, heard: bool)
    requires Enabled(s, Join(e, now, heard)) && Inv(s) && AllViewed(s)
    ensures AllViewed(Joined(s, e, now, heard)) <==> JoinFresh(s, e)
  {
    hide Inv, Joined, Registered, SendText, Fresh, ViewMatches, Entries;
    JoinedEndpoints(s, e, now, heard);
    forall f | f in s.net
      ensures var t := Joined(s, e, now, heard);
        ViewMatches(t.net[f]) <==>
          if f == e then Fresh(s.net[e].roster, Entries(Insert(s.reg.nicks, s.net[e].name, s.net[e].nickname)))
          else s.net[f].name in s.reg.addr ==> s.net[e].nickname !in s.net[f].roster
    {
      JoinViewAt(s, e, now, heard, f);
    }
  }

  // ----- everything else keeps every view

  lemma RemovedKeepsViewed(s: System, n: string)
    requires Inv(s) && n in s.reg.addr && AllFine(s) && AllViewed(s)
    ensures AllViewed(Removed(s, n))
  {
    hide Inv, DeliverAll, RemUpdates, RemEntry, ViewMatches;
    RemoveIs(s, n);
    forall e | e in s.net ensures ViewMatches(AfterRem(s.net[e], s.reg, n)) {
      assert Fine(s.net[e]);
      RemKeepsView(s.net[e], n);
    }
  }

  lemma {:induction false} SweepKeepsViewed(s: System, readings: seq<int>, k: nat)
    requires k <= |s.reg.ping.Keys| <= |readings| && Inv(s) && AllFine(s) && AllViewed(s)
    ensures AllViewed(SweptTo(s, readings, k))
  {
    hide Inv, AllFine, AllViewed, SweptTo, Kept;
    if k == 0 {
      SweptNone(s, readings);
    } else {
      SweepKeepsViewed(s, readings, k - 1);
      SweepStaysFine(s, readings, k - 1);
      SweepKeeps(s, readings, k - 1);
      KeptGood(s, SweptTo(s, readings, k - 1));
      CheckKeepsViewed(s, readings, k);
    }
  }

  lemma CheckKeepsViewed(s: System, readings: seq<int>, k: nat)
    requires 0 < k <= |s.reg.ping.Keys| <= |readings| && Inv(s)
    requires var t := SweptTo(s, readings, k - 1); Inv(t) && AllFine(t) && AllViewed(t)
    ensures AllViewed(SweptTo(s, readings, k))
  {
    hide Inv, AllFine, AllViewed, SweptTo, Removed, Keys;
    InvConsistent(s);
    SweptStep(s, readings, k);
    var before := SweptTo(s, readings, k - 1);
    if SweptTo(s, readings, k) != before { RemovedKeepsViewed(before, Keys(s.reg.ping.Keys)[k - 1]); }
  }

  lemma TextKeepsViewed(s: System, e: Endpoint, dest: string, text: string)
    requires Enabled(s, Text(e, dest, text)) && Inv(s) && AllViewed(s)
    ensures AllViewed(Next(s, Text(e, dest, text)))
  {
    hide Inv, SendText, Defined, ViewMatches;
    TextIs(s, e, dest, text);
    var net := SendText(s.server, s.reg, s.net, e, dest, text).net;
    if net != s.net {
      var f, x :| OneEventMore(s, net, f, x);
      QuietEventViewed(s.net[f], x);
    }
  }

  lemma QuietEventViewed(c: ClientState, x: Event)
    requires !x.ListAdd? && !x.ListRem?
    ensures ViewMatches(c.(events := c.events + [x])) <==> ViewMatches(c)
  {
    hide ViewOf;
    QuietEvent(c.events, x);
  }

  lemma NewIsViewed(c: ClientState)
    ensures c.roster == map[] && c.events == [] ==> ViewMatches(c)
  {
    if c.roster == map[] { assert multiset(c.roster.Keys) == multiset{}; }
  }

  lemma StepViewedIff(s: System, step: Step)
    requires Enabled(s, step) && Inv(s) && AllFine(s) && AllViewed(s)
    ensures AllViewed(Next(s, step)) <==> (step.Join? ==> JoinFresh(s, step.at))
  {
    hide Inv, Joined, Pinged, SendText, SweptTo, ViewMatches, GoodProcess, AllFine, JoinFresh;
    match step
    case Launch(e, c) => NewIsViewed(c);
    case Join(e, now, heard) => JoinViewedIff(s, e, now, heard);
    case Ping(answered, readings) => PingIs(s, answered, readings);
    case Sweep(readings) => SweepKeepsViewed(s, readings, |s.reg.ping.Keys|);
    case Text(e, dest, text) => TextKeepsViewed(s, e, dest, text);
    case _ =>
  }

  // ----- runs

  ghost predicate AlwaysAllViewed(s: System, steps: seq<Step>)
    requires IsRun(s, steps)
    decreases |steps|
  {
    AllViewed(s) && (steps == [] || AlwaysAllViewed(Next(s, steps[0]), steps[1..]))
  }

  ghost predicate JoinsFresh(s: System, steps: seq<Step>)
    requires IsRun(s, steps)
    decreases |steps|
  {
    steps == [] || ((steps[0].Join? ==> JoinFresh(s, steps[0].at)) && JoinsFresh(Next(s, steps[0]), steps[1..]))
  }

  lemma {:induction false} ViewedFrom(s: System, steps: seq<Step>)
    requires IsRun(s, steps) && Inv(s) && AllFine(s) && AllViewed(s)
    ensures AlwaysAllViewed(s, steps) <==> JoinsFresh(s, steps)
    decreases |steps|
  {
    hide Inv, Next, Enabled, AllFine, AllViewed, JoinFresh;
    if steps != [] {
      var t := Next(s, steps[0]);
      StepKeeps(s, steps[0]);
      StepStaysFine(s, steps[0]);
      StepViewedIff(s, steps[0]);
      if AllViewed(t) { ViewedFrom(t, steps[1..]); } else { AllViewedMeansNow(t, steps[1..]); }
    }
  }

  lemma AllViewedMeansNow(s: System, steps: seq<Step>)
    requires IsRun(s, steps)
    ensures AlwaysAllViewed(s, steps) ==> AllViewed(s)
  {
  }

  /** In every run, the view of every process lists exactly the keys of its
      roster after every step if and only if no attempt to register tells
      anybody of a nickname he has an entry for. */
  lemma AllViewsIff(server: string, steps: seq<Step>)
    requires GoodServer(server) && IsRun(Start(server), steps)
    ensures AlwaysAllViewed(Start(server), steps) <==> JoinsFresh(Start(server), steps)
  {
    hide Inv;
    StartIsGood(server);
    ViewedFrom(Start(server), steps);
  }
}
