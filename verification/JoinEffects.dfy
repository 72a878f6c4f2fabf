/** What one attempt to register does to the agreement of the rosters, to their
    soundness and to the views, each with the exact condition. */
module JoinEffects {
  import opened CppString
  import opened KeyOrder
  import opened Messages
  import opened NodeData
  import opened RosterText
  import opened Registries
  import opened Client
  import opened Network
  import opened RosterUpdates
  import opened Rosters
  import opened Protocol

  // ----- joins

  /** Every entry the joining process already has is a right one. A process that
      was never registered has none. */
  ghost predicate NoStaleEntry(s: System, e: Endpoint)
    requires e in s.net
  {
    SoundRoster(s.net[e].roster, Insert(s.reg.nicks, s.net[e].name, s.net[e].nickname))
  }

  /** A repeated attempt, or a new nickname from a process without stale entries. */
  ghost predicate JoinOk(s: System, e: Endpoint)
    requires e in s.net
  {
    s.net[e].name in s.reg.addr || (s.net[e].nickname !in s.reg.nicks.Values && NoStaleEntry(s, e))
  }

  lemma InsertedNicks(nicks: map<string, string>, name: string, nick: string)
    requires DistinctNicks(nicks) && name !in nicks
    ensures DistinctNicks(nicks[name := nick]) <==> nick !in nicks.Values
  {
    if nick in nicks.Values {
      var n :| n in nicks && nicks[n] == nick;
      assert nicks[name := nick][n] == nicks[name := nick][name];
    }
  }

  /** The server's map and one process after an attempt. */
  lemma JoinAt(s: System, e: Endpoint, now: int, heard: bool, f: Endpoint)
    requires Enabled(s, Join(e, now, heard)) && Inv(s) && f in s.net
    ensures var t := Joined(s, e, now, heard);
      var c, nicks := s.net[e], Insert(s.reg.nicks, s.net[e].name, s.net[e].nickname);
      && t.reg.nicks == nicks && t.reg.addr.Keys == s.reg.addr.Keys + {c.name}
      && f in t.net && t.net[f].name == s.net[f].name
      && (s.net[f].name in t.reg.addr ==>
           var d := AfterReply(s, e, heard)[f];
           && d.roster == s.net[f].roster && d.events == s.net[f].events
           && t.net[f] == AddEntries(d, if f == e then Entries(nicks) else [(c.nickname, c.name)]))
  {
    hide Inv, NicknameOf, Record, Joined, Registered, Consistent, GoodRegistry, Wire, Entries, AddEntries, AfterAdd;
    JoinIs(s, e, now, heard);
    SameName(s, e, f);
    SameClients(s);
    AddedKeys(s.reg.addr, s.net[e].name, Record(s.net[e].nickname, s.net[e].ip, s.net[e].port));
    AfterAddKeeps(AfterReply(s, e, heard)[f], Registered(s, e, now), s.net[e].name, s.net[e].nickname);
    if s.net[f].name in Registered(s, e, now).addr {
      AfterAddIs(AfterReply(s, e, heard)[f], Registered(s, e, now), s.net[e].name, s.net[e].nickname);
    }
  }

  lemma AddedKeys(m: map<string, string>, k: string, v: string)
    ensures Insert(m, k, v).Keys == m.Keys + {k}
  {
  }

  lemma SameName(s: System, e: Endpoint, f: Endpoint)
    requires Inv(s) && e in s.net && f in s.net
    ensures s.net[e].name == s.net[f].name <==> e == f
  {
  }

  lemma SameClients(s: System)
    requires Inv(s)
    ensures s.reg.addr.Keys == s.reg.nicks.Keys == s.reg.ping.Keys
  {
  }

  lemma AfterAddIs(c: ClientState, r: Registry, src: string, nick: string)
    requires c.name in r.addr
    ensures AfterAdd(c, r, src, nick) == AddEntries(c, if c.name == src then Entries(r.nicks) else [(nick, src)])
  {
  }

  lemma JoinerRoster(s: System, e: Endpoint, now: int, heard: bool)
    requires Inv(s) && Enabled(s, Join(e, now, heard))
    ensures var t := Joined(s, e, now, heard);
      && e in t.net && t.net[e].name in t.reg.addr
      && (SoundRoster(t.net[e].roster, t.reg.nicks) <==> NoStaleEntry(s, e))
      && (Mirrors(t.net[e].roster, t.reg.nicks) <==> DistinctNicks(t.reg.nicks) && NoStaleEntry(s, e))
  {
    hide Joined, Inv, Registered, Wire, Entries, AddEntries;
    JoinAt(s, e, now, heard, e);
    var t := Joined(s, e, now, heard);
    WholeListMirrors(AfterReply(s, e, heard)[e], t.reg.nicks);
  }

  lemma BystanderRoster(s: System, e: Endpoint, now: int, heard: bool, f: Endpoint)
    requires Inv(s) && Enabled(s, Join(e, now, heard)) && f in s.net && f != e && s.net[f].name in s.reg.addr
    requires SoundRoster(s.net[f].roster, s.reg.nicks)
    ensures var t := Joined(s, e, now, heard);
      && f in t.net
      && SoundRoster(t.net[f].roster, t.reg.nicks)
      && (Mirrors(s.net[f].roster, s.reg.nicks) ==>
           (Mirrors(t.net[f].roster, t.reg.nicks) <==>
             s.net[e].name in s.reg.addr || s.net[e].nickname !in s.reg.nicks.Values))
  {
    hide Joined, Registered, Wire, Entries, AddEntries, NicknameOf, AddressOf, Record, Clean, SoundRoster, Mirrors,
        ProcessInv;
    hide Inv;
    JoinAt(s, e, now, heard, f);
    RegisteredAtHome(s, e);
    SameClients(s);
    Bystander(AfterReply(s, e, heard)[f], s.reg.nicks, s.net[e].nickname, s.net[e].name);
  }

  /** An attempt to register keeps agreement exactly when it is in order. */
  lemma JoinAgreesIff(s: System, e: Endpoint, now: int, heard: bool)
    requires Inv(s) && Agrees(s) && Enabled(s, Join(e, now, heard))
    ensures Agrees(Joined(s, e, now, heard)) <==> JoinOk(s, e)
  {
    hide Joined, Registered, Wire, NicknameOf, AddressOf, Record, Clean, ProcessInv, Mirrors, SoundRoster;
    var t := Joined(s, e, now, heard);
    AgreesIsSound(s);
    JoinerRoster(s, e, now, heard);
    forall f | f in s.net ensures f in t.net && t.net[f].name == s.net[f].name
        && t.reg.addr.Keys == s.reg.addr.Keys + {s.net[e].name} {
      JoinAt(s, e, now, heard, f);
    }
    JoinedEndpoints(s, e, now, heard);
    forall f | f in s.net && f != e && s.net[f].name in s.reg.addr
      ensures Mirrors(t.net[f].roster, t.reg.nicks)
          <==> s.net[e].name in s.reg.addr || s.net[e].nickname !in s.reg.nicks.Values
    {
      BystanderRoster(s, e, now, heard, f);
    }
    JoinNicks(s, e, now, heard);
    if s.net[e].name in s.reg.addr { OwnRosterSound(s, e); }
  }

  lemma AgreesIsSound(s: System)
    requires Agrees(s)
    ensures Sound(s)
  {
    hide CompleteRoster;
  }

  lemma OwnRosterSound(s: System, e: Endpoint)
    requires Inv(s) && Sound(s) && e in s.net && s.net[e].name in s.reg.addr
    ensures NoStaleEntry(s, e)
  {
    hide NicknameOf, AddressOf;
  }

  lemma JoinedEndpoints(s: System, e: Endpoint, now: int, heard: bool)
    requires Inv(s) && Enabled(s, Join(e, now, heard))
    ensures Joined(s, e, now, heard).net.Keys == s.net.Keys
  {
    hide Joined, Registered, NicknameOf, AddressOf, Record, Clean, ProcessInv, AfterAdd, Wire;
    JoinIs(s, e, now, heard);
  }

  lemma JoinNicks(s: System, e: Endpoint, now: int, heard: bool)
    requires Inv(s) && DistinctNicks(s.reg.nicks) && Enabled(s, Join(e, now, heard))
    ensures DistinctNicks(Joined(s, e, now, heard).reg.nicks)
        <==> s.net[e].name in s.reg.addr || s.net[e].nickname !in s.reg.nicks.Values
  {
    hide Joined, Registered, Wire, NicknameOf, AddressOf, Record, Clean, ProcessInv;
    JoinAt(s, e, now, heard, e);
    assert s.reg.addr.Keys == s.reg.nicks.Keys;
    if s.net[e].name !in s.reg.addr { InsertedNicks(s.reg.nicks, s.net[e].name, s.net[e].nickname); }
  }

  /** ... and keeps the rosters sound exactly when the joiner has no stale
      entry, whether or not nicknames repeat. */
  lemma JoinSoundIff(s: System, e: Endpoint, now: int, heard: bool)
    requires Inv(s) && Sound(s) && Enabled(s, Join(e, now, heard))
    ensures Sound(Joined(s, e, now, heard)) <==> NoStaleEntry(s, e)
  {
    hide Joined, Registered, Wire, NicknameOf, AddressOf, Record, Clean, ProcessInv, Mirrors, SoundRoster;
    var t := Joined(s, e, now, heard);
    JoinerRoster(s, e, now, heard);
    JoinedEndpoints(s, e, now, heard);
    forall f | f in s.net && f != e && t.net[f].name in t.reg.addr ensures SoundRoster(t.net[f].roster, t.reg.nicks) {
      JoinAt(s, e, now, heard, f);
      assert s.net[f].name != s.net[e].name;
      BystanderRoster(s, e, now, heard, f);
    }
  }

  // ----- views at a join

  lemma NickFits(nick: string)
    requires GoodName(nick)
    ensures FitsEvent(nick)
  {
    CleanNameIs(nick);
  }

  lemma EntriesFit(nicks: map<string, string>)
    requires GoodNames(nicks)
    ensures AllFit(Entries(nicks))
  {
    hide FitsEvent, GoodName;
    var es := Entries(nicks);
    forall i | 0 <= i < |es| ensures FitsEvent(es[i].0) {
      assert Keys(nicks.Keys)[i] in Keys(nicks.Keys);
      NickFits(es[i].0);
    }
  }

  /** A client that joins for the first time, and one that only retries. */
  lemma JoinerView(c: ClientState, nicks: map<string, string>)
    requires DistinctNicks(nicks) && GoodNames(nicks) && c.name in nicks
    requires (c.roster == map[] && c.events == []) || (Mirrors(c.roster, nicks) && ViewMatches(c))
    ensures ViewMatches(AddEntries(c, Entries(nicks))) <==> c.roster == map[]
  {
    hide Entries;
    EntriesFit(nicks);
    EntriesFresh(nicks);
    EntriesAre(nicks);
    var es := Entries(nicks);
    assert |nicks| > 0;
    if c.roster == map[] && c.events == [] {
      assert multiset(c.roster.Keys) == multiset{};
    } else {
      assert es[0].1 in nicks && es[0].0 in c.roster;
    }
    ViewKeptIffFresh(c, es);
  }

  lemma BystanderView(c: ClientState, nicks: map<string, string>, nick: string, name: string)
    requires Mirrors(c.roster, nicks) && ViewMatches(c) && GoodName(nick)
    ensures ViewMatches(AddEntries(c, [(nick, name)])) <==> nick !in nicks.Values
  {
    NickFits(nick);
    assert AllFit([(nick, name)]);
    ViewKeptIffFresh(c, [(nick, name)]);
    assert Fresh(c.roster, [(nick, name)]) <==> nick !in c.roster;
    if nick in nicks.Values {
      var n :| n in nicks && nicks[n] == nick;
      assert nick in c.roster;
    }
  }

  /** In an agreeing system the views keep up with a proper join exactly when it
      is not a repeated attempt. */
  lemma JoinViewsIff(s: System, e: Endpoint, now: int, heard: bool)
    requires Inv(s) && Agrees(s) && ViewsMatch(s) && Enabled(s, Join(e, now, heard))
    requires s.net[e].name !in s.gone && JoinOk(s, e)
    ensures ViewsMatch(Joined(s, e, now, heard)) <==> s.net[e].name !in s.reg.addr
  {
    hide Joined, Registered, Wire, NicknameOf, AddressOf, Record, Clean, Mirrors, Entries, AddEntries, ViewMatches,
        NoStaleEntry;
    var t, c := Joined(s, e, now, heard), s.net[e];
    JoinedEndpoints(s, e, now, heard);
    RegisteredAtHome(s, e);
    assert ProcessInv(s, e);
    JoinAgreesIff(s, e, now, heard);
    JoinKeepsInv(s, e, now, heard);
    JoinAt(s, e, now, heard, e);
    JoinerViewOf(s, e, now, heard);
    if c.name !in s.reg.addr {
      forall f | f in t.net && t.net[f].name in t.reg.addr ensures ViewMatches(t.net[f]) {
        JoinAt(s, e, now, heard, f);
        if f != e {
          SameName(s, e, f);
          BystanderViewOf(s, e, now, heard, f);
        }
      }
    }
  }

  lemma JoinerViewOf(s: System, e: Endpoint, now: int, heard: bool)
    requires Inv(s) && Agrees(s) && ViewsMatch(s) && Enabled(s, Join(e, now, heard))
    requires s.net[e].name !in s.gone
    requires Inv(Joined(s, e, now, heard)) && Agrees(Joined(s, e, now, heard))
    ensures var t := Joined(s, e, now, heard);
      e in t.net && (ViewMatches(t.net[e]) <==> s.net[e].name !in s.reg.addr)
  {
    hide Joined, Registered, Wire, NicknameOf, AddressOf, Record, Clean, Entries, AddEntries, GoodProcess, Consistent;
    var t, d := Joined(s, e, now, heard), AfterReply(s, e, heard)[e];
    JoinAt(s, e, now, heard, e);
    assert ProcessInv(s, e);
    RegisteredAtHome(s, e);
    SameClients(s);
    if s.net[e].name in s.reg.addr {
      assert t.reg.nicks == s.reg.nicks && s.net[e].nickname in d.roster;
    }
    JoinerView(d, t.reg.nicks);
  }

  lemma BystanderViewOf(s: System, e: Endpoint, now: int, heard: bool, f: Endpoint)
    requires Inv(s) && Agrees(s) && ViewsMatch(s) && Enabled(s, Join(e, now, heard))
    requires f in s.net && f != e && s.net[f].name in s.reg.addr && s.net[e].nickname !in s.reg.nicks.Values
    ensures f in Joined(s, e, now, heard).net && ViewMatches(Joined(s, e, now, heard).net[f])
  {
    hide Joined, Registered, Wire, NicknameOf, AddressOf, Record, Clean, Entries, AddEntries, Consistent, Mirrors;
    JoinAt(s, e, now, heard, f);
    assert ProcessInv(s, e);
    BystanderView(AfterReply(s, e, heard)[f], s.reg.nicks, s.net[e].nickname, s.net[e].name);
  }
}
