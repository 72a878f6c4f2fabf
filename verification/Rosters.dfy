/** When a client's nickname -> name map agrees with the server's name ->
    nickname map, how each update changes that, and what views make of it. */
module Rosters {
  import opened CppString
  import opened KeyOrder
  import opened RosterText
  import opened Registries
  import opened Client

  /** No entry is wrong: each leads to a registered client of that nickname. */
  ghost predicate SoundRoster(roster: map<string, string>, nicks: map<string, string>) {
    forall k :: k in roster ==> roster[k] in nicks && nicks[roster[k]] == k
  }

  /** No client is missing. */
  ghost predicate CompleteRoster(roster: map<string, string>, nicks: map<string, string>) {
    forall n :: n in nicks ==> nicks[n] in roster && roster[nicks[n]] == n
  }

  /** The two maps are inverse to each other. */
  ghost predicate Mirrors(roster: map<string, string>, nicks: map<string, string>) {
    SoundRoster(roster, nicks) && CompleteRoster(roster, nicks)
  }

  ghost predicate DistinctNicks(nicks: map<string, string>) {
    forall m, n :: m in nicks && n in nicks && nicks[m] == nicks[n] ==> m == n
  }

  /** In a sound roster no name occurs twice. */
  lemma EachNameOnce(roster: map<string, string>, nicks: map<string, string>)
    requires SoundRoster(roster, nicks)
    ensures forall j, k :: j in roster && k in roster && roster[j] == roster[k] ==> j == k
  {
  }

  /** Mirroring is completeness of a sound roster, and forces distinct nicknames. */
  lemma MirrorsIff(roster: map<string, string>, nicks: map<string, string>)
    requires SoundRoster(roster, nicks)
    ensures Mirrors(roster, nicks) <==> DistinctNicks(nicks) && nicks.Values <= roster.Keys
  {
    if DistinctNicks(nicks) && nicks.Values <= roster.Keys {
      forall n | n in nicks ensures nicks[n] in roster && roster[nicks[n]] == n {
        assert nicks[n] in nicks.Values;
      }
    }
  }

  // ----- additions

  ghost predicate TrueEntries(es: seq<Entry>, nicks: map<string, string>) {
    forall i :: 0 <= i < |es| ==> es[i].1 in nicks && nicks[es[i].1] == es[i].0
  }

  function NicksOf(es: seq<Entry>): set<string> {
    set i | 0 <= i < |es| :: es[i].0
  }

  lemma {:induction false} AddSound(c: ClientState, es: seq<Entry>, nicks: map<string, string>)
    requires SoundRoster(c.roster, nicks) && TrueEntries(es, nicks)
    ensures SoundRoster(AddEntries(c, es).roster, nicks)
    decreases |es|
  {
    if es != [] {
      AddSound(c.(roster := Insert(c.roster, es[0].0, es[0].1), events := c.events + [AddEvent(es[0].0)]), es[1..],
          nicks);
    }
  }

  lemma {:induction false} AddKeys(c: ClientState, es: seq<Entry>)
    ensures AddEntries(c, es).roster.Keys == c.roster.Keys + NicksOf(es)
    ensures forall k :: k in c.roster ==> k in AddEntries(c, es).roster && AddEntries(c, es).roster[k] == c.roster[k]
    decreases |es|
  {
    if es == [] {
      assert NicksOf(es) == {};
    } else {
      AddKeys(c.(roster := Insert(c.roster, es[0].0, es[0].1), events := c.events + [AddEvent(es[0].0)]), es[1..]);
      NicksOfFirst(es);
    }
  }

  lemma NicksOfFirst(es: seq<Entry>)
    requires es != []
    ensures NicksOf(es) == {es[0].0} + NicksOf(es[1..])
  {
    forall k | k in NicksOf(es) ensures k == es[0].0 || k in NicksOf(es[1..]) {
      var i :| 0 <= i < |es| && es[i].0 == k;
      if i > 0 { assert es[1..][i - 1].0 == k; }
    }
    forall k | k in NicksOf(es[1..]) ensures k in NicksOf(es) {
      var i :| 0 <= i < |es[1..]| && es[1..][i].0 == k;
      assert es[i + 1].0 == k;
    }
  }

  lemma EntriesAre(nicks: map<string, string>)
    ensures TrueEntries(Entries(nicks), nicks)
    ensures NicksOf(Entries(nicks)) == nicks.Values
  {
    var ks := Keys(nicks.Keys);
    forall i | 0 <= i < |ks| ensures ks[i] in nicks { assert ks[i] in ks; }
    forall v | v in nicks.Values ensures v in NicksOf(Entries(nicks)) {
      var n :| n in nicks && nicks[n] == v;
      assert n in ks;
      var i :| 0 <= i < |ks| && ks[i] == n;
      assert Entries(nicks)[i].0 == v;
    }
  }

  /** The whole list turns a roster into a mirror exactly when the nicknames are
      distinct and the roster had no wrong entry before. */
  lemma WholeListMirrors(c: ClientState, nicks: map<string, string>)
    ensures Mirrors(AddEntries(c, Entries(nicks)).roster, nicks)
        <==> DistinctNicks(nicks) && SoundRoster(c.roster, nicks)
    ensures SoundRoster(AddEntries(c, Entries(nicks)).roster, nicks) <==> SoundRoster(c.roster, nicks)
  {
    hide AddEntries, Entries;
    var after := AddEntries(c, Entries(nicks)).roster;
    EntriesAre(nicks);
    AddKeys(c, Entries(nicks));
    if SoundRoster(c.roster, nicks) {
      AddSound(c, Entries(nicks), nicks);
      MirrorsIff(after, nicks);
    }
    if SoundRoster(after, nicks) {
      assert forall k :: k in c.roster ==> after[k] == c.roster[k];
    }
  }

  /** What an empty roster learns from the whole list: under each nickname the
      least of the names that bear it. */
  lemma WholeListLeast(c: ClientState, nicks: map<string, string>, n: string)
    requires c.roster == map[] && n in nicks
    ensures var after := AddEntries(c, Entries(nicks)).roster;
      && nicks[n] in after && after[nicks[n]] in nicks && nicks[after[nicks[n]]] == nicks[n]
      && (after[nicks[n]] == n || exists k :: DiffersAt(after[nicks[n]], n, k))
  {
    hide AddEntries, DiffersAt, NicksOf;
    var es := Entries(nicks);
    var i := PlaceOf(nicks, n);
    FirstEntryWins(c, es, i);
    var after := AddEntries(c, es).roster;
    var j :| 0 <= j <= i && es[j].0 == es[i].0 && after[es[i].0] == es[j].1;
    InKeyOrder(nicks, j, i);
  }

  lemma PlaceOf(nicks: map<string, string>, n: string) returns (i: nat)
    requires n in nicks
    ensures i < |Entries(nicks)| && Entries(nicks)[i] == (nicks[n], n)
  {
    var ks := Keys(nicks.Keys);
    assert n in ks;
    i :| 0 <= i < |ks| && ks[i] == n;
  }

  lemma InKeyOrder(nicks: map<string, string>, j: nat, i: nat)
    requires j <= i < |Entries(nicks)|
    ensures var e, f := Entries(nicks)[j], Entries(nicks)[i];
      e.1 in nicks && nicks[e.1] == e.0 && (e.1 == f.1 || exists k :: DiffersAt(e.1, f.1, k))
  {
    hide DiffersAt, Before;
    var ks := Keys(nicks.Keys);
    assert ks[j] in ks;
    BeforeIff(ks[j], ks[i]);
  }

  /** A nickname leads to where the first entry for it leads. */
  lemma {:induction false} FirstEntryWins(c: ClientState, es: seq<Entry>, i: nat)
    requires i < |es| && es[i].0 !in c.roster
    ensures var after := AddEntries(c, es).roster;
      es[i].0 in after && exists j :: 0 <= j <= i && es[j].0 == es[i].0 && after[es[i].0] == es[j].1
    decreases |es|
  {
    var d := c.(roster := Insert(c.roster, es[0].0, es[0].1), events := c.events + [AddEvent(es[0].0)]);
    if es[0].0 == es[i].0 {
      AddKeys(d, es[1..]);
      assert AddEntries(c, es).roster[es[i].0] == es[0].1;
    } else {
      FirstEntryWins(d, es[1..], i - 1);
      assert es[1..][i - 1] == es[i];
      var after := AddEntries(d, es[1..]).roster;
      var j :| 0 <= j <= i - 1 && es[1..][j].0 == es[i].0 && after[es[i].0] == es[1..][j].1;
      assert es[j + 1] == es[1..][j];
    }
  }

  /** One new entry. */
  lemma OneEntryAdded(c: ClientState, nick: string, name: string)
    ensures AddEntries(c, [(nick, name)])
        == c.(roster := Insert(c.roster, nick, name), events := c.events + [AddEvent(nick)])
  {
    assert [(nick, name)][1..] == [];
  }

  /** A roster that mirrored the server keeps up with a registration exactly
      when the nickname sent is nobody else's. */
  lemma OneEntryMirrors(c: ClientState, nicks: map<string, string>, nick: string, name: string)
    requires Mirrors(c.roster, nicks) && name !in nicks
    ensures Mirrors(AddEntries(c, [(nick, name)]).roster, nicks[name := nick]) <==> nick !in nicks.Values
    ensures SoundRoster(AddEntries(c, [(nick, name)]).roster, nicks[name := nick])
  {
    OneEntryAdded(c, nick, name);
    var now, after := nicks[name := nick], Insert(c.roster, nick, name);
    if nick in nicks.Values {
      var n :| n in nicks && nicks[n] == nick;
      assert now[n] == now[name] == nick && n != name;
      assert c.roster[nick] == n;
    } else {
      assert nick !in c.roster;
    }
  }

  lemma OneEntrySound(c: ClientState, nicks: map<string, string>, nick: string, name: string)
    requires SoundRoster(c.roster, nicks) && name in nicks && nicks[name] == nick
    ensures SoundRoster(AddEntries(c, [(nick, name)]).roster, nicks)
    ensures Mirrors(c.roster, nicks) ==> AddEntries(c, [(nick, name)]).roster == c.roster
  {
    OneEntryAdded(c, nick, name);
  }

  lemma SoundGrows(roster: map<string, string>, nicks: map<string, string>, name: string, nick: string)
    requires SoundRoster(roster, nicks) && name !in nicks
    ensures SoundRoster(roster, nicks[name := nick])
  {
  }

  /** Everybody else, when name registers or tries again. */
  lemma Bystander(c: ClientState, nicks: map<string, string>, nick: string, name: string)
    requires SoundRoster(c.roster, nicks) && (name in nicks ==> nicks[name] == nick)
    ensures var after, now := AddEntries(c, [(nick, name)]).roster, Insert(nicks, name, nick);
      && SoundRoster(after, now)
      && (Mirrors(c.roster, nicks) ==> (Mirrors(after, now) <==> name in nicks || nick !in nicks.Values))
  {
    hide AddEntries;
    if name in nicks {
      OneEntrySound(c, nicks, nick, name);
    } else {
      SoundGrows(c.roster, nicks, name, nick);
      OneEntrySound(c, nicks[name := nick], nick, name);
      if Mirrors(c.roster, nicks) { OneEntryMirrors(c, nicks, nick, name); }
    }
  }

  // ----- removals

  lemma RemRoster(c: ClientState, gone: string, nicks: map<string, string>)
    requires SoundRoster(c.roster, nicks)
    ensures SoundRoster(RemEntry(c, gone).roster, nicks - {gone})
    ensures Mirrors(c.roster, nicks) ==> Mirrors(RemEntry(c, gone).roster, nicks - {gone})
  {
    hide Keys;
    var ks := Keys(c.roster.Keys);
    if forall k :: k in c.roster ==> c.roster[k] != gone {
      assert FirstWith(ks, c.roster, gone) == None;
    } else {
      var k :| k in c.roster && c.roster[k] == gone;
      assert k in ks;
      assert FirstWith(ks, c.roster, gone).value == k;
    }
  }

  // ----- views

  /** The view's list holds each key of the roster once. */
  ghost predicate ViewMatches(c: ClientState) {
    multiset(ViewOf(c.events)) == multiset(c.roster.Keys)
  }

  /** Nicknames as the view's event buffers can carry them. */
  predicate FitsEvent(nick: string) {
    |nick| < NICK_SIZE && NUL !in nick
  }

  ghost predicate AllFit(es: seq<Entry>) {
    forall i :: 0 <= i < |es| ==> FitsEvent(es[i].0)
  }

  /** Each entry is new to the roster when its turn comes. */
  predicate Fresh(roster: map<string, string>, es: seq<Entry>)
    decreases |es|
  {
    es == [] || (es[0].0 !in roster && Fresh(Insert(roster, es[0].0, es[0].1), es[1..]))
  }

  lemma ViewAppend(events: seq<Event>, e: Event)
    ensures ViewOf(events + [e]) == Shown(ViewOf(events), e)
  {
    assert (events + [e])[..|events|] == events;
  }

  lemma {:induction false} ViewLength(c: ClientState, es: seq<Entry>)
    requires AllFit(es)
    ensures |ViewOf(AddEntries(c, es).events)| == |ViewOf(c.events)| + |es|
    ensures |AddEntries(c, es).roster| <= |c.roster| + |es|
    ensures |AddEntries(c, es).roster| == |c.roster| + |es| <==> Fresh(c.roster, es)
    decreases |es|
  {
    if es != [] {
      assert FitsEvent(es[0].0);
      ViewAppend(c.events, AddEvent(es[0].0));
      ViewLength(c.(roster := Insert(c.roster, es[0].0, es[0].1), events := c.events + [AddEvent(es[0].0)]), es[1..]);
    }
  }

  lemma {:induction false} FreshKeepsView(c: ClientState, es: seq<Entry>)
    requires AllFit(es) && ViewMatches(c) && Fresh(c.roster, es)
    ensures ViewMatches(AddEntries(c, es))
    decreases |es|
  {
    if es != [] {
      assert FitsEvent(es[0].0);
      ViewAppend(c.events, AddEvent(es[0].0));
      var d := c.(roster := Insert(c.roster, es[0].0, es[0].1), events := c.events + [AddEvent(es[0].0)]);
      assert d.roster.Keys == c.roster.Keys + {es[0].0};
      assert ViewOf(d.events) == ViewOf(c.events) + [es[0].0];
      FreshKeepsView(d, es[1..]);
    }
  }

  /** An add message keeps the view in step exactly when each of its nicknames
      is new to the client. */
  lemma ViewKeptIffFresh(c: ClientState, es: seq<Entry>)
    requires AllFit(es) && ViewMatches(c)
    ensures ViewMatches(AddEntries(c, es)) <==> Fresh(c.roster, es)
  {
    ViewLength(c, es);
    SizeOfView(c);
    SizeOfView(AddEntries(c, es));
    if Fresh(c.roster, es) { FreshKeepsView(c, es); }
  }

  lemma SizeOfView(c: ClientState)
    ensures ViewMatches(c) ==> |ViewOf(c.events)| == |c.roster|
  {
    var view := ViewOf(c.events);
    assert |multiset(view)| == |view|;
    assert |multiset(c.roster.Keys)| == |c.roster.Keys|;
  }

  lemma RemKeepsView(c: ClientState, gone: string)
    requires ViewMatches(c) && forall k :: k in c.roster ==> FitsEvent(k)
    ensures ViewMatches(RemEntry(c, gone))
  {
    hide Keys, ViewOf, FirstWith;
    match FirstWith(Keys(c.roster.Keys), c.roster, gone)
    case None =>
    case Some(nick) => RemovedFromView(c, nick);
  }

  lemma RemovedFromView(c: ClientState, nick: string)
    requires ViewMatches(c) && nick in c.roster && FitsEvent(nick)
    ensures ViewMatches(c.(roster := c.roster - {nick}, events := c.events + [RemEvent(nick)]))
  {
    hide ViewOf;
    var view := ViewOf(c.events);
    ViewAppend(c.events, RemEvent(nick));
    assert nick in multiset(view);
    RemoveFirstCounts(view, nick);
    hide RemoveFirst;
    assert (c.roster - {nick}).Keys == c.roster.Keys - {nick};
    assert multiset(c.roster.Keys - {nick}) == multiset(c.roster.Keys) - multiset{nick};
  }

  /** A whole list is fresh to an empty roster if nicknames are distinct. */
  lemma {:induction false} ListIsFresh(roster: map<string, string>, es: seq<Entry>)
    requires forall i, j :: 0 <= i < j < |es| ==> es[i].0 != es[j].0
    requires forall i :: 0 <= i < |es| ==> es[i].0 !in roster
    ensures Fresh(roster, es)
    decreases |es|
  {
    if es != [] {
      forall i, j | 0 <= i < j < |es[1..]| ensures es[1..][i].0 != es[1..][j].0 {
        assert es[i + 1].0 != es[j + 1].0;
      }
      ListIsFresh(Insert(roster, es[0].0, es[0].1), es[1..]);
    }
  }

  lemma EntriesFresh(nicks: map<string, string>)
    requires DistinctNicks(nicks)
    ensures Fresh(map[], Entries(nicks))
  {
    var es, ks := Entries(nicks), Keys(nicks.Keys);
    forall i, j | 0 <= i < j < |es| ensures es[i].0 != es[j].0 {
      assert ks[i] in ks && ks[j] in ks && ks[i] != ks[j];
    }
    ListIsFresh(map[], es);
  }
}
