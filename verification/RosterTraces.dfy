/** Rosters at the granularity of the server's locks, over every interleaving of any
    number of registrations and removals. */
module RosterTraces {
  import opened CppString
  import opened KeyOrder
  import opened Messages
  import opened NodeData
  import opened RosterText
  import opened Registries
  import opened Client
  import opened Network
  import opened RosterUpdates
  import opened Rosters
  import opened Interleaving
  import Protocol

  /** The server's threads and maps with the processes, and what has happened:
      the nicknames that have been announced and not been taken back, whose
      broadcast fell between the broadcast of a removal and that removal's last
      erasure, and whose removal has been announced. */
  datatype World = World(s: State, told: map<string, string>, gapped: set<string>, removed: set<string>)

  /** The data are those of a running process of this name. */
  ghost predicate SentBy(net: Net, src: string, data: string) {
    exists e :: e in net && net[e].name == src && data == Record(net[e].nickname, net[e].ip, net[e].port)
  }

  /** Clients register with their own data and not after their removal, and the
      lists fit into a message. */
  ghost predicate CanMove(w: World, step: Step) {
    && CanStep(w.s, step)
    && match step
       case BeginAdd(src, data) => SentBy(w.s.net, src, data) && src !in w.removed
       case Add(_) =>
         w.s.adder.done == 3 ==> |Wire(ListMsg(w.s.server, w.s.adder.src, w.s.reg.nicks))| <= CONTENT_LIMIT
       case _ => true
  }

  predicate InGap(s: State) {
    s.remover.Removing? && 1 <= s.remover.done < 4
  }

  function Move(w: World, step: Step): World
    requires CanStep(w.s, step)
  {
    var t := After(w.s, step);
    if step.Add? && w.s.adder.done == 3 then
      var src := w.s.adder.src;
      World(t, Insert(w.told, src, NicknameOf(w.s.adder.data).value),
            if InGap(w.s) then w.gapped + {src} else w.gapped, w.removed)
    else if step.Remove? && w.s.remover.done == 0 then
      World(t, w.told - {w.s.remover.name}, w.gapped, w.removed + {w.s.remover.name})
    else w.(s := t)
  }

  ghost predicate IsHistory(w: World, steps: seq<Step>)
    decreases |steps|
  {
    steps == [] || (CanMove(w, steps[0]) && IsHistory(Move(w, steps[0]), steps[1..]))
  }

  ghost function History(w: World, steps: seq<Step>): World
    requires IsHistory(w, steps)
    decreases |steps|
  {
    if steps == [] then w else History(Move(w, steps[0]), steps[1..])
  }

  // ----- processes

  /** Processes of distinct names and nicknames that the formats can carry. */
  ghost predicate Decent(net: Net) {
    && (forall e :: e in net ==> Protocol.GoodProcess(e, net[e]))
    && (forall e, f :: e in net && f in net && net[e].name == net[f].name ==> e == f)
    && (forall e, f :: e in net && f in net && net[e].nickname == net[f].nickname ==> e == f)
  }

  ghost predicate HasProcess(net: Net, n: string) {
    exists e :: e in net && net[e].name == n
  }

  /** The map holds the nicknames of processes. */
  ghost predicate Named(net: Net, nicks: map<string, string>) {
    && (forall n :: n in nicks ==> HasProcess(net, n))
    && (forall e :: e in net && net[e].name in nicks ==> nicks[net[e].name] == net[e].nickname)
  }

  /** ... or their records. */
  ghost predicate Recorded(net: Net, addr: map<string, string>) {
    && (forall n :: n in addr ==> HasProcess(net, n))
    && (forall e :: e in net && net[e].name in addr ==>
         addr[net[e].name] == Record(net[e].nickname, net[e].ip, net[e].port))
  }

  ghost predicate SameNet(net: Net, later: Net) {
    later.Keys == net.Keys && forall e :: e in net ==> SameProcess(net[e], later[e])
  }

  lemma StillProcess(net: Net, later: Net, n: string)
    requires SameNet(net, later) && HasProcess(net, n)
    ensures HasProcess(later, n)
  {
    var e :| e in net && net[e].name == n;
    assert later[e].name == n;
  }

  lemma StillDecent(net: Net, later: Net)
    requires SameNet(net, later) && Decent(net)
    ensures Decent(later)
  {
    hide GoodName, CleanName, Record;
  }

  lemma StillNamed(net: Net, later: Net, nicks: map<string, string>)
    requires SameNet(net, later) && Named(net, nicks)
    ensures Named(later, nicks)
  {
    hide HasProcess;
    forall n | n in nicks ensures HasProcess(later, n) { StillProcess(net, later, n); }
  }

  lemma StillRecorded(net: Net, later: Net, addr: map<string, string>)
    requires SameNet(net, later) && Recorded(net, addr)
    ensures Recorded(later, addr)
  {
    hide HasProcess, Record;
    forall n | n in addr ensures HasProcess(later, n) { StillProcess(net, later, n); }
  }

  lemma StillSent(net: Net, later: Net, src: string, data: string)
    requires SameNet(net, later) && SentBy(net, src, data)
    ensures SentBy(later, src, data)
  {
    hide Record;
    var e :| e in net && net[e].name == src && data == Record(net[e].nickname, net[e].ip, net[e].port);
    assert later[e].name == src && data == Record(later[e].nickname, later[e].ip, later[e].port);
  }

  lemma NamedDistinct(net: Net, nicks: map<string, string>)
    requires Decent(net) && Named(net, nicks)
    ensures DistinctNicks(nicks)
  {
    forall m, n | m in nicks && n in nicks && nicks[m] == nicks[n] ensures m == n {
      var e :| e in net && net[e].name == m;
      var f :| f in net && net[f].name == n;
    }
  }

  lemma NamedGood(net: Net, nicks: map<string, string>)
    requires Decent(net) && Named(net, nicks)
    ensures GoodNames(nicks)
  {
    hide GoodName, Record;
    forall n | n in nicks ensures GoodName(n) && GoodName(nicks[n]) {
      var e :| e in net && net[e].name == n;
    }
  }

  lemma NamedSame(net: Net, a: map<string, string>, b: map<string, string>)
    requires Named(net, a) && Named(net, b) && a.Keys == b.Keys
    ensures a == b
  {
    forall n | n in a ensures a[n] == b[n] {
      var e :| e in net && net[e].name == n;
    }
  }

  lemma NamedInsert(net: Net, nicks: map<string, string>, src: string, data: string)
    requires Decent(net) && Named(net, nicks) && SentBy(net, src, data)
    ensures NicknameOf(data).Some? && GoodName(src) && GoodName(NicknameOf(data).value)
    ensures Named(net, Insert(nicks, src, NicknameOf(data).value))
    ensures src !in nicks ==> NicknameOf(data).value !in nicks.Values
  {
    hide NicknameOf, AddressOf, Record, GoodName;
    var e :| e in net && net[e].name == src && data == Record(net[e].nickname, net[e].ip, net[e].port);
    RecordsHome(net, e);
    if src !in nicks {
      forall n | n in nicks ensures nicks[n] != net[e].nickname {
        var f :| f in net && net[f].name == n;
        assert f != e;
      }
    }
  }

  /** A process's record leads back to it. */
  lemma RecordsHome(net: Net, e: Endpoint)
    requires Decent(net) && e in net
    ensures var data := Record(net[e].nickname, net[e].ip, net[e].port);
      NicknameOf(data) == Some(net[e].nickname) && AddressOf(data) == Address(e.ip, e.port)
  {
    hide NicknameOf, AddressOf, Record;
    var c := net[e];
    assert Protocol.GoodProcess(e, c);
    CleanNameIs(c.nickname);
    CleanNameIs(c.ip);
    RecordSafeIs(c.nickname);
    RecordSafeIs(c.ip);
    RecordRoundTrip(c.nickname, c.ip, c.port);
  }

  lemma RecordedHome(net: Net, addr: map<string, string>)
    requires Decent(net) && Recorded(net, addr)
    ensures AtHome(net, addr)
  {
    hide AddressOf, NicknameOf, Record, HasProcess;
    forall e | e in net && net[e].name in addr ensures AddressOf(addr[net[e].name]) == Address(e.ip, e.port) {
      RecordsHome(net, e);
    }
  }

  lemma RecordedGood(net: Net, addr: map<string, string>)
    requires Decent(net) && Recorded(net, addr)
    ensures forall n :: n in addr ==> GoodName(n)
  {
    hide GoodName, Record;
    forall n | n in addr ensures GoodName(n) {
      var e :| e in net && net[e].name == n;
    }
  }

  lemma RecordedInsert(net: Net, addr: map<string, string>, src: string, data: string)
    requires Decent(net) && Recorded(net, addr) && SentBy(net, src, data)
    ensures Recorded(net, Insert(addr, src, data))
  {
    hide Record;
    var e :| e in net && net[e].name == src && data == Record(net[e].nickname, net[e].ip, net[e].port);
    forall f | f in net && net[f].name == src ensures f == e {
    }
  }

  // ----- the invariant

  /** The maps and the data under way are those of processes. */
  ghost predicate Manned(w: World) {
    var s := w.s;
    && Decent(s.net) && Named(s.net, w.told) && Named(s.net, s.reg.nicks) && Recorded(s.net, s.reg.addr)
    && (s.adder.Adding? ==> SentBy(s.net, s.adder.src, s.adder.data))
  }

  /** Who is announced, in the nickname map, removed. */
  ghost predicate Kept(w: World) {
    var s := w.s;
    && (s.adder.Adding? ==> s.adder.src !in w.removed)
    && (s.remover.Removing? && s.remover.done == 0 ==> s.remover.name in w.told)
    && (InGap(s) ==> s.remover.name in w.removed)
    && s.reg.nicks.Keys == w.told.Keys + Pending(s)
    && w.told.Keys !! w.removed && w.gapped <= w.told.Keys + w.removed
  }

  ghost predicate Settling(w: World) {
    Good(w.s) && GoodServer(w.s.server) && Manned(w) && Kept(w)
  }

  /** Who is in the nickname map without being announced. */
  function Pending(s: State): set<string> {
    (if s.adder.Adding? && s.adder.done == 3 then {s.adder.src} else {})
    + if InGap(s) then {s.remover.name} else {}
  }

  /** The roster of one process. */
  ghost predicate RosterFits(c: ClientState, told: map<string, string>, gapped: set<string>, removed: set<string>) {
    && (c.name in told && c.name !in gapped ==> Mirrors(c.roster, told))
    && (c.name in told && c.name in gapped ==> HasRemoved(c.roster, removed))
    && (c.name !in told && c.name !in removed ==> c.roster == map[])
  }

  /** An entry for a client that has been removed. */
  ghost predicate HasRemoved(roster: map<string, string>, removed: set<string>) {
    exists k :: k in roster && roster[k] in removed
  }

  ghost predicate Right(w: World) {
    Settling(w) && forall e :: e in w.s.net ==> RosterFits(w.s.net[e], w.told, w.gapped, w.removed)
  }

  /** Whoever has been announced has an address; whoever has an address has been
      announced, is being registered or is being removed. */
  lemma WhoHasAnAddress(w: World, n: string)
    requires Settling(w)
    ensures n in w.told ==> n in w.s.reg.addr
    ensures n in w.s.reg.addr ==> n in w.told || (w.s.adder.Adding? && w.s.adder.src == n) || n in w.removed
  {
    hide AddressOf, NicknameOf, Decent, Named, Recorded, SentBy, SoundEntry;
    var s := w.s;
    if s.adder.Adding? && s.adder.src == n {
    } else if s.remover.Removing? && s.remover.name == n {
    } else {
      assert !Busy(s, n) && Settled(s.reg, n);
    }
  }

  // ----- broadcasts, one roster at a time

  lemma KeepsRemovedAdd(c: ClientState, es: seq<Entry>, removed: set<string>)
    requires HasRemoved(c.roster, removed)
    ensures HasRemoved(AddEntries(c, es).roster, removed)
  {
    var k :| k in c.roster && c.roster[k] in removed;
    AddKeys(c, es);
    assert AddEntries(c, es).roster[k] == c.roster[k];
  }

  lemma KeepsRemovedRem(c: ClientState, gone: string, removed: set<string>)
    requires HasRemoved(c.roster, removed) && gone !in removed
    ensures HasRemoved(RemEntry(c, gone).roster, removed)
  {
    hide Keys;
    var k :| k in c.roster && c.roster[k] in removed;
    assert RemEntry(c, gone).roster[k] == c.roster[k];
  }

  /** The list that the registering client is sent. */
  lemma ListFits(c: ClientState, nicks: map<string, string>, told: map<string, string>, gapped: set<string>,
      removed: set<string>, nick: string)
    requires RosterFits(c, told, gapped, removed) && c.name !in removed && DistinctNicks(nicks)
    requires c.name in gapped ==> c.name in told
    requires var now := Insert(told, c.name, nick);
      now.Keys <= nicks.Keys && (forall n :: n in now ==> nicks[n] == now[n])
      && (forall n :: n in nicks && n !in now ==> n in removed)
    ensures var now := Insert(told, c.name, nick);
      RosterFits(AddEntries(c, Entries(nicks)), now, if nicks == now then gapped else gapped + {c.name}, removed)
  {
    hide AddEntries, Entries;
    AddEntriesKeeps(c, Entries(nicks));
    var now, after := Insert(told, c.name, nick), AddEntries(c, Entries(nicks));
    if c.name in told && c.name in gapped {
      KeepsRemovedAdd(c, Entries(nicks), removed);
    } else {
      assert SoundRoster(c.roster, now) && SoundRoster(c.roster, nicks);
      WholeListMirrors(c, nicks);
      if nicks != now {
        var g :| g in nicks && g !in now;
        assert after.roster[nicks[g]] == g;
      }
    }
  }

  /** The new entry, at everybody else. */
  lemma EntryFits(c: ClientState, told: map<string, string>, gapped: set<string>, more: set<string>,
      removed: set<string>, nick: string, src: string)
    requires RosterFits(c, told, gapped, removed) && c.name in told && c.name != src
    requires c.name in more <==> c.name in gapped
    requires if src in told then told[src] == nick else nick !in told.Values
    ensures RosterFits(AddEntries(c, [(nick, src)]), Insert(told, src, nick), more, removed)
  {
    hide AddEntries, Mirrors;
    AddEntriesKeeps(c, [(nick, src)]);
    if c.name in gapped {
      KeepsRemovedAdd(c, [(nick, src)], removed);
    } else {
      MirrorsIsSound(c.roster, told);
      Bystander(c, told, nick, src);
    }
  }

  lemma MirrorsIsSound(roster: map<string, string>, nicks: map<string, string>)
    requires Mirrors(roster, nicks)
    ensures SoundRoster(roster, nicks)
  {
    hide CompleteRoster, SoundRoster;
  }

  /** The removal, at everybody else. */
  lemma RemovalFits(c: ClientState, told: map<string, string>, gapped: set<string>, removed: set<string>, gone: string)
    requires RosterFits(c, told, gapped, removed) && c.name != gone && gone !in removed
    ensures c.name in told ==> RosterFits(RemEntry(c, gone), told - {gone}, gapped, removed + {gone})
    ensures c.name !in told && c.name !in removed
        ==> RosterFits(RemEntry(c, gone), told - {gone}, gapped, removed + {gone})
    ensures c.name !in told ==> RosterFits(c, told - {gone}, gapped, removed + {gone})
  {
    hide Mirrors;
    RemEntryKeeps(c, gone);
    if c.name in told && c.name in gapped {
      hide RemEntry;
      KeepsRemovedRem(c, gone, removed);
      MoreRemoved(RemEntry(c, gone).roster, removed, gone);
    } else if c.name in told {
      hide RemEntry;
      MirrorsIsSound(c.roster, told);
      RemRoster(c, gone, told);
    } else if c.name !in removed {
      assert RemEntry(c, gone).roster == map[];
    }
  }

  lemma MoreRemoved(roster: map<string, string>, removed: set<string>, gone: string)
    requires HasRemoved(roster, removed)
    ensures HasRemoved(roster, removed + {gone})
  {
    var k :| k in roster && roster[k] in removed;
  }

  // ----- broadcasts, for all processes

  /** What a broadcast needs. */
  lemma Ready(w: World)
    requires Settling(w)
    ensures GoodServer(w.s.server) && GoodRegistry(w.s.reg) && AtHome(w.s.net, w.s.reg.addr)
    ensures DistinctNicks(w.s.reg.nicks)
  {
    hide Good, GoodServer, Decent, Named, Recorded, SentBy, GoodName, AtHome;
    NamedGood(w.s.net, w.s.reg.nicks);
    NamedDistinct(w.s.net, w.s.reg.nicks);
    RecordedGood(w.s.net, w.s.reg.addr);
    RecordedHome(w.s.net, w.s.reg.addr);
  }

  /** The net after the broadcast of a registration. */
  lemma AddTold(w: World, now: int)
    requires Settling(w) && CanMove(w, Add(now)) && w.s.adder.done == 3
    ensures NicknameOf(w.s.adder.data).Some?
    ensures var nick := NicknameOf(w.s.adder.data).value;
      && Move(w, Add(now)).s == w.s.(adder := NotAdding,
           net := map e | e in w.s.net :: AfterAdd(w.s.net[e], w.s.reg, w.s.adder.src, nick))
      && SameNet(w.s.net, Move(w, Add(now)).s.net)
  {
    hide NicknameOf, AfterAdd, DeliverAll, AddUpdates, GoodServer, GoodRegistry, AtHome, Settling, GoodName, SentBy;
    Ready(w);
    AdderIsGood(w);
    AddEffect(w.s.net, w.s.reg, w.s.server, w.s.adder.src, w.s.adder.data);
    var t, nick := Move(w, Add(now)), NicknameOf(w.s.adder.data).value;
    hide Move, CanMove;
    forall e | e in w.s.net ensures SameProcess(w.s.net[e], t.s.net[e]) {
      Protocol.AfterAddKeeps(w.s.net[e], w.s.reg, w.s.adder.src, nick);
    }
  }

  lemma AdderIsGood(w: World)
    requires Settling(w) && w.s.adder.Adding?
    ensures SentBy(w.s.net, w.s.adder.src, w.s.adder.data)
    ensures NicknameOf(w.s.adder.data).Some? && GoodName(w.s.adder.src) && GoodName(NicknameOf(w.s.adder.data).value)
  {
    hide Good, GoodServer, Decent, Named, Recorded, SentBy, GoodName, NicknameOf;
    NamedInsert(w.s.net, w.told, w.s.adder.src, w.s.adder.data);
  }

  /** The net after the broadcast of a removal. */
  lemma RemTold(w: World)
    requires Settling(w) && CanMove(w, Remove) && w.s.remover.done == 0
    ensures Move(w, Remove).s == w.s.(remover := w.s.remover.(done := 1),
      net := map e | e in w.s.net :: AfterRem(w.s.net[e], w.s.reg, w.s.remover.name))
    ensures SameNet(w.s.net, Move(w, Remove).s.net)
  {
    hide AfterRem, DeliverAll, RemUpdates, GoodServer, GoodRegistry, AtHome, Good, GoodName, Named, Decent,
        Recorded, SentBy;
    Ready(w);
    RemovedNameGood(w);
    var s := w.s;
    RemEffect(s.net, s.reg, s.server, s.remover.name);
    forall e | e in s.net ensures SameProcess(s.net[e], AfterRem(s.net[e], s.reg, s.remover.name)) {
      AfterRemKeeps(s.net[e], s.reg, s.remover.name);
    }
  }

  lemma AfterRemKeeps(c: ClientState, r: Registry, gone: string)
    ensures SameProcess(c, AfterRem(c, r, gone))
  {
    hide RemEntry;
    RemEntryKeeps(c, gone);
  }

  lemma RemovedNameGood(w: World)
    requires Settling(w) && w.s.remover.Removing? && w.s.remover.done == 0
    ensures GoodName(w.s.remover.name)
  {
    hide Good, GoodServer, Decent, Named, Recorded, SentBy, GoodName;
    NamedGood(w.s.net, w.told);
  }

  // ----- every step keeps the invariant

  lemma KeptMoves(w: World, step: Step)
    requires Settling(w) && CanMove(w, step)
    ensures Kept(Move(w, step))
  {
    hide Good, Manned, Kept, Move, GoodServer, Wire, SentBy;
    CanStepOf(w, step);
    match step
    case BeginAdd(src, data) => KeptBeginAdd(w, src, data);
    case Add(now) => KeptAdd(w, now);
    case BeginRemove(name) => KeptBeginRemove(w, name);
    case Remove => KeptRemove(w);
  }

  lemma KeptBeginAdd(w: World, src: string, data: string)
    requires Kept(w) && CanMove(w, BeginAdd(src, data))
    ensures Kept(Move(w, BeginAdd(src, data)))
  {
    hide SentBy, AddressOf;
  }

  lemma KeptAdd(w: World, now: int)
    requires Settling(w) && CanMove(w, Add(now))
    ensures Kept(Move(w, Add(now)))
  {
    hide Good, Manned, Kept, GoodServer, CanMove, Move;
    CanStepOf(w, Add(now));
    AddChanges(w, now);
    KeptAfterAdd(w, Move(w, Add(now)));
  }

  lemma AddChanges(w: World, now: int)
    requires CanStep(w.s, Add(now))
    ensures var t, src := Move(w, Add(now)), w.s.adder.src;
      && t.s.reg.nicks.Keys == w.s.reg.nicks.Keys + (if w.s.adder.done == 2 then {src} else {})
      && t.told.Keys == w.told.Keys + (if w.s.adder.done == 3 then {src} else {})
      && t.gapped <= w.gapped + (if w.s.adder.done == 3 then {src} else {})
      && t.s.adder == (if w.s.adder.done == 3 then NotAdding else w.s.adder.(done := w.s.adder.done + 1))
      && t.s.remover == w.s.remover && t.removed == w.removed
      && w.s.adder.Adding? && w.s.adder.done < 4
  {
    hide NicknameOf, DeliverAll, AddUpdates;
  }

  lemma KeptAfterAdd(w: World, t: World)
    requires Kept(w) && w.s.adder.Adding? && w.s.adder.done < 4
    requires t.s.remover == w.s.remover && t.removed == w.removed
    requires t.s.reg.nicks.Keys == w.s.reg.nicks.Keys + (if w.s.adder.done == 2 then {w.s.adder.src} else {})
    requires t.told.Keys == w.told.Keys + (if w.s.adder.done == 3 then {w.s.adder.src} else {})
    requires t.gapped <= w.gapped + (if w.s.adder.done == 3 then {w.s.adder.src} else {})
    requires t.s.adder == if w.s.adder.done == 3 then NotAdding else w.s.adder.(done := w.s.adder.done + 1)
    ensures Kept(t)
  {
  }

  lemma KeptBeginRemove(w: World, name: string)
    requires Settling(w) && CanMove(w, BeginRemove(name))
    ensures Kept(Move(w, BeginRemove(name)))
  {
    hide Manned, GoodServer, SoundEntry;
    assert !Busy(w.s, name) && Settled(w.s.reg, name);
  }

  lemma KeptRemove(w: World)
    requires Settling(w) && CanMove(w, Remove)
    ensures Kept(Move(w, Remove))
  {
    hide Manned, GoodServer, DeliverAll, RemUpdates, AddedSoFar, RemovedSoFar, Settled;
  }

  lemma NamedLess(net: Net, nicks: map<string, string>, n: string)
    requires Named(net, nicks)
    ensures Named(net, nicks - {n})
  {
    hide HasProcess;
  }

  lemma RecordedLess(net: Net, addr: map<string, string>, n: string)
    requires Recorded(net, addr)
    ensures Recorded(net, addr - {n})
  {
    hide HasProcess, Record;
  }

  /** Steps that only change a map. */
  lemma QuietManned(w: World, step: Step)
    requires Settling(w) && CanMove(w, step)
    requires (step.Add? ==> w.s.adder.done < 3) && (step.Remove? ==> w.s.remover.done > 0)
    ensures Manned(Move(w, step)) && Move(w, step).s.net == w.s.net
  {
    hide Good, NicknameOf, DeliverAll, AddUpdates, RemUpdates, GoodServer, Wire, SentBy, Decent, Named, Recorded;
    var s := w.s;
    if step.Add? {
      NamedInsert(s.net, s.reg.nicks, s.adder.src, s.adder.data);
      RecordedInsert(s.net, s.reg.addr, s.adder.src, s.adder.data);
    } else if step.Remove? {
      NamedLess(s.net, s.reg.nicks, s.remover.name);
      RecordedLess(s.net, s.reg.addr, s.remover.name);
    }
  }

  lemma MannedLater(w: World, t: World)
    requires Manned(w) && SameNet(w.s.net, t.s.net) && t.s.reg == w.s.reg
    requires Named(w.s.net, t.told) && (t.s.adder == w.s.adder || t.s.adder.NotAdding?)
    ensures Manned(t)
  {
    hide SameNet, Decent, Named, Recorded, SentBy;
    StillDecent(w.s.net, t.s.net);
    StillNamed(w.s.net, t.s.net, t.told);
    StillNamed(w.s.net, t.s.net, w.s.reg.nicks);
    StillRecorded(w.s.net, t.s.net, w.s.reg.addr);
    if w.s.adder.Adding? { StillSent(w.s.net, t.s.net, w.s.adder.src, w.s.adder.data); }
  }

  lemma QuietRight(w: World, step: Step)
    requires Right(w) && CanMove(w, step)
    requires (step.Add? ==> w.s.adder.done < 3) && (step.Remove? ==> w.s.remover.done > 0)
    ensures Right(Move(w, step))
  {
    hide Good, Manned, Kept, AddRegion, RemRegion, Wire, SentBy, GoodServer, RosterFits;
    StepStaysGood(w.s, step);
    QuietManned(w, step);
    KeptMoves(w, step);
    SameServer(w, step);
  }

  lemma SameServer(w: World, step: Step)
    requires CanMove(w, step)
    ensures Move(w, step).s.server == w.s.server && Move(w, step).s == After(w.s, step)
  {
    hide AddRegion, RemRegion, Wire, SentBy;
  }

  // the broadcast of a registration

  lemma AddTellRight(w: World, now: int)
    requires Right(w) && CanMove(w, Add(now)) && w.s.adder.done == 3
    ensures Right(Move(w, Add(now)))
  {
    hide Good, Manned, Kept, GoodServer, RosterFits, AfterAdd, CanMove, NicknameOf, SameNet;
    CanStepOf(w, Add(now));
    var t := Move(w, Add(now));
    StepStaysGood(w.s, Add(now));
    SameServer(w, Add(now));
    KeptMoves(w, Add(now));
    AddTold(w, now);
    AddToldManned(w, now);
    forall e | e in w.s.net ensures RosterFits(t.s.net[e], t.told, t.gapped, t.removed) {
      AddTellAt(w, now, e);
    }
    SameEndpoints(w.s.net, t.s.net);
  }

  lemma CanStepOf(w: World, step: Step)
    requires CanMove(w, step)
    ensures CanStep(w.s, step)
  {
    hide Wire, SentBy;
  }

  lemma SameEndpoints(net: Net, later: Net)
    requires SameNet(net, later)
    ensures later.Keys == net.Keys
  {
  }

  lemma AddToldManned(w: World, now: int)
    requires Settling(w) && CanMove(w, Add(now)) && w.s.adder.done == 3
    ensures Manned(Move(w, Add(now)))
  {
    hide Good, Kept, GoodServer, AfterAdd, Wire, NicknameOf, SameNet, Decent, Named, Recorded, SentBy;
    AddTold(w, now);
    NamedInsert(w.s.net, w.told, w.s.adder.src, w.s.adder.data);
    MannedLater(w, Move(w, Add(now)));
  }

  lemma AddTellAt(w: World, now: int, e: Endpoint)
    requires Right(w) && CanMove(w, Add(now)) && w.s.adder.done == 3 && e in w.s.net
    requires NicknameOf(w.s.adder.data).Some?
    ensures var t := Move(w, Add(now));
      RosterFits(AfterAdd(w.s.net[e], w.s.reg, w.s.adder.src, NicknameOf(w.s.adder.data).value), t.told, t.gapped,
          t.removed)
  {
    hide Good, Manned, Kept, GoodServer, RosterFits, AddRegion, AddEntries, Entries, NicknameOf, Wire, SentBy;
    var s, c, nick := w.s, w.s.net[e], NicknameOf(w.s.adder.data).value;
    WhoHasAnAddress(w, c.name);
    if c.name == s.adder.src {
      AdderHasAddress(w);
      ListIsRight(w);
      AdderUngone(w);
      ListFits(c, s.reg.nicks, w.told, w.gapped, w.removed, nick);
    } else if c.name in w.told {
      NickIsNew(w);
      EntryFits(c, w.told, w.gapped, if InGap(s) then w.gapped + {s.adder.src}
          else w.gapped, w.removed, nick, s.adder.src);
    } else {
      NotToldFits(w, c, nick);
    }
  }

  lemma AdderHasAddress(w: World)
    requires Settling(w) && w.s.adder.Adding? && w.s.adder.done == 3
    ensures w.s.adder.src in w.s.reg.addr
  {
    hide Manned, Kept, GoodServer, Settled;
  }

  lemma AdderUngone(w: World)
    requires Settling(w) && w.s.adder.Adding?
    ensures w.s.adder.src !in w.removed && (w.s.adder.src in w.gapped ==> w.s.adder.src in w.told)
  {
    hide Manned, Good, GoodServer;
  }

  /** The list is what is announced by now, and in the gap what is removed. */
  lemma ListIsRight(w: World)
    requires Settling(w) && w.s.adder.Adding? && w.s.adder.done == 3
    ensures NicknameOf(w.s.adder.data).Some? && DistinctNicks(w.s.reg.nicks)
    ensures var nicks, now := w.s.reg.nicks, Insert(w.told, w.s.adder.src, NicknameOf(w.s.adder.data).value);
      && now.Keys <= nicks.Keys && (forall n :: n in now ==> nicks[n] == now[n])
      && (forall n :: n in nicks && n !in now ==> n in w.removed)
      && (nicks == now <==> !InGap(w.s))
  {
    hide Good, GoodServer, NicknameOf, SentBy, Decent, Named, Recorded;
    AdderIsGood(w);
    var nicks, now := w.s.reg.nicks, Insert(w.told, w.s.adder.src, NicknameOf(w.s.adder.data).value);
    NamedDistinct(w.s.net, nicks);
    NamedInsert(w.s.net, w.told, w.s.adder.src, w.s.adder.data);
    NamedAgree(w.s.net, now, nicks);
    NotTwice(w);
    if !InGap(w.s) { NamedSame(w.s.net, now, nicks); }
  }

  lemma NotTwice(w: World)
    requires Settling(w) && w.s.adder.Adding?
    ensures InGap(w.s) ==> w.s.remover.name != w.s.adder.src && w.s.remover.name !in w.told
  {
    hide Manned, GoodServer, AddedSoFar, RemovedSoFar, Settled;
  }

  lemma NamedNone(net: Net)
    ensures Named(net, map[])
  {
  }

  lemma NamedAgree(net: Net, a: map<string, string>, b: map<string, string>)
    requires Named(net, a) && Named(net, b)
    ensures forall n :: n in a && n in b ==> a[n] == b[n]
  {
    forall n | n in a && n in b ensures a[n] == b[n] {
      var e :| e in net && net[e].name == n;
    }
  }

  lemma NickIsNew(w: World)
    requires Settling(w) && w.s.adder.Adding?
    ensures NicknameOf(w.s.adder.data).Some?
    ensures var src, nick := w.s.adder.src, NicknameOf(w.s.adder.data).value;
      if src in w.told then w.told[src] == nick else nick !in w.told.Values
  {
    hide Good, GoodServer, NicknameOf, SentBy, Decent, Named, Recorded, Kept;
    AdderIsGood(w);
    var src, nick := w.s.adder.src, NicknameOf(w.s.adder.data).value;
    NamedInsert(w.s.net, w.told, src, w.s.adder.data);
    NamedNone(w.s.net);
    NamedInsert(w.s.net, map[], src, w.s.adder.data);
    NamedAgree(w.s.net, w.told, map[src := nick]);
  }

  lemma NotToldFits(w: World, c: ClientState, nick: string)
    requires Settling(w) && w.s.adder.Adding? && c.name != w.s.adder.src && c.name !in w.told
    requires RosterFits(c, w.told, w.gapped, w.removed)
    requires c.name in w.s.reg.addr ==> c.name in w.removed
    ensures RosterFits(AfterAdd(c, w.s.reg, w.s.adder.src, nick), Insert(w.told, w.s.adder.src, nick),
                       if InGap(w.s) then w.gapped + {w.s.adder.src} else w.gapped, w.removed)
  {
    hide Settling, Mirrors, Entries, AddEntries;
    AddEntriesKeeps(c, [(nick, w.s.adder.src)]);
  }

  // the broadcast of a removal

  lemma RemTellRight(w: World)
    requires Right(w) && CanMove(w, Remove) && w.s.remover.done == 0
    ensures Right(Move(w, Remove))
  {
    hide Good, Manned, Kept, GoodServer, RosterFits, AfterRem, CanMove, SameNet;
    CanStepOf(w, Remove);
    var t := Move(w, Remove);
    StepStaysGood(w.s, Remove);
    SameServer(w, Remove);
    KeptMoves(w, Remove);
    RemTold(w);
    RemToldManned(w);
    forall e | e in w.s.net ensures RosterFits(t.s.net[e], t.told, t.gapped, t.removed) {
      RemTellAt(w, e);
    }
    SameEndpoints(w.s.net, t.s.net);
  }

  lemma RemToldManned(w: World)
    requires Settling(w) && CanMove(w, Remove) && w.s.remover.done == 0
    ensures Manned(Move(w, Remove))
  {
    hide Good, Kept, GoodServer, AfterRem, SameNet, Decent, Named, Recorded, SentBy;
    RemTold(w);
    NamedLess(w.s.net, w.told, w.s.remover.name);
    MannedLater(w, Move(w, Remove));
  }

  lemma RemTellAt(w: World, e: Endpoint)
    requires Right(w) && CanMove(w, Remove) && w.s.remover.done == 0 && e in w.s.net
    ensures var t := Move(w, Remove);
      RosterFits(AfterRem(w.s.net[e], w.s.reg, w.s.remover.name), t.told, t.gapped, t.removed)
  {
    hide Good, Manned, Kept, GoodServer, RosterFits, RemRegion, RemEntry;
    var c, gone := w.s.net[e], w.s.remover.name;
    RemoverIsTold(w);
    WhoHasAnAddress(w, c.name);
    if c.name == gone {
      GoneFits(w, c);
    } else {
      RemovalFits(c, w.told, w.gapped, w.removed, gone);
      if c.name !in w.told && c.name in w.removed { RemovedFits(RemEntry(c, gone), c, w, gone); }
    }
  }

  lemma RemoverIsTold(w: World)
    requires Settling(w) && w.s.remover.Removing? && w.s.remover.done == 0
    ensures w.s.remover.name in w.told && w.s.remover.name !in w.removed
  {
    hide Good, Manned, GoodServer;
  }

  lemma GoneFits(w: World, c: ClientState)
    requires w.s.remover.Removing? && c.name == w.s.remover.name
    ensures RosterFits(c, w.told - {c.name}, w.gapped, w.removed + {c.name})
  {
  }

  /** Nothing is asked of the removed. */
  lemma RemovedFits(d: ClientState, c: ClientState, w: World, gone: string)
    requires c.name !in w.told && c.name in w.removed && d == RemEntry(c, gone)
    ensures RosterFits(d, w.told - {gone}, w.gapped, w.removed + {gone})
  {
    hide RemEntry, Mirrors;
    RemEntryKeeps(c, gone);
  }

  // ----- histories

  lemma MoveRight(w: World, step: Step)
    requires Right(w) && CanMove(w, step)
    ensures Right(Move(w, step))
  {
    hide Right, Move, CanMove;
    CanStepOf(w, step);
    if step.Add? && w.s.adder.done == 3 { AddTellRight(w, step.now); }
    else if step.Remove? && w.s.remover.done == 0 { RemTellRight(w); }
    else { QuietRight(w, step); }
  }

  lemma {:induction false} HistoryRight(w: World, steps: seq<Step>)
    requires Right(w) && IsHistory(w, steps)
    ensures Right(History(w, steps))
    decreases |steps|
  {
    hide Right, Move, CanMove;
    if steps != [] {
      CanStepOf(w, steps[0]);
      MoveRight(w, steps[0]);
      HistoryRight(Move(w, steps[0]), steps[1..]);
    }
  }

  /** No client, any processes, none with a roster. */
  function Dawn(server: string, net: Net): World {
    World(State(server, EMPTY, net, NotAdding, NotRemoving), map[], {}, {})
  }

  lemma DawnIsRight(server: string, net: Net)
    requires GoodServer(server) && Decent(net) && forall e :: e in net ==> net[e].roster == map[]
    ensures Right(Dawn(server, net))
  {
    hide GoodServer, Decent;
  }

  /** The roster of every registered client that runs is the inverse of the
      server's map. */
  ghost predicate RostersAgree(reg: Registry, net: Net) {
    && DistinctNicks(reg.nicks)
    && forall e :: e in net && net[e].name in reg.addr ==> Mirrors(net[e].roster, reg.nicks)
  }

  lemma IdleAgreesIff(w: World)
    requires Right(w) && w.s.adder.NotAdding? && w.s.remover.NotRemoving?
    ensures RostersAgree(w.s.reg, w.s.net) <==>
      forall e :: e in w.s.net && w.s.net[e].name in w.s.reg.addr ==> w.s.net[e].name !in w.gapped
  {
    hide Good, GoodServer, Decent, Named, Recorded, Mirrors;
    NamedDistinct(w.s.net, w.s.reg.nicks);
    NamedSame(w.s.net, w.told, w.s.reg.nicks);
    forall e | e in w.s.net && w.s.net[e].name in w.s.reg.addr
      ensures Mirrors(w.s.net[e].roster, w.s.reg.nicks) <==> w.s.net[e].name !in w.gapped
    {
      WhoHasAnAddress(w, w.s.net[e].name);
      IdleAddressIsTold(w, w.s.net[e].name);
      if w.s.net[e].name in w.gapped { RemovedIsWrong(w.s.net[e].roster, w.told, w.removed); }
    }
  }

  lemma IdleAddressIsTold(w: World, n: string)
    requires Settling(w) && w.s.adder.NotAdding? && w.s.remover.NotRemoving?
    ensures n in w.s.reg.addr ==> n in w.told
  {
    hide Manned, GoodServer, AddressOf, NicknameOf, SoundEntry;
    assert !Busy(w.s, n) && Settled(w.s.reg, n);
  }

  lemma RemovedIsWrong(roster: map<string, string>, nicks: map<string, string>, removed: set<string>)
    requires HasRemoved(roster, removed) && nicks.Keys !! removed
    ensures !Mirrors(roster, nicks)
  {
    var k :| k in roster && roster[k] in removed;
  }

  /** In every interleaving of any number of registrations and removals, whenever
      both threads are idle: all rosters are the inverse of the server's map if
      and only if no client that is registered was ever sent the list between
      the broadcast of a removal and that removal's last erasure. */
  lemma TraceAgreesIff(server: string, net: Net, steps: seq<Step>)
    requires GoodServer(server) && Decent(net) && forall e :: e in net ==> net[e].roster == map[]
    requires IsHistory(Dawn(server, net), steps)
    requires var t := History(Dawn(server, net), steps).s; t.adder.NotAdding? && t.remover.NotRemoving?
    ensures var w := History(Dawn(server, net), steps);
      RostersAgree(w.s.reg, w.s.net) <==>
        forall e :: e in w.s.net && w.s.net[e].name in w.s.reg.addr ==> w.s.net[e].name !in w.gapped
  {
    hide Right, RostersAgree, GoodServer, Decent;
    DawnIsRight(server, net);
    HistoryRight(Dawn(server, net), steps);
    IdleAgreesIff(History(Dawn(server, net), steps));
  }
}
