/** A client registers again while it is being removed: exactly which
    interleavings of the two threads leave the three maps in agreement. */
module SameNameRace {
  import opened CppString
  import opened NodeData
  import opened Registries
  import opened RosterRace

  /** What becomes of one map: the registration's region insert may insert n,
      the removal's region erase erases it; a and r regions are complete. */
  function Raced<V>(m: map<string, V>, n: string, v: V, insert: nat, erase: nat, a: nat, r: nat,
      schedule: seq<bool>): map<string, V>
    decreases |schedule|
  {
    if schedule == [] then m
    else if schedule[0] then
      if a >= 4 then Raced(m, n, v, insert, erase, a, r, schedule[1..])
      else Raced(if a == insert then Insert(m, n, v) else m, n, v, insert, erase, a + 1, r, schedule[1..])
    else
      if r >= 4 then Raced(m, n, v, insert, erase, a, r, schedule[1..])
      else Raced(if r == erase then m - {n} else m, n, v, insert, erase, a, r + 1, schedule[1..])
  }

  /** The three maps go their own ways. */
  lemma {:induction false} MapsApart(k: Setup, p: Progress, schedule: seq<bool>)
    requires NicknameOf(k.data) == Some(k.nick) && k.src == k.gone
    ensures Play(k, p, schedule).reg == Registry(
      Raced(p.reg.addr, k.src, k.data, 0, 1, p.a, p.r, schedule),
      Raced(p.reg.ping, k.src, k.now, 1, 2, p.a, p.r, schedule),
      Raced(p.reg.nicks, k.src, k.nick, 2, 3, p.a, p.r, schedule))
    decreases |schedule|
  {
    hide NicknameOf;
    if schedule != [] {
      var q := if CanGo(p, schedule[0]) then Go(k, p, schedule[0]) else p;
      MapsApart(k, q, schedule[1..]);
    }
  }

  /** The entry is there in the end if and only if it was inserted after it was
      erased; nobody else's changes. */
  lemma {:induction false} RacedIs<V>(m: map<string, V>, n: string, v: V, insert: nat, erase: nat, a: nat, r: nat,
      schedule: seq<bool>)
    requires insert < 4 && erase < 4 && (a <= insert && r > erase ==> n !in m)
    requires a + Count(schedule, true) == 4 && r + Count(schedule, false) == 4
    ensures var q := Raced(m, n, v, insert, erase, a, r, schedule);
      && q - {n} == m - {n}
      && (n in q <==> if a > insert then n in m && r > erase else r + RemovalsBefore(schedule, insert + 1 - a) > erase)
      && (n in q ==> q[n] == if a > insert then m[n] else v)
    decreases |schedule|
  {
    if schedule != [] {
      if schedule[0] {
        RacedIs(if a == insert then Insert(m, n, v) else m, n, v, insert, erase, a + 1, r, schedule[1..]);
      } else {
        RacedIs(if r == erase then m - {n} else m, n, v, insert, erase, a, r + 1, schedule[1..]);
      }
    }
  }

  /** Afterwards the maps are consistent if and only if all three insertions
      came after the erasure of their map, or none did. Otherwise the client is
      left in some of the maps only. */
  lemma SameNameRaceIff(k: Setup, schedule: seq<bool>)
    requires Consistent(k.reg) && k.src == k.gone
    requires AddressOf(k.data).Address? && NicknameOf(k.data) == Some(k.nick)
    requires Count(schedule, true) == 4 && Count(schedule, false) == 4
    ensures var q := Play(k, Begin(k), schedule).reg;
      && (k.src in q.addr <==> RemovalsBefore(schedule, 1) >= 2)
      && (k.src in q.ping <==> RemovalsBefore(schedule, 2) >= 3)
      && (k.src in q.nicks <==> RemovalsBefore(schedule, 3) >= 4)
    ensures Consistent(Play(k, Begin(k), schedule).reg) <==>
      (RemovalsBefore(schedule, 1) >= 2) == (RemovalsBefore(schedule, 2) >= 3) == (RemovalsBefore(schedule, 3) >= 4)
  {
    hide NicknameOf, AddressOf, Raced, Play, Consistent;
    MapsApart(k, Begin(k), schedule);
    RacedIs(k.reg.addr, k.src, k.data, 0, 1, 0, 0, schedule);
    RacedIs(k.reg.ping, k.src, k.now, 1, 2, 0, 0, schedule);
    RacedIs(k.reg.nicks, k.src, k.nick, 2, 3, 0, 0, schedule);
    OnlyOneDiffers(k.reg, Play(k, Begin(k), schedule).reg, k.src, k.data);
  }

  lemma OnlyOneDiffers(r: Registry, q: Registry, n: string, data: string)
    requires Consistent(r) && AddressOf(data).Address?
    requires q.addr - {n} == r.addr - {n} && q.ping - {n} == r.ping - {n} && q.nicks - {n} == r.nicks - {n}
    requires (n in q.addr ==> q.addr[n] == data) && (n in q.nicks ==> NicknameOf(data) == Some(q.nicks[n]))
    ensures Consistent(q) <==> (n in q.addr <==> n in q.ping) && (n in q.ping <==> n in q.nicks)
  {
    hide NicknameOf, AddressOf;
    forall m | m != n
      ensures m in q.addr <==> m in r.addr
      ensures m in q.ping <==> m in r.ping
      ensures m in q.nicks <==> m in r.nicks
      ensures m in r.addr ==> q.addr[m] == r.addr[m] && m in r.nicks && q.nicks[m] == r.nicks[m] && SoundEntry(r, m)
    {
      assert m in q.addr - {n} <==> m in q.addr;
      assert m in q.ping - {n} <==> m in q.ping;
      assert m in q.nicks - {n} <==> m in q.nicks;
      assert m in r.addr ==> (q.addr - {n})[m] == q.addr[m] && (q.nicks - {n})[m] == q.nicks[m];
    }
    if (n in q.addr <==> n in q.ping) && (n in q.ping <==> n in q.nicks) {
      forall m | m in q.addr ensures m in q.nicks && SoundEntry(q, m) {
      }
    } else {
      assert q.addr.Keys == q.ping.Keys == q.nicks.Keys ==> n in q.addr.Keys || n !in q.ping.Keys;
    }
  }
}
