/** Registration and removal at the granularity of the server's locks: the
    process thread's four regions (name list, ping list, nickname list,
    broadcast) interleave with the ping thread's four (broadcast, name list,
    ping list, nickname list). */
module Interleaving {
  import opened NodeData
  import opened Registries
  import opened Network

  // ----- the regions

  /** The process thread's k-th region: three insertions, then the broadcast. */
  function AddRegion(k: nat, server: string, r: Registry, net: Net, src: string, data: string,
      now: int): (Registry, Net)
    requires k < 4 && NicknameOf(data).Some?
  {
    if k == 0 then (r.(addr := Insert(r.addr, src, data)), net)
    else if k == 1 then (r.(ping := Insert(r.ping, src, now)), net)
    else if k == 2 then (r.(nicks := Insert(r.nicks, src, NicknameOf(data).value)), net)
    else (r, DeliverAll(net, AddUpdates(r, server, src, data)))
  }

  /** The ping thread's k-th region: the broadcast, then three erasures. */
  function RemRegion(k: nat, server: string, r: Registry, net: Net, gone: string): (Registry, Net)
    requires k < 4
  {
    if k == 0 then (r, DeliverAll(net, RemUpdates(r, server, gone)))
    else if k == 1 then (r.(addr := r.addr - {gone}), net)
    else if k == 2 then (r.(ping := r.ping - {gone}), net)
    else (r.(nicks := r.nicks - {gone}), net)
  }

  /** Undisturbed, the regions make up the operations of the server. */
  lemma RegionsCompose(server: string, r: Registry, net: Net, src: string, data: string, now: int, gone: string)
    requires NicknameOf(data).Some?
    ensures var (r1, n1) := AddRegion(0, server, r, net, src, data, now);
      var (r2, n2) := AddRegion(1, server, r1, n1, src, data, now);
      var (r3, n3) := AddRegion(2, server, r2, n2, src, data, now);
      AddRegion(3, server, r3, n3, src, data, now) ==
        (Register(r, src, data, now), DeliverAll(net, AddUpdates(Register(r, src, data, now), server, src, data)))
    ensures var (r1, n1) := RemRegion(0, server, r, net, gone);
      var (r2, n2) := RemRegion(1, server, r1, n1, gone);
      var (r3, n3) := RemRegion(2, server, r2, n2, gone);
      RemRegion(3, server, r3, n3, gone) == (Unregister(r, gone), DeliverAll(net, RemUpdates(r, server, gone)))
  {
    hide NicknameOf, DeliverAll, AddUpdates, RemUpdates;
  }

  // ----- any number of registrations and removals, one of each at a time

  datatype Adder = NotAdding | Adding(src: string, data: string, done: nat)
  datatype Remover = NotRemoving | Removing(name: string, done: nat)

  datatype State = State(server: string, reg: Registry, net: Net, adder: Adder, remover: Remover)

  datatype Step =
    | BeginAdd(src: string, data: string) | Add(now: int)
    | BeginRemove(name: string) | Remove

  /** A removal starts for a client in the ping list; the two threads never work
      on the same name. */
  ghost predicate CanStep(s: State, step: Step) {
    match step
    case BeginAdd(src, data) =>
      s.adder.NotAdding? && AddressOf(data).Address? && (s.remover.Removing? ==> s.remover.name != src)
    case Add(_) => s.adder.Adding? && s.adder.done < 4 && NicknameOf(s.adder.data).Some?
    case BeginRemove(name) =>
      s.remover.NotRemoving? && name in s.reg.ping && (s.adder.Adding? ==> s.adder.src != name)
    case Remove => s.remover.Removing? && s.remover.done < 4
  }

  function After(s: State, step: Step): State
    requires CanStep(s, step)
  {
    match step
    case BeginAdd(src, data) => s.(adder := Adding(src, data, 0))
    case Add(now) =>
      var (r, net) := AddRegion(s.adder.done, s.server, s.reg, s.net, s.adder.src, s.adder.data, now);
      s.(reg := r, net := net, adder := if s.adder.done == 3 then NotAdding else s.adder.(done := s.adder.done + 1))
    case BeginRemove(name) => s.(remover := Removing(name, 0))
    case Remove =>
      var (r, net) := RemRegion(s.remover.done, s.server, s.reg, s.net, s.remover.name);
      s.(reg := r, net := net, remover := if s.remover.done == 3 then NotRemoving
          else s.remover.(done := s.remover.done + 1))
  }

  ghost predicate IsTrace(s: State, steps: seq<Step>)
    decreases |steps|
  {
    steps == [] || (CanStep(s, steps[0]) && IsTrace(After(s, steps[0]), steps[1..]))
  }

  ghost function Trace(s: State, steps: seq<Step>): State
    requires IsTrace(s, steps)
    decreases |steps|
  {
    if steps == [] then s else Trace(After(s, steps[0]), steps[1..])
  }

  /** n is in all three maps, usably and with its address's nickname, or in none. */
  ghost predicate Settled(r: Registry, n: string) {
    || (n in r.addr && n in r.ping && n in r.nicks && SoundEntry(r, n))
    || (n !in r.addr && n !in r.ping && n !in r.nicks)
  }

  /** A registration on its way: the maps still to come either all have the
      client from before, or none has it and the address is the new one. */
  ghost predicate AddedSoFar(r: Registry, src: string, data: string, done: nat) {
    && done < 4
    && AddressOf(data).Address?
    && (done == 0 || done == 3 ==> Settled(r, src))
    && (1 <= done ==> src in r.addr)
    && (2 <= done ==> src in r.ping)
    && (3 <= done ==> src in r.nicks)
    && (1 <= done < 3 && src in r.nicks ==> src in r.ping && SoundEntry(r, src))
    && (1 <= done < 3 && src !in r.nicks ==> r.addr[src] == data && (done == 1 ==> src !in r.ping))
  }

  ghost predicate RemovedSoFar(r: Registry, n: string, done: nat) {
    && done < 4
    && (done < 2 ==> Settled(r, n))
    && (2 <= done ==> n !in r.addr)
    && (3 <= done ==> n !in r.ping)
  }

  ghost predicate Good(s: State) {
    && (s.adder.Adding? ==> AddedSoFar(s.reg, s.adder.src, s.adder.data, s.adder.done))
    && (s.remover.Removing? ==> RemovedSoFar(s.reg, s.remover.name, s.remover.done))
    && (s.adder.Adding? && s.remover.Removing? ==> s.adder.src != s.remover.name)
    && forall n :: !Busy(s, n) ==> Settled(s.reg, n)
  }

  predicate Busy(s: State, n: string) {
    (s.adder.Adding? && s.adder.src == n) || (s.remover.Removing? && s.remover.name == n)
  }

  lemma SettledDepends(r: Registry, q: Registry, n: string)
    requires n in r.addr <==> n in q.addr
    requires n in r.ping <==> n in q.ping
    requires n in r.nicks <==> n in q.nicks
    requires n in r.addr && n in q.addr ==> r.addr[n] == q.addr[n]
    requires n in r.nicks && n in q.nicks ==> r.nicks[n] == q.nicks[n]
    ensures Settled(r, n) <==> Settled(q, n)
    ensures n in r.addr && n in r.nicks ==> (SoundEntry(r, n) <==> SoundEntry(q, n))
  {
  }

  /** A region touches only the name it works for. */
  lemma OtherNames(s: State, step: Step, n: string)
    requires CanStep(s, step)
    requires step.Add? ==> n != s.adder.src
    requires step.Remove? ==> n != s.remover.name
    ensures Settled(s.reg, n) <==> Settled(After(s, step).reg, n)
    ensures var r, q := s.reg, After(s, step).reg;
      && (n in r.addr <==> n in q.addr) && (n in r.ping <==> n in q.ping) && (n in r.nicks <==> n in q.nicks)
      && (n in r.addr ==> q.addr[n] == r.addr[n]) && (n in r.nicks ==> q.nicks[n] == r.nicks[n])
      && (n in r.addr && n in r.nicks ==> (SoundEntry(r, n) <==> SoundEntry(q, n)))
  {
    hide NicknameOf, AddressOf, DeliverAll, AddUpdates, RemUpdates, Settled, SoundEntry;
    SettledDepends(s.reg, After(s, step).reg, n);
  }

  lemma StepStaysGood(s: State, step: Step)
    requires Good(s) && CanStep(s, step)
    ensures Good(After(s, step))
  {
    hide NicknameOf, AddressOf, DeliverAll, AddUpdates, RemUpdates;
    var t := After(s, step);
    forall n | !Busy(t, n) ensures Settled(t.reg, n) {
      if (step.Add? && n == s.adder.src) || (step.Remove? && n == s.remover.name) {
      } else {
        OtherNames(s, step, n);
      }
    }
    if s.adder.Adding? && !step.Add? { OtherNames(s, step, s.adder.src); }
    if s.remover.Removing? && !step.Remove? { OtherNames(s, step, s.remover.name); }
  }

  lemma {:induction false} TraceStaysGood(s: State, steps: seq<Step>)
    requires Good(s) && IsTrace(s, steps)
    ensures Good(Trace(s, steps))
    decreases |steps|
  {
    if steps != [] {
      StepStaysGood(s, steps[0]);
      TraceStaysGood(After(s, steps[0]), steps[1..]);
    }
  }

  lemma AllSettled(r: Registry)
    requires forall n :: Settled(r, n)
    ensures Consistent(r)
  {
    hide NicknameOf, AddressOf;
    forall n: string ensures (n in r.addr.Keys <==> n in r.ping.Keys) && (n in r.addr.Keys <==> n in r.nicks.Keys)
      && (n in r.addr && n in r.nicks ==> SoundEntry(r, n))
    {
      assert Settled(r, n);
    }
  }

  /** In every interleaving the three maps have the same clients except at the
      names in progress; whenever both threads are idle the registry is
      consistent, every nickname being the one its address carries. */
  lemma RegistryConsistency(server: string, net: Net, steps: seq<Step>)
    requires IsTrace(State(server, EMPTY, net, NotAdding, NotRemoving), steps)
    ensures var t := Trace(State(server, EMPTY, net, NotAdding, NotRemoving), steps);
      && (forall n :: !Busy(t, n) ==> (n in t.reg.addr <==> n in t.reg.ping) && (n in t.reg.addr <==> n in t.reg.nicks))
      && (t.adder.NotAdding? && t.remover.NotRemoving? ==> Consistent(t.reg))
  {
    hide NicknameOf, AddressOf;
    TraceStaysGood(State(server, EMPTY, net, NotAdding, NotRemoving), steps);
    var t := Trace(State(server, EMPTY, net, NotAdding, NotRemoving), steps);
    if t.adder.NotAdding? && t.remover.NotRemoving? {
      forall n ensures Settled(t.reg, n) { assert !Busy(t, n); }
      AllSettled(t.reg);
    }
  }

  /** What the ping loop relies on: between removals, every client with an address
      is in the ping list if and only if no first registration stands between its
      first and its second region. */
  lemma PingListIff(server: string, net: Net, steps: seq<Step>)
    requires IsTrace(State(server, EMPTY, net, NotAdding, NotRemoving), steps)
    requires Trace(State(server, EMPTY, net, NotAdding, NotRemoving), steps).remover.NotRemoving?
    ensures var t := Trace(State(server, EMPTY, net, NotAdding, NotRemoving), steps);
      t.reg.addr.Keys <= t.reg.ping.Keys <==> !(t.adder.Adding? && t.adder.done == 1 && t.adder.src !in t.reg.ping)
  {
    hide NicknameOf, AddressOf, SoundEntry;
    TraceStaysGood(State(server, EMPTY, net, NotAdding, NotRemoving), steps);
    var t := Trace(State(server, EMPTY, net, NotAdding, NotRemoving), steps);
    forall n | n in t.reg.addr && !Busy(t, n) ensures n in t.reg.ping {
      assert Settled(t.reg, n);
    }
  }

  /** Such a moment is reached by every first registration. */
  lemma PingListBehind(server: string, net: Net, src: string, data: string, now: int)
    requires AddressOf(data).Address?
    ensures var steps := [BeginAdd(src, data), Add(now)];
      && IsTrace(State(server, EMPTY, net, NotAdding, NotRemoving), steps)
      && var t := Trace(State(server, EMPTY, net, NotAdding, NotRemoving), steps);
        t.remover.NotRemoving? && src in t.reg.addr && src !in t.reg.ping
  {
    hide NicknameOf, AddressOf;
    var s, steps := State(server, EMPTY, net, NotAdding, NotRemoving), [BeginAdd(src, data), Add(now)];
    var s1 := After(s, steps[0]);
    var s2 := After(s1, steps[1]);
    assert steps[1..] == [Add(now)] && steps[1..][1..] == [];
    assert IsTrace(s2, []) && IsTrace(s1, steps[1..]);
    assert Trace(s1, steps[1..]) == s2;
  }

  /** n has an address in every state of the trace. */
  ghost predicate Stays(s: State, steps: seq<Step>, n: string)
    requires IsTrace(s, steps)
    decreases |steps|
  {
    n in s.reg.addr && (steps == [] || Stays(After(s, steps[0]), steps[1..], n))
  }

  /** The first registration wins: as long as a client stays registered, its
      address does not change, whatever it or others send. */
  lemma {:induction false} FirstRegistrationWins(s: State, steps: seq<Step>, n: string)
    requires IsTrace(s, steps) && Stays(s, steps, n)
    ensures var t := Trace(s, steps);
      n in t.reg.addr && t.reg.addr[n] == s.reg.addr[n]
    decreases |steps|
  {
    hide NicknameOf, AddressOf, DeliverAll, AddUpdates, RemUpdates;
    if steps != [] {
      FirstRegistrationWins(After(s, steps[0]), steps[1..], n);
    }
  }
}
