/** The lock protocol of the server: where its threads lock and unlock the
    three mutexes in use, for any number of clients and loop passes. The server
    has one thread of each kind; the results hold for any number of either. */
module Locks {
  import opened CppString

  datatype Mutex = ClientNameList | ClientPingList | ClientNicknameList

  /** Points of the two programs. "To" is just before an acquisition, "In" is
      inside the region. */
  datatype Point =
    // process thread: executeAddClient, then updateClientListAdd
    | Dispatching
    | ToAddName | InAddName | ToAddPing | InAddPing | ToAddNickname | InAddNickname
    | Replying
    | ToUpdateAdd | InUpdateAdd
    // ping thread: the ping loop ...
    | RoundStart | InPingLoop | ToStamp | InStamp
    // ... and the sweep, which drops its lock for updateClientListRem and removeClient
    | ToSweep | InSweep
    | ToUpdateRem | InUpdateRem
    | ToRemoveName | InRemoveName | ToRemovePing | InRemovePing | ToRemoveNickname | InRemoveNickname
    | ToResume
    | Sleeping

  datatype Action = Lock(m: Mutex) | Unlock(m: Mutex) | Local

  /** One step of the program text. */
  predicate Goes(p: Point, a: Action, q: Point) {
    match p
    case Dispatching => a == Local && (q == ToAddName || q == Dispatching)
    case ToAddName => a == Lock(ClientNameList) && q == InAddName
    case InAddName => a == Unlock(ClientNameList) && q == ToAddPing
    case ToAddPing => a == Lock(ClientPingList) && q == InAddPing
    case InAddPing => a == Unlock(ClientPingList) && q == ToAddNickname
    case ToAddNickname => a == Lock(ClientNicknameList) && q == InAddNickname
    case InAddNickname => a == Unlock(ClientNicknameList) && q == Replying
    case Replying => a == Local && q == ToUpdateAdd
    case ToUpdateAdd => a == Lock(ClientNameList) && q == InUpdateAdd
    case InUpdateAdd => (a == Local && q == InUpdateAdd) || (a == Unlock(ClientNameList) && q == Dispatching)
    case RoundStart => a == Lock(ClientNameList) && q == InPingLoop
    case InPingLoop =>
      || (a == Local && (q == InPingLoop || q == ToStamp))         // a pong, or none
      || (a == Unlock(ClientNameList) && q == ToSweep)
    case ToStamp => a == Lock(ClientPingList) && q == InStamp
    case InStamp => a == Unlock(ClientPingList) && q == InPingLoop
    case ToSweep => a == Lock(ClientPingList) && q == InSweep
    case InSweep =>
      || (a == Local && q == InSweep)                              // not timed out
      || (a == Unlock(ClientPingList) && (q == ToUpdateRem || q == Sleeping))
    case ToUpdateRem => a == Lock(ClientNameList) && q == InUpdateRem
    case InUpdateRem => (a == Local && q == InUpdateRem) || (a == Unlock(ClientNameList) && q == ToRemoveName)
    case ToRemoveName => a == Lock(ClientNameList) && q == InRemoveName
    case InRemoveName => a == Unlock(ClientNameList) && q == ToRemovePing
    case ToRemovePing => a == Lock(ClientPingList) && q == InRemovePing
    case InRemovePing => a == Unlock(ClientPingList) && q == ToRemoveNickname
    case ToRemoveNickname => a == Lock(ClientNicknameList) && q == InRemoveNickname
    case InRemoveNickname => a == Unlock(ClientNicknameList) && q == ToResume
    case ToResume => a == Lock(ClientPingList) && q == InSweep
    case Sleeping => a == Local && q == RoundStart
  }

  /** threads[t] is where thread t is; owner says who has locked what. */
  datatype State = State(threads: seq<Point>, owner: map<Mutex, nat>)

  datatype Step = Step(thread: nat, action: Action, to: Point)

  /** A lock is taken only when it is free; nothing else waits. */
  predicate Enabled(s: State, step: Step) {
    && step.thread < |s.threads|
    && Goes(s.threads[step.thread], step.action, step.to)
    && (step.action.Lock? ==> step.action.m !in s.owner)
  }

  function Next(s: State, step: Step): State
    requires Enabled(s, step)
  {
    var threads := s.threads[step.thread := step.to];
    match step.action
    case Lock(m) => State(threads, s.owner[m := step.thread])
    case Unlock(m) => State(threads, s.owner - {m})
    case Local => State(threads, s.owner)
  }

  /** Every thread outside all regions. */
  predicate IsStart(s: State) {
    s.owner == map[] && forall t :: 0 <= t < |s.threads| ==> s.threads[t] == Dispatching || s.threads[t] == RoundStart
  }

  predicate IsRun(s: State, steps: seq<Step>)
    decreases |steps|
  {
    steps == [] || (Enabled(s, steps[0]) && IsRun(Next(s, steps[0]), steps[1..]))
  }

  function Run(s: State, steps: seq<Step>): State
    requires IsRun(s, steps)
    decreases |steps|
  {
    if steps == [] then s else Run(Next(s, steps[0]), steps[1..])
  }

  // ----- what the program text implies for a thread on its own

  function Held(p: Point): set<Mutex> {
    match p
    case InAddName | InUpdateAdd | InPingLoop | ToStamp | InUpdateRem | InRemoveName => {ClientNameList}
    case InAddPing | InSweep | InRemovePing => {ClientPingList}
    case InAddNickname | InRemoveNickname => {ClientNicknameList}
    case InStamp => {ClientNameList, ClientPingList}
    case _ => {}
  }

  function Wanted(p: Point): Option<Mutex> {
    match p
    case ToAddName | ToUpdateAdd | RoundStart | ToUpdateRem | ToRemoveName => Some(ClientNameList)
    case ToAddPing | ToStamp | ToSweep | ToRemovePing | ToResume => Some(ClientPingList)
    case ToAddNickname | ToRemoveNickname => Some(ClientNicknameList)
    case _ => None
  }

  function Rank(m: Mutex): nat {
    match m
    case ClientNameList => 0
    case ClientPingList => 1
    case ClientNicknameList => 2
  }

  // ----- invariant

  ghost predicate Owned(s: State) {
    && (forall m :: m in s.owner ==> s.owner[m] < |s.threads| && m in Held(s.threads[s.owner[m]]))
    && (forall t, m :: 0 <= t < |s.threads| && m in Held(s.threads[t]) ==> m in s.owner && s.owner[m] == t)
  }

  /** A step changes what its thread holds exactly by its action. */
  lemma HeldFollows(p: Point, a: Action, q: Point)
    requires Goes(p, a, q)
    ensures a.Lock? ==> Held(q) == Held(p) + {a.m}
    ensures a.Unlock? ==> a.m in Held(p) && Held(q) == Held(p) - {a.m}
    ensures a.Local? ==> Held(q) == Held(p)
  {
    hide Held, Goes;
    match a
    case Lock(m) => HeldAfterLock(p, m, q);
    case Unlock(m) => HeldAfterUnlock(p, m, q);
    case Local => HeldAfterLocal(p, q);
  }

  lemma HeldAfterLocal(p: Point, q: Point)
    requires Goes(p, Local, q)
    ensures Held(q) == Held(p)
  {
  }

  lemma HeldAfterLock(p: Point, m: Mutex, q: Point)
    requires Goes(p, Lock(m), q)
    ensures Held(q) == Held(p) + {m}
  {
    match m
    case ClientNameList => assert Held(p) == {} && Held(q) == {ClientNameList};
    case ClientPingList => assert Held(p) == (if p == ToStamp then {ClientNameList} else {});
    case ClientNicknameList => assert Held(p) == {} && Held(q) == {ClientNicknameList};
  }

  lemma HeldAfterUnlock(p: Point, m: Mutex, q: Point)
    requires Goes(p, Unlock(m), q)
    ensures m in Held(p) && Held(q) == Held(p) - {m}
  {
  }

  lemma StepKeeps(s: State, step: Step)
    requires Owned(s) && Enabled(s, step)
    ensures Owned(Next(s, step))
  {
    hide Held, Goes;
    HeldFollows(s.threads[step.thread], step.action, step.to);
    var n := Next(s, step);
    forall t, m | 0 <= t < |n.threads| && m in Held(n.threads[t]) ensures m in n.owner && n.owner[m] == t {
      if t == step.thread {
        assert n.threads[t] == step.to;
        assert m in Held(s.threads[t]) ==> s.owner[m] == t;
      } else {
        assert n.threads[t] == s.threads[t] && s.owner[m] == t;
        assert step.action.Unlock? ==> s.owner[step.action.m] == step.thread;
      }
    }
  }

  lemma {:induction false} RunKeeps(s: State, steps: seq<Step>)
    requires Owned(s) && IsRun(s, steps)
    ensures Owned(Run(s, steps)) && |Run(s, steps).threads| == |s.threads|
    decreases |steps|
  {
    if steps != [] {
      StepKeeps(s, steps[0]);
      RunKeeps(Next(s, steps[0]), steps[1..]);
    }
  }

  predicate Blocked(s: State, t: nat)
    requires t < |s.threads|
  {
    var w := Wanted(s.threads[t]);
    w.Some? && w.value in s.owner
  }

  /** Blocked is what it says: the thread has no step. */
  lemma BlockedMeansNoStep(s: State, t: nat)
    requires t < |s.threads|
    ensures Blocked(s, t) <==> !exists a, q :: Enabled(s, Step(t, a, q))
  {
    if !Blocked(s, t) {
      var a, q := AnyStep(s.threads[t]);
      assert Enabled(s, Step(t, a, q));
    }
  }

  lemma AnyStep(p: Point) returns (a: Action, q: Point)
    ensures Goes(p, a, q)
    ensures a.Lock? <==> Wanted(p).Some?
    ensures a.Lock? ==> a.m == Wanted(p).value
  {
    match p
    case Dispatching => a, q := Local, Dispatching;
    case ToAddName => a, q := Lock(ClientNameList), InAddName;
    case InAddName => a, q := Unlock(ClientNameList), ToAddPing;
    case ToAddPing => a, q := Lock(ClientPingList), InAddPing;
    case InAddPing => a, q := Unlock(ClientPingList), ToAddNickname;
    case ToAddNickname => a, q := Lock(ClientNicknameList), InAddNickname;
    case InAddNickname => a, q := Unlock(ClientNicknameList), Replying;
    case Replying => a, q := Local, ToUpdateAdd;
    case ToUpdateAdd => a, q := Lock(ClientNameList), InUpdateAdd;
    case InUpdateAdd => a, q := Local, InUpdateAdd;
    case RoundStart => a, q := Lock(ClientNameList), InPingLoop;
    case InPingLoop => a, q := Local, InPingLoop;
    case ToStamp => a, q := Lock(ClientPingList), InStamp;
    case InStamp => a, q := Unlock(ClientPingList), InPingLoop;
    case ToSweep => a, q := Lock(ClientPingList), InSweep;
    case InSweep => a, q := Local, InSweep;
    case ToUpdateRem => a, q := Lock(ClientNameList), InUpdateRem;
    case InUpdateRem => a, q := Local, InUpdateRem;
    case ToRemoveName => a, q := Lock(ClientNameList), InRemoveName;
    case InRemoveName => a, q := Unlock(ClientNameList), ToRemovePing;
    case ToRemovePing => a, q := Lock(ClientPingList), InRemovePing;
    case InRemovePing => a, q := Unlock(ClientPingList), ToRemoveNickname;
    case ToRemoveNickname => a, q := Lock(ClientNicknameList), InRemoveNickname;
    case InRemoveNickname => a, q := Unlock(ClientNicknameList), ToResume;
    case ToResume => a, q := Lock(ClientPingList), InSweep;
    case Sleeping => a, q := Local, RoundStart;
  }

  /** Following owners from a blocked thread leads to one that can move, since
      a thread only waits for mutexes of higher rank than those it holds. */
  lemma {:induction false} SomeoneMoves(s: State, t: nat) returns (u: nat)
    requires Owned(s) && t < |s.threads|
    ensures u < |s.threads| && !Blocked(s, u)
    decreases if Wanted(s.threads[t]).Some? then 2 - Rank(Wanted(s.threads[t]).value) else 3
  {
    if !Blocked(s, t) {
      u := t;
    } else {
      var m := Wanted(s.threads[t]).value;
      var h := s.owner[m];
      if Blocked(s, h) {
        assert Rank(Wanted(s.threads[h]).value) > Rank(m);
        u := SomeoneMoves(s, h);
      } else {
        u := h;
      }
    }
  }

  // ----- main results, for every run

  /** Some thread can always move. */
  lemma DeadlockFree(start: State, steps: seq<Step>)
    requires IsStart(start) && start.threads != [] && IsRun(start, steps)
    ensures exists t: nat, a, q :: t < |start.threads| && Enabled(Run(start, steps), Step(t, a, q))
  {
    RunKeeps(start, steps);
    var s := Run(start, steps);
    var u := SomeoneMoves(s, 0);
    BlockedMeansNoStep(s, u);
  }

  /** The server's own two threads are never both blocked. */
  lemma ServerNeverDeadlocks(steps: seq<Step>)
    requires IsRun(State([Dispatching, RoundStart], map[]), steps)
    ensures var s := Run(State([Dispatching, RoundStart], map[]), steps);
      |s.threads| == 2 && !(Blocked(s, 0) && Blocked(s, 1))
  {
    RunKeeps(State([Dispatching, RoundStart], map[]), steps);
    var u := SomeoneMoves(Run(State([Dispatching, RoundStart], map[]), steps), 0);
  }

  /** No thread asks for a mutex it holds, only the owner unlocks, and no two
      threads are inside regions of the same mutex. */
  lemma ProperLocking(start: State, steps: seq<Step>, t: nat)
    requires IsStart(start) && IsRun(start, steps) && t < |start.threads|
    ensures var s := Run(start, steps);
      && t < |s.threads|
      && (Blocked(s, t) ==> s.owner[Wanted(s.threads[t]).value] != t)
      && (forall m, q :: Goes(s.threads[t], Unlock(m), q) ==> m in s.owner && s.owner[m] == t)
      && (forall u :: 0 <= u < |s.threads| && u != t ==> Held(s.threads[t]) !! Held(s.threads[u]))
  {
    hide Held, Wanted, Goes, IsStart, IsRun, Run, Enabled, Next;
    StartIsOwned(start);
    RunKeeps(start, steps);
    var s := Run(start, steps);
    WantsWhatItLacks(s.threads[t]);
    forall m, q | Goes(s.threads[t], Unlock(m), q) ensures m in s.owner && s.owner[m] == t {
      HeldFollows(s.threads[t], Unlock(m), q);
    }
    forall u | 0 <= u < |s.threads| && u != t ensures Held(s.threads[t]) !! Held(s.threads[u]) {
      ExclusiveRegions(s, t, u);
    }
  }

  lemma StartIsOwned(s: State)
    requires IsStart(s)
    ensures Owned(s)
  {
  }

  lemma WantsWhatItLacks(p: Point)
    ensures Wanted(p).Some? ==> Wanted(p).value !in Held(p)
  {
  }

  lemma ExclusiveRegions(s: State, t: nat, u: nat)
    requires Owned(s) && t < |s.threads| && u < |s.threads| && t != u
    ensures Held(s.threads[t]) !! Held(s.threads[u])
  {
    forall m | m in Held(s.threads[t]) ensures m !in Held(s.threads[u]) {
      assert s.owner[m] == t;
    }
  }

  // ----- the two programs, straight through

  type Path = seq<(Action, Point)>

  /** A registration and the update that follows. */
  const PROCESS_PATH: Path := [
    (Local, ToAddName), (Lock(ClientNameList), InAddName), (Unlock(ClientNameList), ToAddPing),
    (Lock(ClientPingList), InAddPing), (Unlock(ClientPingList), ToAddNickname),
    (Lock(ClientNicknameList), InAddNickname), (Unlock(ClientNicknameList), Replying),
    (Local, ToUpdateAdd), (Lock(ClientNameList), InUpdateAdd), (Unlock(ClientNameList), Dispatching)]

  /** A pass with one pong and one removal. */
  const PING_PATH: Path := [
    (Lock(ClientNameList), InPingLoop), (Local, ToStamp), (Lock(ClientPingList), InStamp),
    (Unlock(ClientPingList), InPingLoop), (Unlock(ClientNameList), ToSweep), (Lock(ClientPingList), InSweep),
    (Unlock(ClientPingList), ToUpdateRem), (Lock(ClientNameList), InUpdateRem), (Unlock(ClientNameList), ToRemoveName),
    (Lock(ClientNameList), InRemoveName), (Unlock(ClientNameList), ToRemovePing),
    (Lock(ClientPingList), InRemovePing), (Unlock(ClientPingList), ToRemoveNickname),
    (Lock(ClientNicknameList), InRemoveNickname), (Unlock(ClientNicknameList), ToResume),
    (Lock(ClientPingList), InSweep), (Unlock(ClientPingList), Sleeping), (Local, RoundStart)]

  predicate Follows(p: Point, path: Path) {
    forall i :: 0 <= i < |path| ==> Goes(PointBefore(p, path, i), path[i].0, path[i].1)
  }

  function PointBefore(p: Point, path: Path, i: nat): Point
    requires i <= |path|
  {
    if i == 0 then p else path[i - 1].1
  }

  lemma PathsFollow()
    ensures Follows(Dispatching, PROCESS_PATH) && Follows(RoundStart, PING_PATH)
  {
    forall i | 0 <= i < |PROCESS_PATH|
      ensures Goes(PointBefore(Dispatching, PROCESS_PATH, i), PROCESS_PATH[i].0, PROCESS_PATH[i].1)
    {
      ProcessStep(i);
    }
    forall i | 0 <= i < |PING_PATH|
      ensures Goes(PointBefore(RoundStart, PING_PATH, i), PING_PATH[i].0, PING_PATH[i].1)
    {
      if i < 9 { EarlyPingStep(i); } else { LatePingStep(i); }
    }
  }

  lemma ProcessStep(i: nat)
    requires i < 10
    ensures Goes(PointBefore(Dispatching, PROCESS_PATH, i), PROCESS_PATH[i].0, PROCESS_PATH[i].1)
  {
  }

  lemma EarlyPingStep(i: nat)
    requires i < 9
    ensures Goes(PointBefore(RoundStart, PING_PATH, i), PING_PATH[i].0, PING_PATH[i].1)
  {
  }

  lemma LatePingStep(i: nat)
    requires 9 <= i < 18
    ensures Goes(PointBefore(RoundStart, PING_PATH, i), PING_PATH[i].0, PING_PATH[i].1)
  {
  }

  /** The programs consist of these steps and of turns of their loops in which no
      mutex changes hands. */
  lemma NothingElse(p: Point, a: Action, q: Point)
    requires Goes(p, a, q)
    ensures (a == Local && p == q && p in {Dispatching, InUpdateAdd, InPingLoop, InSweep, InUpdateRem})
      || OnPath(Dispatching, PROCESS_PATH, p, a, q) || OnPath(RoundStart, PING_PATH, p, a, q)
  {
    hide Goes, OnPath;
    if Processing(p) {
      OnProcessPath(p, a, q);
    } else {
      OnPingPath(p, a, q);
    }
  }

  /** A point of the first program. */
  predicate Processing(p: Point) {
    p.Dispatching? || p.ToAddName? || p.InAddName? || p.ToAddPing? || p.InAddPing? || p.ToAddNickname?
    || p.InAddNickname? || p.Replying? || p.ToUpdateAdd? || p.InUpdateAdd?
  }

  /** The step is one of the path's. */
  predicate OnPath(start: Point, path: Path, p: Point, a: Action, q: Point) {
    exists i :: 0 <= i < |path| && path[i] == (a, q) && PointBefore(start, path, i) == p
  }

  lemma OnProcessPath(p: Point, a: Action, q: Point)
    requires Goes(p, a, q) && Processing(p)
    ensures (a == Local && p == q && (p.Dispatching? || p.InUpdateAdd?)) || OnPath(Dispatching, PROCESS_PATH, p, a, q)
  {
    var i := IndexOf(p, q);
    assert p == q || (PROCESS_PATH[i] == (a, q) && PointBefore(Dispatching, PROCESS_PATH, i) == p);
  }

  lemma OnPingPath(p: Point, a: Action, q: Point)
    requires Goes(p, a, q) && !Processing(p)
    ensures (a == Local && p == q && (p.InPingLoop? || p.InSweep? || p.InUpdateRem?))
      || OnPath(RoundStart, PING_PATH, p, a, q)
  {
    if IndexOf(p, q) < 9 { OnEarlyPing(p, a, q); } else { OnLatePing(p, a, q); }
  }

  lemma OnEarlyPing(p: Point, a: Action, q: Point)
    requires Goes(p, a, q) && !Processing(p) && IndexOf(p, q) < 9
    ensures (a == Local && p == q && (p.InPingLoop? || p.InSweep? || p.InUpdateRem?))
      || OnPath(RoundStart, PING_PATH, p, a, q)
  {
    var i := IndexOf(p, q);
    assert p == q || (PING_PATH[i] == (a, q) && PointBefore(RoundStart, PING_PATH, i) == p);
  }

  lemma OnLatePing(p: Point, a: Action, q: Point)
    requires Goes(p, a, q) && !Processing(p) && IndexOf(p, q) >= 9
    ensures (a == Local && p == q && (p.InPingLoop? || p.InSweep? || p.InUpdateRem?))
      || OnPath(RoundStart, PING_PATH, p, a, q)
  {
    var i := IndexOf(p, q);
    assert p == q || (PING_PATH[i] == (a, q) && PointBefore(RoundStart, PING_PATH, i) == p);
  }

  /** Where the step from p to q stands in its path. */
  function IndexOf(p: Point, q: Point): nat {
    match p
    case Dispatching => 0
    case ToAddName => 1
    case InAddName => 2
    case ToAddPing => 3
    case InAddPing => 4
    case ToAddNickname => 5
    case InAddNickname => 6
    case Replying => 7
    case ToUpdateAdd => 8
    case InUpdateAdd => 9
    case RoundStart => 0
    case InPingLoop => if q == ToStamp then 1 else 4
    case ToStamp => 2
    case InStamp => 3
    case ToSweep => 5
    case InSweep => if q == ToUpdateRem then 6 else 16
    case ToUpdateRem => 7
    case InUpdateRem => 8
    case ToRemoveName => 9
    case InRemoveName => 10
    case ToRemovePing => 11
    case InRemovePing => 12
    case ToRemoveNickname => 13
    case InRemoveNickname => 14
    case ToResume => 15
    case Sleeping => 17
  }

  function Walk(t: nat, path: Path): seq<Step> {
    if path == [] then [] else [Step(t, path[0].0, path[0].1)] + Walk(t, path[1..])
  }

  /** A thread that nobody is in the way of can follow its program. */
  lemma {:induction false} AloneCanWalk(s: State, t: nat, path: Path)
    requires Owned(s) && t < |s.threads| && Follows(s.threads[t], path) && OthersAway(s, t)
    ensures IsRun(s, Walk(t, path))
    ensures Run(s, Walk(t, path)).threads == s.threads[t := PointBefore(s.threads[t], path, |path|)]
    decreases |path|
  {
    hide Owned, Follows, OthersAway, Enabled;
    if path != [] {
      var step := Step(t, path[0].0, path[0].1);
      FirstFollows(s.threads[t], path);
      FreeToGo(s, t, path[0].0, path[0].1);
      StepKeeps(s, step);
      StepsAway(s, step);
      AloneCanWalk(Next(s, step), t, path[1..]);
      assert Walk(t, path)[1..] == Walk(t, path[1..]) && Walk(t, path)[0] == step;
    }
  }

  /** No other thread holds a mutex. */
  ghost predicate OthersAway(s: State, t: nat) {
    forall u :: 0 <= u < |s.threads| && u != t ==> Held(s.threads[u]) == {}
  }

  lemma FirstFollows(p: Point, path: Path)
    requires Follows(p, path) && path != []
    ensures Goes(p, path[0].0, path[0].1) && Follows(path[0].1, path[1..])
  {
    hide Goes;
    assert Goes(PointBefore(p, path, 0), path[0].0, path[0].1);
    forall i | 0 <= i < |path[1..]| ensures Goes(PointBefore(path[0].1, path[1..], i), path[1..][i].0, path[1..][i].1) {
      assert Goes(PointBefore(p, path, i + 1), path[i + 1].0, path[i + 1].1);
    }
  }

  lemma StepsAway(s: State, step: Step)
    requires Enabled(s, step) && OthersAway(s, step.thread)
    ensures OthersAway(Next(s, step), step.thread) && Next(s, step).threads == s.threads[step.thread := step.to]
  {
    hide Held, Goes;
  }

  lemma FreeToGo(s: State, t: nat, a: Action, q: Point)
    requires Owned(s) && t < |s.threads| && Goes(s.threads[t], a, q) && OthersAway(s, t)
    ensures Enabled(s, Step(t, a, q))
  {
    hide Held, Goes, Wanted;
    if a.Lock? { LocksWhatItLacks(s.threads[t], a.m, q); }
  }

  lemma LocksWhatItLacks(p: Point, m: Mutex, q: Point)
    requires Goes(p, Lock(m), q)
    ensures m !in Held(p)
  {
  }

  /** Every point of the two programs is reached, each region in its turn. */
  lemma PathReaches(i: nat, j: nat)
    requires i <= |PROCESS_PATH| && j <= |PING_PATH|
    ensures var start := State([Dispatching, RoundStart], map[]);
      && IsRun(start, Walk(0, PROCESS_PATH[..i]))
      && Run(start, Walk(0, PROCESS_PATH[..i])).threads == [PointBefore(Dispatching, PROCESS_PATH, i), RoundStart]
      && IsRun(start, Walk(1, PING_PATH[..j]))
      && Run(start, Walk(1, PING_PATH[..j])).threads == [Dispatching, PointBefore(RoundStart, PING_PATH, j)]
  {
    hide Goes, PROCESS_PATH, PING_PATH;
    var start := State([Dispatching, RoundStart], map[]);
    PathsFollow();
    StartIsOwned(start);
    PrefixFollows(Dispatching, PROCESS_PATH, i);
    PrefixFollows(RoundStart, PING_PATH, j);
    AloneCanWalk(start, 0, PROCESS_PATH[..i]);
    AloneCanWalk(start, 1, PING_PATH[..j]);
  }

  lemma PrefixFollows(p: Point, path: Path, i: nat)
    requires Follows(p, path) && i <= |path|
    ensures Follows(p, path[..i]) && PointBefore(p, path[..i], i) == PointBefore(p, path, i)
  {
    hide Goes;
    forall k | 0 <= k < i ensures Goes(PointBefore(p, path[..i], k), path[..i][k].0, path[..i][k].1) {
      assert Goes(PointBefore(p, path, k), path[k].0, path[k].1);
    }
  }

  /** The one nested acquisition: stamping a client that has answered holds the
      name list and the ping list. */
  lemma StampingHoldsTwo()
    ensures var start := State([Dispatching, RoundStart], map[]);
      && IsRun(start, Walk(1, PING_PATH[..3]))
      && var s := Run(start, Walk(1, PING_PATH[..3]));
        && s.threads == [Dispatching, InStamp]
        && ClientNameList in s.owner && s.owner[ClientNameList] == 1
        && ClientPingList in s.owner && s.owner[ClientPingList] == 1
  {
    hide Goes, Owned, Run, IsRun;
    var start := State([Dispatching, RoundStart], map[]);
    PathReaches(0, 3);
    StartIsOwned(start);
    RunKeeps(start, Walk(1, PING_PATH[..3]));
    var s := Run(start, Walk(1, PING_PATH[..3]));
    assert s.threads[1] == InStamp;
    HeldIsOwned(s, 1, ClientNameList);
    HeldIsOwned(s, 1, ClientPingList);
  }

  lemma HeldIsOwned(s: State, t: nat, m: Mutex)
    requires Owned(s) && t < |s.threads| && m in Held(s.threads[t])
    ensures m in s.owner && s.owner[m] == t
  {
    hide Held;
  }
}
