/** The two threads of a `Node`: the listener pushes into one of two queues and
    posts the one semaphore; the processor waits once and then tries to pop
    each queue. Every queue or semaphore operation is one atomic step, and the
    steps of the two threads interleave freely. */
module Dispatcher {
  import opened CppString
  import opened MessageQueues

  datatype Port = Down | Up

  datatype Listener = BetweenRequests | BeforePost

  datatype Processor<M> =
    | AtWait                      // about to call sem_wait
    | AtPopDown
    | InDown(m: M)                // processDownMessage is running on m
    | AtPopUp(popped: bool)       // whether this wake-up found a down message
    | InUp(m: M)

  datatype State<M> = State(
    down: seq<M>, up: seq<M>, sem: nat, listener: Listener, processor: Processor<M>,
    // what has happened so far, port by port
    pushedDown: seq<M>, pushedUp: seq<M>, handledDown: seq<M>, handledUp: seq<M>)

  datatype Step<M> =
    | Push(port: Port, m: M) | Post                         // listener
    | Wait | PopDown | FinishDown | PopUp | FinishUp        // processor

  function Init<M>(): State<M> {
    State([], [], 0, BetweenRequests, AtWait, [], [], [], [])
  }

  predicate Enabled<M>(s: State<M>, step: Step<M>) {
    match step
    case Push(_, _) => s.listener == BetweenRequests
    case Post => s.listener == BeforePost
    case Wait => s.processor.AtWait? && s.sem > 0
    case PopDown => s.processor.AtPopDown?
    case FinishDown => s.processor.InDown?
    case PopUp => s.processor.AtPopUp?
    case FinishUp => s.processor.InUp?
  }

  function Next<M>(s: State<M>, step: Step<M>): State<M>
    requires Enabled(s, step)
  {
    match step
    case Push(Down, m) => s.(down := s.down + [m], pushedDown := s.pushedDown + [m], listener := BeforePost)
    case Push(Up, m) => s.(up := s.up + [m], pushedUp := s.pushedUp + [m], listener := BeforePost)
    case Post => s.(sem := s.sem + 1, listener := BetweenRequests)
    case Wait => s.(sem := s.sem - 1, processor := AtPopDown)
    case PopDown =>
      if s.down == [] then s.(processor := AtPopUp(false))
      else s.(down := s.down[1..], processor := InDown(s.down[0]))
    case FinishDown => s.(handledDown := s.handledDown + [s.processor.m], processor := AtPopUp(true))
    case PopUp =>
      if s.up == [] then s.(processor := AtWait)
      else s.(up := s.up[1..], processor := InUp(s.up[0]))
    case FinishUp => s.(handledUp := s.handledUp + [s.processor.m], processor := AtWait)
  }

  /** The steps can be taken one after the other from s. */
  predicate IsRun<M>(s: State<M>, steps: seq<Step<M>>)
    decreases |steps|
  {
    steps == [] || (Enabled(s, steps[0]) && IsRun(Next(s, steps[0]), steps[1..]))
  }

  function Run<M>(s: State<M>, steps: seq<Step<M>>): State<M>
    requires IsRun(s, steps)
    decreases |steps|
  {
    if steps == [] then s else Run(Next(s, steps[0]), steps[1..])
  }

  // ----- invariant

  /** Wake-ups still to come: the count, and the post the listener owes. */
  function Credit<M>(s: State<M>): nat {
    s.sem + if s.listener == BeforePost then 1 else 0
  }

  /** The wake-up in progress covers one more message until it has popped one.
      If it finds the down queue empty, a down message pushed afterwards is
      covered by its own post, even if the up queue turns out empty as well. */
  ghost predicate Covered<M>(s: State<M>) {
    var waiting := |s.down| + |s.up|;
    match s.processor
    case AtWait => waiting <= Credit(s)
    case AtPopDown => waiting <= Credit(s) + 1
    case InDown(_) => waiting <= Credit(s)
    case AtPopUp(popped) =>
      if popped then waiting <= Credit(s)
      else waiting <= Credit(s) + 1 && (s.up == [] ==> waiting <= Credit(s))
    case InUp(_) => waiting <= Credit(s)
  }

  function InHandDown<M>(s: State<M>): seq<M> {
    if s.processor.InDown? then [s.processor.m] else []
  }

  function InHandUp<M>(s: State<M>): seq<M> {
    if s.processor.InUp? then [s.processor.m] else []
  }

  /** Port by port: handled, then in hand, then queued is what was pushed. */
  ghost predicate Fifo<M>(s: State<M>) {
    && InOrder(s.handledDown, InHandDown(s), s.down, s.pushedDown)
    && InOrder(s.handledUp, InHandUp(s), s.up, s.pushedUp)
  }

  ghost predicate InOrder<M>(handled: seq<M>, inHand: seq<M>, queued: seq<M>, pushed: seq<M>) {
    handled + inHand + queued == pushed
  }

  /** What pushing, popping and finishing do to one port. */
  lemma StaysInOrder<M>(handled: seq<M>, inHand: seq<M>, queued: seq<M>, pushed: seq<M>)
    requires InOrder(handled, inHand, queued, pushed)
    ensures forall m :: InOrder(handled, inHand, queued + [m], pushed + [m])
    ensures inHand == [] && queued != [] ==> InOrder(handled, [queued[0]], queued[1..], pushed)
    ensures InOrder(handled + inHand, [], queued, pushed)
  {
    if inHand == [] && queued != [] { assert handled + [queued[0]] + queued[1..] == handled + [] + queued; }
    assert handled + inHand + [] == handled + inHand;
  }

  lemma StepKeeps<M>(s: State<M>, step: Step<M>)
    requires Covered(s) && Fifo(s) && Enabled(s, step)
    ensures Covered(Next(s, step)) && Fifo(Next(s, step))
  {
    StepCovers(s, step);
    hide Covered, InOrder;
    StaysInOrder(s.handledDown, InHandDown(s), s.down, s.pushedDown);
    StaysInOrder(s.handledUp, InHandUp(s), s.up, s.pushedUp);
  }

  lemma StepCovers<M>(s: State<M>, step: Step<M>)
    requires Covered(s) && Enabled(s, step)
    ensures Covered(Next(s, step))
  {
  }

  lemma {:induction false} RunKeeps<M>(s: State<M>, steps: seq<Step<M>>)
    requires Covered(s) && Fifo(s) && IsRun(s, steps)
    ensures Covered(Run(s, steps)) && Fifo(Run(s, steps))
    decreases |steps|
  {
    if steps != [] {
      StepKeeps(s, steps[0]);
      RunKeeps(Next(s, steps[0]), steps[1..]);
    }
  }

  // ----- what arrived

  /** The messages that arrived at a port, in order. */
  function Arrived<M>(steps: seq<Step<M>>, port: Port): seq<M> {
    if steps == [] then []
    else (if steps[0].Push? && steps[0].port == port then [steps[0].m] else []) + Arrived(steps[1..], port)
  }

  lemma {:induction false} PushedIsArrived<M>(s: State<M>, steps: seq<Step<M>>)
    requires IsRun(s, steps)
    ensures Run(s, steps).pushedDown == s.pushedDown + Arrived(steps, Down)
    ensures Run(s, steps).pushedUp == s.pushedUp + Arrived(steps, Up)
    decreases |steps|
  {
    if steps != [] {
      var t := Next(s, steps[0]);
      PushedIsArrived(t, steps[1..]);
      OneArrival(s, steps[0]);
      if steps[0].Push? {
        var first, down, up := [steps[0].m], Arrived(steps[1..], Down), Arrived(steps[1..], Up);
        assert (s.pushedDown + first) + down == s.pushedDown + (first + down);
        assert (s.pushedUp + first) + up == s.pushedUp + (first + up);
      }
    }
  }

  lemma OneArrival<M>(s: State<M>, step: Step<M>)
    requires Enabled(s, step)
    ensures Next(s, step).pushedDown == s.pushedDown + if step.Push? && step.port == Down then [step.m] else []
    ensures Next(s, step).pushedUp == s.pushedUp + if step.Push? && step.port == Up then [step.m] else []
  {
  }

  lemma InitRun<M>(steps: seq<Step<M>>)
    requires IsRun(Init(), steps)
    ensures Covered(Run(Init(), steps)) && Fifo(Run(Init(), steps))
    ensures Run(Init(), steps).pushedDown == Arrived(steps, Down)
    ensures Run(Init(), steps).pushedUp == Arrived(steps, Up)
  {
    RunKeeps<M>(Init(), steps);
    PushedIsArrived<M>(Init(), steps);
  }

  // ----- main results, for every interleaving

  /** No wake-up is lost: if the processor would block and the listener owes no
      post, both queues are empty and everything that arrived has been handled
      by the handler of its port. */
  lemma NoLostWakeUp<M>(steps: seq<Step<M>>)
    requires IsRun(Init(), steps)
    requires Run(Init(), steps).processor.AtWait? && Run(Init(), steps).sem == 0
    requires Run(Init(), steps).listener == BetweenRequests
    ensures var s := Run(Init(), steps);
      && s.down == [] && s.up == []
      && s.handledDown == Arrived(steps, Down) && s.handledUp == Arrived(steps, Up)
  {
    InitRun(steps);
  }

  /** Nothing is lost, duplicated or reordered within a port: what the handler of
      a port was given, what it has in hand and what is queued for it make up
      what arrived there. */
  lemma ExactlyOnceInOrder<M>(steps: seq<Step<M>>)
    requires IsRun(Init(), steps)
    ensures var s := Run(Init(), steps);
      && s.handledDown + InHandDown(s) + s.down == Arrived(steps, Down)
      && s.handledUp + InHandUp(s) + s.up == Arrived(steps, Up)
  {
    InitRun(steps);
  }

  function Count<M>(steps: seq<Step<M>>, wakeUps: bool): nat {
    if steps == [] then 0
    else (if (if wakeUps then steps[0].Wait? else steps[0].Push?) then 1 else 0) + Count(steps[1..], wakeUps)
  }

  lemma {:induction false} CountsMatch<M>(s: State<M>, steps: seq<Step<M>>)
    requires IsRun(s, steps)
    ensures var t := Run(s, steps);
      t.sem + Owed(t) + Count(steps, true) == s.sem + Owed(s) + Count(steps, false)
    decreases |steps|
  {
    if steps != [] { CountsMatch(Next(s, steps[0]), steps[1..]); }
  }

  function Owed<M>(s: State<M>): nat {
    if s.listener == BeforePost then 1 else 0
  }

  /** The processor wakes up once for each message that has arrived: the wake-ups
      so far, those the semaphore still holds and the one the listener may owe
      make up the arrivals. */
  lemma OneWakeUpEach<M>(steps: seq<Step<M>>)
    requires IsRun(Init(), steps)
    ensures var s := Run(Init(), steps);
      Count(steps, true) + s.sem + (if s.listener == BeforePost then 1 else 0) == Count(steps, false)
  {
    CountsMatch(Init(), steps);
  }

  /** The processor's next step when it does not block. */
  function ProcessorStep<M>(s: State<M>): (step: Step<M>)
    requires s.processor.AtWait? ==> s.sem > 0
    ensures Enabled(s, step)
  {
    match s.processor
    case AtWait => Wait
    case AtPopDown => PopDown
    case InDown(_) => FinishDown
    case AtPopUp(_) => PopUp
    case InUp(_) => FinishUp
  }

  function StepsLeft<M>(s: State<M>): nat {
    5 * s.sem + match s.processor
                case AtWait => 0
                case InUp(_) => 1
                case AtPopUp(_) => 2
                case InDown(_) => 3
                case AtPopDown => 4
  }

  /** The processor runs alone until it blocks. */
  function Drain<M>(s: State<M>): State<M>
    decreases StepsLeft(s)
  {
    if s.processor.AtWait? && s.sem == 0 then s else Drain(Next(s, ProcessorStep(s)))
  }

  lemma {:induction false} DrainKeeps<M>(s: State<M>)
    requires Covered(s) && Fifo(s)
    ensures var t := Drain(s);
      && Covered(t) && Fifo(t) && t.processor.AtWait? && t.sem == 0
      && t.listener == s.listener && t.pushedDown == s.pushedDown && t.pushedUp == s.pushedUp
    decreases StepsLeft(s)
  {
    if !(s.processor.AtWait? && s.sem == 0) {
      StepKeeps(s, ProcessorStep(s));
      DrainKeeps(Next(s, ProcessorStep(s)));
    }
  }

  /** From every reachable state between requests, the processor alone hands
      everything that arrived to the handler of its port, in order, before it
      blocks. */
  lemma EverythingIsHandled<M>(steps: seq<Step<M>>)
    requires IsRun(Init(), steps)
    requires Run(Init(), steps).listener == BetweenRequests
    ensures var s := Run(Init(), steps);
      Drain(s).handledDown == Arrived(steps, Down) && Drain(s).handledUp == Arrived(steps, Up)
  {
    InitRun(steps);
    DrainKeeps(Run(Init(), steps));
  }

  /** What one wake-up does: it tries both queues, the down queue first. */
  function Round<M>(s: State<M>): seq<Step<M>> {
    [Wait] + ([PopDown] + ((if s.down == [] then [] else [FinishDown]) + UpPart(s)))
  }

  function UpPart<M>(s: State<M>): seq<Step<M>> {
    [PopUp] + ((if s.up == [] then [] else [FinishUp]) + [])
  }

  /** One message from each queue that has one, and back to waiting. */
  lemma OneRound<M>(s: State<M>)
    requires s.processor.AtWait? && s.sem > 0
    ensures IsRun(s, Round(s))
    ensures Run(s, Round(s)) == s.(sem := s.sem - 1,
      down := if s.down == [] then [] else s.down[1..], up := if s.up == [] then [] else s.up[1..],
      handledDown := s.handledDown + (if s.down == [] then [] else [s.down[0]]),
      handledUp := s.handledUp + (if s.up == [] then [] else [s.up[0]]))
  {
    hide IsRun, Run;
    var s1 := Next(s, Wait);
    var s2 := Next(s1, PopDown);
    var s3 := if s.down == [] then s2 else Next(s2, FinishDown);
    if s.down != [] {
      RunOn(s2, FinishDown, UpPart(s));
    } else {
      assert [] + UpPart(s) == UpPart(s);
    }
    UpRound(s3);
    RunOn(s1, PopDown, (if s.down == [] then [] else [FinishDown]) + UpPart(s));
    RunOn(s, Wait, [PopDown] + ((if s.down == [] then [] else [FinishDown]) + UpPart(s)));
  }

  lemma UpRound<M>(s: State<M>)
    requires s.processor.AtPopUp?
    ensures IsRun(s, UpPart(s))
    ensures Run(s, UpPart(s)) == s.(processor := AtWait, up := if s.up == [] then [] else s.up[1..],
      handledUp := s.handledUp + (if s.up == [] then [] else [s.up[0]]))
  {
    hide IsRun, Run;
    var t := Next(s, PopUp);
    if s.up == [] {
      RunNone(t);
      RunOn(s, PopUp, []);
      assert UpPart(s) == [PopUp] + [];
    } else {
      RunNone(Next(t, FinishUp));
      RunOn(t, FinishUp, []);
      RunOn(s, PopUp, [FinishUp] + []);
    }
  }

  lemma RunNone<M>(s: State<M>)
    ensures IsRun(s, []) && Run(s, []) == s
  {
  }

  lemma RunOn<M>(s: State<M>, step: Step<M>, rest: seq<Step<M>>)
    requires Enabled(s, step)
    ensures IsRun(s, [step] + rest) <==> IsRun(Next(s, step), rest)
    ensures IsRun(Next(s, step), rest) ==> Run(s, [step] + rest) == Run(Next(s, step), rest)
  {
    assert ([step] + rest)[1..] == rest;
  }

  // ----- imperative form

  /** The queues and the semaphore of a `Node`; the threads' positions and the
      history are ghost. Each method is one atomic step of one thread. */
  class Node<M> {
    const downMessageQueue: MessageQueue<M>
    const upMessageQueue: MessageQueue<M>
    var ipcSem: nat
    ghost var listener: Listener
    ghost var processor: Processor<M>
    ghost var pushedDown: seq<M>
    ghost var pushedUp: seq<M>
    ghost var handledDown: seq<M>
    ghost var handledUp: seq<M>

    ghost function View(): State<M>
      reads this, downMessageQueue, upMessageQueue
    {
      State(downMessageQueue.msgQueue, upMessageQueue.msgQueue, ipcSem, listener, processor,
            pushedDown, pushedUp, handledDown, handledUp)
    }

    constructor ()
      ensures downMessageQueue != upMessageQueue
      ensures View() == Init() && ipcSem == 0
    {
      downMessageQueue := new MessageQueue<M>();
      upMessageQueue := new MessageQueue<M>();
      ipcSem := 0;
      listener, processor := BetweenRequests, AtWait;
      pushedDown, pushedUp, handledDown, handledUp := [], [], [], [];
    }

    /** `HandleTCPRequest` up to the semaphore. */
    method QueueRequest(m: M, port: Port)
      requires downMessageQueue != upMessageQueue
      requires listener == BetweenRequests
      modifies this, downMessageQueue, upMessageQueue
      ensures View() == Next(old(View()), Push(port, m))
      ensures upMessageQueue.msgQueue == old(upMessageQueue.msgQueue) + (if port == Up then [m] else [])
      ensures downMessageQueue.msgQueue == old(downMessageQueue.msgQueue) + (if port == Down then [m] else [])
    {
      if port == Up {
        upMessageQueue.Push(m);
        pushedUp := pushedUp + [m];
      } else {
        downMessageQueue.Push(m);
        pushedDown := pushedDown + [m];
      }
      listener := BeforePost;
    }

    /** `sem_post`. */
    method NotifyProcessor()
      requires listener == BeforePost
      modifies this
      ensures View() == Next(old(View()), Post) && ipcSem == old(ipcSem) + 1
    {
      ipcSem := ipcSem + 1;
      listener := BetweenRequests;
    }

    /** `sem_wait` returning. */
    method WakeUp()
      requires processor.AtWait? && ipcSem > 0
      modifies this
      ensures View() == Next(old(View()), Wait) && ipcSem == old(ipcSem) - 1
    {
      ipcSem := ipcSem - 1;
      processor := AtPopDown;
    }

    method TakeDown() returns (m: Option<M>)
      requires downMessageQueue != upMessageQueue
      requires processor.AtPopDown?
      modifies this, downMessageQueue
      ensures View() == Next(old(View()), PopDown)
      ensures old(downMessageQueue.msgQueue) == [] ==> m == None
      ensures old(downMessageQueue.msgQueue) != [] ==>
        m == Some(old(downMessageQueue.msgQueue)[0]) && downMessageQueue.msgQueue == old(downMessageQueue.msgQueue)[1..]
      ensures m == (if processor.InDown? then Some(processor.m) else None)
    {
      m := downMessageQueue.Pop();
      processor := if m.Some? then InDown(m.value) else AtPopUp(false);
    }

    method TakeUp() returns (m: Option<M>)
      requires downMessageQueue != upMessageQueue
      requires processor.AtPopUp?
      modifies this, upMessageQueue
      ensures View() == Next(old(View()), PopUp)
      ensures old(upMessageQueue.msgQueue) == [] ==> m == None
      ensures old(upMessageQueue.msgQueue) != [] ==>
        m == Some(old(upMessageQueue.msgQueue)[0]) && upMessageQueue.msgQueue == old(upMessageQueue.msgQueue)[1..]
      ensures m == (if processor.InUp? then Some(processor.m) else None)
    {
      m := upMessageQueue.Pop();
      processor := if m.Some? then InUp(m.value) else AtWait;
    }

    /** `processDownMessage` or `processUpMessage` has returned. */
    method Finished()
      requires processor.InDown? || processor.InUp?
      modifies this
      ensures View() == Next(old(View()), if old(processor).InDown? then FinishDown else FinishUp)
    {
      if processor.InDown? {
        handledDown := handledDown + [processor.m];
        processor := AtPopUp(true);
      } else {
        handledUp := handledUp + [processor.m];
        processor := AtWait;
      }
    }
  }
}
