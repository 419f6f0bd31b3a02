/**
  The queue between the pipeline workers and the publishing client: the class
  with the effect of each critical section, and below it the threads that run
  them, with the mutex, the condition variable and its notifications.
 */
module ClientQueue {

  /** The queue after a push: a closed queue takes nothing. */
  function AfterPush<T>(queue: seq<T>, shuttingDown: bool, item: T): seq<T> {
    if shuttingDown then queue else queue + [item]
  }

  /** The condition a consumer waits for. */
  predicate MayDrain<T>(queue: seq<T>, shuttingDown: bool) {
    queue != [] || shuttingDown
  }

  class ClientQueue<T> {
    var queue: seq<T>
    var shuttingDown: bool

    constructor ()
      ensures queue == [] && !shuttingDown
    {
      queue, shuttingDown := [], false;
    }

    /** The locked part of push; notify says whether notify_one follows the unlock. */
    method Push(snapshot: T) returns (notify: bool)
      modifies this
      ensures notify <==> !old(shuttingDown)
      ensures !old(shuttingDown) ==> queue == old(queue) + [snapshot]
      ensures old(shuttingDown) ==> queue == old(queue)
      ensures shuttingDown == old(shuttingDown) && queue == AfterPush(old(queue), shuttingDown, snapshot)
    {
      if shuttingDown { return false; }
      queue := queue + [snapshot];
      return true;
    }

    /** The locked part of drain once the wait predicate holds. */
    method Drain() returns (snapshots: seq<T>)
      requires MayDrain(queue, shuttingDown)
      modifies this
      ensures snapshots == old(queue) && queue == [] && shuttingDown == old(shuttingDown)
      ensures snapshots == [] ==> shuttingDown
    {
      snapshots := [];
      while queue != []
        invariant snapshots + queue == old(queue) && shuttingDown == old(shuttingDown)
        decreases |queue|
      {
        snapshots := snapshots + [queue[0]];
        queue := queue[1..];
      }
    }

    method Shutdown()
      modifies this
      ensures shuttingDown && queue == old(queue)
    {
      shuttingDown := true;
    }
  }
}

/**
  Interleavings. A thread runs one call at a time; notifications are sent
  after the mutex is released, a waiting thread may wake for no reason, and a
  woken thread has to take the mutex again before it looks at the queue.
 */
module QueueThreads {
  import opened ClientQueue
  import opened Words

  datatype Pc<T> =
    | Idle
    | PushWant(item: T) | PushHold(item: T) | PushNotify
    | DrainWant | DrainHold | Waiting | DrainPop(batch: seq<T>)
    | ShutWant | ShutHold | ShutNotify

  datatype Action<T> =
    | CallPush(t: nat, item: T) | CallDrain(t: nat) | CallShutdown(t: nat)  // a client starts a call
    | SpuriousWake(t: nat)
    | Acquire(t: nat)               // take the mutex
    | PushBody(t: nat)              // test, append, unlock
    | NotifyOne(t: nat, w: nat)     // wake w if it waits
    | CheckWait(t: nat)             // evaluate the predicate: go on, or release and block
    | PopFront(t: nat)
    | DrainReturn(t: nat)           // queue empty: unlock and hand the batch over
    | ShutBody(t: nat)
    | NotifyAll(t: nat)

  /** accepted and batches record what went in and what came out, in mutex order. */
  datatype State<T> = State(
    pcs: seq<Pc<T>>, queue: seq<T>, shuttingDown: bool, accepted: seq<T>, batches: seq<seq<T>>)

  predicate HoldsLock<T>(pc: Pc<T>) {
    pc.PushHold? || pc.DrainHold? || pc.DrainPop? || pc.ShutHold?
  }

  predicate LockFree<T>(s: State<T>) {
    forall t :: 0 <= t < |s.pcs| ==> !HoldsLock(s.pcs[t])
  }

  predicate SomeWaiting<T>(s: State<T>) {
    exists t :: 0 <= t < |s.pcs| && s.pcs[t].Waiting?
  }

  predicate Wants<T>(pc: Pc<T>) {
    pc.PushWant? || pc.DrainWant? || pc.ShutWant?
  }

  predicate Enabled<T>(s: State<T>, a: Action<T>) {
    a.t < |s.pcs| &&
    var pc := s.pcs[a.t];
    match a
    case CallPush(_, _) => pc.Idle?
    case CallDrain(_) => pc.Idle?
    case CallShutdown(_) => pc.Idle?
    case SpuriousWake(_) => pc.Waiting?
    case Acquire(_) => Wants(pc) && LockFree(s)
    case PushBody(_) => pc.PushHold?
    case NotifyOne(_, w) => pc.PushNotify? && (SomeWaiting(s) ==> w < |s.pcs| && s.pcs[w].Waiting?)
    case CheckWait(_) => pc.DrainHold?
    case PopFront(_) => pc.DrainPop? && s.queue != []
    case DrainReturn(_) => pc.DrainPop? && s.queue == []
    case ShutBody(_) => pc.ShutHold?
    case NotifyAll(_) => pc.ShutNotify?
  }

  function Goto<T>(s: State<T>, t: nat, pc: Pc<T>): State<T>
    requires t < |s.pcs|
  {
    s.(pcs := s.pcs[t := pc])
  }

  function WakeAll<T>(pcs: seq<Pc<T>>): (r: seq<Pc<T>>)
    ensures |r| == |pcs|
    ensures forall t :: 0 <= t < |pcs| ==> r[t] == if pcs[t].Waiting? then DrainWant else pcs[t]
  {
    seq(|pcs|, t requires 0 <= t < |pcs| => if pcs[t].Waiting? then DrainWant else pcs[t])
  }

  function Apply<T>(s: State<T>, a: Action<T>): State<T>
    requires Enabled(s, a)
  {
    var pc := s.pcs[a.t];
    match a
    case CallPush(t, item) => Goto(s, t, PushWant(item))
    case CallDrain(t) => Goto(s, t, DrainWant)
    case CallShutdown(t) => Goto(s, t, ShutWant)
    case SpuriousWake(t) => Goto(s, t, DrainWant)
    case Acquire(t) =>
      Goto(s, t, if pc.PushWant? then PushHold(pc.item) else if pc.DrainWant? then DrainHold else ShutHold)
    case PushBody(t) =>
      Goto(s, t, if s.shuttingDown then Idle else PushNotify).(
        queue := AfterPush(s.queue, s.shuttingDown, pc.item),
        accepted := AfterPush(s.accepted, s.shuttingDown, pc.item))
    case NotifyOne(t, w) =>
      if SomeWaiting(s) then Goto(Goto(s, t, Idle), w, DrainWant) else Goto(s, t, Idle)
    case CheckWait(t) =>
      Goto(s, t, if MayDrain(s.queue, s.shuttingDown) then DrainPop([]) else Waiting)
    case PopFront(t) => Goto(s, t, DrainPop(pc.batch + [s.queue[0]])).(queue := s.queue[1..])
    case DrainReturn(t) => Goto(s, t, Idle).(batches := s.batches + [pc.batch])
    case ShutBody(t) => Goto(s, t, ShutNotify).(shuttingDown := true)
    case NotifyAll(t) => Goto(s, t, Idle).(pcs := WakeAll(s.pcs[t := Idle]))
  }

  function Init<T>(threads: nat): State<T> {
    State(seq(threads, _ => Idle), [], false, [], [])
  }

  predicate ValidRun<T>(s: State<T>, run: seq<Action<T>>)
    decreases |run|
  {
    run == [] || (Enabled(s, run[0]) && ValidRun(Apply(s, run[0]), run[1..]))
  }

  function Run<T>(s: State<T>, run: seq<Action<T>>): State<T>
    requires ValidRun(s, run)
    decreases |run|
  {
    if run == [] then s else Run(Apply(s, run[0]), run[1..])
  }

  function Flatten<T>(batches: seq<seq<T>>): seq<T> {
    if batches == [] then [] else Flatten(batches[..|batches| - 1]) + batches[|batches| - 1]
  }

  // ----------------------------------------------------------- invariants

  ghost predicate MutualExclusion<T>(s: State<T>) {
    forall t, u :: 0 <= t < |s.pcs| && 0 <= u < |s.pcs| && HoldsLock(s.pcs[t]) && HoldsLock(s.pcs[u]) ==> t == u
  }

  /** Batches handed over, the batch being popped, and the queue are the accepted pushes in order. */
  ghost predicate Conserved<T>(s: State<T>) {
    && (forall t :: 0 <= t < |s.pcs| && s.pcs[t].DrainPop? ==>
          Flatten(s.batches) + s.pcs[t].batch + s.queue == s.accepted)
    && ((forall t :: 0 <= t < |s.pcs| ==> !s.pcs[t].DrainPop?) ==> Flatten(s.batches) + s.queue == s.accepted)
  }

  /** An empty batch is handed over only after shutdown. */
  ghost predicate EmptyOnlyAfterShutdown<T>(s: State<T>) {
    && (forall t :: 0 <= t < |s.pcs| && s.pcs[t].DrainPop? && s.pcs[t].batch == [] && s.queue == [] ==> s.shuttingDown)
    && (forall k :: 0 <= k < |s.batches| && s.batches[k] == [] ==> s.shuttingDown)
  }

  predicate WillLook<T>(pc: Pc<T>) {
    pc.PushNotify? || pc.DrainWant? || pc.DrainHold? || pc.DrainPop?
  }

  /**
    No lost wakeup: a blocked consumer with work to do has a notification
    still to come or another consumer on its way to the queue; after shutdown
    it is the broadcast that is still to come.
   */
  ghost predicate NoLostWakeup<T>(s: State<T>) {
    SomeWaiting(s) ==>
      && (s.shuttingDown ==> exists t :: 0 <= t < |s.pcs| && s.pcs[t].ShutNotify?)
      && (s.queue != [] && !s.shuttingDown ==> exists t :: 0 <= t < |s.pcs| && WillLook(s.pcs[t]))
  }

  ghost predicate Inv<T>(s: State<T>) {
    MutualExclusion(s) && Conserved(s) && EmptyOnlyAfterShutdown(s) && NoLostWakeup(s)
  }

  lemma StepMutex<T>(s: State<T>, a: Action<T>)
    requires Enabled(s, a) && MutualExclusion(s)
    ensures MutualExclusion(Apply(s, a))
  {}

  /** Threads other than a mutex holder are not popping. */
  lemma OnlyHolderPops<T>(s: State<T>, t: nat)
    requires MutualExclusion(s) && t < |s.pcs| && HoldsLock(s.pcs[t])
    ensures forall u :: 0 <= u < |s.pcs| && u != t ==> !s.pcs[u].DrainPop?
  {}

  lemma PushConserved<T>(s: State<T>, a: Action<T>)
    requires Enabled(s, a) && MutualExclusion(s) && Conserved(s) && (a.PushBody? || a.CheckWait?)
    ensures Conserved(Apply(s, a))
  {
    OnlyHolderPops(s, a.t);
    assert Flatten(s.batches) + [] == Flatten(s.batches);
  }

  lemma PopConserved<T>(s: State<T>, a: Action<T>)
    requires Enabled(s, a) && MutualExclusion(s) && Conserved(s) && (a.PopFront? || a.DrainReturn?)
    ensures Conserved(Apply(s, a))
  {
    OnlyHolderPops(s, a.t);
    var s', out, batch := Apply(s, a), Flatten(s.batches), s.pcs[a.t].batch;
    if a.PopFront? {
      assert out + (batch + [s.queue[0]]) + s.queue[1..] == out + batch + s.queue;
      assert s'.pcs[a.t] == DrainPop(batch + [s.queue[0]]);
    } else {
      assert s'.batches[..|s.batches|] == s.batches;
    }
  }

  lemma StepConserved<T>(s: State<T>, a: Action<T>)
    requires Enabled(s, a) && MutualExclusion(s) && Conserved(s)
    ensures Conserved(Apply(s, a))
  {
    if a.PushBody? || a.CheckWait? {
      PushConserved(s, a);
    } else if a.PopFront? || a.DrainReturn? {
      PopConserved(s, a);
    } else {
      var s' := Apply(s, a);
      assert forall u :: 0 <= u < |s.pcs| && (s.pcs[u].DrainPop? || s'.pcs[u].DrainPop?) ==> s'.pcs[u] == s.pcs[u];
    }
  }

  lemma StepEmpty<T>(s: State<T>, a: Action<T>)
    requires Enabled(s, a) && MutualExclusion(s) && EmptyOnlyAfterShutdown(s)
    ensures EmptyOnlyAfterShutdown(Apply(s, a))
  {
    var s', t := Apply(s, a), a.t;
    assert forall u :: 0 <= u < |s.pcs| && u != t ==> (s'.pcs[u].DrainPop? ==> s'.pcs[u] == s.pcs[u]);
    assert HoldsLock(s.pcs[t]) ==> forall u :: 0 <= u < |s.pcs| && u != t ==> !s.pcs[u].DrainPop?;
  }

  lemma StepWakeup<T>(s: State<T>, a: Action<T>)
    requires Enabled(s, a) && NoLostWakeup(s)
    ensures NoLostWakeup(Apply(s, a))
  {
    var s', t := Apply(s, a), a.t;
    if SomeWaiting(s') {
      if s'.shuttingDown {
        if a.ShutBody? {
          assert s'.pcs[t].ShutNotify?;
        } else {
          assert SomeWaiting(s);
          var u :| 0 <= u < |s.pcs| && s.pcs[u].ShutNotify?;
          assert !a.NotifyAll?;
          assert s'.pcs[u].ShutNotify?;
        }
      } else if s'.queue != [] {
        StepLook(s, a);
      }
    }
  }

  lemma StepLook<T>(s: State<T>, a: Action<T>)
    requires Enabled(s, a) && NoLostWakeup(s)
    requires SomeWaiting(Apply(s, a)) && Apply(s, a).queue != [] && !Apply(s, a).shuttingDown
    ensures exists u :: 0 <= u < |s.pcs| && WillLook(Apply(s, a).pcs[u])
  {
    var s', t := Apply(s, a), a.t;
    match a
    case PushBody(_) => assert WillLook(s'.pcs[t]);
    case SpuriousWake(_) => assert WillLook(s'.pcs[t]);
    case PopFront(_) => assert WillLook(s'.pcs[t]);
    case NotifyOne(_, w) =>
      var v :| 0 <= v < |s'.pcs| && s'.pcs[v].Waiting?;
      assert s.pcs[v].Waiting?;
      assert WillLook(s'.pcs[w]);
    case CheckWait(_) => assert WillLook(s'.pcs[t]);
    case DrainReturn(_) =>
    case ShutBody(_) =>
    case NotifyAll(_) =>
    case _ =>
      var v :| 0 <= v < |s'.pcs| && s'.pcs[v].Waiting?;
      assert s.pcs[v].Waiting?;
      var u :| 0 <= u < |s.pcs| && WillLook(s.pcs[u]);
      assert WillLook(s'.pcs[u]);
  }

  /** Safety over every run of any number of threads, from the empty queue. */
  lemma {:induction false} EveryRunIsSafe<T>(s: State<T>, run: seq<Action<T>>)
    requires Inv(s) && ValidRun(s, run)
    ensures Inv(Run(s, run))
    decreases |run|
  {
    if run != [] {
      StepMutex(s, run[0]);
      StepConserved(s, run[0]);
      StepEmpty(s, run[0]);
      StepWakeup(s, run[0]);
      EveryRunIsSafe(Apply(s, run[0]), run[1..]);
    }
  }

  lemma InitIsSafe<T>(threads: nat)
    ensures Inv<T>(Init(threads))
  {}

  /** Nothing is accepted after shutdown; what was accepted before is never dropped (Conserved). */
  lemma {:induction false} NothingAcceptedAfterShutdown<T>(s: State<T>, run: seq<Action<T>>)
    requires ValidRun(s, run) && s.shuttingDown
    ensures Run(s, run).shuttingDown && Run(s, run).accepted == s.accepted
    decreases |run|
  {
    if run != [] { NothingAcceptedAfterShutdown(Apply(s, run[0]), run[1..]); }
  }

  // -------------------------------------------------------------- progress

  /** Actions a running system takes by itself: neither a new call nor a spurious wakeup. */
  predicate Internal<T>(a: Action<T>) {
    !(a.CallPush? || a.CallDrain? || a.CallShutdown? || a.SpuriousWake?)
  }

  ghost predicate Quiescent<T(!new)>(s: State<T>) {
    forall a: Action<T> :: Internal(a) ==> !Enabled(s, a)
  }

  function Rank<T>(pc: Pc<T>, threads: nat): nat {
    match pc
    case Idle => 0
    case Waiting => 1
    case DrainPop(_) => 1
    case DrainHold => 2
    case DrainWant => 3
    case PushNotify => 3
    case PushHold(_) => 5
    case PushWant(_) => 6
    case ShutNotify => 2 * threads + 1
    case ShutHold => 2 * threads + 2
    case ShutWant => 2 * threads + 3
  }

  function Ranks<T>(pcs: seq<Pc<T>>, threads: nat): nat {
    if pcs == [] then 0 else Rank(pcs[0], threads) + Ranks(pcs[1..], threads)
  }

  /** Bound on the internal steps left. */
  function Work<T>(s: State<T>): nat { Ranks(s.pcs, |s.pcs|) + |s.queue| }

  lemma {:induction false} RanksUpdate<T>(pcs: seq<Pc<T>>, t: nat, pc: Pc<T>, threads: nat)
    requires t < |pcs|
    ensures Ranks(pcs[t := pc], threads) == Ranks(pcs, threads) - Rank(pcs[t], threads) + Rank(pc, threads)
  {
    if t > 0 {
      assert pcs[t := pc][1..] == pcs[1..][t - 1 := pc];
      RanksUpdate(pcs[1..], t - 1, pc, threads);
    } else {
      assert pcs[t := pc][1..] == pcs[1..];
    }
  }

  lemma {:induction false} RanksWakeAll<T>(pcs: seq<Pc<T>>, threads: nat)
    ensures Ranks(WakeAll(pcs), threads) <= Ranks(pcs, threads) + 2 * |pcs|
  {
    if pcs != [] {
      assert WakeAll(pcs)[1..] == WakeAll(pcs[1..]);
      RanksWakeAll(pcs[1..], threads);
    }
  }

  lemma InternalStepWorks<T>(s: State<T>, a: Action<T>)
    requires Enabled(s, a) && Internal(a)
    ensures Work(Apply(s, a)) < Work(s)
  {
    var s', t, n := Apply(s, a), a.t, |s.pcs|;
    RanksUpdate(s.pcs, t, s'.pcs[t], n);
    match a
    case NotifyOne(_, w) =>
      RanksUpdate(s.pcs, t, Idle, n);
      if SomeWaiting(s) { RanksUpdate(s.pcs[t := Idle], w, DrainWant, n); }
    case NotifyAll(_) =>
      RanksUpdate(s.pcs, t, Idle, n);
      RanksWakeAll(s.pcs[t := Idle], n);
    case _ =>
  }

  /** Left alone, the threads stop after at most Work(s) steps, under every scheduling. */
  lemma {:induction false} InternalRunsAreBounded<T>(s: State<T>, run: seq<Action<T>>)
    requires ValidRun(s, run) && forall k :: 0 <= k < |run| ==> Internal(run[k])
    ensures |run| + Work(Run(s, run)) <= Work(s)
    decreases |run|
  {
    if run != [] {
      InternalStepWorks(s, run[0]);
      InternalRunsAreBounded(Apply(s, run[0]), run[1..]);
    }
  }

  /**
    Where they stop, every thread is idle or blocked, and a thread is blocked
    only on an empty queue that is not shutting down.
   */
  lemma QuiescentMeansServed<T(!new)>(s: State<T>)
    requires Inv(s) && Quiescent(s)
    ensures forall t :: 0 <= t < |s.pcs| ==> s.pcs[t].Idle? || s.pcs[t].Waiting?
    ensures SomeWaiting(s) ==> s.queue == [] && !s.shuttingDown
    ensures Flatten(s.batches) + s.queue == s.accepted
  {
    forall t | 0 <= t < |s.pcs| ensures !HoldsLock(s.pcs[t]) {
      assert !Enabled(s, PushBody(t)) && !Enabled(s, CheckWait(t)) && !Enabled(s, PopFront(t))
          && !Enabled(s, DrainReturn(t)) && !Enabled(s, ShutBody(t));
    }
    forall t | 0 <= t < |s.pcs| ensures s.pcs[t].Idle? || s.pcs[t].Waiting? {
      assert !Enabled(s, Acquire(t)) && !Enabled(s, NotifyAll(t));
      if SomeWaiting(s) {
        var w :| 0 <= w < |s.pcs| && s.pcs[w].Waiting?;
        assert !Enabled(s, NotifyOne(t, w));
      } else {
        assert !Enabled(s, NotifyOne(t, 0));
      }
    }
  }

  /** From every reachable state some schedule of internal steps leads there. */
  lemma {:induction false} RunToRest<T(!new)>(s: State<T>) returns (run: seq<Action<T>>)
    ensures ValidRun(s, run) && Quiescent(Run(s, run))
    ensures forall k :: 0 <= k < |run| ==> Internal(run[k])
    decreases Work(s)
  {
    run := [];
    if !Quiescent(s) {
      var a: Action<T> :| Internal(a) && Enabled(s, a);
      InternalStepWorks(s, a);
      var rest := RunToRest(Apply(s, a));
      run := [a] + rest;
      assert run[1..] == rest;
    }
  }

  /**
    No lost wakeup, end to end: whatever calls and spurious wakeups came
    before, once the threads have run to rest nobody waits beside a non-empty
    queue or after shutdown, and every accepted snapshot is drained or queued.
   */
  lemma EveryConsumerIsServed<T(!new)>(threads: nat, calls: seq<Action<T>>, rest: seq<Action<T>>)
    requires ValidRun(Init(threads), calls) && ValidRun(Run(Init(threads), calls), rest)
    requires Quiescent(Run(Run(Init(threads), calls), rest))
    ensures var s := Run(Run(Init(threads), calls), rest);
            && (SomeWaiting(s) ==> s.queue == [] && !s.shuttingDown)
            && Flatten(s.batches) + s.queue == s.accepted
  {
    InitIsSafe<T>(threads);
    EveryRunIsSafe(Init(threads), calls);
    EveryRunIsSafe(Run(Init(threads), calls), rest);
    QuiescentMeansServed(Run(Run(Init(threads), calls), rest));
  }

  // ------------------------------------------------- what the callers pushed

  /** The item of a thread's last push call. */
  function CalledWith<T>(run: seq<Action<T>>, t: nat): Option<T> {
    if run == [] then None
    else
      var a := run[|run| - 1];
      if a.CallPush? && a.t == t then Some(a.item) else CalledWith(run[..|run| - 1], t)
  }

  predicate HasShutBody<T>(run: seq<Action<T>>) {
    run != [] && (run[|run| - 1].ShutBody? || HasShutBody(run[..|run| - 1]))
  }

  /** The items of the pushes that got the mutex before any shutdown did, in that order: told from the actions alone. */
  function Pushed<T>(run: seq<Action<T>>): seq<T> {
    if run == [] then []
    else
      var init, a := run[..|run| - 1], run[|run| - 1];
      Pushed(init)
      + if a.PushBody? && !HasShutBody(init) && CalledWith(init, a.t).Some? then [CalledWith(init, a.t).value] else []
  }

  lemma {:induction false} RunSnoc<T>(s: State<T>, run: seq<Action<T>>)
    requires ValidRun(s, run) && run != []
    ensures var init, a := run[..|run| - 1], run[|run| - 1];
            ValidRun(s, init) && Enabled(Run(s, init), a) && Run(s, run) == Apply(Run(s, init), a)
    decreases |run|
  {
    if |run| > 1 {
      RunSnoc(Apply(s, run[0]), run[1..]);
      assert run[1..][..|run| - 2] == run[..|run| - 1][1..];
    } else {
      assert run[..0] == [] && run[1..] == [];
    }
  }

  /** A thread on its way into push carries the item it was called with. */
  ghost predicate Carries<T>(s: State<T>, run: seq<Action<T>>) {
    forall t :: 0 <= t < |s.pcs| ==>
      && (s.pcs[t].PushWant? ==> CalledWith(run, t) == Some(s.pcs[t].item))
      && (s.pcs[t].PushHold? ==> CalledWith(run, t) == Some(s.pcs[t].item))
  }

  /**
    In every run the accepted items are exactly those of the pushes that came
    before the shutdown, whatever the interleaving.
   */
  lemma {:induction false} AcceptedIsPushed<T>(threads: nat, run: seq<Action<T>>)
    requires ValidRun(Init<T>(threads), run)
    ensures var s := Run(Init<T>(threads), run);
            s.accepted == Pushed(run) && (s.shuttingDown <==> HasShutBody(run)) && Carries(s, run)
  {
    if run != [] {
      var init, a := run[..|run| - 1], run[|run| - 1];
      RunSnoc(Init<T>(threads), run);
      AcceptedIsPushed(threads, init);
      CarriesStep(Run(Init<T>(threads), init), init, a, run);
    }
  }

  lemma CarriesStep<T>(s: State<T>, init: seq<Action<T>>, a: Action<T>, run: seq<Action<T>>)
    requires Enabled(s, a) && Carries(s, init) && run == init + [a]
    ensures Carries(Apply(s, a), run)
  {
    assert run[..|run| - 1] == init;
  }

  /**
    So nothing a caller pushed in time is lost, doubled or reordered: what the
    consumers got, then what one of them is popping, then what is queued, are
    the pushed items in order.
   */
  lemma PushedComesOut<T>(threads: nat, run: seq<Action<T>>)
    requires ValidRun(Init<T>(threads), run)
    ensures var s := Run(Init<T>(threads), run);
            && (forall t :: 0 <= t < |s.pcs| && s.pcs[t].DrainPop? ==>
                  Flatten(s.batches) + s.pcs[t].batch + s.queue == Pushed(run))
            && ((forall t :: 0 <= t < |s.pcs| ==> !s.pcs[t].DrainPop?) ==> Flatten(s.batches) + s.queue == Pushed(run))
  {
    InitIsSafe<T>(threads);
    EveryRunIsSafe(Init<T>(threads), run);
    AcceptedIsPushed(threads, run);
  }

  // ------------------------------------------------------------- one drain

  /** Batches handed over are never taken back. */
  lemma {:induction false} BatchesGrow<T>(s: State<T>, run: seq<Action<T>>)
    requires ValidRun(s, run)
    ensures s.batches <= Run(s, run).batches && |Run(s, run).pcs| == |s.pcs|
    decreases |run|
  {
    if run != [] { BatchesGrow(Apply(s, run[0]), run[1..]); }
  }

  /**
    Once a consumer is popping, the next batch anyone hands over is its own
    and is all that was queued then, in order, whatever other threads do
    meanwhile; until it is handed over nothing is lost or added.
   */
  lemma {:induction false} DrainTakesAll<T>(s: State<T>, run: seq<Action<T>>, t: nat)
    requires MutualExclusion(s) && t < |s.pcs| && s.pcs[t].DrainPop? && ValidRun(s, run)
    ensures var s', all := Run(s, run), s.pcs[t].batch + s.queue;
            && |s'.pcs| == |s.pcs| && s.batches <= s'.batches
            && if |s'.batches| > |s.batches| then s'.batches[|s.batches|] == all
               else s'.pcs[t].DrainPop? && s'.pcs[t].batch + s'.queue == all
    decreases |run|
  {
    if run != [] {
      var s' := Apply(s, run[0]);
      PoppingStep(s, run[0], t);
      if run[0] == DrainReturn(t) {
        BatchesGrow(s', run[1..]);
      } else {
        StepMutex(s, run[0]);
        DrainTakesAll(s', run[1..], t);
      }
    }
  }

  /** While one thread is popping, no step of another touches the queue. */
  lemma PoppingStep<T>(s: State<T>, a: Action<T>, t: nat)
    requires MutualExclusion(s) && t < |s.pcs| && s.pcs[t].DrainPop? && Enabled(s, a)
    ensures a == DrainReturn(t) ==> Apply(s, a).batches == s.batches + [s.pcs[t].batch + s.queue]
    ensures a != DrainReturn(t) ==>
      var s' := Apply(s, a);
      s'.batches == s.batches && s'.pcs[t].DrainPop? && s'.pcs[t].batch + s'.queue == s.pcs[t].batch + s.queue
  {
    if a.t != t { assert !HoldsLock(s.pcs[a.t]) && !LockFree(s); }
    if a == DrainReturn(t) { assert s.pcs[t].batch + s.queue == s.pcs[t].batch; }
    if a == PopFront(t) { assert s.queue == [s.queue[0]] + s.queue[1..]; }
  }
}
