/** startComponents() as it re-bundles: one thread puts bundles on a bounded queue, and the
    thread that would take them is started only afterwards. */
module Startup {
  import opened Journal
  import opened Publisher

  datatype Setup = Setup(recovered: seq<MsgId>, bundleSize: nat, capacity: nat)

  /** `next` messages were taken from the recovered list; `queue` is bundleQueue. */
  datatype State = State(queue: seq<seq<MsgId>>, bundle: seq<MsgId>, next: nat, started: bool)

  const START := State([], [], 0, false)

  datatype Step =
    | AddMessage               // bundle.add
    | PutBundle                // bundleQueue.put returns; on a full queue it waits
    | StartThreads             // the dispatcher among them
    | Dispatch                 // the dispatcher takes a bundle

  /** The thread is about to put: the bundle has its size or the list is at its end. */
  predicate AtPut(c: Setup, s: State) {
    s.bundle != [] && (|s.bundle| >= c.bundleSize || s.next == |c.recovered|)
  }

  predicate Enabled(c: Setup, s: State, a: Step) {
    match a
    case AddMessage => !s.started && !AtPut(c, s) && s.next < |c.recovered|
    case PutBundle => !s.started && AtPut(c, s) && |s.queue| < c.capacity
    case StartThreads => !s.started && s.bundle == [] && s.next == |c.recovered|
    case Dispatch => s.started && s.queue != []
  }

  function Do(c: Setup, s: State, a: Step): State
    requires Enabled(c, s, a)
  {
    match a
    case AddMessage => s.(bundle := s.bundle + [c.recovered[s.next]], next := s.next + 1)
    case PutBundle => s.(queue := s.queue + [s.bundle], bundle := [])
    case StartThreads => s.(started := true)
    case Dispatch => s.(queue := s.queue[1..])
  }

  predicate Runs(c: Setup, s: State, steps: seq<Step>)
    decreases |steps|
  {
    steps == [] || (Enabled(c, s, steps[0]) && Runs(c, Do(c, s, steps[0]), steps[1..]))
  }

  function After(c: Setup, s: State, steps: seq<Step>): State
    requires Runs(c, s, steps)
    decreases |steps|
  {
    if steps == [] then s else After(c, Do(c, s, steps[0]), steps[1..])
  }

  /** Startup hangs: it is not over and no thread has a step to take, now or ever. */
  ghost predicate Stuck(c: Setup, s: State) { !s.started && forall a: Step :: !Enabled(c, s, a) }

  predicate Fits(c: Setup) { |c.recovered| <= c.capacity * Largest(c.bundleSize) }

  // ------------------------------------------------------------------
  // The invariant
  // ------------------------------------------------------------------

  /** Before the threads start the queue holds full bundles of what was taken, the last one
      perhaps smaller. */
  ghost predicate Filling(c: Setup, s: State) {
    var size := Largest(c.bundleSize);
    && s.next <= |c.recovered| && |s.queue| <= c.capacity && |s.bundle| <= size
    && Flatten(s.queue) + s.bundle == c.recovered[..s.next]
    && (forall i :: 0 <= i < |s.queue| ==> 0 < |s.queue[i]| <= size)
    && (s.bundle != [] || s.next < |c.recovered| ==> forall i :: 0 <= i < |s.queue| ==> |s.queue[i]| == size)
    && (forall i :: 0 <= i < |s.queue| - 1 ==> |s.queue[i]| == size)
  }

  ghost predicate Good(c: Setup, s: State) { if s.started then Fits(c) else Filling(c, s) }

  lemma {:induction false} StepKeeps(c: Setup, s: State, a: Step)
    requires Good(c, s) && Enabled(c, s, a)
    ensures Good(c, Do(c, s, a))
  {
    match a
    case AddMessage =>
      assert c.recovered[..s.next + 1] == c.recovered[..s.next] + [c.recovered[s.next]];
      assert Flatten(s.queue) + (s.bundle + [c.recovered[s.next]]) == (Flatten(s.queue) + s.bundle) + [c.recovered[s.next]];
    case PutBundle => FlattenSnoc(s.queue, s.bundle);
    case StartThreads =>
      assert Flatten(s.queue) == c.recovered;
      StartupFitsIff(c.recovered, c.bundleSize, s.queue, c.capacity);
    case Dispatch =>
  }

  lemma {:induction false} RunKeeps(c: Setup, s: State, steps: seq<Step>)
    requires Good(c, s) && Runs(c, s, steps)
    ensures Good(c, After(c, s, steps))
    decreases |steps|
  {
    hide Good, Enabled, Do;
    if steps != [] {
      StepKeeps(c, s, steps[0]);
      RunKeeps(c, Do(c, s, steps[0]), steps[1..]);
    }
  }

  /** If the recovered messages fit, the thread can always go on. */
  lemma {:induction false} FittingGoesOn(c: Setup, s: State)
    requires Good(c, s) && Fits(c) && !s.started
    ensures exists a: Step :: Enabled(c, s, a)
  {
    if AtPut(c, s) {
      SameSize(s.queue, Largest(c.bundleSize));
      assert |c.recovered[..s.next]| == |s.queue| * Largest(c.bundleSize) + |s.bundle|;
      if |s.queue| >= c.capacity {
        Scale(c.capacity, |s.queue|, Largest(c.bundleSize));
      }
      assert Enabled(c, s, PutBundle);
    } else if s.next < |c.recovered| {
      assert Enabled(c, s, AddMessage);
    } else {
      assert Enabled(c, s, StartThreads);
    }
  }

  /** Steps left before the threads start. */
  function Left(c: Setup, s: State): nat {
    if s.started || s.next > |c.recovered| then 0
    else 2 * (|c.recovered| - s.next) + (if s.bundle != [] then 1 else 0) + 1
  }

  lemma {:induction false} StepIsNearer(c: Setup, s: State, a: Step)
    requires Good(c, s) && !s.started && Enabled(c, s, a)
    ensures Left(c, Do(c, s, a)) < Left(c, s)
  {
  }

  /** From any state startup runs on until it is over or hangs. */
  lemma {:induction false} RunsOut(c: Setup, s: State) returns (steps: seq<Step>)
    requires Good(c, s)
    ensures Runs(c, s, steps) && (After(c, s, steps).started || Stuck(c, After(c, s, steps)))
    decreases Left(c, s)
  {
    hide Good, Enabled, Do;
    steps := [];
    if !s.started && !Stuck(c, s) {
      var a :| Enabled(c, s, a);
      StepKeeps(c, s, a);
      StepIsNearer(c, s, a);
      var rest := RunsOut(c, Do(c, s, a));
      steps := [a] + rest;
      assert steps[1..] == rest;
    }
  }

  // ------------------------------------------------------------------
  // When startup gets through
  // ------------------------------------------------------------------

  lemma {:induction false} StartIsGood(c: Setup)
    ensures Good(c, START)
  {
  }

  /** No run of startup hangs if and only if the recovered messages number at most capacity
      times the bundle size; if they do not, no run ever starts the threads. */
  lemma {:induction false} StartupGetsThroughIff(c: Setup)
    ensures (forall steps | Runs(c, START, steps) :: !Stuck(c, After(c, START, steps))) <==> Fits(c)
    ensures !Fits(c) ==> forall steps | Runs(c, START, steps) :: !After(c, START, steps).started
  {
    hide Good, Enabled, Do, Fits, Runs, After, Stuck;
    StartIsGood(c);
    forall steps | Runs(c, START, steps) && Fits(c) ensures !Stuck(c, After(c, START, steps)) {
      RunKeeps(c, START, steps);
      NotStuck(c, After(c, START, steps));
    }
    forall steps | Runs(c, START, steps) && !Fits(c) ensures !After(c, START, steps).started {
      RunKeeps(c, START, steps);
      NeverStarted(c, After(c, START, steps));
    }
    if !Fits(c) {
      var steps := RunsOut(c, START);
      assert Stuck(c, After(c, START, steps));
    }
  }

  lemma {:induction false} NotStuck(c: Setup, s: State)
    requires Good(c, s) && Fits(c)
    ensures !Stuck(c, s)
  {
    hide Good, Enabled, Fits;
    if !s.started { FittingGoesOn(c, s); }
  }

  lemma {:induction false} NeverStarted(c: Setup, s: State)
    requires Good(c, s) && !Fits(c)
    ensures !s.started
  {
    hide Fits, Filling;
  }

  /** A run hangs whenever the bundles that re-bundling makes are more than the queue holds. */
  lemma {:induction false} MoreBundlesHang(c: Setup, bundles: seq<seq<MsgId>>) returns (steps: seq<Step>)
    requires Flatten(bundles) == c.recovered && |bundles| > c.capacity
    requires forall i :: 0 <= i < |bundles| ==> 0 < |bundles[i]| <= Largest(c.bundleSize)
    requires forall i :: 0 <= i < |bundles| - 1 ==> |bundles[i]| == Largest(c.bundleSize)
    ensures Runs(c, START, steps) && Stuck(c, After(c, START, steps))
  {
    hide Good, Enabled, Do, Runs, After, Stuck;
    StartupFitsIff(c.recovered, c.bundleSize, bundles, c.capacity);
    StartIsGood(c);
    steps := RunsOut(c, START);
    RunKeeps(c, START, steps);
    NeverStarted(c, After(c, START, steps));
  }

  /** With the shipped sizes, bundles of 400 and a queue of 100, startup gets through exactly with
      at most 40000 recovered messages; with more the threads are never started. */
  lemma {:induction false} ShippedSizesHang(recovered: seq<MsgId>)
    ensures var c := Setup(recovered, 400, 100);
      && ((forall steps | Runs(c, START, steps) :: !Stuck(c, After(c, START, steps))) <==> |recovered| <= 40000)
      && (|recovered| > 40000 ==> forall steps | Runs(c, START, steps) :: !After(c, START, steps).started)
  {
    hide Runs, After, Stuck;
    StartupGetsThroughIff(Setup(recovered, 400, 100));
  }
}
