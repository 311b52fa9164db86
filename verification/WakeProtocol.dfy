/**
 Stopping a running loop from other threads.

 A canceller sets the stop flag and then sends one datagram to the loop's wake
 socket; the loop resets the flag when a run starts, reads it at two places of
 every round, and drains the socket when the wait reports it readable.  The model
 interleaves the single steps of one loop thread and any number of cancellers.
 The flag is sequentially consistent; the kernel may drop a datagram, but only
 while another one is still queued.
 */
module WakeProtocol {
  import opened Limits

  type Thread = nat

  /** Where the loop thread is in `x_event_loop_run`. */
  datatype Place =
    | Starting     // before the flag is reset
    | Top          // about to test the flag in the loop condition
    | FirstPass    // first timer pass
    | Middle       // about to test the flag after the first pass
    | Preparing    // compaction and timeout, flag already tested
    | Waiting      // in the kernel wait
    | Batch(left: nat)     // dispatching, `left` events to go
    | Draining(left: nat)  // in the wake callback, `left` events to go after it
    | SecondPass   // second timer pass and compaction
    | Returned

  /**
   `setting` and `settingStale` hold the threads between setting the flag and
   sending; `cancels` and `stale` count the cancels that have returned.  The stale
   ones set their flag before the reset of the current run.
   */
  datatype State = State(
    place: Place,
    stop: bool,
    queued: nat,
    settingStale: set<Thread>,
    setting: set<Thread>,
    stale: nat,
    cancels: nat)

  ghost predicate Init(s: State) {
    s == State(Starting, false, 0, {}, {}, 0, 0)
  }

  datatype Step =
    | LoopStep
    | SetFlag(t: Thread)
    | Send(t: Thread)
    | WakeOnly

  /** A datagram reaches the queue, or is dropped because the queue is not empty. */
  predicate Delivered(before: nat, after: nat) {
    after == before + 1 || (0 < before && after == before)
  }

  predicate MovesTo(from: Place, to: Place) {
    match from
    case FirstPass => to == Middle || to == Returned
    case Preparing => to == Waiting || to == Returned
    case Waiting => to == Returned || (to.Batch? && to.left <= MAX_BATCH)
    case Batch(left) =>
      if left == 0 then to == SecondPass
      else to == Batch(left - 1) || to == Draining(left - 1) || to == Returned
    case SecondPass => to == Top || to == Returned
    case _ => false
  }

  /** One step of the loop thread. */
  predicate LoopMoves(s: State, r: State) {
    match s.place
    case Starting =>
      r == s.(place := Top, stop := false, settingStale := s.settingStale + s.setting, setting := {},
              stale := s.stale + s.cancels, cancels := 0)
    case Top => r == s.(place := r.place) && (if s.stop then r.place == Returned else r.place == FirstPass || r.place == Returned)
    case Middle =>
      && r == s.(place := r.place)
      && (if s.stop then r.place == Returned else r.place == Preparing || r.place == Returned)
    case Draining(left) =>
      if s.queued == 0 then r == s.(place := Batch(left)) || r == s.(place := Returned)
      else r == s.(queued := s.queued - 1) || r == s.(place := Returned)
    case Returned => r == s.(place := Starting)
    case _ => r == s.(place := r.place) && MovesTo(s.place, r.place)
  }

  ghost predicate Next(s: State, r: State, a: Step) {
    match a
    case LoopStep => LoopMoves(s, r)
    case SetFlag(t) =>
      t !in s.setting && t !in s.settingStale && r == s.(stop := true, setting := s.setting + {t})
    case Send(t) =>
      && (t in s.setting || t in s.settingStale) && Delivered(s.queued, r.queued)
      && r == if t in s.setting
              then s.(queued := r.queued, setting := s.setting - {t}, cancels := s.cancels + 1)
              else s.(queued := r.queued, settingStale := s.settingStale - {t}, stale := s.stale + 1)
    case WakeOnly => Delivered(s.queued, r.queued) && r == s.(queued := r.queued)
  }

  /** A run of the system: consecutive states are related by a step. */
  ghost predicate IsRun(run: seq<State>, steps: seq<Step>) {
    && |run| == |steps| + 1 && Init(run[0])
    && forall i :: 0 <= i < |steps| ==> Next(run[i], run[i + 1], steps[i])
  }

  /** The stretch in which the loop no longer looks at the flag before it waits. */
  predicate Committed(p: Place) {
    p == Preparing || p == Waiting
  }

  /** In the kernel wait with nothing to wake it. */
  predicate Blocked(s: State) {
    s.place == Waiting && s.queued == 0
  }

  /** Some cancel has set its flag since the reset of this run. */
  predicate Requested(s: State) {
    0 < s.cancels || s.setting != {}
  }

  ghost predicate Inv(s: State) {
    && (s.place != Starting ==> (s.stop <==> Requested(s)))
    && (Committed(s.place) && 0 < s.cancels ==> 0 < s.queued)
  }

  lemma StepKeepsInv(s: State, r: State, a: Step)
    requires Inv(s) && Next(s, r, a)
    ensures Inv(r)
  {
  }

  lemma {:induction false} RunKeepsInv(run: seq<State>, steps: seq<Step>, n: nat)
    requires IsRun(run, steps) && n < |run|
    ensures Inv(run[n])
  {
    if n > 0 {
      RunKeepsInv(run, steps, n - 1);
      StepKeepsInv(run[n - 1], run[n], steps[n - 1]);
    }
  }

  /**
   In a run the flag is set exactly if some cancel has set it since the reset; a
   cancel that set it before never stops this run.
   */
  lemma StopIffRequested(run: seq<State>, steps: seq<Step>, n: nat)
    requires IsRun(run, steps) && n < |run| && run[n].place != Starting
    ensures run[n].stop <==> Requested(run[n])
  {
    RunKeepsInv(run, steps, n);
  }

  /** Once a cancel has returned whose flag was set in this run, the loop is never blocked again in it. */
  lemma NoLostStop(run: seq<State>, steps: seq<Step>, n: nat)
    requires IsRun(run, steps) && n < |run| && 0 < run[n].cancels
    ensures !Blocked(run[n])
  {
    RunKeepsInv(run, steps, n);
  }

  /** A thread that is not cancelling may begin to at any time, and then send at any time. */
  lemma AnyoneMayCancel(s: State, t: Thread)
    ensures t !in s.setting && t !in s.settingStale ==> exists r :: Next(s, r, SetFlag(t)) && r.stop && t in r.setting
    ensures t in s.setting || t in s.settingStale ==> exists r :: Next(s, r, Send(t)) && 0 < r.queued
  {
    if t in s.setting {
      assert Next(s, s.(queued := s.queued + 1, setting := s.setting - {t}, cancels := s.cancels + 1), Send(t));
    } else if t in s.settingStale {
      assert Next(s, s.(queued := s.queued + 1, settingStale := s.settingStale - {t}, stale := s.stale + 1), Send(t));
    } else {
      assert Next(s, s.(stop := true, setting := s.setting + {t}), SetFlag(t));
    }
  }

  /** Every place of the loop thread has a next step; out of a wait it is the kernel's to make. */
  lemma LoopCanGoOn(s: State)
    ensures exists r :: Next(s, r, LoopStep)
  {
    match s.place
    case Starting =>
      assert Next(s, s.(place := Top, stop := false, settingStale := s.settingStale + s.setting, setting := {},
                        stale := s.stale + s.cancels, cancels := 0), LoopStep);
    case Waiting => assert Next(s, s.(place := Batch(0)), LoopStep);
    case Batch(left) => assert Next(s, s.(place := if left == 0 then SecondPass else Batch(left - 1)), LoopStep);
    case Draining(left) =>
      assert s.queued == 0 ==> Next(s, s.(place := Batch(left)), LoopStep);
      assert s.queued != 0 ==> Next(s, s.(queued := s.queued - 1), LoopStep);
    case Returned => assert Next(s, s.(place := Starting), LoopStep);
    case _ => assert Next(s, s.(place := Returned), LoopStep);
  }

  // -------------------------------------------------------------- promptness

  /** An upper bound on the steps, other than receiving a datagram, until a stopped run returns. */
  function Distance(p: Place): nat {
    match p
    case Returned => 0
    case Starting => 0
    case Top => 1
    case Middle => 1
    case FirstPass => 2
    case SecondPass => 2
    case Batch(left) => 3 + 2 * left
    case Draining(left) => 4 + 2 * left
    case Waiting => 4 + 2 * MAX_BATCH
    case Preparing => 5 + 2 * MAX_BATCH
  }

  /** The loop thread takes one datagram off its queue. */
  predicate Receives(s: State, r: State, a: Step) {
    a.LoopStep? && s.place.Draining? && r.place == s.place
  }

  predicate InRun(p: Place) {
    !p.Starting? && !p.Returned?
  }

  /** After a stop request every step of the loop thread brings it closer to its return. */
  lemma StopBringsCloser(s: State, r: State, a: Step)
    requires s.stop && InRun(s.place) && Next(s, r, a)
    ensures r.stop
    ensures if a.LoopStep? && !Receives(s, r, a) then Distance(r.place) < Distance(s.place) else r.place == s.place
  {
  }

  /** The steps of the loop thread from `n` up to `m`, not counting the receiving of datagrams. */
  ghost function Controls(run: seq<State>, steps: seq<Step>, n: nat, m: nat): nat
    requires n <= m <= |steps| < |run|
  {
    if m == n then 0
    else
      Controls(run, steps, n, m - 1)
      + if steps[m - 1].LoopStep? && !Receives(run[m - 1], run[m], steps[m - 1]) then 1 else 0
  }

  /**
   From a stop request on, the loop thread takes a bounded number of steps, besides
   receiving the datagrams sent to it, before the run returns.
   */
  lemma {:induction false} StopIsPrompt(run: seq<State>, steps: seq<Step>, n: nat, m: nat)
    requires IsRun(run, steps) && n <= m <= |steps|
    requires run[n].stop && forall i :: n <= i <= m ==> InRun(run[i].place)
    ensures run[m].stop && Controls(run, steps, n, m) + Distance(run[m].place) <= Distance(run[n].place)
    decreases m
  {
    hide Next, Distance, Receives;
    if n < m {
      StopIsPrompt(run, steps, n, m - 1);
      StopBringsCloser(run[m - 1], run[m], steps[m - 1]);
    }
  }

  // ------------------------------------------------------------- early cancels

  ghost predicate Reachable(s: State) {
    exists run, steps :: IsRun(run, steps) && run[|run| - 1] == s
  }

  lemma ReachableNext(s: State, r: State, a: Step)
    requires Reachable(s) && Next(s, r, a)
    ensures Reachable(r)
  {
    var run, steps :| IsRun(run, steps) && run[|run| - 1] == s;
    assert IsRun(run + [r], steps + [a]);
  }

  /** From `Top`, with the flag clear, the loop gets into its wait. */
  lemma WaitsUnlessStopped(s: State)
    requires Reachable(s) && s.place == Top && !s.stop
    ensures Reachable(s.(place := Waiting))
  {
    ReachableNext(s, s.(place := FirstPass), LoopStep);
    ReachableNext(s.(place := FirstPass), s.(place := Middle), LoopStep);
    ReachableNext(s.(place := Middle), s.(place := Preparing), LoopStep);
    ReachableNext(s.(place := Preparing), s.(place := Waiting), LoopStep);
  }

  /** A cancel that returned before the reset can be lost: its datagram is drained and the loop blocks. */
  lemma EarlyCancelCanBeLost()
    ensures exists s :: Reachable(s) && s.stale == 1 && Blocked(s)
  {
    var a := State(Starting, false, 0, {}, {}, 0, 0);
    assert IsRun([a], []);
    ReachableNext(a, a.(stop := true, setting := {0}), SetFlag(0));
    var b := State(Starting, true, 1, {}, {}, 0, 1);
    ReachableNext(a.(stop := true, setting := {0}), b, Send(0));
    var c := State(Top, false, 1, {}, {}, 1, 0);
    ReachableNext(b, c, LoopStep);
    WaitsUnlessStopped(c);
    ReachableNext(c.(place := Waiting), c.(place := Batch(1)), LoopStep);
    ReachableNext(c.(place := Batch(1)), c.(place := Draining(0)), LoopStep);
    var d := c.(queued := 0);
    ReachableNext(c.(place := Draining(0)), d.(place := Draining(0)), LoopStep);
    ReachableNext(d.(place := Draining(0)), d.(place := Batch(0)), LoopStep);
    ReachableNext(d.(place := Batch(0)), d.(place := SecondPass), LoopStep);
    ReachableNext(d.(place := SecondPass), d, LoopStep);
    WaitsUnlessStopped(d);
    assert Blocked(d.(place := Waiting));
  }
}
