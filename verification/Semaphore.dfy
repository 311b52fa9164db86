/**
 The counting semaphore: a counter under a mutex, with a condition variable.

 Any number of threads wait and post.  Each step below is one action of one
 thread: taking the mutex, testing or changing the counter, going to sleep (which
 gives up the mutex), signalling, giving up the mutex.  Sleepers may also wake
 without a signal, a signal may wake more than one of them, and a thread that
 arrives late may take the mutex before one that was woken.
 */
module Semaphore {

  type Thread = nat

  const UINT_MAX: nat := 0xffff_ffff

  /** What the thread that holds the mutex is about to do. */
  datatype Stage =
    | Arrived      // wait: test the counter for the first time
    | Rechecking   // wait: test it again after waking
    | Taken        // wait: counter decremented, unlock
    | Posting      // post: test for overflow
    | Raised       // post: counter incremented, signal
    | Signalled    // post: unlock
    | Refused      // post: unlock and report EOVERFLOW

  datatype Holder = Free | Held(t: Thread, stage: Stage)

  datatype State = State(
    initial: nat,
    count: nat,
    holder: Holder,
    sleepers: set<Thread>,
    woken: set<Thread>,
    waited: nat,    // waits that have returned 0
    posted: nat,    // posts that have returned 0
    refused: nat)   // posts that have returned EOVERFLOW

  ghost predicate Init(s: State, initial: nat) {
    initial <= UINT_MAX && s == State(initial, initial, Free, {}, {}, 0, 0, 0)
  }

  datatype Step =
    | BeginWait(t: Thread)
    | BeginPost(t: Thread)
    | Reacquire(t: Thread)
    | Spurious(t: Thread)
    | Proceed

  /** The mutex holder goes on. */
  ghost predicate Proceeds(s: State, r: State) {
    s.holder.Held? &&
    match s.holder.stage
    case Arrived => Tests(s, r)
    case Rechecking => Tests(s, r)
    case Taken => r == s.(holder := Free, waited := s.waited + 1)
    case Posting =>
      if s.count == UINT_MAX then r == s.(holder := Held(s.holder.t, Refused))
      else r == s.(count := s.count + 1, holder := Held(s.holder.t, Raised))
    case Raised =>
      && r == s.(holder := Held(s.holder.t, Signalled), sleepers := r.sleepers, woken := s.woken + (s.sleepers - r.sleepers))
      && (if s.sleepers == {} then r.sleepers == {} else r.sleepers < s.sleepers)
    case Signalled => r == s.(holder := Free, posted := s.posted + 1)
    case Refused => r == s.(holder := Free, refused := s.refused + 1)
  }

  /** The loop condition of the wait: sleep on an empty semaphore, otherwise take a permit. */
  ghost predicate Tests(s: State, r: State)
    requires s.holder.Held?
  {
    if s.count == 0 then r == s.(holder := Free, sleepers := s.sleepers + {s.holder.t})
    else r == s.(count := s.count - 1, holder := Held(s.holder.t, Taken))
  }

  ghost predicate Next(s: State, r: State, a: Step) {
    match a
    case BeginWait(t) => s.holder.Free? && t !in s.sleepers + s.woken && r == s.(holder := Held(t, Arrived))
    case BeginPost(t) => s.holder.Free? && t !in s.sleepers + s.woken && r == s.(holder := Held(t, Posting))
    case Reacquire(t) =>
      s.holder.Free? && t in s.woken && r == s.(holder := Held(t, Rechecking), woken := s.woken - {t})
    case Spurious(t) => t in s.sleepers && r == s.(sleepers := s.sleepers - {t}, woken := s.woken + {t})
    case Proceed => Proceeds(s, r)
  }

  ghost predicate IsRun(run: seq<State>, steps: seq<Step>, initial: nat) {
    && |run| == |steps| + 1 && Init(run[0], initial)
    && forall i :: 0 <= i < |steps| ==> Next(run[i], run[i + 1], steps[i])
  }

  // --------------------------------------------------------------- invariants

  function At(s: State, stage: Stage): nat {
    if s.holder.Held? && s.holder.stage == stage then 1 else 0
  }

  /** Permits are neither made nor lost. */
  predicate Conserved(s: State) {
    s.count + s.waited + At(s, Taken) == s.initial + s.posted + At(s, Raised) + At(s, Signalled)
  }

  /** While anyone sleeps, each permit has a thread on its way to take it or about to signal. */
  predicate PermitsAttended(s: State) {
    s.sleepers != {} ==> s.count <= |s.woken| + At(s, Rechecking) + At(s, Raised)
  }

  ghost predicate Apart(s: State) {
    s.sleepers !! s.woken && (s.holder.Held? ==> s.holder.t !in s.sleepers + s.woken)
  }

  ghost predicate Inv(s: State, initial: nat) {
    s.initial == initial && s.count <= UINT_MAX && Conserved(s) && PermitsAttended(s) && Apart(s)
  }

  lemma SignalWakes(s: State, r: State)
    requires Apart(s) && r.sleepers < s.sleepers && r.woken == s.woken + (s.sleepers - r.sleepers)
    ensures |r.woken| >= |s.woken| + 1
  {
    assert |s.sleepers - r.sleepers| >= 1 by {
      var t :| t in s.sleepers && t !in r.sleepers;
      assert t in s.sleepers - r.sleepers;
    }
    assert s.woken !! (s.sleepers - r.sleepers);
  }

  lemma StepKeepsApart(s: State, r: State, a: Step)
    requires Apart(s) && Next(s, r, a)
    ensures Apart(r)
  {
  }

  lemma StepConserves(s: State, r: State, a: Step)
    requires s.count <= UINT_MAX && Conserved(s) && Next(s, r, a)
    ensures r.initial == s.initial && r.count <= UINT_MAX && Conserved(r)
  {
  }

  lemma SignalAttends(s: State, r: State)
    requires PermitsAttended(s) && Apart(s) && At(s, Raised) == 1 && Proceeds(s, r)
    ensures PermitsAttended(r)
  {
    if s.sleepers != {} {
      hide Apart;
      SignalWakes(s, r);
    }
  }

  lemma ProceedAttends(s: State, r: State)
    requires PermitsAttended(s) && At(s, Raised) == 0 && Proceeds(s, r)
    ensures PermitsAttended(r)
  {
  }

  lemma StepAttends(s: State, r: State, a: Step)
    requires PermitsAttended(s) && Apart(s) && Next(s, r, a)
    ensures PermitsAttended(r)
  {
    hide Proceeds;
    match a
    case BeginWait(t) =>
    case BeginPost(t) =>
    case Spurious(t) => assert |s.woken + {t}| == |s.woken| + 1;
    case Reacquire(t) => assert |s.woken - {t}| == |s.woken| - 1;
    case Proceed => if At(s, Raised) == 1 { SignalAttends(s, r); } else { ProceedAttends(s, r); }
  }

  lemma StepKeepsInv(s: State, r: State, a: Step, initial: nat)
    requires Inv(s, initial) && Next(s, r, a)
    ensures Inv(r, initial)
  {
    hide Next, Conserved, PermitsAttended, Apart;
    StepKeepsApart(s, r, a);
    StepConserves(s, r, a);
    StepAttends(s, r, a);
  }

  /** Every state of every run of any number of threads satisfies the invariant. */
  lemma {:induction false} RunKeepsInv(run: seq<State>, steps: seq<Step>, initial: nat, n: nat)
    requires IsRun(run, steps, initial) && n < |run|
    ensures Inv(run[n], initial)
  {
    if n > 0 {
      RunKeepsInv(run, steps, initial, n - 1);
      StepKeepsInv(run[n - 1], run[n], steps[n - 1], initial);
    }
  }

  /** With the mutex free, the counter plus the finished waits equals the initial count plus the successful posts. */
  lemma PermitsConserved(run: seq<State>, steps: seq<Step>, initial: nat, n: nat)
    requires IsRun(run, steps, initial) && n < |run|
    ensures run[n].count <= UINT_MAX
    ensures run[n].holder.Free? ==> run[n].count + run[n].waited == initial + run[n].posted
    ensures run[n].waited <= initial + run[n].posted + At(run[n], Raised) + At(run[n], Signalled)
  {
    RunKeepsInv(run, steps, initial, n);
  }

  /** Nobody runs: the mutex is free and no woken thread has yet to test again. */
  predicate AllAsleep(s: State) {
    s.holder.Free? && s.woken == {}
  }

  /** No lost wake-up: if everybody inside is asleep, there is no permit left to take. */
  lemma AsleepMeansEmpty(run: seq<State>, steps: seq<Step>, initial: nat, n: nat)
    requires IsRun(run, steps, initial) && n < |run|
    requires AllAsleep(run[n]) && run[n].sleepers != {}
    ensures run[n].count == 0 && run[n].waited == initial + run[n].posted
  {
    RunKeepsInv(run, steps, initial, n);
  }

  // ------------------------------------------------------- what a call comes to

  /** From position `i` to position `j` one thread holds the mutex, and at `j` it is free again. */
  ghost predicate Section(run: seq<State>, steps: seq<Step>, i: nat, j: nat) {
    && i < j < |run| == |steps| + 1 && run[j].holder.Free?
    && (forall k :: i <= k < j ==> run[k].holder.Held?)
    && (forall k :: i <= k < j ==> Next(run[k], run[k + 1], steps[k]))
  }

  /** How far a post that found the counter at `a.count` has come at `s`. */
  predicate PostAt(a: State, s: State) {
    && a.holder.Held? && s.holder.Held? && s.holder.t == a.holder.t && s.waited == a.waited
    && s.posted == a.posted && s.refused == a.refused
    && match s.holder.stage
       case Posting => s.count == a.count
       case Refused => s.count == a.count == UINT_MAX
       case Raised => s.count == a.count + 1 <= UINT_MAX
       case Signalled => s.count == a.count + 1 <= UINT_MAX
       case _ => false
  }

  /** What it comes to: refused exactly at the limit, otherwise one permit more and one post counted. */
  predicate PostDone(a: State, s: State) {
    && s.waited == a.waited
    && if a.count == UINT_MAX then s.refused == a.refused + 1 && s.posted == a.posted && s.count == a.count
       else s.posted == a.posted + 1 && s.refused == a.refused && s.count == a.count + 1
  }

  lemma PostStep(a: State, s: State, r: State, step: Step)
    requires PostAt(a, s) && a.count <= UINT_MAX && Next(s, r, step)
    ensures if r.holder.Held? then PostAt(a, r) else PostDone(a, r)
  {
  }

  lemma {:induction false} PostSoFar(run: seq<State>, steps: seq<Step>, i: nat, j: nat, k: nat)
    requires Section(run, steps, i, j) && i <= k < j && run[i].holder.stage == Posting && run[i].count <= UINT_MAX
    ensures PostAt(run[i], run[k])
  {
    if k > i {
      PostSoFar(run, steps, i, j, k - 1);
      PostStep(run[i], run[k - 1], run[k], steps[k - 1]);
    }
  }

  /** Every post of every run: EOVERFLOW exactly if it found the counter at UINT_MAX, otherwise one permit more. */
  lemma PostMeans(run: seq<State>, steps: seq<Step>, initial: nat, i: nat, j: nat)
    requires IsRun(run, steps, initial) && Section(run, steps, i, j) && run[i].holder.stage == Posting
    ensures PostDone(run[i], run[j])
  {
    RunKeepsInv(run, steps, initial, i);
    PostSoFar(run, steps, i, j, j - 1);
    PostStep(run[i], run[j - 1], run[j], steps[j - 1]);
  }

  /** A step that leaves the raised stage is the signal: it wakes a sleeper if there is one. */
  predicate SignalsAt(run: seq<State>, k: nat) {
    && k + 1 < |run| && run[k].holder.Held? && run[k].holder.stage == Raised
    && run[k + 1].holder == Held(run[k].holder.t, Signalled)
    && (run[k].sleepers != {} ==> run[k + 1].sleepers < run[k].sleepers)
    && run[k + 1].woken == run[k].woken + (run[k].sleepers - run[k + 1].sleepers)
  }

  lemma {:induction false} SignalBefore(run: seq<State>, steps: seq<Step>, i: nat, j: nat, k: nat)
    requires Section(run, steps, i, j) && i <= k < j && run[i].holder.stage == Posting && run[i].count <= UINT_MAX
    requires run[k].holder.stage == Signalled
    ensures exists m :: i <= m < k && SignalsAt(run, m)
    decreases k
  {
    PostSoFar(run, steps, i, j, k - 1);
    if run[k - 1].holder.stage == Signalled {
      SignalBefore(run, steps, i, j, k - 1);
    } else {
      assert SignalsAt(run, k - 1);
    }
  }

  /** A post that is not refused signals before it gives up the mutex. */
  lemma PostSignals(run: seq<State>, steps: seq<Step>, initial: nat, i: nat, j: nat)
    requires IsRun(run, steps, initial) && Section(run, steps, i, j) && run[i].holder.stage == Posting
    requires run[i].count != UINT_MAX
    ensures exists m :: i <= m < j && SignalsAt(run, m)
  {
    RunKeepsInv(run, steps, initial, i);
    PostSoFar(run, steps, i, j, j - 1);
    SignalBefore(run, steps, i, j, j - 1);
  }

  /** If the counter never reaches UINT_MAX, no post is ever refused. */
  lemma {:induction false} NeverRefused(run: seq<State>, steps: seq<Step>, initial: nat, n: nat)
    requires IsRun(run, steps, initial) && n < |run| && forall k :: 0 <= k < n ==> run[k].count < UINT_MAX
    ensures run[n].refused == 0 && At(run[n], Refused) == 0
  {
    if n > 0 {
      NeverRefused(run, steps, initial, n - 1);
    }
  }

  /** How far a wait that found the counter at `a.count` has come at `s`. */
  predicate WaitAt(a: State, s: State) {
    && a.holder.Held? && s.holder.Held? && s.holder.t == a.holder.t
    && s.waited == a.waited && s.posted == a.posted && s.refused == a.refused
    && match s.holder.stage
       case Arrived => s.count == a.count
       case Rechecking => s.count == a.count
       case Taken => s.count + 1 == a.count
       case _ => false
  }

  lemma WaitStep(a: State, s: State, r: State, step: Step)
    requires WaitAt(a, s) && Next(s, r, step)
    ensures if r.holder.Held? then WaitAt(a, r) else WaitDone(a, r)
  {
  }

  /** What one test of a wait comes to: a permit taken and the wait counted, or asleep with nothing taken. */
  predicate WaitDone(a: State, s: State)
    requires a.holder.Held?
  {
    && s.posted == a.posted && s.refused == a.refused
    && if a.count == 0 then s.count == 0 && s.waited == a.waited && a.holder.t in s.sleepers
       else s.count + 1 == a.count && s.waited == a.waited + 1
  }

  lemma {:induction false} WaitSoFar(run: seq<State>, steps: seq<Step>, i: nat, j: nat, k: nat)
    requires Section(run, steps, i, j) && i <= k < j && (run[i].holder.stage == Arrived || run[i].holder.stage == Rechecking)
    ensures WaitAt(run[i], run[k])
  {
    if k > i {
      WaitSoFar(run, steps, i, j, k - 1);
      WaitStep(run[i], run[k - 1], run[k], steps[k - 1]);
    }
  }

  /** Every time a waiter holds the mutex it takes a permit if there is one, and otherwise falls asleep. */
  lemma WaitMeans(run: seq<State>, steps: seq<Step>, i: nat, j: nat)
    requires Section(run, steps, i, j) && (run[i].holder.stage == Arrived || run[i].holder.stage == Rechecking)
    ensures WaitDone(run[i], run[j])
  {
    WaitSoFar(run, steps, i, j, j - 1);
    WaitStep(run[i], run[j - 1], run[j], steps[j - 1]);
  }

  // ------------------------------------------------------------------ progress

  /** How many steps the threads already under way need until one of them has a permit. */
  function Effort(s: State): nat {
    match s.holder
    case Free => 2
    case Held(_, stage) =>
      match stage
      case Rechecking => 1
      case Arrived => 1
      case Taken => 0
      case Posting => 6
      case Raised => 5
      case Signalled => 3
      case Refused => 3
  }

  /** The holder, or if the mutex is free a woken thread, goes on. */
  ghost predicate UnderWay(s: State, r: State, a: Step) {
    (if s.holder.Free? then a.Reacquire? else a.Proceed?) && Next(s, r, a)
  }

  /** Whoever holds the mutex can always go on. */
  lemma HolderCanGoOn(s: State)
    requires s.holder.Held?
    ensures exists r :: Next(s, r, Proceed)
  {
    var t := s.holder.t;
    match s.holder.stage
    case Posting =>
      assert s.count == UINT_MAX ==> Next(s, s.(holder := Held(t, Refused)), Proceed);
      assert s.count != UINT_MAX ==> Next(s, s.(count := s.count + 1, holder := Held(t, Raised)), Proceed);
    case Raised =>
      if s.sleepers == {} {
        assert Next(s, s.(holder := Held(t, Signalled)), Proceed);
      } else {
        var u :| u in s.sleepers;
        assert s.sleepers - (s.sleepers - {u}) == {u};
        assert Next(s, s.(holder := Held(t, Signalled), sleepers := s.sleepers - {u}, woken := s.woken + {u}), Proceed);
      }
    case Taken => assert Next(s, s.(holder := Free, waited := s.waited + 1), Proceed);
    case Signalled => assert Next(s, s.(holder := Free, posted := s.posted + 1), Proceed);
    case Refused => assert Next(s, s.(holder := Free, refused := s.refused + 1), Proceed);
    case _ =>
      assert s.count == 0 ==> Next(s, s.(holder := Free, sleepers := s.sleepers + {t}), Proceed);
      assert s.count != 0 ==> Next(s, s.(count := s.count - 1, holder := Held(t, Taken)), Proceed);
  }

  /** While the mutex is free, any thread outside may begin to wait or to post. */
  lemma AnyoneMayCall(s: State, t: Thread)
    requires s.holder.Free? && t !in s.sleepers + s.woken
    ensures (exists r :: Next(s, r, BeginWait(t)) && r.holder == Held(t, Arrived))
    ensures (exists r :: Next(s, r, BeginPost(t)) && r.holder == Held(t, Posting))
  {
    assert Next(s, s.(holder := Held(t, Arrived)), BeginWait(t));
    assert Next(s, s.(holder := Held(t, Posting)), BeginPost(t));
  }

  /** While someone sleeps and there is a permit, some thread that is under way can take its next step. */
  lemma SomeoneIsUnderWay(s: State, initial: nat)
    requires Inv(s, initial) && s.sleepers != {} && 0 < s.count && 0 < Effort(s)
    ensures exists r, a :: UnderWay(s, r, a)
  {
    hide Conserved, Apart;
    if s.holder.Free? {
      assert |s.woken| > 0;
      var t :| t in s.woken;
      assert UnderWay(s, s.(holder := Held(t, Rechecking), woken := s.woken - {t}), Reacquire(t));
    } else {
      HolderCanGoOn(s);
      var r :| Next(s, r, Proceed);
      assert UnderWay(s, r, Proceed);
    }
  }

  /** Every step of a thread under way brings a permit closer to a taker, so a sleeping thread never hides one. */
  lemma StepsReachAPermit(s: State, r: State, a: Step)
    requires 0 < s.count && 0 < Effort(s) && UnderWay(s, r, a)
    ensures Effort(r) < Effort(s) && 0 < r.count + At(r, Taken)
  {
  }
}
