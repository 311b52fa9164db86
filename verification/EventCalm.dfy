/**
 Worlds in which time behaves: the clock stays below a horizon, and the delays and
 intervals of the timers fit above it.  In such a world no 64-bit sum of the event
 loop wraps and nothing hangs in a reschedule loop; a timer pass ends if in addition
 its callbacks add nothing that is already due.
 */
module EventCalm {
  import opened Limits
  import opened Timing
  import opened EventModel
  import opened EventRun
  import opened EventTrace
  import opened EventService
  import opened EventFairness
  import opened EventOutcome

  /** Sources from position `n` on are not due. */
  ghost predicate NotDueFrom(m: Mem, n: nat, now: U64)
    requires Core(m)
  {
    forall j :: n <= j < |m.list| ==> !Due(m, m.list[j], now)
  }

  /** No timer that a callback adds makes the clock wrap, given that the clock stays below `horizon`. */
  ghost predicate NoWrap(w: World, horizon: nat) {
    && (forall k: nat :: w.clock(k).Reading? ==> w.clock(k).ns < horizon)
    && (forall k: nat, i :: 0 <= i < |w.reaction(k).actions| ==> Fits(w.reaction(k).actions[i], horizon))
  }

  predicate Fits(a: Action, horizon: nat) {
    a.AddTimer? ==> MsToNs(a.delayMs) + horizon <= TWO64 && MsToNs(a.intervalMs) + horizon <= TWO64
  }

  /** The action adds a source to the timer pass. */
  predicate AddsTimed(a: Action) {
    a.AddTimer? || a.AddProcess? || a.AddFile?
  }

  function DelayOf(a: Action): U64 {
    if a.AddTimer? then MsToNs(a.delayMs) else 0
  }

  /** A source that `a` adds with a clock reading from `step` on is not due at `now`. */
  ghost predicate Later(w: World, a: Action, now: U64, step: nat) {
    AddsTimed(a) ==> forall j: nat :: step <= j && w.clock(j).Reading? ==> now < FirstDue(w.clock(j).ns, DelayOf(a))
  }

  /** No source that a callback adds from `step` on is due at `now`. */
  ghost predicate Punctual(w: World, now: U64, step: nat) {
    forall k: nat, i :: step <= k && 0 <= i < |w.reaction(k).actions| ==> Later(w, w.reaction(k).actions[i], now, k + 1)
  }

  ghost predicate SteadyClock(w: World) {
    forall j: nat, k: nat :: j < k && w.clock(j).Reading? && w.clock(k).Reading? ==> w.clock(j).ns <= w.clock(k).ns
  }

  ghost predicate StrictClock(w: World) {
    forall j: nat, k: nat :: j < k && w.clock(j).Reading? && w.clock(k).Reading? ==> w.clock(j).ns < w.clock(k).ns
  }

  /** Callbacks add no source without a delay. */
  ghost predicate OnlyDelayed(w: World) {
    forall k: nat, i :: 0 <= i < |w.reaction(k).actions| && AddsTimed(w.reaction(k).actions[i]) ==>
      0 < DelayOf(w.reaction(k).actions[i])
  }

  /** It suffices that the clock never goes back, and advances unless every added source has a delay. */
  lemma SteadyClockIsPunctual(w: World, step: nat, horizon: nat)
    requires NoWrap(w, horizon) && horizon <= TWO64 && SteadyClock(w) && (StrictClock(w) || OnlyDelayed(w))
    requires w.clock(step).Reading?
    ensures Punctual(w, w.clock(step).ns, step + 1)
  {
    hide FirstDue;
    var now := w.clock(step).ns;
    forall k: nat, i, j: nat | step < k < j && 0 <= i < |w.reaction(k).actions| && AddsTimed(w.reaction(k).actions[i])
        && w.clock(j).Reading?
      ensures now < FirstDue(w.clock(j).ns, DelayOf(w.reaction(k).actions[i]))
    {
      assert Fits(w.reaction(k).actions[i], horizon);
      DelayHonouredIff(w.clock(j).ns, DelayOf(w.reaction(k).actions[i]));
    }
  }

  lemma StillNotDue(m: Mem, n: Mem, but: nat, from: nat, now: U64)
    requires Core(m) && Core(n) && but < |m.list| && but < from && (Grows(m, n, m.list[but]) || Grows(m, n, NULL))
    requires from <= |m.list| == |n.list| && NotDueFrom(m, from, now)
    ensures NotDueFrom(n, from, now)
  {
    hide BackendAgrees;
    forall j | from <= j < |n.list|
      ensures !Due(n, n.list[j], now)
    {
      assert n.list[j] == m.list[j];
    }
  }

  /** At most one source was appended, and it is not due. */
  ghost predicate Appended(m: Mem, n: Mem, now: U64) {
    && m.list <= n.list && |n.list| <= |m.list| + 1
    && (|n.list| == |m.list| + 1 ==> n.list[|m.list|] in n.heap && !Due(n, n.list[|m.list|], now))
  }

  lemma GrownNotDue(m: Mem, n: Mem, from: nat, now: U64)
    requires Core(m) && Core(n) && Grows(m, n, NULL) && Appended(m, n, now)
    requires from <= |m.list| && NotDueFrom(m, from, now)
    ensures NotDueFrom(n, from, now)
  {
    hide BackendAgrees, Distinct;
    forall j | from <= j < |n.list|
      ensures !Due(n, n.list[j], now)
    {
      if j < |m.list| {
        assert n.list[j] == m.list[j];
      }
    }
  }

  lemma AddTimedAppends(s: Loop, w: World, kind: Kind, delay: U64, interval: U64, now: U64)
    requires Core(s.mem) && !kind.Socket?
    requires forall j: nat :: s.step <= j && w.clock(j).Reading? ==> now < FirstDue(w.clock(j).ns, delay)
    ensures Appended(s.mem, AddTimedTo(s, w, kind, delay, interval).loop.mem, now)
  {
    hide Core, Grows, Doubled, FirstDue;
  }

  lemma AddSocketAppends(s: Loop, w: World, handle: Handle, read: bool, write: bool, now: U64)
    requires Core(s.mem)
    ensures Appended(s.mem, AddSocketTo(s, w, handle, read, write).loop.mem, now)
  {
    hide Core, Grows, Doubled;
  }

  lemma ActNotDue(s: Loop, w: World, a: Action, from: nat, now: U64)
    requires Core(s.mem) && from <= |s.mem.list| && NotDueFrom(s.mem, from, now) && Later(w, a, now, s.step)
    ensures NotDueFrom(Act(s, w, a).loop.mem, from, now)
  {
    hide Core, Grows, AddSocketTo, AddTimedTo, FirstDue;
    match a {
      case AddSocket(h, read, write) => AddSocketAppends(s, w, h, read, write, now);
      case AddTimer(delay, every) => AddTimedAppends(s, w, Timer, MsToNs(delay), MsToNs(every), now);
      case AddProcess(every) => AddTimedAppends(s, w, Process, 0, MsToNs(if every == 0 then 10 else every), now);
      case AddFile(every) => AddTimedAppends(s, w, File, 0, MsToNs(if every == 0 then 100 else every), now);
      case _ =>
    }
    GrownNotDue(s.mem, Act(s, w, a).loop.mem, from, now);
  }

  lemma {:induction false} ReactNotDue(s: Loop, w: World, actions: seq<Action>, from: nat, now: U64)
    requires Core(s.mem) && from <= |s.mem.list| && NotDueFrom(s.mem, from, now)
    requires forall i :: 0 <= i < |actions| ==> Later(w, actions[i], now, s.step)
    ensures NotDueFrom(React(s, w, actions).mem, from, now)
    decreases |actions|
  {
    hide Core, Act, NotDueFrom, FirstDue;
    if actions != [] {
      ActNotDue(s, w, actions[0], from, now);
      ReactNotDue(Act(s, w, actions[0]).loop, w, actions[1..], from, now);
    }
  }

  lemma DispatchNotDue(s: Loop, w: World, p: Ptr, flags: nat, now: U64, from: nat)
    requires Core(s.mem) && p in s.mem.heap && from <= |s.mem.list| && NotDueFrom(s.mem, from, now)
    requires Punctual(w, now, s.step)
    ensures NotDueFrom(Dispatch(s, w, p, flags, now).loop.mem, from, now)
  {
    hide Core, NotDueFrom, FirstDue;
    if s.mem.heap[p].active && !s.mem.heap[p].internal {
      var reaction := w.reaction(s.step);
      assert forall i :: 0 <= i < |reaction.actions| ==> Later(w, reaction.actions[i], now, s.step + 1);
      ReactNotDue(Note(Tick(s), Fired(p, flags, now, reaction.result)), w, reaction.actions, from, now);
    }
  }

  lemma SettledNotDue(d: Loop, r: Passed, i: nat, from: nat, now: U64, code: int)
    requires Core(d.mem) && Core(r.loop.mem) && i < from <= |d.mem.list| && NotDueFrom(d.mem, from, now)
    requires Settled(d, r, d.mem.list[i], code)
    ensures NotDueFrom(r.loop.mem, from, now)
  {
    hide Core, NotDueFrom, Grows;
    if r.loop.mem != d.mem {
      StillNotDue(d.mem, r.loop.mem, i, from, now);
    }
  }

  lemma ListedIsAllocated(m: Mem, i: nat)
    requires Core(m) && i < |m.list|
    ensures m.list[i] in m.heap
  {
  }

  lemma PunctualLater(w: World, now: U64, step: nat, later: nat)
    requires Punctual(w, now, step) && step <= later
    ensures Punctual(w, now, later)
  {
    hide Later;
  }

  lemma ServeNotDue(s: Loop, w: World, i: nat, now: U64, from: nat)
    requires Core(s.mem) && i < from <= |s.mem.list| && NotDueFrom(s.mem, from, now)
    requires Due(s.mem, s.mem.list[i], now) && Punctual(w, now, s.step)
    ensures NotDueFrom(Serve(s, w, s.mem.list[i], now).loop.mem, from, now)
  {
    hide Core, NotDueFrom, Serve, Dispatch, PlanOf, Later, Grows, Settled, Punctual;
    var p := s.mem.list[i];
    ListedIsAllocated(s.mem, i);
    PunctualLater(w, now, s.step, BeforeCallback(s, w, p, now).step);
    ServeShape(s, w, p, now);
    var t, r := BeforeCallback(s, w, p, now), Serve(s, w, p, now);
    match PlanOf(s, w, p)
    case Faulting(_) =>
    case Plain => SettledNotDue(t, r, i, from, now, 0);
    case Firing(flags) =>
      DispatchNotDue(t, w, p, flags, now, from);
      var d := Dispatch(t, w, p, flags, now);
      assert s.mem.list <= d.loop.mem.list by { ListGrows(t.mem, d.loop.mem, NULL); }
      SettledNotDue(d.loop, r, i, from, now, d.code);
  }

  /**
   If no source that a callback adds is due at the pass's clock reading, the pass
   needs no more than one service per source listed at its start, and none goes to a
   source added meanwhile.
   */
  lemma {:induction false} PassFinishes(s: Loop, w: World, now: U64, i: nat, budget: nat, from: nat)
    requires Core(s.mem) && from <= |s.mem.list| && from <= i + budget && NotDueFrom(s.mem, from, now)
    requires Punctual(w, now, s.step)
    ensures Pass(s, w, now, i, budget).outcome != Unfinished
    ensures var r := Pass(s, w, now, i, budget).loop;
            forall x :: |s.log| <= x < |r.log| && r.log[x].Turn? ==> r.log[x].p in s.mem.list[..from]
    decreases budget, |s.mem.list| - i
  {
    hide Serve, BackendAgrees, Distinct, Later, Grows, WakeFirst;
    if i < |s.mem.list| {
      var p := s.mem.list[i];
      if !Due(s.mem, p, now) {
        PassFinishes(s, w, now, i + 1, budget, from);
      } else {
        var t := Serve(s, w, p, now);
        ServeEnds(s, w, p, now);
        ServeNotDue(s, w, i, now, from);
        ServeLog(s, w, p, now);
        ListGrows(s.mem, t.loop.mem, p);
        OnlyTurn(s, t.loop, i, from, now);
        if t.outcome == Finished(0) {
          PassFinishes(t.loop, w, now, i + 1, budget - 1, from);
          var r := Pass(t.loop, w, now, i + 1, budget - 1).loop;
          assert t.loop.mem.list[..from] == s.mem.list[..from];
          forall x | |s.log| <= x < |r.log| && r.log[x].Turn?
            ensures r.log[x].p in s.mem.list[..from]
          {
            assert x < |t.loop.log| ==> r.log[x] == t.loop.log[x];
          }
        }
      }
    }
  }

  lemma OnlyTurn(s: Loop, t: Loop, i: nat, from: nat, now: U64)
    requires i < from <= |s.mem.list| && OneTurn(s, t, s.mem.list[i], now)
    ensures forall x :: |s.log| <= x < |t.log| && t.log[x].Turn? ==> t.log[x].p in s.mem.list[..from]
  {
    hide Caused, Accounted;
    assert t.log[|s.log|] == Turn(s.mem.list[i], now);
  }

  // --------------------------------------------------------- sessions without wrap

  /** An event of a calm world: its times lie below the horizon, a timer's interval fits above it, nothing spins. */
  predicate CalmEvent(e: Event, horizon: nat) {
    && (e.Turn? || (e.Fired? && e.flags == TIMER) ==> e.now < horizon)
    && (e.Born? && e.kind.Timer? ==> e.interval + horizon <= TWO64)
    && !e.Spun?
  }

  ghost predicate CalmLog(log: seq<Event>, horizon: nat) {
    forall i :: 0 <= i < |log| ==> CalmEvent(log[i], horizon)
  }

  ghost predicate Sturdy(heap: map<Ptr, Source>, horizon: nat) {
    forall p :: p in heap && heap[p].kind.Timer? ==> heap[p].interval + horizon <= TWO64
  }

  ghost predicate Tame(s: Loop, horizon: nat) {
    CalmLog(s.log, horizon) && Sturdy(s.mem.heap, horizon)
  }

  /** Below the horizon the reschedule loop ends at the next slot. */
  lemma FitsEnds(due: U64, interval: U64, now: U64, horizon: nat)
    requires 0 < interval && due <= now < horizon && interval + horizon <= TWO64
    ensures Ends(due, interval, now) && Rescheduled(due, interval, now) == NextSlot(due, interval, now)
    ensures Slot(due, interval, Exit(due, interval, now)) == NextSlot(due, interval, now)
  {
    RescheduleExactIff(due, interval, now);
  }

  lemma AddSocketTame(s: Loop, w: World, handle: Handle, read: bool, write: bool, horizon: nat)
    requires Core(s.mem) && Tame(s, horizon)
    ensures Tame(AddSocketTo(s, w, handle, read, write).loop, horizon)
  {
    hide Core, Grows, With, Doubled;
  }

  lemma AddTimedTame(s: Loop, w: World, kind: Kind, delay: U64, interval: U64, horizon: nat)
    requires Core(s.mem) && !kind.Socket? && Tame(s, horizon) && (kind.Timer? ==> interval + horizon <= TWO64)
    ensures Tame(AddTimedTo(s, w, kind, delay, interval).loop, horizon)
  {
    hide Core, Grows, With, Doubled, FirstDue;
  }

  lemma ActTame(s: Loop, w: World, a: Action, horizon: nat)
    requires Core(s.mem) && Tame(s, horizon) && Fits(a, horizon)
    ensures Tame(Act(s, w, a).loop, horizon)
  {
    hide Core, Grows, AddSocketTo, AddTimedTo;
    match a
    case AddSocket(h, read, write) => AddSocketTame(s, w, h, read, write, horizon);
    case AddTimer(delay, every) => AddTimedTame(s, w, Timer, MsToNs(delay), MsToNs(every), horizon);
    case AddProcess(every) => AddTimedTame(s, w, Process, 0, MsToNs(if every == 0 then 10 else every), horizon);
    case AddFile(every) => AddTimedTame(s, w, File, 0, MsToNs(if every == 0 then 100 else every), horizon);
    case Remove(p) =>
    case Stop =>
  }

  lemma {:induction false} ReactTame(s: Loop, w: World, actions: seq<Action>, horizon: nat)
    requires Core(s.mem) && Tame(s, horizon) && forall i :: 0 <= i < |actions| ==> Fits(actions[i], horizon)
    ensures Tame(React(s, w, actions), horizon)
    decreases |actions|
  {
    hide Core, Grows, Act, Tame, Fits;
    if actions != [] {
      ActTame(s, w, actions[0], horizon);
      ReactTame(Act(s, w, actions[0]).loop, w, actions[1..], horizon);
    }
  }

  lemma NoteTame(s: Loop, e: Event, horizon: nat)
    requires Tame(s, horizon) && CalmEvent(e, horizon)
    ensures Tame(Note(s, e), horizon) && Tame(Note(Tick(s), e), horizon)
  {
  }

  lemma DispatchTame(s: Loop, w: World, p: Ptr, flags: nat, now: U64, horizon: nat)
    requires Core(s.mem) && p in s.mem.heap && Tame(s, horizon) && NoWrap(w, horizon) && (flags == TIMER ==> now < horizon)
    ensures Tame(Dispatch(s, w, p, flags, now).loop, horizon)
  {
    hide Core, Grows, React, Tame;
    if s.mem.heap[p].active {
      var reaction := w.reaction(s.step);
      var e := Fired(p, flags, now, reaction.result);
      NoteTame(s, e, horizon);
      if !s.mem.heap[p].internal {
        ReactTame(Note(Tick(s), e), w, reaction.actions, horizon);
      }
    }
  }

  /** A service hangs only in a repeating timer whose reschedule loop never leaves. */
  lemma HangsOnlyIf(s: Loop, w: World, p: Ptr, now: U64)
    requires Core(s.mem) && p in s.mem.heap && Due(s.mem, p, now)
    ensures var src := s.mem.heap[p];
            Serve(s, w, p, now).outcome.Hung? ==> src.kind.Timer? && 0 < src.interval && !Ends(src.due, src.interval, now)
  {
    hide BackendAgrees, Distinct, Dispatch, Ends, ServeProcess, ServeFile;
    var t := Note(s, Turn(p, now));
    assert p != NULL;
    if s.mem.heap[p].kind.Timer? {
      var d := Dispatch(t, w, p, TIMER, now);
      assert d.loop.mem.heap[p].active ==> d.loop.mem.heap[p] == s.mem.heap[p];
    }
  }

  lemma SettledTame(d: Loop, r: Passed, p: Ptr, code: int, horizon: nat)
    requires Settled(d, r, p, code) && !r.outcome.Hung? && Tame(d, horizon)
    ensures Tame(r.loop, horizon)
  {
    hide Grows;
  }

  lemma ServeTame(s: Loop, w: World, p: Ptr, now: U64, horizon: nat)
    requires Core(s.mem) && p in s.mem.heap && Due(s.mem, p, now)
    requires Tame(s, horizon) && NoWrap(w, horizon) && now < horizon
    ensures Tame(Serve(s, w, p, now).loop, horizon) && !Serve(s, w, p, now).outcome.Hung?
  {
    assert s.mem.heap[p].kind.Timer? && 0 < s.mem.heap[p].interval ==> Ends(s.mem.heap[p].due, s.mem.heap[p].interval, now) by {
      if s.mem.heap[p].kind.Timer? && 0 < s.mem.heap[p].interval {
        FitsEnds(s.mem.heap[p].due, s.mem.heap[p].interval, now, horizon);
      }
    }
    hide Core, Grows, Dispatch, Serve, PlanOf, Settled, NoWrap, Tame, Ends;
    HangsOnlyIf(s, w, p, now);
    ServeShape(s, w, p, now);
    var t, served := BeforeCallback(s, w, p, now), Serve(s, w, p, now);
    NoteTame(s, Turn(p, now), horizon);
    var s0 := Note(s, Turn(p, now));
    NoteTame(s0, Polled(p, now, PlanOf(s, w, p).Firing?), horizon);
    match PlanOf(s, w, p)
    case Faulting(code) => NoteTame(s0, Faulted(code), horizon);
    case Plain => SettledTame(t, served, p, 0, horizon);
    case Firing(flags) =>
      DispatchTame(t, w, p, flags, now, horizon);
      var d := Dispatch(t, w, p, flags, now);
      SettledTame(d.loop, served, p, d.code, horizon);
  }

  lemma {:induction false} PassTame(s: Loop, w: World, now: U64, i: nat, budget: nat, horizon: nat)
    requires Core(s.mem) && Tame(s, horizon) && NoWrap(w, horizon) && now < horizon
    ensures Tame(Pass(s, w, now, i, budget).loop, horizon) && !Pass(s, w, now, i, budget).outcome.Hung?
    decreases budget, |s.mem.list| - i
  {
    hide Serve, BackendAgrees, Distinct, NoWrap, Grows, WakeFirst, Tame;
    if i < |s.mem.list| {
      var p := s.mem.list[i];
      if !Due(s.mem, p, now) {
        PassTame(s, w, now, i + 1, budget, horizon);
      } else if budget > 0 {
        ServeTame(s, w, p, now, horizon);
        var served := Serve(s, w, p, now);
        if served.outcome == Finished(0) {
          PassTame(served.loop, w, now, i + 1, budget - 1, horizon);
        }
      }
    }
  }

  lemma TimerPhaseTame(s: Loop, w: World, budget: nat, horizon: nat)
    requires Core(s.mem) && Tame(s, horizon) && NoWrap(w, horizon)
    ensures Tame(TimerPhase(s, w, budget).loop, horizon) && !TimerPhase(s, w, budget).outcome.Hung?
  {
    hide Core, Pass;
    match w.clock(s.step)
    case ClockError(code) => NoteTame(s, Faulted(code), horizon);
    case Reading(now) =>
      NoteTame(s, PassBegun(s.step, |s.mem.list|), horizon);
      PassTame(Begun(s), w, now, 0, budget, horizon);
  }

  lemma {:induction false} BatchTame(s: Loop, w: World, batch: seq<(Ptr, Readiness)>, horizon: nat)
    requires Core(s.mem) && Allocated(s.mem, batch) && Tame(s, horizon) && NoWrap(w, horizon)
    ensures Tame(Batch(s, w, batch).loop, horizon)
    decreases |batch|
  {
    hide Core, Batch, Dispatch, Grows, NoWrap, Tame;
    assert batch[0..] == batch;
    if batch == [] {
      EmptyBatch(s, w);
    } else {
      BatchStep(s, w, batch, 0);
      var p, flags := batch[0].0, FlagsOf(batch[0].1);
      DispatchTame(s, w, p, flags, 0, horizon);
      var d := if s.mem.heap[p].active && flags != 0 then Dispatch(s, w, p, flags, 0) else Reply(s, 0);
      if d.code == 0 {
        BatchTame(d.loop, w, batch[1..], horizon);
      }
    }
  }

  lemma WaitPhaseTame(s: Loop, w: World, timeout: int, horizon: nat)
    requires Core(s.mem) && Tame(s, horizon) && NoWrap(w, horizon)
    ensures Tame(WaitPhase(s, w, timeout).loop, horizon)
  {
    hide Batch, NoWrap;
    NoteTame(s, WaitBegun(s.step, timeout), horizon);
    match w.wait(s.step, timeout)
    case WaitError(code) => NoteTame(Entered(s, timeout), Faulted(code), horizon);
    case Interrupted =>
    case Ready(raw) => BatchTame(Entered(s, timeout), w, Truncated(Select(s.mem.registry, raw)), horizon);
  }

  lemma CompactTame(s: Loop, horizon: nat)
    requires Core(s.mem) && Tame(s, horizon)
    ensures Tame(Compact(s), horizon)
  {
    hide Core, WakeFirst;
  }

  /**
   In a world without wrap, a timer pass whose callbacks add nothing that is due at
   its clock reading ends within one service and one callback per source listed at
   its start, and serves only those.
   */
  lemma TimerPhaseEnds(s: Loop, w: World, horizon: nat)
    requires Core(s.mem) && NoWrap(w, horizon) && Tame(s, horizon)
    requires w.clock(s.step).Reading? ==> Punctual(w, w.clock(s.step).ns, s.step + 1)
    ensures var r := TimerPhase(s, w, |s.mem.list|);
            && r.outcome.Finished?
            && |Since(r.loop.log, |s.log|).fired| <= |s.mem.list|
            && forall x :: |s.log| <= x < |r.loop.log| && r.loop.log[x].Turn? ==> r.loop.log[x].p in s.mem.list
  {
    hide Core, Pass, NoWrap, Tame, Later;
    TimerPhaseTame(s, w, |s.mem.list|, horizon);
    if w.clock(s.step).Reading? {
      var now, n := w.clock(s.step).ns, |s.mem.list|;
      assert s.mem.list[..n] == s.mem.list;
      SinceSnoc(s.log, PassBegun(s.step, n), |s.log|);
      PassFinishes(Begun(s), w, now, 0, n, n);
      PassDigest(Begun(s), w, now, 0, n, |s.log|);
    }
  }
}
