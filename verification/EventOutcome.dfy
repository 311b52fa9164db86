/**
 A digest of what a run did: how many callbacks ran, and the first error.  From it
 follows what timer passes and waits report.  Besides, the progress of a wait.
 */
module EventOutcome {
  import opened Limits
  import opened Timing
  import opened EventModel
  import opened EventRun
  import opened EventTrace
  import opened EventService
  import opened EventFairness

  datatype Verdict = Clean | Failed(code: int) | Spinning | Noise

  /** Callbacks with their flags, and errors. */
  datatype Digest = Digest(fired: seq<(Ptr, nat)>, verdict: Verdict)

  /** After the first error, or a reschedule that never ends, any further work of the loop is noise. */
  function Judge(v: Verdict, code: int): Verdict {
    if !v.Clean? then Noise else if code == 0 then Clean else Failed(code)
  }

  /** The verdict that goes with an outcome; a bound that was reached is no error. */
  function VerdictOf(o: Outcome): Verdict {
    match o
    case Finished(code) => Judge(Clean, code)
    case Unfinished => Clean
    case Hung => Spinning
  }

  function Fold(d: Digest, e: Event): Digest {
    match e
    case Turn(_, _) => d.(verdict := Judge(d.verdict, 0))
    case PassBegun(_, _) => d.(verdict := Judge(d.verdict, 0))
    case WaitBegun(_, _) => d.(verdict := Judge(d.verdict, 0))
    case Polled(_, _, _) => d.(verdict := Judge(d.verdict, 0))
    case Fired(p, flags, _, result) => d.(fired := d.fired + [(p, flags)], verdict := Judge(d.verdict, result))
    case Faulted(code) => d.(verdict := Judge(d.verdict, code))
    case Spun(_) => d.(verdict := if d.verdict.Clean? then Spinning else Noise)
    case _ => d
  }

  /** The digest of the part of the log from position `from` on. */
  function Since(log: seq<Event>, from: nat): Digest {
    if |log| <= from then Digest([], Clean)
    else Fold(Since(log[..|log| - 1], from), log[|log| - 1])
  }

  lemma SinceSnoc(log: seq<Event>, e: Event, from: nat)
    requires from <= |log|
    ensures Since(log + [e], from) == Fold(Since(log, from), e)
  {
    assert (log + [e])[..|log|] == log;
  }

  lemma {:induction false} SinceQuiet(log: seq<Event>, log': seq<Event>, from: nat)
    requires from <= |log| && log <= log'
    requires forall i :: |log| <= i < |log'| ==> Neutral(log'[i]) || log'[i].Rearmed?
    ensures Since(log', from) == Since(log, from)
  {
    if |log'| == |log| {
      assert log' == log;
    } else {
      var n := |log'| - 1;
      SinceQuiet(log, log'[..n], from);
    }
  }

  function After(d: Digest, code: int): Digest {
    d.(verdict := Judge(d.verdict, code))
  }

  lemma DispatchDigest(s: Loop, w: World, p: Ptr, flags: nat, now: U64, from: nat)
    requires Core(s.mem) && p in s.mem.heap && s.mem.heap[p].active && from <= |s.log|
    ensures var d := Dispatch(s, w, p, flags, now);
            Since(d.loop.log, from) == After(Since(s.log, from), d.code).(fired := Since(s.log, from).fired + [(p, flags)])
  {
    hide Core, Grows;
    var reaction := w.reaction(s.step);
    var e := Fired(p, flags, now, reaction.result);
    var s1 := Note(Tick(s), e);
    SinceSnoc(s.log, e, from);
    if !s.mem.heap[p].internal {
      ReactQuiet(s1, w, reaction.actions);
      SinceQuiet(s1.log, React(s1, w, reaction.actions).log, from);
    }
  }

  /** A service runs at most one callback, and reports the error if there is one. */
  ghost predicate Serviced(before: Digest, after: Digest, outcome: Outcome) {
    && after.verdict == VerdictOf(outcome)
    && |before.fired| <= |after.fired| <= |before.fired| + 1
  }

  lemma TurnDigest(s: Loop, w: World, p: Ptr, now: U64, from: nat)
    requires p in s.mem.heap && from <= |s.log| && Since(s.log, from).verdict.Clean?
    ensures Since(s.log + [Turn(p, now)], from) == Since(s.log, from)
    ensures Since(BeforeCallback(s, w, p, now).log, from) == Since(s.log + [Turn(p, now)], from)
    ensures from <= |BeforeCallback(s, w, p, now).log|
  {
    hide Since;
    SinceSnoc(s.log, Turn(p, now), from);
    if !s.mem.heap[p].kind.Timer? {
      SinceSnoc(s.log + [Turn(p, now)], Polled(p, now, PlanOf(s, w, p).Firing?), from);
    }
  }

  lemma ServeDigest(s: Loop, w: World, p: Ptr, now: U64, from: nat)
    requires Core(s.mem) && p in s.mem.heap && Due(s.mem, p, now) && from <= |s.log|
    requires Since(s.log, from).verdict.Clean?
    ensures Serviced(Since(s.log, from), Since(Serve(s, w, p, now).loop.log, from), Serve(s, w, p, now).outcome)
  {
    hide Core, Grows, Dispatch, Serve, Since, PlanOf, BeforeCallback;
    ServeShape(s, w, p, now);
    TurnDigest(s, w, p, now, from);
    var t := BeforeCallback(s, w, p, now);
    var r := Serve(s, w, p, now).loop;
    match PlanOf(s, w, p)
    case Faulting(code) => SinceSnoc(s.log + [Turn(p, now)], Faulted(code), from);
    case Plain => SinceQuiet(t.log, r.log, from);
    case Firing(flags) =>
      DispatchDigest(t, w, p, flags, now, from);
      var d := Dispatch(t, w, p, flags, now).loop;
      if Serve(s, w, p, now).outcome.Hung? {
        SinceSnoc(d.log, Spun(p), from);
      } else {
        SinceQuiet(d.log, r.log, from);
      }
  }

  // ------------------------------------------------------------- the timer pass

  /** A pass runs at most one callback per unit of budget and stops at the first error, reporting it. */
  lemma {:induction false} PassDigest(s: Loop, w: World, now: U64, i: nat, budget: nat, from: nat)
    requires Core(s.mem) && from <= |s.log| && Since(s.log, from).verdict.Clean?
    ensures var r := Pass(s, w, now, i, budget);
            && Since(r.loop.log, from).verdict == VerdictOf(r.outcome)
            && |Since(s.log, from).fired| <= |Since(r.loop.log, from).fired| <= |Since(s.log, from).fired| + budget
    decreases budget, |s.mem.list| - i
  {
    hide Serve, BackendAgrees, Distinct, Grows;
    if i < |s.mem.list| {
      var p := s.mem.list[i];
      if !Due(s.mem, p, now) {
        PassDigest(s, w, now, i + 1, budget, from);
      } else if budget > 0 {
        ServeDigest(s, w, p, now, from);
        var served := Serve(s, w, p, now);
        if served.outcome == Finished(0) {
          PassDigest(served.loop, w, now, i + 1, budget - 1, from);
        }
      }
    }
  }

  // ------------------------------------------------------------------- progress

  /** `Nearest` in words: absent, due, or the least distance of the timed sources. */
  lemma {:induction false} NearestMeans(m: Mem, now: nat, n: nat)
    requires Core(m) && n <= |m.list|
    ensures Nearest(m, now, n) == -1 <==> forall i :: 0 <= i < n ==> !m.heap[m.list[i]].Timed()
    ensures Nearest(m, now, n) == 0 <==> exists i :: 0 <= i < n && Due(m, m.list[i], now)
    ensures 0 < Nearest(m, now, n) ==>
      && (exists i :: 0 <= i < n && m.heap[m.list[i]].Timed() && m.heap[m.list[i]].due == now + Nearest(m, now, n))
      && (forall i :: 0 <= i < n && m.heap[m.list[i]].Timed() ==> now + Nearest(m, now, n) <= m.heap[m.list[i]].due)
  {
    hide BackendAgrees, Distinct;
    if n != 0 {
      NearestMeans(m, now, n - 1);
      assert m.list[n - 1] in m.heap;
    }
  }

  /**
   The timeout is absent exactly when nothing is timed and 0 when something is due.
   Otherwise it is the right one for the earliest due time exactly when adding
   999999 does not wrap; when it does wrap it is 0 although nothing is due.
   */
  lemma TimeoutMeans(m: Mem, now: nat)
    requires Core(m)
    ensures Timeout(m, now) == -1 <==> forall i :: 0 <= i < |m.list| ==> !m.heap[m.list[i]].Timed()
    ensures (exists i :: 0 <= i < |m.list| && Due(m, m.list[i], now)) ==> Timeout(m, now) == 0
    ensures 0 < Nearest(m, now, |m.list|) ==>
              (RightTimeout(Nearest(m, now, |m.list|), Timeout(m, now)) <==> Nearest(m, now, |m.list|) + 999_999 < TWO64)
    ensures 0 < Nearest(m, now, |m.list|) ==>
              (Timeout(m, now) == 0 <==> Nearest(m, now, |m.list|) + 999_999 >= TWO64)
  {
    hide BackendAgrees, Distinct;
    NearestMeans(m, now, |m.list|);
    var d := Nearest(m, now, |m.list|);
    if 0 < d {
      RoundUpRightIff(d);
    }
  }

  /** The first thing from `s` to `r` is the turn of a source that was due at `now`, and it is acted upon. */
  ghost predicate ServesSomebody(s: Loop, r: Loop, now: U64) {
    && |s.log| < |r.log| && r.log[|s.log|].Turn? && TurnActs(r, |s.log|)
    && var p := r.log[|s.log|].p; p in s.mem.heap && Due(s.mem, p, now)
  }

  /** If something is due, a pass with any budget serves somebody. */
  lemma {:induction false} PassServesSomebody(s: Loop, w: World, now: U64, i: nat, budget: nat)
    requires Core(s.mem) && 0 < budget
    requires exists j :: i <= j < |s.mem.list| && Due(s.mem, s.mem.list[j], now)
    ensures ServesSomebody(s, Pass(s, w, now, i, budget).loop, now)
    decreases |s.mem.list| - i
  {
    hide Serve, BackendAgrees, Distinct, Grows, TurnActs, TurnsAct, KindsKept, WakeFirst;
    var p := s.mem.list[i];
    if !Due(s.mem, p, now) {
      PassServesSomebody(s, w, now, i + 1, budget);
    } else {
      ServeActs(s, w, p, now);
      var t := Serve(s, w, p, now);
      if t.outcome == Finished(0) {
        PassActs(t.loop, w, now, i + 1, budget - 1);
        TurnStillActs(t.loop, Pass(t.loop, w, now, i + 1, budget - 1).loop, |s.log|);
      }
    }
  }

  /** The wait used the timeout computed at `now`, reported no socket, and the clock says it ran its course. */
  ghost predicate TimedOut(s: Loop, w: World, now: U64, later: U64)
    requires Core(s.mem)
  {
    var ms := Timeout(s.mem, now);
    && 0 <= ms && Nearest(s.mem, now, |s.mem.list|) <= INT_MAX * NS_PER_MS
    && w.wait(s.step, ms) == Ready([])
    && w.clock(s.step + 1) == Reading(later)
    && now + ms * NS_PER_MS <= later
  }

  /** A wait that expires without a socket event makes the timer pass after it poll or call at least one due source. */
  lemma ExpiredWaitServes(s: Loop, w: World, now: U64, later: U64, budget: nat)
    requires Core(s.mem) && TimedOut(s, w, now, later) && 0 < budget
    ensures var waited := WaitPhase(s, w, Timeout(s.mem, now)).loop;
            ServesSomebody(Begun(waited), TimerPhase(waited, w, budget).loop, later)
  {
    hide BackendAgrees, Distinct, Nearest, Pass, TurnActs;
    NearestMeans(s.mem, now, |s.mem.list|);
    var d := Nearest(s.mem, now, |s.mem.list|);
    RoundUpCovers(d);
    var waited := Entered(s, Timeout(s.mem, now));
    EmptyBatch(waited, w);
    assert WaitPhase(s, w, Timeout(s.mem, now)).loop == waited;
    assert exists j :: 0 <= j < |s.mem.list| && Due(s.mem, s.mem.list[j], later);
    PassServesSomebody(Begun(waited), w, later, 0, budget);
  }

  lemma RoundUpCovers(delta: nat)
    requires delta <= INT_MAX * NS_PER_MS
    ensures delta <= RoundUpMs(delta) * NS_PER_MS
  {
    RoundUpRightIff(delta);
  }

  // ---------------------------------------------------------------- run outcome

  /** From a clean log, what follows has the verdict of `outcome`: clean, or ending with the error and nothing after it. */
  ghost predicate Reports(s: Loop, r: Loop, from: nat, outcome: Outcome) {
    from <= |s.log| && Since(s.log, from).verdict.Clean? ==> Since(r.log, from).verdict == VerdictOf(outcome)
  }

  lemma {:induction false} BatchReports(s: Loop, w: World, batch: seq<(Ptr, Readiness)>, from: nat)
    requires Core(s.mem) && Allocated(s.mem, batch)
    ensures Reports(s, Batch(s, w, batch).loop, from, Finished(Batch(s, w, batch).code))
    decreases |batch|
  {
    hide Dispatch, BackendAgrees, Distinct, Since;
    if batch != [] && from <= |s.log| {
      var (p, readiness) := batch[0];
      var flags := FlagsOf(readiness);
      var go := s.mem.heap[p].active && flags != 0;
      if go {
        DispatchDigest(s, w, p, flags, 0, from);
      }
      var d := if go then Dispatch(s, w, p, flags, 0) else Reply(s, 0);
      if d.code == 0 {
        BatchReports(d.loop, w, batch[1..], from);
      }
    }
  }

  lemma FaultReports(s: Loop, code: Errno, from: nat)
    ensures Reports(s, Fault(s, code), from, Finished(code))
  {
    if from <= |s.log| {
      SinceSnoc(s.log, Faulted(code), from);
    }
  }

  lemma WaitPhaseReports(s: Loop, w: World, timeout: int, from: nat)
    requires Core(s.mem)
    ensures Reports(s, WaitPhase(s, w, timeout).loop, from, Finished(WaitPhase(s, w, timeout).code))
  {
    hide Since, Batch;
    var t := Entered(s, timeout);
    if from <= |s.log| {
      SinceSnoc(s.log, WaitBegun(s.step, timeout), from);
      match w.wait(s.step, timeout)
      case WaitError(code) => SinceSnoc(t.log, Faulted(code), from);
      case Interrupted =>
      case Ready(raw) => BatchReports(t, w, Truncated(Select(s.mem.registry, raw)), from);
    }
  }

  lemma TimerPhaseReports(s: Loop, w: World, budget: nat, from: nat)
    requires Core(s.mem)
    ensures Reports(s, TimerPhase(s, w, budget).loop, from, TimerPhase(s, w, budget).outcome)
  {
    hide Since, Pass, Core;
    if from <= |s.log| && Since(s.log, from).verdict.Clean? {
      match w.clock(s.step)
      case ClockError(code) => FaultReports(s, code, from);
      case Reading(now) =>
        SinceSnoc(s.log, PassBegun(s.step, |s.mem.list|), from);
        PassDigest(Begun(s), w, now, 0, budget, from);
    }
  }

  lemma CompactReports(s: Loop, from: nat)
    requires Core(s.mem) && from <= |s.log|
    ensures Since(Compact(s).log, from) == Since(s.log, from)
  {
    hide Core, Since, Compacted;
    SinceQuiet(s.log, Compact(s).log, from);
  }
}
