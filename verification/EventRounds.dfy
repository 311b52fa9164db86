/**
 Whole runs and whole sessions.  Three things are carried through them together:
 every history stays unbroken, a calm world stays calm, and the log has the verdict
 that goes with the outcome.
 */
module EventRounds {
  import opened EventModel
  import opened EventRun
  import opened EventOutcome
  import opened EventCalm
  import opened EventAudit
  import opened EventHistory

  /** What a stretch from `s` to `r` that ends with `outcome` keeps. */
  ghost predicate Preserves(s: Loop, r: Loop, w: World, horizon: nat, from: nat, outcome: Outcome) {
    && (Audited(s, NULL) ==> Audited(r, NULL))
    && (Tame(s, horizon) && NoWrap(w, horizon) ==> Tame(r, horizon) && !outcome.Hung?)
    && Reports(s, r, from, outcome)
  }

  lemma PreservesTransitive(s: Loop, t: Loop, r: Loop, w: World, horizon: nat, from: nat, outcome: Outcome)
    requires Preserves(s, t, w, horizon, from, Finished(0)) && Preserves(t, r, w, horizon, from, outcome) && s.log <= t.log
    ensures Preserves(s, r, w, horizon, from, outcome)
  {
    hide AuditedIn, CalmLog, Sturdy, NoWrap, Since;
  }

  /** Steps that only read the clock or the stop flag. */
  lemma StepPreserves(s: Loop, r: Loop, w: World, horizon: nat, from: nat, outcome: Outcome)
    requires r.mem == s.mem && r.log == s.log && VerdictOf(outcome).Clean?
    ensures Preserves(s, r, w, horizon, from, outcome)
  {
    hide NoWrap, Since;
  }

  lemma FaultPreserves(s: Loop, w: World, code: Errno, horizon: nat, from: nat)
    requires Core(s.mem)
    ensures Preserves(s, Fault(s, code), w, horizon, from, Finished(code))
  {
    hide Core, AuditedIn, CalmLog, Sturdy, NoWrap, Since;
    FaultReports(s, code, from);
    if Audited(s, NULL) { FaultAudited(s, code); }
    if Tame(s, horizon) { NoteTame(s, Faulted(code), horizon); }
  }

  lemma TimerPhasePreserves(s: Loop, w: World, budget: nat, horizon: nat, from: nat)
    requires Core(s.mem)
    ensures var r := TimerPhase(s, w, budget); Preserves(s, r.loop, w, horizon, from, r.outcome)
  {
    hide Core, TimerPhase, AuditedIn, CalmLog, Sturdy, NoWrap, Since;
    TimerPhaseReports(s, w, budget, from);
    if Audited(s, NULL) { TimerPhaseAudited(s, w, budget); }
    if Tame(s, horizon) && NoWrap(w, horizon) { TimerPhaseTame(s, w, budget, horizon); }
  }

  lemma WaitPhasePreserves(s: Loop, w: World, timeout: int, horizon: nat, from: nat)
    requires Core(s.mem)
    ensures var r := WaitPhase(s, w, timeout); Preserves(s, r.loop, w, horizon, from, Finished(r.code))
  {
    hide Core, WaitPhase, AuditedIn, CalmLog, Sturdy, NoWrap, Since;
    WaitPhaseReports(s, w, timeout, from);
    if Audited(s, NULL) { WaitPhaseAudited(s, w, timeout); }
    if Tame(s, horizon) && NoWrap(w, horizon) { WaitPhaseTame(s, w, timeout, horizon); }
  }

  lemma CompactPreserves(s: Loop, w: World, horizon: nat, from: nat)
    requires Core(s.mem)
    ensures Preserves(s, Compact(s), w, horizon, from, Finished(0))
  {
    hide Core, Compact, AuditedIn, CalmLog, Sturdy, NoWrap, Since;
    if from <= |s.log| { CompactReports(s, from); }
    if Audited(s, NULL) { CompactAudited(s); }
    if Tame(s, horizon) { CompactTame(s, horizon); }
  }

  // --------------------------------------------------------------------- rounds

  function OutcomeOf(f: Flow): Outcome {
    if f.Leave? then f.outcome else Finished(0)
  }

  lemma AfterWaitPreserves(s: Loop, w: World, budget: nat -> nat, horizon: nat, from: nat)
    requires Inv(s.mem)
    ensures var r := AfterWait(s, w, budget); Preserves(s, r.loop, w, horizon, from, OutcomeOf(r.flow))
  {
    hide Core, WakeFirst, Preserves, Compact, TimerPhase;
    var t := TimerPhase(s, w, budget(|s.mem.list|));
    TimerPhasePreserves(s, w, budget(|s.mem.list|), horizon, from);
    if t.outcome == Finished(0) {
      CompactPreserves(t.loop, w, horizon, from);
      PreservesTransitive(s, t.loop, Compact(t.loop), w, horizon, from, Finished(0));
    }
  }

  lemma WaitHalfPreserves(s: Loop, w: World, timeout: int, budget: nat -> nat, horizon: nat, from: nat)
    requires Inv(s.mem)
    ensures var r := WaitHalf(s, w, timeout, budget); Preserves(s, r.loop, w, horizon, from, OutcomeOf(r.flow))
  {
    hide Core, WakeFirst, Preserves, WaitPhase, AfterWait, Grows;
    var waited := WaitPhase(s, w, timeout);
    WaitPhasePreserves(s, w, timeout, horizon, from);
    GrowsKeepsWake(s.mem, waited.loop.mem, NULL);
    if waited.code == 0 {
      AfterWaitPreserves(waited.loop, w, budget, horizon, from);
      var r := AfterWait(waited.loop, w, budget);
      PreservesTransitive(s, waited.loop, r.loop, w, horizon, from, OutcomeOf(r.flow));
    }
  }

  /** The part of a round from the timeout's clock reading on. */
  lemma ClockPreserves(s: Loop, w: World, budget: nat -> nat, horizon: nat, from: nat)
    requires Inv(s.mem)
    ensures match w.clock(s.step)
            case ClockError(code) => Preserves(s, Fault(s, code), w, horizon, from, Finished(code))
            case Reading(now) =>
              var r := WaitHalf(Tick(s), w, Timeout(s.mem, now), budget);
              Preserves(s, r.loop, w, horizon, from, OutcomeOf(r.flow))
  {
    hide Core, WakeFirst, Preserves, WaitHalf, Timeout;
    match w.clock(s.step)
    case ClockError(code) => FaultPreserves(s, w, code, horizon, from);
    case Reading(now) =>
      var r := WaitHalf(Tick(s), w, Timeout(s.mem, now), budget);
      StepPreserves(s, Tick(s), w, horizon, from, Finished(0));
      WaitHalfPreserves(Tick(s), w, Timeout(s.mem, now), budget, horizon, from);
      PreservesTransitive(s, Tick(s), r.loop, w, horizon, from, OutcomeOf(r.flow));
  }

  lemma AfterPassPreserves(s: Loop, w: World, budget: nat -> nat, horizon: nat, from: nat)
    requires Inv(s.mem)
    ensures var r := AfterPass(s, w, budget); Preserves(s, r.loop, w, horizon, from, OutcomeOf(r.flow))
  {
    hide Core, WakeFirst, Preserves, Compact, WaitHalf, Timeout, Deserted;
    var s1, r := ReadStop(s, w), AfterPass(s, w, budget);
    StepPreserves(s, s1, w, horizon, from, Finished(0));
    if !s1.stop {
      var s2 := Compact(s1);
      CompactPreserves(s1, w, horizon, from);
      PreservesTransitive(s, s1, s2, w, horizon, from, Finished(0));
      if !Deserted(s2.mem) {
        ClockPreserves(s2, w, budget, horizon, from);
        PreservesTransitive(s, s2, r.loop, w, horizon, from, OutcomeOf(r.flow));
      }
    }
  }

  lemma OneRoundPreserves(s: Loop, w: World, budget: nat -> nat, horizon: nat, from: nat)
    requires Inv(s.mem)
    ensures var r := OneRound(s, w, budget); Preserves(s, r.loop, w, horizon, from, OutcomeOf(r.flow))
  {
    hide Core, WakeFirst, Preserves, TimerPhase, AfterPass;
    var t, r := TimerPhase(s, w, budget(|s.mem.list|)), OneRound(s, w, budget);
    TimerPhasePreserves(s, w, budget(|s.mem.list|), horizon, from);
    if t.outcome == Finished(0) {
      AfterPassPreserves(t.loop, w, budget, horizon, from);
      PreservesTransitive(s, t.loop, r.loop, w, horizon, from, OutcomeOf(r.flow));
    }
  }

  lemma {:induction false} RoundsPreserve(s: Loop, w: World, rounds: nat, budget: nat -> nat, horizon: nat, from: nat)
    requires Inv(s.mem)
    ensures var r := Rounds(s, w, rounds, budget); Preserves(s, r.loop, w, horizon, from, r.outcome)
    decreases rounds
  {
    hide Core, WakeFirst, Preserves, OneRound, Deserted;
    var s1, r := ReadStop(s, w), Rounds(s, w, rounds, budget);
    StepPreserves(s, s1, w, horizon, from, Finished(0));
    StepPreserves(s, s1, w, horizon, from, Unfinished);
    if !s1.stop && !Deserted(s1.mem) && rounds > 0 {
      var round := OneRound(s1, w, budget);
      OneRoundPreserves(s1, w, budget, horizon, from);
      PreservesTransitive(s, s1, round.loop, w, horizon, from, OutcomeOf(round.flow));
      if round.flow.Continue? {
        RoundsPreserve(round.loop, w, rounds - 1, budget, horizon, from);
        PreservesTransitive(s, round.loop, r.loop, w, horizon, from, r.outcome);
      }
    }
  }

  lemma RunPreserves(s: Loop, w: World, rounds: nat, budget: nat -> nat, horizon: nat, from: nat)
    requires Inv(s.mem)
    ensures var r := Run(s, w, rounds, budget); Preserves(s, r.loop, w, horizon, from, r.outcome)
  {
    hide Core, WakeFirst, Preserves, Rounds;
    var t, r := s.(stop := false), Run(s, w, rounds, budget);
    StepPreserves(s, t, w, horizon, from, Finished(0));
    RoundsPreserve(t, w, rounds, budget, horizon, from);
    PreservesTransitive(s, t, r.loop, w, horizon, from, r.outcome);
  }

  // ----------------------------------------------------------------- run outcome

  ghost predicate NobodyLeft(m: Mem) {
    forall i :: 0 <= i < |m.list| ==> m.list[i] in m.heap && (!m.heap[m.list[i]].active || m.heap[m.list[i]].internal)
  }

  /**
   What the result of a run means.  Zero: a stop was requested or no active user
   source is left, and no callback or primitive failed.  Non-zero: it is the first
   error that occurred, and nothing was polled or dispatched after it.
   */
  lemma RunOutcome(s: Loop, w: World, rounds: nat, budget: nat -> nat)
    requires Inv(s.mem)
    ensures var r := Run(s, w, rounds, budget);
            && Since(r.loop.log, |s.log|).verdict == VerdictOf(r.outcome)
            && (r.outcome == Finished(0) ==> r.loop.stop || NobodyLeft(r.loop.mem))
  {
    hide BackendAgrees, Distinct, WakeFirst, Rounds;
    RunPreserves(s, w, rounds, budget, 0, |s.log|);
    var m := Run(s, w, rounds, budget).loop.mem;
    NobodyActiveIff(m, |m.list|);
  }

  lemma DesertedIff(m: Mem)
    requires Core(m)
    ensures Deserted(m) <==> NobodyLeft(m)
  {
    hide BackendAgrees, Distinct;
    NobodyActiveIff(m, |m.list|);
  }

  /** At the top of a round, a stop request or the lack of active user sources ends the run with 0 and nothing more happens. */
  lemma LeavesAtTheTop(s: Loop, w: World, rounds: nat, budget: nat -> nat)
    requires Inv(s.mem) && (s.stop || w.cancelled(s.step) || NobodyLeft(s.mem))
    ensures var r := Rounds(s, w, rounds, budget);
            r.outcome == Finished(0) && r.loop.mem == s.mem && r.loop.log == s.log
  {
    hide Core, WakeFirst, OneRound, Deserted;
    DesertedIff(s.mem);
  }

  /** After an error-free first pass, a stop request ends the run with 0 before anything is freed, polled or called. */
  lemma LeavesAfterThePass(s: Loop, w: World, budget: nat -> nat)
    requires Inv(s.mem) && (s.stop || w.cancelled(s.step))
    ensures var r := AfterPass(s, w, budget);
            r.flow == Leave(Finished(0)) && r.loop.mem == s.mem && r.loop.log == s.log
  {
    hide Core, WakeFirst, Compact, WaitHalf;
  }

  /** Without active user sources it ends as well, once the inactive ones have been freed. */
  lemma LeavesWhenDeserted(s: Loop, w: World, budget: nat -> nat)
    requires Inv(s.mem) && NobodyLeft(s.mem)
    ensures var r := AfterPass(s, w, budget);
            r.flow == Leave(Finished(0)) && forall x :: |s.log| <= x < |r.loop.log| ==> r.loop.log[x].Freed?
  {
    hide WakeFirst, WaitHalf, BackendAgrees;
    var m := Compacted(s.mem);
    DesertedIff(m);
  }

  /** A run that finds neither begins with a timer pass or a failing clock, even if an earlier run had been stopped. */
  lemma RunBegins(s: Loop, w: World, rounds: nat, budget: nat -> nat)
    requires Inv(s.mem) && !w.cancelled(s.step) && !NobodyLeft(s.mem) && 0 < rounds
    ensures var log := Run(s, w, rounds, budget).loop.log;
            && s.log < log
            && if w.clock(s.step + 1).Reading? then log[|s.log|] == PassBegun(s.step + 1, |s.mem.list|)
               else log[|s.log|].Faulted?
  {
    hide Core, WakeFirst, Pass, AfterPass, Deserted, Rounds;
    DesertedIff(s.mem);
    var s1 := ReadStop(s.(stop := false), w);
    var t, round := TimerPhase(s1, w, budget(|s.mem.list|)), OneRound(s1, w, budget);
    assert Begun(s1).log <= t.loop.log || t.loop == Fault(s1, w.clock(s1.step).code);
    assert t.loop.log <= round.loop.log;
    FirstRound(s, w, rounds, budget);
  }

  lemma FirstRound(s: Loop, w: World, rounds: nat, budget: nat -> nat)
    requires Inv(s.mem) && !w.cancelled(s.step) && !Deserted(s.mem) && 0 < rounds
    ensures OneRound(ReadStop(s.(stop := false), w), w, budget).loop.log <= Run(s, w, rounds, budget).loop.log
  {
    hide Core, WakeFirst, OneRound, Deserted;
  }

  /** A round that completes leaves no inactive source in the list. */
  lemma RoundsCompact(s: Loop, w: World, budget: nat -> nat)
    requires Inv(s.mem)
    ensures var r := OneRound(s, w, budget);
            r.flow.Continue? ==>
              forall i :: 0 <= i < |r.loop.mem.list| ==>
                r.loop.mem.list[i] in r.loop.mem.heap && r.loop.mem.heap[r.loop.mem.list[i]].active
  {
    hide WakeFirst, BackendAgrees, Distinct, TimerPhase, WaitPhase, Deserted, Timeout, Grows;
  }

  // -------------------------------------------------------------------- sessions

  lemma {:induction false} SessionAudited(s: Loop, w: World, calls: seq<Call>)
    requires Inv(s.mem) && Audited(s, NULL)
    ensures Audited(Session(s, w, calls), NULL)
    decreases |calls|
  {
    hide Core, WakeFirst, AuditedIn, CalmLog, Sturdy, NoWrap, Act, Run;
    if calls != [] {
      var r := Perform(s, w, calls[0]);
      match calls[0] {
        case Outside(a) => ActAudited(s, w, a, NULL);
        case Running(rounds, budget) => RunPreserves(s, w, rounds, budget, 0, 0);
      }
      if !r.outcome.Hung? {
        SessionAudited(r.loop, w, calls[1..]);
      }
    }
  }

  /** Every timer that the owner adds from outside fits. */
  predicate CallsFit(calls: seq<Call>, horizon: nat) {
    forall i :: 0 <= i < |calls| && calls[i].Outside? ==> Fits(calls[i].action, horizon)
  }

  /** In a world without wrap, a session whose timers fit never hangs and logs calm events only. */
  lemma {:induction false} SessionTame(s: Loop, w: World, calls: seq<Call>, horizon: nat)
    requires Inv(s.mem) && Tame(s, horizon) && NoWrap(w, horizon) && CallsFit(calls, horizon)
    ensures Tame(Session(s, w, calls), horizon)
    decreases |calls|
  {
    hide Core, WakeFirst, AuditedIn, CalmLog, Sturdy, NoWrap, Act, Run;
    if calls != [] {
      var r := Perform(s, w, calls[0]);
      match calls[0] {
        case Outside(a) => ActTame(s, w, a, horizon);
        case Running(rounds, budget) => RunPreserves(s, w, rounds, budget, horizon, 0);
      }
      SessionTame(r.loop, w, calls[1..], horizon);
    }
  }
}
