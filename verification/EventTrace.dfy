/**
 What callbacks and services leave in the log, and that a removed source falls
 silent for the rest of the batch or the pass.
 */
module EventTrace {
  import opened Timing
  import opened EventModel

  // ---------------------------------------------------------- callback actions

  /** The traces that the actions of a callback can leave. */
  predicate Neutral(e: Event) {
    e.Born? || e.Removed? || e.Freed? || e.Halted?
  }

  /** `r` extends the log by neutral events, none of them about a source that was already inactive. */
  ghost predicate Quiet(s: Loop, r: Loop) {
    && s.log <= r.log
    && forall i :: |s.log| <= i < |r.log| ==> Neutral(r.log[i]) && !Gone(s.mem, Subject(r.log[i]))
  }

  predicate Gone(m: Mem, p: Ptr) {
    p in m.heap && !m.heap[p].active
  }

  lemma AddSocketQuiet(s: Loop, w: World, handle: Handle, read: bool, write: bool)
    requires Core(s.mem)
    ensures Quiet(s, AddSocketTo(s, w, handle, read, write).loop)
  {
    hide Core, Grows, With, Doubled;
    var reserved := Reserve(s, w, |s.mem.list| + 1);
    assert reserved.loop.log == s.log && reserved.loop.mem.heap == s.mem.heap;
  }

  lemma AddTimedQuiet(s: Loop, w: World, kind: Kind, delay: U64, interval: U64)
    requires Core(s.mem) && !kind.Socket?
    ensures Quiet(s, AddTimedTo(s, w, kind, delay, interval).loop)
  {
    hide Core, Grows, With, Doubled, FirstDue;
    var reserved := Reserve(s, w, |s.mem.list| + 1);
    assert reserved.loop.log == s.log && reserved.loop.mem.heap == s.mem.heap;
  }

  lemma ActQuiet(s: Loop, w: World, a: Action)
    requires Core(s.mem)
    ensures Quiet(s, Act(s, w, a).loop)
  {
    assert NULL !in s.mem.heap;
    hide Core, Grows, AddSocketTo, AddTimedTo, Without;
    match a
    case AddSocket(h, read, write) => AddSocketQuiet(s, w, h, read, write);
    case AddTimer(delay, every) => AddTimedQuiet(s, w, Timer, MsToNs(delay), MsToNs(every));
    case AddProcess(every) => AddTimedQuiet(s, w, Process, 0, MsToNs(if every == 0 then 10 else every));
    case AddFile(every) => AddTimedQuiet(s, w, File, 0, MsToNs(if every == 0 then 100 else every));
    case Remove(p) =>
    case Stop =>
  }

  lemma {:induction false} ReactQuiet(s: Loop, w: World, actions: seq<Action>)
    requires Core(s.mem)
    ensures Quiet(s, React(s, w, actions))
    decreases |actions|
  {
    if actions != [] {
      var s1 := Act(s, w, actions[0]).loop;
      ActQuiet(s, w, actions[0]);
      ReactQuiet(s1, w, actions[1..]);
      QuietTransitive(s, s1, React(s1, w, actions[1..]));
    }
  }

  lemma QuietTransitive(s: Loop, t: Loop, r: Loop)
    requires Quiet(s, t) && Quiet(t, r) && Grows(s.mem, t.mem, NULL) && NULL !in s.mem.heap
    ensures Quiet(s, r)
  {
    forall i | |s.log| <= i < |r.log|
      ensures Neutral(r.log[i]) && !Gone(s.mem, Subject(r.log[i]))
    {
      if i < |t.log| {
        assert r.log[i] == t.log[i];
      }
    }
  }

  // --------------------------------------------------------- shape of a service

  /** What a service does once its source has been given its turn. */
  datatype Plan = Faulting(code: Errno) | Plain | Firing(flags: nat)

  function PlanOf(s: Loop, w: World, p: Ptr): (plan: Plan)
    requires p in s.mem.heap
  {
    match s.mem.heap[p].kind
    case Socket => Plain
    case Timer => Firing(TIMER)
    case Process =>
      (match w.poll(s.step)
       case PollError(code) => Faulting(code)
       case Running => Plain
       case Completed => Firing(PROCESS))
    case File =>
      var c := w.watch(s.step);
      if c.WatchError? then Faulting(c.code) else if AnyChange(c) then Firing(FileFlags(c)) else Plain
  }

  /** The loop after the turn and the poll, if any, have been noted. */
  function BeforeCallback(s: Loop, w: World, p: Ptr, now: U64): (t: Loop)
    requires p in s.mem.heap
    ensures t.mem == s.mem
  {
    var s0 := Note(s, Turn(p, now));
    if s.mem.heap[p].kind.Timer? then s0 else Note(Tick(s0), Polled(p, now, PlanOf(s, w, p).Firing?))
  }

  /** The service rearms or removes its source, or leaves it as the callback did. */
  ghost predicate Closed(d: Loop, r: Loop, p: Ptr) {
    || r == d
    || (r.log == d.log + [Removed(p)] && r.stop == d.stop && r.mem.list == d.mem.list && Grows(d.mem, r.mem, NULL)
        && p in d.mem.heap && r.mem.heap == d.mem.heap[p := d.mem.heap[p].(active := false)])
    || (|r.log| == |d.log| + 1 && d.log <= r.log && r.log[|d.log|].Rearmed? && r.log[|d.log|].p == p
        && r.stop == d.stop && r.mem.list == d.mem.list && Grows(d.mem, r.mem, p)
        && p in d.mem.heap && r.mem.heap == d.mem.heap[p := d.mem.heap[p].(due := r.log[|d.log|].due)])
  }

  /** How the service ends after a callback with result `code`. */
  ghost predicate Settled(d: Loop, r: Passed, p: Ptr, code: int) {
    if r.outcome.Hung? then code == 0 && r.loop == Note(d, Spun(p))
    else r.outcome == Finished(code) && Closed(d, r.loop, p)
  }

  /** Everybody allocated at `m` is still allocated at `n`. */
  ghost predicate Keeps(m: Mem, n: Mem) {
    forall p :: p in m.heap ==> p in n.heap
  }

  lemma GrowsKeeps(m: Mem, n: Mem, but: Ptr)
    requires Grows(m, n, but)
    ensures Keeps(m, n)
  {
  }

  lemma ServeShape(s: Loop, w: World, p: Ptr, now: U64)
    requires Core(s.mem) && p in s.mem.heap && Due(s.mem, p, now)
    ensures var r := Serve(s, w, p, now); var t := BeforeCallback(s, w, p, now);
            match PlanOf(s, w, p)
            case Faulting(code) => r == Passed(Fault(Note(s, Turn(p, now)), code), Finished(code))
            case Plain => Settled(t, r, p, 0) && |t.log| < |r.loop.log| && r.loop.log[|t.log|].Rearmed?
            case Firing(flags) => var d := Dispatch(t, w, p, flags, now); Settled(d.loop, r, p, d.code)
  {
    hide Core, Grows, Dispatch, FirstDue, Ends, Rescheduled;
    if PlanOf(s, w, p).Firing? {
      var t := BeforeCallback(s, w, p, now);
      GrowsKeeps(t.mem, Dispatch(t, w, p, PlanOf(s, w, p).flags, now).loop.mem, NULL);
    }
  }

  // ------------------------------------------------------- silence of the removed

  /** Nothing that happens from `s` to `r` concerns a source that was inactive at `s`. */
  ghost predicate Silent(s: Loop, r: Loop) {
    && s.log <= r.log
    && forall i :: |s.log| <= i < |r.log| ==> !Gone(s.mem, Subject(r.log[i]))
  }

  /** An inactive source stays allocated and inactive. */
  ghost predicate StaysGone(m: Mem, n: Mem) {
    forall p :: Gone(m, p) ==> Gone(n, p)
  }

  lemma SilentTransitive(s: Loop, t: Loop, r: Loop)
    requires Silent(s, t) && Silent(t, r) && StaysGone(s.mem, t.mem)
    ensures Silent(s, r)
  {
    forall i | |s.log| <= i < |r.log|
      ensures !Gone(s.mem, Subject(r.log[i]))
    {
      if i < |t.log| {
        assert r.log[i] == t.log[i];
      }
    }
  }

  /** One turn of the loop over a batch. */
  lemma BatchStep(s: Loop, w: World, events: seq<(Ptr, Readiness)>, i: nat)
    requires Core(s.mem) && Allocated(s.mem, events) && i < |events|
    ensures var (p, readiness) := events[i]; var flags := FlagsOf(readiness);
            var d := if s.mem.heap[p].active && flags != 0 then Dispatch(s, w, p, flags, 0) else Reply(s, 0);
            && Allocated(d.loop.mem, events)
            && Batch(s, w, events[i..]) == if d.code != 0 then d else Batch(d.loop, w, events[i + 1..])
  {
    hide Core, Dispatch;
    assert events[i..][0] == events[i] && events[i..][1..] == events[i + 1..];
  }

  lemma FromRegistry(m: Mem, raw: seq<(Handle, Readiness)>)
    requires Core(m)
    ensures Allocated(m, Truncated(Select(m.registry, raw)))
  {
  }

  lemma DispatchSilent(s: Loop, w: World, p: Ptr, flags: nat, now: U64)
    requires Core(s.mem) && p in s.mem.heap
    ensures Silent(s, Dispatch(s, w, p, flags, now).loop)
    ensures StaysGone(s.mem, Dispatch(s, w, p, flags, now).loop.mem)
  {
    hide BackendAgrees, Distinct, React;
    if s.mem.heap[p].active {
      var reaction := w.reaction(s.step);
      var s1 := Note(Tick(s), Fired(p, flags, now, reaction.result));
      assert Silent(s, s1);
      if !s.mem.heap[p].internal {
        ReactQuiet(s1, w, reaction.actions);
        SilentTransitive(s, s1, React(s1, w, reaction.actions));
      }
    }
  }

  /** A source removed by an earlier callback is not dispatched by the rest of the batch. */
  lemma {:induction false} BatchSilent(s: Loop, w: World, batch: seq<(Ptr, Readiness)>)
    requires Core(s.mem) && Allocated(s.mem, batch)
    ensures Silent(s, Batch(s, w, batch).loop)
    decreases |batch|
  {
    hide Dispatch, BackendAgrees, Distinct, Silent, StaysGone;
    if batch == [] {
      assert Silent(s, s) by { SilentSelf(s); }
    } else {
      var (p, readiness) := batch[0];
      var flags := FlagsOf(readiness);
      DispatchSilent(s, w, p, flags, 0);
      SilentSelf(s);
      var d := if s.mem.heap[p].active && flags != 0 then Dispatch(s, w, p, flags, 0) else Reply(s, 0);
      if d.code == 0 {
        BatchSilent(d.loop, w, batch[1..]);
        SilentTransitive(s, d.loop, Batch(d.loop, w, batch[1..]).loop);
      }
    }
  }

  lemma SilentSelf(s: Loop)
    ensures Silent(s, s) && StaysGone(s.mem, s.mem)
  {
  }

  lemma GrowsStaysGone(m: Mem, n: Mem, but: Ptr)
    requires Grows(m, n, but)
    ensures StaysGone(m, n)
  {
  }

  lemma ServeSilent(s: Loop, w: World, p: Ptr, now: U64)
    requires Core(s.mem) && p in s.mem.heap && Due(s.mem, p, now)
    ensures Silent(s, Serve(s, w, p, now).loop)
  {
    hide Core, Grows, Dispatch, Serve, Silent, StaysGone, PlanOf, BeforeCallback;
    ServeShape(s, w, p, now);
    TurnSilent(s, w, p, now);
    var t := BeforeCallback(s, w, p, now);
    var r := Serve(s, w, p, now).loop;
    match PlanOf(s, w, p)
    case Faulting(code) => FaultSilent(s, Note(s, Turn(p, now)), code);
    case Plain => OneMoreSilent(s, t, r, p);
    case Firing(flags) =>
      var d := Dispatch(t, w, p, flags, now).loop;
      DispatchSilent(t, w, p, flags, now);
      SilentTransitive(s, t, d);
      OneMoreSilent(s, d, r, p);
  }

  lemma TurnSilent(s: Loop, w: World, p: Ptr, now: U64)
    requires p in s.mem.heap && s.mem.heap[p].active
    ensures Silent(s, Note(s, Turn(p, now))) && Silent(s, BeforeCallback(s, w, p, now)) && StaysGone(s.mem, s.mem)
  {
    hide PlanOf;
  }

  lemma OneMoreSilent(s: Loop, t: Loop, r: Loop, p: Ptr)
    requires Silent(s, t) && p in s.mem.heap && s.mem.heap[p].active
    requires r.log == t.log || (|r.log| == |t.log| + 1 && t.log <= r.log && Subject(r.log[|t.log|]) == p)
    ensures Silent(s, r)
  {
    forall i | |s.log| <= i < |r.log|
      ensures !Gone(s.mem, Subject(r.log[i]))
    {
      if i < |t.log| {
        assert r.log[i] == t.log[i];
      }
    }
  }

  lemma FaultSilent(s: Loop, t: Loop, code: Errno)
    requires Silent(s, t) && Core(s.mem)
    ensures Silent(s, Fault(t, code))
  {
    forall i | |s.log| <= i < |t.log| + 1
      ensures !Gone(s.mem, Subject(Fault(t, code).log[i]))
    {
      if i < |t.log| {
        assert Fault(t, code).log[i] == t.log[i];
      }
    }
  }

  /** A source that is inactive when a timer pass reaches or passes it is left alone by the rest of the pass. */
  lemma {:induction false} PassSilent(s: Loop, w: World, now: U64, i: nat, budget: nat)
    requires Core(s.mem)
    ensures Silent(s, Pass(s, w, now, i, budget).loop)
    decreases budget, |s.mem.list| - i
  {
    hide Serve, BackendAgrees, Distinct, Silent, StaysGone, Grows;
    SilentSelf(s);
    if i < |s.mem.list| {
      var p := s.mem.list[i];
      if !Due(s.mem, p, now) {
        PassSilent(s, w, now, i + 1, budget);
      } else if budget > 0 {
        ServeSilent(s, w, p, now);
        var served := Serve(s, w, p, now);
        if served.outcome == Finished(0) {
          PassSilent(served.loop, w, now, i + 1, budget - 1);
          GrowsStaysGone(s.mem, served.loop.mem, p);
          SilentTransitive(s, served.loop, Pass(served.loop, w, now, i + 1, budget - 1).loop);
        }
      }
    }
  }

  // --------------------------------------------- removal and dispatch in one stretch

  /** From `s` to `r`, no callback runs for a source after it has been removed. */
  ghost predicate Orderly(s: Loop, r: Loop) {
    && s.log <= r.log
    && forall i, j :: |s.log| <= i < j < |r.log| && r.log[i].Removed? && r.log[j].Fired? ==> r.log[i].p != r.log[j].p
  }

  /** Whatever was removed from `s` to `r` is still allocated and inactive at `r`. */
  ghost predicate Entombed(s: Loop, r: Loop) {
    forall i :: |s.log| <= i < |r.log| && r.log[i].Removed? ==> Gone(r.mem, r.log[i].p)
  }

  lemma OrderlyTransitive(s: Loop, t: Loop, r: Loop)
    requires Orderly(s, t) && Entombed(s, t) && Orderly(t, r) && Silent(t, r)
    ensures Orderly(s, r)
  {
    forall i, j | |s.log| <= i < j < |r.log| && r.log[i].Removed? && r.log[j].Fired?
      ensures r.log[i].p != r.log[j].p
    {
      if i < |t.log| {
        assert r.log[i] == t.log[i];
        if j < |t.log| {
          assert r.log[j] == t.log[j];
        } else {
          assert !Gone(t.mem, Subject(r.log[j]));
        }
      }
    }
  }

  lemma EntombedTransitive(s: Loop, t: Loop, r: Loop)
    requires Entombed(s, t) && Entombed(t, r) && StaysGone(t.mem, r.mem) && s.log <= t.log <= r.log
    ensures Entombed(s, r)
  {
    forall i | |s.log| <= i < |r.log| && r.log[i].Removed?
      ensures Gone(r.mem, r.log[i].p)
    {
      if i < |t.log| {
        assert r.log[i] == t.log[i];
      }
    }
  }

  lemma {:induction false} ReactEntombs(s: Loop, w: World, actions: seq<Action>)
    requires Core(s.mem)
    ensures Entombed(s, React(s, w, actions))
    decreases |actions|
  {
    hide Core, Grows, Act;
    if actions != [] {
      var s1 := Act(s, w, actions[0]).loop;
      var r := React(s1, w, actions[1..]);
      ActEntombs(s, w, actions[0]);
      ReactEntombs(s1, w, actions[1..]);
      GrowsStaysGone(s1.mem, r.mem, NULL);
      EntombedTransitive(s, s1, r);
    }
  }

  lemma ActEntombs(s: Loop, w: World, a: Action)
    requires Core(s.mem)
    ensures Entombed(s, Act(s, w, a).loop)
  {
    hide Core, Grows, Doubled, FirstDue, MsToNs, With;
    match a
    case Remove(p) =>
    case Stop =>
    case _ =>
      var reserved := Reserve(s, w, |s.mem.list| + 1);
      assert reserved.loop.log == s.log;
  }

  lemma DispatchOrderly(s: Loop, w: World, p: Ptr, flags: nat, now: U64)
    requires Core(s.mem) && p in s.mem.heap
    ensures var r := Dispatch(s, w, p, flags, now).loop; Orderly(s, r) && Entombed(s, r)
  {
    hide Core, Grows, React;
    if s.mem.heap[p].active && !s.mem.heap[p].internal {
      var reaction := w.reaction(s.step);
      var s1 := Note(Tick(s), Fired(p, flags, now, reaction.result));
      ReactQuiet(s1, w, reaction.actions);
      ReactEntombs(s1, w, reaction.actions);
    }
  }

  /** In a wait batch, no source is dispatched after an earlier callback of the batch removed it. */
  lemma {:induction false} BatchOrderly(s: Loop, w: World, batch: seq<(Ptr, Readiness)>)
    requires Core(s.mem) && Allocated(s.mem, batch)
    ensures var r := Batch(s, w, batch).loop; Orderly(s, r) && Entombed(s, r)
    decreases |batch|
  {
    hide Core, Batch, Dispatch, Grows, Orderly, Entombed, FlagsOf;
    assert batch[0..] == batch;
    OrderlySelf(s);
    if batch == [] {
      EmptyBatch(s, w);
    } else {
      BatchStep(s, w, batch, 0);
      var p, flags := batch[0].0, FlagsOf(batch[0].1);
      DispatchOrderly(s, w, p, flags, 0);
      var d := if s.mem.heap[p].active && flags != 0 then Dispatch(s, w, p, flags, 0) else Reply(s, 0);
      if d.code == 0 {
        var r := Batch(d.loop, w, batch[1..]).loop;
        BatchOrderly(d.loop, w, batch[1..]);
        BatchSilent(d.loop, w, batch[1..]);
        OrderlyTransitive(s, d.loop, r);
        GrowsStaysGone(d.loop.mem, r.mem, NULL);
        EntombedTransitive(s, d.loop, r);
      }
    }
  }

  lemma EmptyBatch(s: Loop, w: World)
    requires Core(s.mem)
    ensures Batch(s, w, []) == Reply(s, 0)
  {
  }

  lemma OrderlySelf(s: Loop)
    ensures Orderly(s, s) && Entombed(s, s)
  {
  }

  lemma ServeOrderly(s: Loop, w: World, p: Ptr, now: U64)
    requires Core(s.mem) && p in s.mem.heap && Due(s.mem, p, now)
    ensures var r := Serve(s, w, p, now).loop; Orderly(s, r) && Entombed(s, r)
  {
    hide Core, Grows, Dispatch, Serve, PlanOf;
    ServeShape(s, w, p, now);
    var t, r := BeforeCallback(s, w, p, now), Serve(s, w, p, now).loop;
    if PlanOf(s, w, p).Firing? {
      var flags := PlanOf(s, w, p).flags;
      var d := Dispatch(t, w, p, flags, now).loop;
      DispatchOrderly(t, w, p, flags, now);
      SettledOrderly(t, d, Serve(s, w, p, now), p, Dispatch(t, w, p, flags, now).code);
      PrefixOrderly(s, t, r);
    } else if PlanOf(s, w, p).Plain? {
      SettledOrderly(t, t, Serve(s, w, p, now), p, 0);
      PrefixOrderly(s, t, r);
    }
  }

  /** The turn and the poll noted before a callback are neither removals nor dispatches. */
  lemma PrefixOrderly(s: Loop, t: Loop, r: Loop)
    requires s.log <= t.log && forall i :: |s.log| <= i < |t.log| ==> !t.log[i].Removed?
    requires Orderly(t, r) && Entombed(t, r)
    ensures Orderly(s, r) && Entombed(s, r)
  {
    forall i | |s.log| <= i < |t.log|
      ensures r.log[i] == t.log[i]
    {
    }
  }

  lemma SettledOrderly(s: Loop, d: Loop, r: Passed, p: Ptr, code: int)
    requires Orderly(s, d) && Entombed(s, d) && Settled(d, r, p, code)
    ensures Orderly(s, r.loop) && Entombed(s, r.loop)
  {
    hide Grows;
    if Grows(d.mem, r.loop.mem, NULL) {
      GrowsStaysGone(d.mem, r.loop.mem, NULL);
    } else if Grows(d.mem, r.loop.mem, p) {
      GrowsStaysGone(d.mem, r.loop.mem, p);
    }
    forall i | |s.log| <= i < |d.log|
      ensures r.loop.log[i] == d.log[i]
    {
    }
  }

  lemma {:induction false} PassStaysGone(s: Loop, w: World, now: U64, i: nat, budget: nat)
    requires Core(s.mem)
    ensures StaysGone(s.mem, Pass(s, w, now, i, budget).loop.mem)
    decreases budget, |s.mem.list| - i
  {
    hide Serve, BackendAgrees, Distinct, Grows;
    if i < |s.mem.list| {
      var p := s.mem.list[i];
      if !Due(s.mem, p, now) {
        PassStaysGone(s, w, now, i + 1, budget);
      } else if budget > 0 {
        var served := Serve(s, w, p, now);
        GrowsStaysGone(s.mem, served.loop.mem, p);
        if served.outcome == Finished(0) {
          PassStaysGone(served.loop, w, now, i + 1, budget - 1);
        }
      }
    }
  }

  /** In a timer pass, no source is dispatched after an earlier callback of the pass removed it. */
  lemma {:induction false} PassOrderly(s: Loop, w: World, now: U64, i: nat, budget: nat)
    requires Core(s.mem)
    ensures var r := Pass(s, w, now, i, budget).loop; Orderly(s, r) && Entombed(s, r)
    decreases budget, |s.mem.list| - i
  {
    hide Serve, BackendAgrees, Distinct, Grows, Orderly, Entombed, Silent, StaysGone;
    OrderlySelf(s);
    if i < |s.mem.list| {
      var p := s.mem.list[i];
      if !Due(s.mem, p, now) {
        PassOrderly(s, w, now, i + 1, budget);
      } else if budget > 0 {
        ServeOrderly(s, w, p, now);
        var served := Serve(s, w, p, now);
        if served.outcome == Finished(0) {
          var r := Pass(served.loop, w, now, i + 1, budget - 1).loop;
          PassOrderly(served.loop, w, now, i + 1, budget - 1);
          PassSilent(served.loop, w, now, i + 1, budget - 1);
          OrderlyTransitive(s, served.loop, r);
          PassStaysGone(served.loop, w, now, i + 1, budget - 1);
          EntombedTransitive(s, served.loop, r);
        }
      }
    }
  }
}
