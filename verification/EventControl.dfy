/**
 The stretches between the marks that a run leaves in its log, one at the start of
 every timer pass and one at every wait: within a stretch there is no further mark,
 and the stop flag goes up exactly when a callback asks for it.
 */
module EventControl {
  import opened Timing
  import opened EventModel
  import opened EventRun
  import opened EventTrace
  import opened EventService
  import opened EventActions

  predicate Mark(e: Event) {
    e.PassBegun? || e.WaitBegun?
  }

  ghost predicate HaltedIn(log: seq<Event>, lo: nat, hi: nat) {
    exists x :: lo <= x < hi && x < |log| && log[x].Halted?
  }

  /** From `s` to `r` there is no mark, and the stop flag is raised exactly by a request on record. */
  ghost predicate Unmarked(s: Loop, r: Loop) {
    && s.log <= r.log
    && (forall x :: |s.log| <= x < |r.log| ==> !Mark(r.log[x]))
    && (r.stop <==> s.stop || HaltedIn(r.log, |s.log|, |r.log|))
  }

  lemma UnmarkedSelf(s: Loop)
    ensures Unmarked(s, s)
  {
  }

  lemma UnmarkedTransitive(s: Loop, t: Loop, r: Loop)
    requires Unmarked(s, t) && Unmarked(t, r)
    ensures Unmarked(s, r)
  {
    assert forall x :: 0 <= x < |t.log| ==> r.log[x] == t.log[x];
  }

  /** One more event that is neither a mark nor a request to stop. */
  lemma UnmarkedNote(s: Loop, r: Loop, e: Event)
    requires r.log == s.log + [e] && r.stop == s.stop && !Mark(e) && !e.Halted?
    ensures Unmarked(s, r)
  {
  }

  lemma TimedAddUnmarked(s: Loop, w: World, r: Reply, kind: Kind, delay: nat, interval: U64)
    requires TimedAdd(s, w, r, kind, delay, interval)
    ensures Unmarked(s, r.loop)
  {
  }

  lemma SocketAddUnmarked(s: Loop, w: World, r: Reply, handle: Handle, read: bool, write: bool)
    requires SocketAdd(s, w, r, handle, read, write)
    ensures Unmarked(s, r.loop)
  {
  }

  lemma ActUnmarked(s: Loop, w: World, a: Action)
    requires Core(s.mem)
    ensures Unmarked(s, Act(s, w, a).loop)
  {
    hide Core, Grows, TimedAdd, SocketAdd, AddSocketTo, AddTimedTo, Without;
    ActMeans(s, w, a);
    var r := Act(s, w, a);
    match a
    case AddSocket(h, read, write) => SocketAddUnmarked(s, w, r, h, read, write);
    case AddTimer(delay, every) => TimedAddUnmarked(s, w, r, Timer, MsToNs(delay), MsToNs(every));
    case AddProcess(every) => TimedAddUnmarked(s, w, r, Process, 0, if every == 0 then 10_000_000 else MsToNs(every));
    case AddFile(every) => TimedAddUnmarked(s, w, r, File, 0, if every == 0 then 100_000_000 else MsToNs(every));
    case Remove(p) =>
    case Stop => assert r.loop.log[|s.log|].Halted?;
  }

  lemma {:induction false} ReactUnmarked(s: Loop, w: World, actions: seq<Action>)
    requires Core(s.mem)
    ensures Unmarked(s, React(s, w, actions))
    decreases |actions|
  {
    hide Core, Grows, Act, Unmarked;
    UnmarkedSelf(s);
    if actions != [] {
      var s1 := Act(s, w, actions[0]).loop;
      ActUnmarked(s, w, actions[0]);
      ReactUnmarked(s1, w, actions[1..]);
      UnmarkedTransitive(s, s1, React(s1, w, actions[1..]));
    }
  }

  lemma DispatchUnmarked(s: Loop, w: World, p: Ptr, flags: nat, now: U64)
    requires Core(s.mem) && p in s.mem.heap
    ensures Unmarked(s, Dispatch(s, w, p, flags, now).loop)
  {
    hide Core, Grows, React, Unmarked;
    UnmarkedSelf(s);
    if s.mem.heap[p].active {
      var reaction := w.reaction(s.step);
      var s1 := Note(Tick(s), Fired(p, flags, now, reaction.result));
      UnmarkedNote(s, s1, Fired(p, flags, now, reaction.result));
      if !s.mem.heap[p].internal {
        ReactUnmarked(s1, w, reaction.actions);
        UnmarkedTransitive(s, s1, React(s1, w, reaction.actions));
      }
    }
  }

  lemma SettledUnmarked(d: Loop, r: Passed, p: Ptr, code: int)
    requires Settled(d, r, p, code)
    ensures Unmarked(d, r.loop)
  {
    hide Grows;
  }

  lemma TurnUnmarked(s: Loop, w: World, p: Ptr, now: U64, code: Errno)
    requires p in s.mem.heap
    ensures Unmarked(s, BeforeCallback(s, w, p, now)) && Unmarked(s, Fault(Note(s, Turn(p, now)), code))
  {
    hide PlanOf;
  }

  lemma ServeUnmarked(s: Loop, w: World, p: Ptr, now: U64)
    requires Core(s.mem) && p in s.mem.heap && Due(s.mem, p, now)
    ensures Unmarked(s, Serve(s, w, p, now).loop)
  {
    hide Core, Grows, Dispatch, Serve, PlanOf, BeforeCallback, Settled, Unmarked;
    ServeShape(s, w, p, now);
    var t, r := BeforeCallback(s, w, p, now), Serve(s, w, p, now);
    match PlanOf(s, w, p)
    case Faulting(code) => TurnUnmarked(s, w, p, now, code);
    case Plain =>
      TurnUnmarked(s, w, p, now, 1);
      SettledUnmarked(t, r, p, 0);
      UnmarkedTransitive(s, t, r.loop);
    case Firing(flags) =>
      var d := Dispatch(t, w, p, flags, now);
      TurnUnmarked(s, w, p, now, 1);
      DispatchUnmarked(t, w, p, flags, now);
      UnmarkedTransitive(s, t, d.loop);
      SettledUnmarked(d.loop, r, p, d.code);
      UnmarkedTransitive(s, d.loop, r.loop);
  }

  lemma {:induction false} PassUnmarked(s: Loop, w: World, now: U64, i: nat, budget: nat)
    requires Core(s.mem)
    ensures Unmarked(s, Pass(s, w, now, i, budget).loop)
    decreases budget, |s.mem.list| - i
  {
    hide Serve, BackendAgrees, Distinct, Grows, WakeFirst, Unmarked;
    UnmarkedSelf(s);
    if i < |s.mem.list| {
      var p := s.mem.list[i];
      if !Due(s.mem, p, now) {
        PassUnmarked(s, w, now, i + 1, budget);
      } else if budget > 0 {
        ServeUnmarked(s, w, p, now);
        var t := Serve(s, w, p, now);
        if t.outcome == Finished(0) {
          PassUnmarked(t.loop, w, now, i + 1, budget - 1);
          UnmarkedTransitive(s, t.loop, Pass(t.loop, w, now, i + 1, budget - 1).loop);
        }
      }
    }
  }

  lemma {:induction false} BatchUnmarked(s: Loop, w: World, batch: seq<(Ptr, Readiness)>)
    requires Core(s.mem) && Allocated(s.mem, batch)
    ensures Unmarked(s, Batch(s, w, batch).loop)
    decreases |batch|
  {
    hide Core, Batch, Dispatch, Grows, FlagsOf, Unmarked;
    assert batch[0..] == batch;
    UnmarkedSelf(s);
    if batch == [] {
      EmptyBatch(s, w);
    } else {
      BatchStep(s, w, batch, 0);
      var p, flags := batch[0].0, FlagsOf(batch[0].1);
      DispatchUnmarked(s, w, p, flags, 0);
      var d := if s.mem.heap[p].active && flags != 0 then Dispatch(s, w, p, flags, 0) else Reply(s, 0);
      if d.code == 0 {
        BatchUnmarked(d.loop, w, batch[1..]);
        UnmarkedTransitive(s, d.loop, Batch(d.loop, w, batch[1..]).loop);
      }
    }
  }

  lemma CompactUnmarked(s: Loop)
    requires Core(s.mem)
    ensures Unmarked(s, Compact(s))
  {
    hide Core, Compacted;
  }

  // ------------------------------------------------------------ counting the turns

  function Turns(log: seq<Event>, from: nat): nat {
    if |log| <= from then 0 else Turns(log[..|log| - 1], from) + if log[|log| - 1].Turn? then 1 else 0
  }

  lemma {:induction false} TurnsUnchanged(log: seq<Event>, log': seq<Event>, from: nat)
    requires from <= |log| && log <= log' && forall x :: |log| <= x < |log'| ==> !log'[x].Turn?
    ensures Turns(log', from) == Turns(log, from)
  {
    if |log'| == |log| {
      assert log' == log;
    } else {
      TurnsUnchanged(log, log'[..|log'| - 1], from);
    }
  }

  lemma ServeTurns(s: Loop, w: World, p: Ptr, now: U64, from: nat)
    requires Core(s.mem) && p in s.mem.heap && Due(s.mem, p, now) && from <= |s.log|
    ensures var r := Serve(s, w, p, now).loop; |s.log| <= |r.log| && Turns(r.log, from) == Turns(s.log, from) + 1
  {
    hide Serve, Core, Grows, Caused, Accounted;
    ServeLog(s, w, p, now);
    var turned := s.log + [Turn(p, now)];
    assert turned[..|s.log|] == s.log;
    TurnsUnchanged(turned, Serve(s, w, p, now).loop.log, from);
  }

  /** A pass that does not get to its end has used up its budget, one turn per unit. */
  lemma {:induction false} BudgetUsedUp(s: Loop, w: World, now: U64, i: nat, budget: nat, from: nat)
    requires Core(s.mem) && from <= |s.log|
    ensures var r := Pass(s, w, now, i, budget);
            r.outcome == Unfinished ==> Turns(r.loop.log, from) == Turns(s.log, from) + budget
    decreases budget, |s.mem.list| - i
  {
    hide Serve, BackendAgrees, Distinct, Grows, WakeFirst, Turns;
    if i < |s.mem.list| {
      var p := s.mem.list[i];
      if !Due(s.mem, p, now) {
        BudgetUsedUp(s, w, now, i + 1, budget, from);
      } else if budget > 0 {
        var t := Serve(s, w, p, now);
        ServeTurns(s, w, p, now, from);
        ServeEnds(s, w, p, now);
        if t.outcome == Finished(0) {
          BudgetUsedUp(t.loop, w, now, i + 1, budget - 1, from);
        }
      }
    }
  }
}
