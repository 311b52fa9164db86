/**
 What one service of the timer pass leaves in the log: its turn, the poll or the
 callback that the turn consists of, and a record of everybody whom it removed.
 */
module EventService {
  import opened Limits
  import opened Timing
  import opened EventModel
  import opened EventTrace

  // -------------------------------------------------------- removals are on record

  ghost predicate RemovedIn(log: seq<Event>, lo: nat, hi: nat, p: Ptr) {
    exists x :: lo <= x < hi && x < |log| && log[x] == Removed(p)
  }

  /** Whoever was active at `s` and is inactive at `r` has been removed on record in between. */
  ghost predicate Accounted(s: Loop, r: Loop) {
    forall p :: p in s.mem.heap && s.mem.heap[p].active && Gone(r.mem, p) ==> RemovedIn(r.log, |s.log|, |r.log|, p)
  }

  lemma AccountedTransitive(s: Loop, t: Loop, r: Loop)
    requires Accounted(s, t) && Accounted(t, r) && Keeps(s.mem, t.mem) && s.log <= t.log <= r.log
    ensures Accounted(s, r)
  {
    forall p | p in s.mem.heap && s.mem.heap[p].active && Gone(r.mem, p)
      ensures RemovedIn(r.log, |s.log|, |r.log|, p)
    {
      if Gone(t.mem, p) {
        var x :| |s.log| <= x < |t.log| && t.log[x] == Removed(p);
        assert r.log[x] == Removed(p);
      }
    }
  }

  lemma SameMemAccounted(s: Loop, r: Loop)
    requires r.mem == s.mem
    ensures Accounted(s, r) && Keeps(s.mem, r.mem)
  {
  }

  lemma AddSocketAccounted(s: Loop, w: World, handle: Handle, read: bool, write: bool)
    requires Core(s.mem)
    ensures Accounted(s, AddSocketTo(s, w, handle, read, write).loop)
  {
    hide Core, Grows, With, Doubled;
  }

  lemma AddTimedAccounted(s: Loop, w: World, kind: Kind, delay: U64, interval: U64)
    requires Core(s.mem) && !kind.Socket?
    ensures Accounted(s, AddTimedTo(s, w, kind, delay, interval).loop)
  {
    hide Core, Grows, With, Doubled, FirstDue;
  }

  lemma ActAccounted(s: Loop, w: World, a: Action)
    requires Core(s.mem)
    ensures Accounted(s, Act(s, w, a).loop)
  {
    hide Core, Grows, AddSocketTo, AddTimedTo;
    match a
    case AddSocket(h, read, write) => AddSocketAccounted(s, w, h, read, write);
    case AddTimer(delay, every) => AddTimedAccounted(s, w, Timer, MsToNs(delay), MsToNs(every));
    case AddProcess(every) => AddTimedAccounted(s, w, Process, 0, MsToNs(if every == 0 then 10 else every));
    case AddFile(every) => AddTimedAccounted(s, w, File, 0, MsToNs(if every == 0 then 100 else every));
    case Remove(p) =>
      if Removable(s.mem, p) && s.mem.heap[p].active {
        assert Act(s, w, a).loop.log[|s.log|] == Removed(p);
      }
    case Stop =>
  }

  lemma {:induction false} ReactAccounted(s: Loop, w: World, actions: seq<Action>)
    requires Core(s.mem)
    ensures Accounted(s, React(s, w, actions))
    decreases |actions|
  {
    hide Core, Grows, Act;
    if actions != [] {
      var s1 := Act(s, w, actions[0]).loop;
      ActAccounted(s, w, actions[0]);
      ReactAccounted(s1, w, actions[1..]);
      GrowsKeeps(s.mem, s1.mem, NULL);
      AccountedTransitive(s, s1, React(s1, w, actions[1..]));
    }
  }

  /** A dispatch first enters the callback; all it does after that is what the callback does. */
  lemma DispatchLog(s: Loop, w: World, p: Ptr, flags: nat, now: U64)
    requires Core(s.mem) && p in s.mem.heap && s.mem.heap[p].active
    ensures var d := Dispatch(s, w, p, flags, now);
            && s.log + [Fired(p, flags, now, d.code)] <= d.loop.log
            && (forall x :: |s.log| < x < |d.loop.log| ==> Neutral(d.loop.log[x]))
            && Accounted(s, d.loop)
  {
    hide Core, Grows, React;
    var reaction := w.reaction(s.step);
    var s1 := Note(Tick(s), Fired(p, flags, now, reaction.result));
    if !s.mem.heap[p].internal {
      ReactQuiet(s1, w, reaction.actions);
      ReactAccounted(s1, w, reaction.actions);
      AccountedTransitive(s, s1, React(s1, w, reaction.actions));
    }
  }

  // --------------------------------------------------------------- one service

  /** The events before `m` end with a callback and what it did. */
  ghost predicate InCallback(log: seq<Event>, lo: nat, m: nat) {
    exists x :: lo <= x < m <= |log| && log[x].Fired? && forall y :: x < y < m ==> Neutral(log[y])
  }

  /** Every removal is the work of a callback, or follows it as the end of a one-shot service. */
  ghost predicate Caused(s: Loop, r: Loop) {
    forall m :: |s.log| <= m < |r.log| && r.log[m].Removed? ==> InCallback(r.log, |s.log|, m)
  }

  /** What a service of `p` leaves in the log. */
  ghost predicate OneTurn(s: Loop, r: Loop, p: Ptr, now: U64) {
    && s.log + [Turn(p, now)] <= r.log
    && (forall x :: |s.log| < x < |r.log| ==> !r.log[x].Turn?)
    && Caused(s, r) && Accounted(s, r)
  }

  /** A service that ends as it should after a callback or a quiet poll. */
  lemma SettledTurn(s: Loop, t: Loop, d: Loop, r: Passed, p: Ptr, now: U64, code: int)
    requires s.log + [Turn(p, now)] <= t.log <= d.log && Settled(d, r, p, code)
    requires forall x :: |s.log| < x < |d.log| ==> !d.log[x].Turn?
    requires Accounted(s, d) && Keeps(s.mem, d.mem) && Caused(s, d)
    requires r.loop.log == d.log + [Removed(p)] ==> InCallback(d.log, |s.log|, |d.log|)
    ensures OneTurn(s, r.loop, p, now)
  {
    hide Grows, Keeps;
    assert Accounted(d, r.loop) by {
      if r.loop.log == d.log + [Removed(p)] {
        assert r.loop.log[|d.log|] == Removed(p);
      }
    }
    AccountedTransitive(s, d, r.loop);
    CausedExtends(s, d, r.loop);
  }

  lemma CausedExtends(s: Loop, d: Loop, r: Loop)
    requires s.log <= d.log <= r.log <= d.log + r.log[|d.log|..] && |r.log| <= |d.log| + 1 && Caused(s, d)
    requires |r.log| == |d.log| + 1 && r.log[|d.log|].Removed? ==> InCallback(d.log, |s.log|, |d.log|)
    ensures Caused(s, r)
  {
    forall m | |s.log| <= m < |r.log| && r.log[m].Removed?
      ensures InCallback(r.log, |s.log|, m)
    {
      if m < |d.log| {
        assert d.log[m] == r.log[m];
      }
      var x :| |s.log| <= x < m <= |d.log| && d.log[x].Fired? && forall y :: x < y < m ==> Neutral(d.log[y]);
      assert r.log[x].Fired? && forall y :: x < y < m ==> r.log[y] == d.log[y];
    }
  }

  lemma CallbackTurn(s: Loop, t: Loop, d: Loop, p: Ptr, now: U64)
    requires s.log + [Turn(p, now)] <= t.log < d.log && d.log[|t.log|].Fired?
    requires forall x :: |s.log| < x < |t.log| ==> !t.log[x].Turn? && !t.log[x].Removed?
    requires forall x :: |t.log| < x < |d.log| ==> Neutral(d.log[x])
    ensures (forall x :: |s.log| < x < |d.log| ==> !d.log[x].Turn?) && Caused(s, d) && InCallback(d.log, |s.log|, |d.log|)
  {
    assert forall x :: 0 <= x < |t.log| ==> d.log[x] == t.log[x];
    assert d.log[|s.log|] == Turn(p, now);
    forall m | |t.log| < m <= |d.log|
      ensures InCallback(d.log, |s.log|, m)
    {
    }
  }

  lemma ServeLog(s: Loop, w: World, p: Ptr, now: U64)
    requires Core(s.mem) && p in s.mem.heap && Due(s.mem, p, now)
    ensures OneTurn(s, Serve(s, w, p, now).loop, p, now)
  {
    hide Core, Grows, Dispatch, Serve, PlanOf, Settled, Accounted, Keeps;
    ServeShape(s, w, p, now);
    var t, served := BeforeCallback(s, w, p, now), Serve(s, w, p, now);
    SameMemAccounted(s, t);
    match PlanOf(s, w, p)
    case Faulting(code) => SameMemAccounted(s, served.loop);
    case Plain =>
      SettledTurn(s, t, t, served, p, now, 0);
    case Firing(flags) =>
      var d := Dispatch(t, w, p, flags, now);
      DispatchLog(t, w, p, flags, now);
      GrowsKeeps(t.mem, d.loop.mem, NULL);
      AccountedTransitive(s, t, d.loop);
      CallbackTurn(s, t, d.loop, p, now);
      SettledTurn(s, t, d.loop, served, p, now, d.code);
  }

  // ------------------------------------------------------- what a turn consists of

  predicate Calls(e: Event, p: Ptr, now: U64) {
    e.Fired? && e.p == p && e.now == now
  }

  /** X_EVENT_TIMER for a timer, X_EVENT_PROCESS for a process, X_EVENT_FILE and more for a file watcher. */
  predicate RightFlags(kind: Kind, flags: nat) {
    match kind
    case Socket => false
    case Timer => flags == 4
    case Process => flags == 8
    case File => 16 < flags
  }

  /**
   The turn at `x` is acted upon at once: the callback of a timer is called; a process
   or a file watcher is polled or the poll fails; if the poll found something the
   callback is called, and otherwise the source is rearmed.
   */
  ghost predicate TurnActs(r: Loop, x: nat)
    requires x < |r.log| && r.log[x].Turn?
  {
    var p, now := r.log[x].p, r.log[x].now;
    && p in r.mem.heap && x + 1 < |r.log|
    && var e, kind := r.log[x + 1], r.mem.heap[p].kind;
       if kind.Timer? then Calls(e, p, now) && RightFlags(kind, e.flags)
       else
         || e.Faulted?
         || (e.Polled? && e.p == p && e.now == now && x + 2 < |r.log|
             && var f := r.log[x + 2];
                if e.ready then Calls(f, p, now) && RightFlags(kind, f.flags) else f.Rearmed? && f.p == p)
  }

  ghost predicate TurnsAct(s: Loop, r: Loop) {
    forall x :: |s.log| <= x < |r.log| && r.log[x].Turn? ==> TurnActs(r, x)
  }

  /** Nobody is freed or changes its kind. */
  ghost predicate KindsKept(m: Mem, n: Mem) {
    forall p :: p in m.heap ==> p in n.heap && n.heap[p].kind == m.heap[p].kind
  }

  lemma GrowsKeepsKinds(m: Mem, n: Mem, but: Ptr)
    requires Grows(m, n, but)
    ensures KindsKept(m, n)
  {
  }

  lemma KindsKeptTransitive(l: Mem, m: Mem, n: Mem)
    requires KindsKept(l, m) && KindsKept(m, n)
    ensures KindsKept(l, n)
  {
  }

  lemma NothingActed(s: Loop)
    ensures KindsKept(s.mem, s.mem) && TurnsAct(s, s)
  {
  }

  lemma TurnStillActs(t: Loop, r: Loop, x: nat)
    requires x < |t.log| && t.log[x].Turn? && TurnActs(t, x) && t.log <= r.log && KindsKept(t.mem, r.mem)
    ensures r.log[x].Turn? && TurnActs(r, x)
  {
    assert forall y :: 0 <= y < |t.log| ==> r.log[y] == t.log[y];
  }

  lemma PlanFlags(s: Loop, w: World, p: Ptr)
    requires p in s.mem.heap && !s.mem.heap[p].kind.Socket?
    ensures var plan := PlanOf(s, w, p);
            && (plan.Firing? ==> RightFlags(s.mem.heap[p].kind, plan.flags))
            && (s.mem.heap[p].kind.Timer? ==> plan.Firing?)
  {
  }

  lemma ServeActs(s: Loop, w: World, p: Ptr, now: U64)
    requires Core(s.mem) && p in s.mem.heap && Due(s.mem, p, now)
    ensures var r := Serve(s, w, p, now).loop;
            |s.log| < |r.log| && r.log[|s.log|] == Turn(p, now) && TurnActs(r, |s.log|)
  {
    hide Core, Grows, Dispatch, Serve, PlanOf, Accounted, Caused;
    ServeShape(s, w, p, now);
    ServeLog(s, w, p, now);
    PlanFlags(s, w, p);
    var t, r := BeforeCallback(s, w, p, now), Serve(s, w, p, now).loop;
    GrowsKeepsKinds(s.mem, r.mem, p);
    match PlanOf(s, w, p)
    case Faulting(code) =>
    case Plain =>
    case Firing(flags) =>
      DispatchLog(t, w, p, flags, now);
      assert r.log[|t.log|] == Fired(p, flags, now, Dispatch(t, w, p, flags, now).code);
  }

  // ----------------------------------------- what a service does with each answer

  /** X_EVENT_FILE, bit 4, with bits 5 to 7 for creation, modification and deletion, and nothing else. */
  predicate TellsChanges(flags: nat, c: WatchAnswer)
    requires c.Changes?
  {
    && flags % 32 == 16 && flags < 256
    && (flags / 32 % 2 == 1 <==> c.created)
    && (flags / 64 % 2 == 1 <==> c.modified)
    && (flags / 128 % 2 == 1 <==> c.deleted)
  }

  lemma FileFlagsTell(c: WatchAnswer)
    requires c.Changes?
    ensures TellsChanges(FileFlags(c), c)
  {
  }

  /** The poll failed: the service ends with that error and nothing else happened. */
  ghost predicate PollFails(s: Loop, r: Passed, p: Ptr, now: U64, code: Errno) {
    r.outcome == Finished(code) && r.loop.mem == s.mem && r.loop.log == s.log + [Turn(p, now), Faulted(code)]
  }

  /** The poll found nothing: the source is due again an interval from now. */
  ghost predicate PollFindsNothing(s: Loop, r: Passed, p: Ptr, now: U64)
    requires p in s.mem.heap
  {
    var due := (now + s.mem.heap[p].interval) % TWO64;
    && r.outcome == Finished(0) && r.loop.mem == s.mem.(heap := s.mem.heap[p := s.mem.heap[p].(due := due)])
    && r.loop.log == s.log + [Turn(p, now), Polled(p, now, false), Rearmed(p, due)]
  }

  /** After the events `before` the callback of `p` runs as the `call`-th outside call, and the service ends with its result. */
  ghost predicate Runs(s: Loop, w: World, r: Passed, p: Ptr, flags: nat, now: U64, before: seq<Event>, call: nat) {
    var result := w.reaction(call).result;
    && s.log + before + [Fired(p, flags, now, result)] <= r.loop.log
    && (r.outcome == Finished(result) || (r.outcome.Hung? && result == 0))
  }

  /** A timer is called; a process is called once its child is found to have exited; a watcher is called about changes. */
  ghost predicate Service(s: Loop, w: World, r: Passed, p: Ptr, now: U64)
    requires p in s.mem.heap
  {
    match s.mem.heap[p].kind
    case Socket => false
    case Timer => Runs(s, w, r, p, 4, now, [Turn(p, now)], s.step)
    case Process =>
      (match w.poll(s.step)
       case PollError(code) => PollFails(s, r, p, now, code)
       case Running => PollFindsNothing(s, r, p, now)
       case Completed => Runs(s, w, r, p, 8, now, [Turn(p, now), Polled(p, now, true)], s.step + 1) && !r.outcome.Hung?)
    case File =>
      var c := w.watch(s.step);
      if c.WatchError? then PollFails(s, r, p, now, c.code)
      else if !c.created && !c.modified && !c.deleted then PollFindsNothing(s, r, p, now)
      else
        && !r.outcome.Hung?
        && exists flags ::
             TellsChanges(flags, c) && Runs(s, w, r, p, flags, now, [Turn(p, now), Polled(p, now, true)], s.step + 1)
  }

  lemma DispatchResult(s: Loop, w: World, p: Ptr, flags: nat, now: U64)
    requires Core(s.mem) && p in s.mem.heap && s.mem.heap[p].active
    ensures Dispatch(s, w, p, flags, now).code == w.reaction(s.step).result
  {
  }

  lemma ServeRuns(s: Loop, w: World, p: Ptr, now: U64)
    requires Core(s.mem) && p in s.mem.heap && Due(s.mem, p, now) && PlanOf(s, w, p).Firing?
    ensures var t := BeforeCallback(s, w, p, now); var r := Serve(s, w, p, now); var result := w.reaction(t.step).result;
            && t.log + [Fired(p, PlanOf(s, w, p).flags, now, result)] <= r.loop.log
            && (r.outcome == Finished(result) || (r.outcome.Hung? && result == 0))
  {
    hide Core, Grows, Dispatch, Forward, Serve, PlanOf, BeforeCallback;
    ServeShape(s, w, p, now);
    var t, flags := BeforeCallback(s, w, p, now), PlanOf(s, w, p).flags;
    DispatchLog(t, w, p, flags, now);
    DispatchResult(t, w, p, flags, now);
  }

  /** A service ends, or spins in its reschedule loop. */
  lemma ServeEnds(s: Loop, w: World, p: Ptr, now: U64)
    requires Core(s.mem) && p in s.mem.heap && Due(s.mem, p, now)
    ensures Serve(s, w, p, now).outcome != Unfinished
  {
    hide Core, Grows, Dispatch, Serve, PlanOf;
    ServeShape(s, w, p, now);
  }

  lemma HangsInTimersOnly(s: Loop, w: World, p: Ptr, now: U64)
    requires Core(s.mem) && p in s.mem.heap && Due(s.mem, p, now) && !s.mem.heap[p].kind.Timer?
    ensures !Serve(s, w, p, now).outcome.Hung?
  {
    hide Core, Grows, ServeProcess, ServeFile;
  }

  lemma PolledInVain(s: Loop, w: World, p: Ptr, now: U64)
    requires Core(s.mem) && p in s.mem.heap && Due(s.mem, p, now) && !PlanOf(s, w, p).Firing?
    ensures Service(s, w, Serve(s, w, p, now), p, now)
  {
    hide Core, Grows, Forward, Dispatch;
  }

  /** What one service does with each answer of the child's poll, the watcher and the callback. */
  lemma ServeMeans(s: Loop, w: World, p: Ptr, now: U64)
    requires Core(s.mem) && p in s.mem.heap && Due(s.mem, p, now)
    ensures Service(s, w, Serve(s, w, p, now), p, now)
  {
    hide Core, Grows, Serve, Forward, TellsChanges, FileFlags, Dispatch;
    if !PlanOf(s, w, p).Firing? {
      PolledInVain(s, w, p, now);
    } else {
      ServeRuns(s, w, p, now);
      assert s.log + [Turn(p, now)] + [Polled(p, now, true)] == s.log + [Turn(p, now), Polled(p, now, true)];
      if !s.mem.heap[p].kind.Timer? {
        HangsInTimersOnly(s, w, p, now);
      }
      if s.mem.heap[p].kind.File? {
        FileFlagsTell(w.watch(s.step));
      }
    }
  }
}
