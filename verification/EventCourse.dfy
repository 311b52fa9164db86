/**
 The course of whole runs, read off the log alone.  Every round is a timer pass, a
 wait and a second pass; each wait has the timeout that the histories so far call
 for; each pass serves whoever the histories say is due; after a request to stop
 there is no wait and at most one pass; and a run that ends with the error of a
 primitive ends where that primitive failed.
 */
module EventCourse {
  import opened Limits
  import opened Timing
  import opened EventModel
  import opened EventRun
  import opened EventTrace
  import opened EventService
  import opened EventFairness
  import opened EventOutcome
  import opened EventAudit
  import opened EventHistory
  import opened EventControl

  // --------------------------------------------------------- timeouts off the log

  /** The source at `p` is live and takes part in timer passes, by its history. */
  ghost predicate TimedAt(log: seq<Event>, p: Ptr) {
    var l := Replay(log, p);
    l.Live? && (l.kind.Timer? || l.kind.Process? || l.kind.File?)
  }

  ghost function DueAt(log: seq<Event>, p: Ptr): nat
    requires TimedAt(log, p)
  {
    Replay(log, p).due
  }

  /** The earliest due time lies `d` after `now`. */
  ghost predicate Earliest(log: seq<Event>, now: U64, d: nat) {
    && (exists p: Ptr :: TimedAt(log, p) && DueAt(log, p) == now + d)
    && (forall p: Ptr :: TimedAt(log, p) ==> now + d <= DueAt(log, p))
  }

  /** The right timeout for a wait after `log`: none, 0, or the least covering milliseconds unless rounding wraps. */
  ghost predicate TimeoutFor(log: seq<Event>, now: U64, ms: int) {
    && (ms == -1 <==> forall p: Ptr :: !TimedAt(log, p))
    && (forall p: Ptr :: TimedAt(log, p) && DueAt(log, p) <= now ==> ms == 0)
    && (forall d: nat :: 0 < d && Earliest(log, now, d) ==>
          if d + 999_999 < TWO64 then 0 <= ms && RightTimeout(d, ms) else ms == 0)
  }

  lemma HistoryShowsTimed(s: Loop, p: Ptr)
    requires Core(s.mem) && Audited(s, NULL)
    ensures TimedAt(s.log, p) <==> p in s.mem.list && p in s.mem.heap && s.mem.heap[p].Timed()
    ensures TimedAt(s.log, p) ==> DueAt(s.log, p) == s.mem.heap[p].due
  {
    hide BackendAgrees, Distinct, Replay, AuditedIn;
    AuditAt(s, p, NULL);
    AllocatedIsListed(s.mem);
  }

  lemma EarliestIsNearest(s: Loop, now: U64, d: nat)
    requires Core(s.mem) && Audited(s, NULL) && 0 < d && Earliest(s.log, now, d)
    ensures Nearest(s.mem, now, |s.mem.list|) == d
  {
    hide BackendAgrees, Distinct, TimedAt, Nearest, AuditedIn;
    NearestMeans(s.mem, now, |s.mem.list|);
    forall i | 0 <= i < |s.mem.list| && s.mem.heap[s.mem.list[i]].Timed()
      ensures now + d <= s.mem.heap[s.mem.list[i]].due
    {
      HistoryShowsTimed(s, s.mem.list[i]);
    }
    var p: Ptr :| TimedAt(s.log, p) && DueAt(s.log, p) == now + d;
    HistoryShowsTimed(s, p);
    var j :| 0 <= j < |s.mem.list| && s.mem.list[j] == p;
    assert s.mem.heap[s.mem.list[j]].Timed();
  }

  lemma TimeoutFromHistory(s: Loop, now: U64)
    requires Core(s.mem) && Audited(s, NULL)
    ensures TimeoutFor(s.log, now, Timeout(s.mem, now))
  {
    hide BackendAgrees, Distinct, TimedAt, Nearest, AuditedIn, Earliest, RightTimeout, RoundUpMs;
    var ms := Timeout(s.mem, now);
    TimeoutMeans(s.mem, now);
    forall p: Ptr
      ensures TimedAt(s.log, p) ==> ms != -1 && (DueAt(s.log, p) <= now ==> ms == 0)
    {
      HistoryShowsTimed(s, p);
    }
    if ms != -1 {
      var i :| 0 <= i < |s.mem.list| && s.mem.heap[s.mem.list[i]].Timed();
      HistoryShowsTimed(s, s.mem.list[i]);
    }
    forall d: nat | 0 < d && Earliest(s.log, now, d)
      ensures if d + 999_999 < TWO64 then 0 <= ms && RightTimeout(d, ms) else ms == 0
    {
      EarliestIsNearest(s, now, d);
      assert ms == RoundUpMs(d);
    }
  }

  // ---------------------------------------------------------------------- marks

  function Marks(log: seq<Event>, from: nat): nat {
    if |log| <= from then 0 else Marks(log[..|log| - 1], from) + if Mark(log[|log| - 1]) then 1 else 0
  }

  lemma {:induction false} MarksUnchanged(log: seq<Event>, log': seq<Event>, from: nat)
    requires from <= |log| && log <= log' && forall x :: |log| <= x < |log'| ==> !Mark(log'[x])
    ensures Marks(log', from) == Marks(log, from)
  {
    if |log'| == |log| {
      assert log' == log;
    } else {
      MarksUnchanged(log, log'[..|log'| - 1], from);
    }
  }

  /** Whatever stop request is on record came after the last mark. */
  ghost predicate HaltsAreRecent(log: seq<Event>, from: nat) {
    forall z :: from <= z < |log| && Mark(log[z]) ==> !HaltedIn(log, from, z)
  }

  /**
   The mark `e` may follow `before` in a run whose log begins at `from`.  Every third
   mark, from the second on, is a wait, for which no stop has been requested; its
   timeout is the right one for the clock reading just before.  The others are passes,
   with at most one of them behind a request to stop.
   */
  ghost predicate MayFollow(w: World, before: seq<Event>, from: nat, e: Event) {
    && (e.WaitBegun? <==> Marks(before, from) % 3 == 1)
    && (e.WaitBegun? ==>
          && !HaltedIn(before, from, |before|)
          && 0 < e.call && w.clock(e.call - 1).Reading? && TimeoutFor(before, w.clock(e.call - 1).ns, e.timeout))
    && (e.PassBegun? ==> w.clock(e.call).Reading? && HaltsAreRecent(before, from))
  }

  ghost predicate Governed(w: World, log: seq<Event>, from: nat) {
    forall y :: from <= y < |log| && Mark(log[y]) ==> MayFollow(w, log[..y], from, log[y])
  }

  lemma GovernedStretch(w: World, s: Loop, r: Loop, from: nat)
    requires from <= |s.log| && Governed(w, s.log, from) && Unmarked(s, r)
    ensures Governed(w, r.log, from) && Marks(r.log, from) == Marks(s.log, from)
  {
    hide MayFollow, HaltedIn;
    MarksUnchanged(s.log, r.log, from);
    forall y | from <= y < |r.log| && Mark(r.log[y])
      ensures MayFollow(w, r.log[..y], from, r.log[y])
    {
      assert y < |s.log| && r.log[y] == s.log[y];
      assert r.log[..y] == s.log[..y];
    }
  }

  lemma GovernedMark(w: World, log: seq<Event>, from: nat, e: Event)
    requires from <= |log| && Governed(w, log, from) && Mark(e) && MayFollow(w, log, from, e)
    ensures Governed(w, log + [e], from) && Marks(log + [e], from) == Marks(log, from) + 1
  {
    hide MayFollow;
    assert (log + [e])[..|log|] == log;
    forall y | from <= y < |log| + 1 && Mark((log + [e])[y])
      ensures MayFollow(w, (log + [e])[..y], from, (log + [e])[y])
    {
      if y < |log| {
        assert (log + [e])[..y] == log[..y];
      }
    }
  }

  // ----------------------------------------------------------- everybody is served

  /** Before the next mark after `x`, the source at `p` gets its turn or is removed. */
  ghost predicate ServedAt(log: seq<Event>, x: nat, p: Ptr, now: U64, m: nat) {
    && x < m < |log| && (log[m] == Turn(p, now) || log[m] == Removed(p))
    && forall y :: x < y < m ==> !Mark(log[y])
  }

  /** The pass begun at `x` serves everybody who by their history is due at its clock reading. */
  ghost predicate Served(w: World, log: seq<Event>, x: nat)
    requires x < |log| && log[x].PassBegun?
  {
    var reading := w.clock(log[x].call);
    && reading.Reading?
    && forall p: Ptr :: TimedAt(log[..x], p) && DueAt(log[..x], p) <= reading.ns ==>
         exists m :: ServedAt(log, x, p, reading.ns, m)
  }

  /** All passes begun before `hi` do. */
  ghost predicate AllServed(w: World, log: seq<Event>, from: nat, hi: nat) {
    forall x :: from <= x < hi && x < |log| && log[x].PassBegun? ==> Served(w, log, x)
  }

  lemma StillServed(w: World, log: seq<Event>, log': seq<Event>, from: nat, hi: nat)
    requires AllServed(w, log, from, hi) && log <= log' && hi <= |log|
    ensures AllServed(w, log', from, hi)
  {
    hide TimedAt;
    forall x | from <= x < hi && log'[x].PassBegun?
      ensures Served(w, log', x)
    {
      assert log[x] == log'[x] && log[..x] == log'[..x];
      assert Served(w, log, x);
      forall p: Ptr | TimedAt(log[..x], p) && DueAt(log[..x], p) <= w.clock(log[x].call).ns
        ensures exists m :: ServedAt(log', x, p, w.clock(log[x].call).ns, m)
      {
        var m: nat :| ServedAt(log, x, p, w.clock(log[x].call).ns, m);
        assert forall y :: x < y <= m ==> log[y] == log'[y];
        assert ServedAt(log', x, p, w.clock(log[x].call).ns, m);
      }
    }
  }

  lemma ServedStretch(w: World, s: Loop, r: Loop, from: nat)
    requires AllServed(w, s.log, from, |s.log|) && Unmarked(s, r)
    ensures AllServed(w, r.log, from, |r.log|)
  {
    hide Served, HaltedIn;
    StillServed(w, s.log, r.log, from, |s.log|);
  }

  lemma PassServes(s: Loop, w: World, budget: nat)
    requires Core(s.mem) && Audited(s, NULL) && w.clock(s.step).Reading?
    ensures var r := TimerPhase(s, w, budget);
            r.outcome == Finished(0) ==> Begun(s).log <= r.loop.log && Served(w, r.loop.log, |s.log|)
  {
    hide BackendAgrees, Distinct, TimedAt, Pass, TurnsDeserved, TurnsInOrder, TurnsAct, Caused, AuditedIn, Grows, WakeFirst;
    var now, r := w.clock(s.step).ns, TimerPhase(s, w, budget);
    if r.outcome == Finished(0) {
      TimerPhaseFair(s, w, budget);
      PassUnmarked(Begun(s), w, now, 0, budget);
      assert r.loop.log[..|s.log|] == s.log && r.loop.log[|s.log|] == Begun(s).log[|s.log|];
      forall p: Ptr | TimedAt(s.log, p) && DueAt(s.log, p) <= now
        ensures exists m :: ServedAt(r.loop.log, |s.log|, p, now, m)
      {
        HistoryShowsTimed(s, p);
        var j :| 0 <= j < |s.mem.list| && s.mem.list[j] == p;
        assert Due(s.mem, s.mem.list[j], now);
        var m :| Attended(s, r.loop, j, now, m);
        assert ServedAt(r.loop.log, |s.log|, p, now, m);
      }
    }
  }

  // --------------------------------------------------------------------- faults

  ghost predicate NoFaults(s: Loop, r: Loop) {
    s.log <= r.log && forall x :: |s.log| <= x < |r.log| ==> !r.log[x].Faulted?
  }

  lemma NoFaultsSelf(s: Loop)
    ensures NoFaults(s, s)
  {
  }

  lemma NoFaultsTransitive(s: Loop, t: Loop, r: Loop)
    requires (NoFaults(s, t) || s.log == t.log) && NoFaults(t, r)
    ensures NoFaults(s, r)
  {
    assert forall x :: 0 <= x < |t.log| ==> r.log[x] == t.log[x];
  }

  /** The fault `code` after `before` is that of the `k`-th outside call: the clock, a poll in a turn, or a wait just begun. */
  ghost predicate Explained(w: World, before: seq<Event>, from: nat, k: nat, code: Errno) {
    var n := |before| - 1;
    || w.clock(k) == ClockError(code)
    || (from <= n && before[n].Turn? && (w.poll(k) == PollError(code) || w.watch(k) == WatchError(code)))
    || (from <= n && before[n].WaitBegun? && before[n].call == k && w.wait(k, before[n].timeout) == WaitError(code))
  }

  /** If the log from `from` on ends with a fault, it is that of the last outside call. */
  ghost predicate Blamed(w: World, r: Loop, from: nat) {
    from < |r.log| && r.log[|r.log| - 1].Faulted? ==>
      0 < r.step && Explained(w, r.log[..|r.log| - 1], from, r.step - 1, r.log[|r.log| - 1].code)
  }

  lemma DispatchNoFaults(s: Loop, w: World, p: Ptr, flags: nat, now: U64)
    requires Core(s.mem) && p in s.mem.heap
    ensures NoFaults(s, Dispatch(s, w, p, flags, now).loop)
  {
    hide Core, Grows, Dispatch, Accounted;
    if s.mem.heap[p].active {
      DispatchLog(s, w, p, flags, now);
      var d := Dispatch(s, w, p, flags, now);
      assert d.loop.log[|s.log|].Fired?;
    } else {
      Undispatched(s, w, p, flags, now);
    }
  }

  lemma Undispatched(s: Loop, w: World, p: Ptr, flags: nat, now: U64)
    requires Core(s.mem) && p in s.mem.heap && !s.mem.heap[p].active
    ensures Dispatch(s, w, p, flags, now) == Reply(s, 0)
  {
  }

  lemma ServeFaults(s: Loop, w: World, p: Ptr, now: U64, from: nat)
    requires Core(s.mem) && p in s.mem.heap && Due(s.mem, p, now) && from <= |s.log|
    ensures var r := Serve(s, w, p, now);
            && (r.outcome == Finished(0) ==> NoFaults(s, r.loop))
            && Blamed(w, r.loop, from) && s.log < r.loop.log
  {
    hide Core, Grows, Dispatch, Serve, Forward, PlanOf, NoFaults, Settled;
    ServeShape(s, w, p, now);
    var t, r := BeforeCallback(s, w, p, now), Serve(s, w, p, now);
    match PlanOf(s, w, p)
    case Faulting(code) =>
      FaultyPoll(s, w, p);
      assert r.loop.log[..|r.loop.log| - 1] == s.log + [Turn(p, now)];
    case Plain =>
      NoFaultsSelf(t);
      SettledNoFaults(s, w, t, r, p, now, 0);
      NobodyBlamed(w, s, r.loop, from);
    case Firing(flags) =>
      DispatchNoFaults(t, w, p, flags, now);
      var d := Dispatch(t, w, p, flags, now);
      SettledNoFaults(s, w, d.loop, r, p, now, d.code);
      NobodyBlamed(w, s, r.loop, from);
  }

  lemma NobodyBlamed(w: World, s: Loop, r: Loop, from: nat)
    requires NoFaults(s, r) && s.log < r.log
    ensures Blamed(w, r, from)
  {
  }

  lemma FaultyPoll(s: Loop, w: World, p: Ptr)
    requires p in s.mem.heap && PlanOf(s, w, p).Faulting?
    ensures var code := PlanOf(s, w, p).code; w.poll(s.step) == PollError(code) || w.watch(s.step) == WatchError(code)
  {
  }

  lemma SettledNoFaults(s: Loop, w: World, d: Loop, r: Passed, p: Ptr, now: U64, code: int)
    requires p in s.mem.heap && NoFaults(BeforeCallback(s, w, p, now), d) && Settled(d, r, p, code)
    ensures NoFaults(s, r.loop) && s.log < r.loop.log
  {
    hide Grows, PlanOf;
    var t := BeforeCallback(s, w, p, now);
    assert forall x :: 0 <= x < |t.log| ==> d.log[x] == t.log[x];
    assert forall x :: 0 <= x < |d.log| ==> r.loop.log[x] == d.log[x];
  }

  lemma {:induction false} PassFaults(s: Loop, w: World, now: U64, i: nat, budget: nat, from: nat)
    requires Core(s.mem) && from <= |s.log|
    ensures var r := Pass(s, w, now, i, budget);
            && (r.loop == s || (Blamed(w, r.loop, from) && s.log < r.loop.log))
            && (r.outcome == Finished(0) ==> NoFaults(s, r.loop))
    decreases budget, |s.mem.list| - i
  {
    hide Serve, BackendAgrees, Distinct, Grows, WakeFirst, Explained, NoFaults;
    NoFaultsSelf(s);
    if i < |s.mem.list| {
      var p := s.mem.list[i];
      if !Due(s.mem, p, now) {
        PassFaults(s, w, now, i + 1, budget, from);
      } else if budget > 0 {
        ServeFaults(s, w, p, now, from);
        var t := Serve(s, w, p, now);
        if t.outcome == Finished(0) {
          PassFaults(t.loop, w, now, i + 1, budget - 1, from);
          if Pass(t.loop, w, now, i + 1, budget - 1).outcome == Finished(0) {
            NoFaultsTransitive(s, t.loop, Pass(t.loop, w, now, i + 1, budget - 1).loop);
          }
        }
      }
    }
  }

  lemma {:induction false} BatchFaults(s: Loop, w: World, batch: seq<(Ptr, Readiness)>)
    requires Core(s.mem) && Allocated(s.mem, batch)
    ensures NoFaults(s, Batch(s, w, batch).loop)
    decreases |batch|
  {
    hide Core, Batch, Dispatch, Grows, FlagsOf, NoFaults;
    NoFaultsSelf(s);
    assert batch[0..] == batch;
    if batch == [] {
      EmptyBatch(s, w);
    } else {
      BatchStep(s, w, batch, 0);
      var p, flags := batch[0].0, FlagsOf(batch[0].1);
      DispatchNoFaults(s, w, p, flags, 0);
      var d := if s.mem.heap[p].active && flags != 0 then Dispatch(s, w, p, flags, 0) else Reply(s, 0);
      if d.code == 0 {
        BatchFaults(d.loop, w, batch[1..]);
        NoFaultsTransitive(s, d.loop, Batch(d.loop, w, batch[1..]).loop);
      }
    }
  }

  /** No wait so far has failed. */
  ghost predicate WaitsHold(w: World, log: seq<Event>, from: nat) {
    forall x :: from <= x < |log| && log[x].WaitBegun? ==> !w.wait(log[x].call, log[x].timeout).WaitError?
  }

  /** If a wait fails, its error is the next and last thing in the log. */
  ghost predicate WaitsTold(w: World, log: seq<Event>, from: nat) {
    forall x :: from <= x < |log| && log[x].WaitBegun? && w.wait(log[x].call, log[x].timeout).WaitError? ==>
      |log| == x + 2 && log[x + 1] == Faulted(w.wait(log[x].call, log[x].timeout).code)
  }

  // ------------------------------------------------------------------ whole rounds

  /** The budget of the last pass has been used up. */
  ghost predicate BudgetSpent(log: seq<Event>, from: nat, budget: nat -> nat) {
    exists x :: from <= x < |log| && log[x].PassBegun? && (forall y :: x < y < |log| ==> !Mark(log[y]))
                && Turns(log, x) == budget(log[x].listed)
  }

  /** What the log of a run from `from` on shows, however the run ends. */
  ghost predicate Told(w: World, r: Loop, from: nat) {
    && Governed(w, r.log, from) && WaitsTold(w, r.log, from) && Blamed(w, r, from)
    && (forall y :: from <= y < |r.log| && Mark(r.log[y]) ==> AllServed(w, r.log, from, y))
  }

  /** Where a run goes on: `n` marks are behind it and everything has been as it should. */
  ghost predicate OnCourse(w: World, s: Loop, from: nat, n: nat) {
    && from <= |s.log| && Inv(s.mem) && Audited(s, NULL)
    && Governed(w, s.log, from) && Marks(s.log, from) == n
    && AllServed(w, s.log, from, |s.log|) && WaitsHold(w, s.log, from)
    && (forall x :: from <= x < |s.log| ==> !s.log[x].Faulted?)
    && (s.stop || !HaltedIn(s.log, from, |s.log|))
    && (n % 3 == 2 ==> HaltsAreRecent(s.log, from))
  }

  lemma OnCourseTold(w: World, s: Loop, from: nat, n: nat)
    requires OnCourse(w, s, from, n)
    ensures Told(w, s, from)
  {
    hide MayFollow, Served, Core, WakeFirst, AuditedIn;
  }

  lemma OnCourseStretch(w: World, s: Loop, r: Loop, from: nat, n: nat)
    requires OnCourse(w, s, from, n) && n % 3 != 2 && Unmarked(s, r) && NoFaults(s, r) && Inv(r.mem) && Audited(r, NULL)
    ensures OnCourse(w, r, from, n)
  {
    hide MayFollow, Served, Core, WakeFirst, AuditedIn;
    GovernedStretch(w, s, r, from);
    ServedStretch(w, s, r, from);
    assert forall x :: 0 <= x < |s.log| ==> r.log[x] == s.log[x];
  }

  /** A mark that may follow, and the stretch after it. */
  lemma MarkedStretch(w: World, s: Loop, t: Loop, r: Loop, from: nat, n: nat, e: Event)
    requires OnCourse(w, s, from, n) && Mark(e) && MayFollow(w, s.log, from, e)
    requires t.log == s.log + [e] && t.stop == s.stop && Unmarked(t, r)
    ensures from <= |r.log| && Governed(w, r.log, from) && Marks(r.log, from) == n + 1 && r.log[|s.log|] == e
    ensures r.stop || !HaltedIn(r.log, from, |r.log|)
    ensures AllServed(w, r.log, from, |s.log|)
    ensures forall y :: from <= y < |r.log| && Mark(r.log[y]) ==> AllServed(w, r.log, from, y)
  {
    hide MayFollow, Served, Core, WakeFirst, AuditedIn;
    GovernedMark(w, s.log, from, e);
    GovernedStretch(w, t, r, from);
    StillServed(w, s.log, r.log, from, |s.log|);
    assert r.log[|s.log|] == t.log[|s.log|];
    assert forall x :: 0 <= x < |t.log| ==> r.log[x] == t.log[x];
  }

  lemma PassMayFollow(w: World, before: seq<Event>, from: nat, e: Event)
    requires e.PassBegun? && Marks(before, from) % 3 != 1 && w.clock(e.call).Reading? && HaltsAreRecent(before, from)
    ensures MayFollow(w, before, from, e)
  {
  }

  ghost predicate SpentBy(log: seq<Event>, x: nat, e: Event, budget: nat) {
    x < |log| && log[x] == e && (forall y :: x < y < |log| ==> !Mark(log[y])) && Turns(log, x) == budget
  }

  lemma ClockFault(w: World, s: Loop, from: nat, n: nat, code: Errno)
    requires OnCourse(w, s, from, n) && w.clock(s.step) == ClockError(code)
    ensures Told(w, Fault(s, code), from)
  {
    hide MayFollow, Served, Core, WakeFirst, AuditedIn;
    var r := Fault(s, code);
    UnmarkedNote(s, r, Faulted(code));
    GovernedStretch(w, s, r, from);
    ServedStretch(w, s, r, from);
    assert r.log[..|r.log| - 1] == s.log;
  }

  lemma TurnsFromMark(log: seq<Event>, e: Event)
    requires !e.Turn?
    ensures Turns(log + [e], |log|) == 0
  {
    assert (log + [e])[..|log|] == log;
  }

  lemma WaitsHoldMark(w: World, s: Loop, t: Loop, r: Loop, from: nat, e: Event)
    requires WaitsHold(w, s.log, from) && t.log == s.log + [e] && Unmarked(t, r)
    requires e.WaitBegun? ==> !w.wait(e.call, e.timeout).WaitError?
    ensures WaitsHold(w, r.log, from)
  {
    assert forall x :: 0 <= x < |t.log| ==> r.log[x] == t.log[x];
  }

  lemma NoFaultsMark(s: Loop, t: Loop, r: Loop, from: nat, e: Event)
    requires from <= |s.log| && (forall x :: from <= x < |s.log| ==> !s.log[x].Faulted?)
    requires t.log == s.log + [e] && Mark(e) && NoFaults(t, r)
    ensures forall x :: from <= x < |r.log| ==> !r.log[x].Faulted?
  {
    assert forall x :: 0 <= x < |t.log| ==> r.log[x] == t.log[x];
  }

  /** All passes are served if those before the last mark are and the last one is. */
  lemma ServedAfterMark(w: World, t: Loop, r: Loop, from: nat, x: nat)
    requires x < |t.log| == x + 1 && Unmarked(t, r) && AllServed(w, r.log, from, x)
    requires r.log[x].PassBegun? ==> Served(w, r.log, x)
    ensures AllServed(w, r.log, from, |r.log|)
  {
    hide Served;
  }

  /** The marked stretch of a pass ends well or shows why not. */
  lemma PassTold(w: World, s: Loop, t: Loop, r: Passed, from: nat, n: nat, e: Event)
    requires OnCourse(w, s, from, n) && n % 3 != 1 && e.PassBegun? && MayFollow(w, s.log, from, e)
    requires t.log == s.log + [e] && t.stop == s.stop && Unmarked(t, r.loop)
    requires r.loop.log == t.log || Blamed(w, r.loop, from)
    requires r.outcome == Finished(0) ==> NoFaults(t, r.loop) && Inv(r.loop.mem) && Audited(r.loop, NULL)
    requires r.outcome == Finished(0) && r.loop.log[|s.log|].PassBegun? ==> Served(w, r.loop.log, |s.log|)
    ensures Told(w, r.loop, from) && (r.outcome == Finished(0) ==> OnCourse(w, r.loop, from, n + 1))
  {
    hide MayFollow, Served, AllServed, Core, WakeFirst, AuditedIn, Explained, Governed, Unmarked, HaltedIn, WaitsHold,
      NoFaults, HaltsAreRecent, Marks;
    MarkedStretch(w, s, t, r.loop, from, n, e);
    WaitsHoldMark(w, s, t, r.loop, from, e);
    WaitsHoldTold(w, r.loop.log, from);
    if r.outcome == Finished(0) {
      NoFaultsMark(s, t, r.loop, from, e);
      ServedAfterMark(w, t, r.loop, from, |s.log|);
    }
  }

  lemma WaitsHoldTold(w: World, log: seq<Event>, from: nat)
    requires WaitsHold(w, log, from)
    ensures WaitsTold(w, log, from)
  {
  }

  /** A pass that begins where it may: afterwards the run goes on, or its log shows why not. */
  lemma TimerPhaseCourse(s: Loop, w: World, budget: nat, from: nat, n: nat)
    requires OnCourse(w, s, from, n) && n % 3 != 1 && HaltsAreRecent(s.log, from)
    ensures var r := TimerPhase(s, w, budget);
            && Told(w, r.loop, from)
            && (r.outcome == Finished(0) ==> OnCourse(w, r.loop, from, n + 1))
            && (r.outcome == Unfinished ==> SpentBy(r.loop.log, |s.log|, PassBegun(s.step, |s.mem.list|), budget))
  {
    hide MayFollow, Served, Core, WakeFirst, AuditedIn, Pass, Governed, AllServed, Told, Marks, Turns, Explained,
      HaltedIn, HaltsAreRecent;
    TimerPhaseAudited(s, w, budget);
    match w.clock(s.step)
    case ClockError(code) => ClockFault(w, s, from, n, code);
    case Reading(now) =>
      var t, r, e := Begun(s), TimerPhase(s, w, budget), PassBegun(s.step, |s.mem.list|);
      PassMayFollow(w, s.log, from, e);
      PassUnmarked(t, w, now, 0, budget);
      PassFaults(t, w, now, 0, budget, from);
      PassServes(s, w, budget);
      PassTold(w, s, t, r, from, n, e);
      BudgetUsedUp(t, w, now, 0, budget, |s.log|);
      TurnsFromMark(s.log, e);
      assert r.loop.log[|s.log|] == t.log[|s.log|];
  }

  /** A wait that begins where it may, likewise. */
  lemma WaitPhaseCourse(s: Loop, w: World, timeout: int, from: nat, n: nat)
    requires OnCourse(w, s, from, n) && MayFollow(w, s.log, from, WaitBegun(s.step, timeout))
    ensures var r := WaitPhase(s, w, timeout);
            && Told(w, r.loop, from)
            && (r.code == 0 ==> OnCourse(w, r.loop, from, n + 1))
  {
    hide MayFollow, Served, AllServed, Core, WakeFirst, AuditedIn, Batch, Governed, Told, Marks, Explained,
      HaltedIn, HaltsAreRecent, Grows;
    var t, r, e := Entered(s, timeout), WaitPhase(s, w, timeout), WaitBegun(s.step, timeout);
    WaitPhaseAudited(s, w, timeout);
    GrowsKeepsWake(s.mem, r.loop.mem, NULL);
    match w.wait(s.step, timeout)
    case WaitError(code) => WaitFault(w, s, t, r.loop, from, n, e, code);
    case Interrupted =>
      UnmarkedSelf(t);
      NoFaultsSelf(t);
      WaitTold(w, s, t, r, from, n, e);
    case Ready(raw) =>
      FromRegistry(s.mem, raw);
      BatchUnmarked(t, w, Truncated(Select(s.mem.registry, raw)));
      BatchFaults(t, w, Truncated(Select(s.mem.registry, raw)));
      WaitTold(w, s, t, r, from, n, e);
  }

  lemma WaitTold(w: World, s: Loop, t: Loop, r: Reply, from: nat, n: nat, e: Event)
    requires OnCourse(w, s, from, n) && e.WaitBegun? && MayFollow(w, s.log, from, e) && !w.wait(e.call, e.timeout).WaitError?
    requires t.log == s.log + [e] && t.stop == s.stop && Unmarked(t, r.loop) && NoFaults(t, r.loop)
    requires Inv(r.loop.mem) && Audited(r.loop, NULL)
    ensures Told(w, r.loop, from) && OnCourse(w, r.loop, from, n + 1)
  {
    hide Served, AllServed, Core, WakeFirst, AuditedIn, Explained, Governed, Unmarked, HaltedIn, WaitsHold, NoFaults,
      HaltsAreRecent, Marks, TimeoutFor;
    MarkedStretch(w, s, t, r.loop, from, n, e);
    WaitsHoldMark(w, s, t, r.loop, from, e);
    WaitsHoldTold(w, r.loop.log, from);
    NoFaultsMark(s, t, r.loop, from, e);
    StretchStart(t, r.loop, |s.log|);
    ServedAfterMark(w, t, r.loop, from, |s.log|);
    WaitKeepsHaltsRecent(s, t, r.loop, from, e);
  }

  lemma StretchStart(t: Loop, r: Loop, x: nat)
    requires x < |t.log| && Unmarked(t, r)
    ensures x < |r.log| && r.log[x] == t.log[x]
  {
  }

  lemma WaitKeepsHaltsRecent(s: Loop, t: Loop, r: Loop, from: nat, e: Event)
    requires !HaltedIn(s.log, from, |s.log|) && t.log == s.log + [e] && Mark(e) && Unmarked(t, r)
    ensures HaltsAreRecent(r.log, from)
  {
    assert forall x :: 0 <= x < |t.log| ==> r.log[x] == t.log[x];
    assert forall x :: 0 <= x < |s.log| ==> r.log[x] == s.log[x];
  }

  lemma WaitFault(w: World, s: Loop, t: Loop, r: Loop, from: nat, n: nat, e: Event, code: Errno)
    requires OnCourse(w, s, from, n) && e.WaitBegun? && MayFollow(w, s.log, from, e)
    requires w.wait(e.call, e.timeout) == WaitError(code)
    requires t.log == s.log + [e] && t.stop == s.stop && r.log == t.log + [Faulted(code)]
    requires r.stop == t.stop && r.step == e.call + 1
    ensures Told(w, r, from)
  {
    hide MayFollow, Served, Core, WakeFirst, AuditedIn, Governed, HaltedIn, HaltsAreRecent, Marks, AllServed;
    UnmarkedNote(t, r, Faulted(code));
    MarkedStretch(w, s, t, r, from, n, e);
    assert r.log[..|r.log| - 1] == t.log;
  }

  // --------------------------------------------------------------------- whole runs

  /** How a round leaves the run: it goes on with three more marks, ends well, or its log shows why not. */
  ghost predicate RoundTold(w: World, r: Round, from: nat, n: nat, budget: nat -> nat) {
    match r.flow
    case Continue => OnCourse(w, r.loop, from, n + 3)
    case Leave(outcome) =>
      && Told(w, r.loop, from)
      && (outcome == Finished(0) ==> OnCourse(w, r.loop, from, n + 1))
      && (outcome == Unfinished ==> BudgetSpent(r.loop.log, from, budget))
  }

  lemma CompactCourse(w: World, s: Loop, from: nat, n: nat)
    requires OnCourse(w, s, from, n) && n % 3 != 2
    ensures OnCourse(w, Compact(s), from, n) && Compact(s).stop == s.stop
  {
    hide Core, WakeFirst, AuditedIn, Governed, AllServed, WaitsHold, HaltedIn, HaltsAreRecent, Marks, Compacted;
    CompactUnmarked(s);
    CompactAudited(s);
    OnCourseStretch(w, s, Compact(s), from, n);
  }

  lemma SpentIsSpent(log: seq<Event>, from: nat, x: nat, e: Event, budget: nat -> nat)
    requires from <= x && e.PassBegun? && SpentBy(log, x, e, budget(e.listed))
    ensures BudgetSpent(log, from, budget)
  {
  }

  lemma AfterWaitCourse(s: Loop, w: World, budget: nat -> nat, from: nat, n: nat)
    requires OnCourse(w, s, from, n + 2) && n % 3 == 0
    ensures RoundTold(w, AfterWait(s, w, budget), from, n, budget)
  {
    hide Core, WakeFirst, AuditedIn, Governed, AllServed, WaitsHold, HaltedIn, HaltsAreRecent, Marks, Compact,
      TimerPhase, Told, SpentBy, BudgetSpent;
    var t := TimerPhase(s, w, budget(|s.mem.list|));
    TimerPhaseCourse(s, w, budget(|s.mem.list|), from, n + 2);
    if t.outcome == Finished(0) {
      CompactCourse(w, t.loop, from, n + 3);
    } else if t.outcome == Unfinished {
      SpentIsSpent(t.loop.log, from, |s.log|, PassBegun(s.step, |s.mem.list|), budget);
    }
  }

  lemma WaitHalfCourse(s: Loop, w: World, timeout: int, budget: nat -> nat, from: nat, n: nat)
    requires OnCourse(w, s, from, n + 1) && n % 3 == 0 && MayFollow(w, s.log, from, WaitBegun(s.step, timeout))
    ensures RoundTold(w, WaitHalf(s, w, timeout, budget), from, n, budget)
  {
    hide Core, WakeFirst, AuditedIn, Governed, AllServed, WaitsHold, HaltedIn, HaltsAreRecent, Marks, WaitPhase,
      AfterWait, Told, BudgetSpent, MayFollow, Grows;
    WaitPhaseCourse(s, w, timeout, from, n + 1);
    var waited := WaitPhase(s, w, timeout);
    GrowsKeepsWake(s.mem, waited.loop.mem, NULL);
    if waited.code == 0 {
      AfterWaitCourse(waited.loop, w, budget, from, n);
    }
  }

  lemma TickCourse(w: World, s: Loop, r: Loop, from: nat, n: nat)
    requires OnCourse(w, s, from, n) && r.mem == s.mem && r.log == s.log && (s.stop ==> r.stop)
    ensures OnCourse(w, r, from, n)
  {
    hide Core, WakeFirst, Governed, AllServed, WaitsHold, HaltedIn, HaltsAreRecent, Marks;
  }

  lemma WaitMayFollow(w: World, s: Loop, from: nat, n: nat)
    requires OnCourse(w, s, from, n + 1) && n % 3 == 0 && !s.stop && w.clock(s.step).Reading?
    ensures MayFollow(w, s.log, from, WaitBegun(s.step + 1, Timeout(s.mem, w.clock(s.step).ns)))
  {
    hide Core, WakeFirst, AuditedIn, Governed, AllServed, WaitsHold, HaltedIn, HaltsAreRecent, Marks, Timeout, TimeoutFor;
    TimeoutFromHistory(s, w.clock(s.step).ns);
  }

  lemma AfterPassCourse(s: Loop, w: World, budget: nat -> nat, from: nat, n: nat)
    requires OnCourse(w, s, from, n + 1) && n % 3 == 0
    ensures RoundTold(w, AfterPass(s, w, budget), from, n, budget)
  {
    hide Core, WakeFirst, OnCourse, HaltedIn, Compact, WaitHalf, Timeout, Told, BudgetSpent, MayFollow, Deserted;
    OnCourseSane(w, s, from, n + 1);
    var s1 := ReadStop(s, w);
    TickCourse(w, s, s1, from, n + 1);
    OnCourseTold(w, s1, from, n + 1);
    if !s1.stop {
      var s2 := Compact(s1);
      CompactCourse(w, s1, from, n + 1);
      OnCourseTold(w, s2, from, n + 1);
      if !Deserted(s2.mem) {
        match w.clock(s2.step)
        case ClockError(code) => ClockFault(w, s2, from, n + 1, code);
        case Reading(now) =>
          WaitMayFollow(w, s2, from, n);
          TickCourse(w, s2, Tick(s2), from, n + 1);
          WaitHalfCourse(Tick(s2), w, Timeout(s2.mem, now), budget, from, n);
      }
    }
  }

  lemma OnCourseSane(w: World, s: Loop, from: nat, n: nat)
    requires OnCourse(w, s, from, n)
    ensures Inv(s.mem) && from <= |s.log| && Marks(s.log, from) == n
    ensures s.stop || HaltsAreRecent(s.log, from)
  {
    hide Core, WakeFirst, AuditedIn, Governed, AllServed, WaitsHold, Marks;
  }

  lemma OneRoundCourse(s: Loop, w: World, budget: nat -> nat, from: nat, n: nat)
    requires OnCourse(w, s, from, n) && n % 3 == 0 && !s.stop
    ensures RoundTold(w, OneRound(s, w, budget), from, n, budget)
  {
    hide Core, WakeFirst, OnCourse, HaltsAreRecent, TimerPhase, AfterPass, Told, BudgetSpent, SpentBy;
    OnCourseSane(w, s, from, n);
    var t := TimerPhase(s, w, budget(|s.mem.list|));
    TimerPhaseCourse(s, w, budget(|s.mem.list|), from, n);
    if t.outcome == Finished(0) {
      AfterPassCourse(t.loop, w, budget, from, n);
    } else if t.outcome == Unfinished {
      SpentIsSpent(t.loop.log, from, |s.log|, PassBegun(s.step, |s.mem.list|), budget);
    }
  }

  /** What the log of a whole run shows, in the light of how the run ended. */
  ghost predicate RunTold(w: World, r: Passed, from: nat, rounds: nat, budget: nat -> nat) {
    && Told(w, r.loop, from)
    && (r.outcome == Finished(0) ==> AllServed(w, r.loop.log, from, |r.loop.log|) && Marks(r.loop.log, from) % 3 != 2)
    && (r.outcome == Unfinished ==>
          || BudgetSpent(r.loop.log, from, budget)
          || (Marks(r.loop.log, from) == 3 * rounds && !HaltedIn(r.loop.log, from, |r.loop.log|)))
  }

  lemma {:induction false} RoundsCourse(s: Loop, w: World, rounds: nat, budget: nat -> nat, from: nat, done: nat)
    requires OnCourse(w, s, from, 3 * done)
    ensures RunTold(w, Rounds(s, w, rounds, budget), from, done + rounds, budget)
    decreases rounds
  {
    hide Core, WakeFirst, OnCourse, Told, BudgetSpent, OneRound, Deserted, AllServed, Marks, HaltedIn;
    OnCourseSane(w, s, from, 3 * done);
    var s1 := ReadStop(s, w);
    TickCourse(w, s, s1, from, 3 * done);
    EndsWell(w, s1, from, 3 * done);
    if !s1.stop && !Deserted(s1.mem) && rounds > 0 {
      OneRoundCourse(s1, w, budget, from, 3 * done);
      var round := OneRound(s1, w, budget);
      if round.flow.Continue? {
        RoundsCourse(round.loop, w, rounds - 1, budget, from, done + 1);
      } else if round.flow.outcome == Finished(0) {
        EndsWell(w, round.loop, from, 3 * done + 1);
      }
    }
  }

  lemma EndsWell(w: World, s: Loop, from: nat, n: nat)
    requires OnCourse(w, s, from, n)
    ensures Told(w, s, from) && AllServed(w, s.log, from, |s.log|) && Marks(s.log, from) == n
    ensures s.stop || !HaltedIn(s.log, from, |s.log|)
  {
    hide Core, WakeFirst, AuditedIn, Governed, AllServed, WaitsHold, Marks, HaltedIn;
    OnCourseTold(w, s, from, n);
  }

  /**
   The course of every run.  Its marks come in rounds of pass, wait and pass.  After a
   callback has asked to stop there is no wait and at most one pass, and the run does
   not end for want of rounds.  Every wait has the timeout that the histories call
   for.  Every pass that another mark follows, and the last one too if the run
   returns 0, has served everybody due.  A wait that fails is the last thing a run
   does, and a fault at the end is that of the last outside call.
   */
  lemma RunCourse(s: Loop, w: World, rounds: nat, budget: nat -> nat)
    requires Inv(s.mem) && Audited(s, NULL)
    ensures RunTold(w, Run(s, w, rounds, budget), |s.log|, rounds, budget)
  {
    hide Core, WakeFirst, RunTold;
    var t := s.(stop := false);
    assert OnCourse(w, t, |s.log|, 0);
    RoundsCourse(t, w, rounds, budget, |s.log|, 0);
  }
}
