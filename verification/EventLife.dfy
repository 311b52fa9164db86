/**
 What an unbroken log promises, and the theorem that every session of the loop,
 from creation to destruction, leaves one.
 */
module EventLife {
  import opened Limits
  import opened Timing
  import opened EventModel
  import opened EventRun
  import opened EventAudit
  import opened EventCalm
  import opened EventHistory
  import opened EventRounds

  // -------------------------------------------------------------- unbroken logs

  /** A broken history never mends, so every prefix of an unbroken log is unbroken. */
  lemma {:induction false} PrefixUnbroken(log: seq<Event>, p: Ptr, n: nat)
    requires n <= |log| && !Replay(log, p).Broken?
    ensures !Replay(log[..n], p).Broken?
  {
    if n == |log| {
      assert log[..n] == log;
    } else {
      var k := |log| - 1;
      PrefixUnbroken(log[..k], p, n);
      assert log[..k][..n] == log[..n];
    }
  }

  function Births(log: seq<Event>, p: Ptr): nat {
    if log == [] then 0
    else Births(log[..|log| - 1], p) + if log[|log| - 1].Born? && log[|log| - 1].p == p then 1 else 0
  }

  function Releases(log: seq<Event>, p: Ptr): nat {
    if log == [] then 0
    else Releases(log[..|log| - 1], p) + if log[|log| - 1] == Freed(p) then 1 else 0
  }

  /** Each allocation at an address is freed once before the next, and never twice. */
  lemma {:induction false} FreedOncePerBirth(log: seq<Event>, p: Ptr)
    requires !Replay(log, p).Broken?
    ensures Births(log, p) == Releases(log, p) + if Replay(log, p).Absent? then 0 else 1
  {
    if log != [] {
      FreedOncePerBirth(log[..|log| - 1], p);
    }
  }

  /** Between the removal of a source and a dispatch at its address, the address was freed and then allocated again. */
  lemma {:induction false} NoDispatchAfterRemoval(log: seq<Event>, p: Ptr, i: nat, j: nat)
    requires i < j < |log| && log[i] == Removed(p) && log[j].Fired? && log[j].p == p
    requires !Replay(log, p).Broken?
    ensures exists f, k :: i < f < k < j && log[f] == Freed(p) && log[k].Born? && log[k].p == p
  {
    PrefixUnbroken(log, p, j + 1);
    assert log[..j + 1][..j] == log[..j];
    if forall k :: i < k < j ==> !(log[k].Born? && log[k].p == p) {
      NotLiveUntilBorn(log, p, i, j);
    } else {
      var k :| i < k < j && log[k].Born? && log[k].p == p;
      PrefixUnbroken(log, p, k + 1);
      assert log[..k + 1][..k] == log[..k];
      if forall f :: i < f < k ==> log[f] != Freed(p) {
        AllocatedUntilFreed(log, p, i, k);
      }
    }
  }

  lemma {:induction false} NotLiveUntilBorn(log: seq<Event>, p: Ptr, i: nat, j: nat)
    requires i < j <= |log| && log[i] == Removed(p)
    requires forall k :: i < k < j ==> !(log[k].Born? && log[k].p == p)
    ensures !Replay(log[..j], p).Live?
  {
    assert log[..j][..j - 1] == log[..j - 1];
    if j > i + 1 {
      NotLiveUntilBorn(log, p, i, j - 1);
    }
  }

  lemma {:induction false} AllocatedUntilFreed(log: seq<Event>, p: Ptr, i: nat, j: nat)
    requires i < j <= |log| && log[i] == Removed(p)
    requires forall f :: i < f < j ==> log[f] != Freed(p)
    ensures !Replay(log[..j], p).Absent?
  {
    assert log[..j][..j - 1] == log[..j - 1];
    if j > i + 1 {
      AllocatedUntilFreed(log, p, i, j - 1);
    }
  }

  // ------------------------------------------------------------------ one shots

  predicate OneShot(kind: Kind, interval: U64) {
    kind.Process? || (kind.Timer? && interval == 0)
  }

  /** The source last allocated at `p` is a process source or a timer without an interval. */
  predicate OneShotAt(log: seq<Event>, p: Ptr) {
    if log == [] then false
    else
      var e := log[|log| - 1];
      if e.Born? && e.p == p then OneShot(e.kind, e.interval) else OneShotAt(log[..|log| - 1], p)
  }

  /** What can be counted in the life of a source: callbacks, those that returned 0 or not, and what follows them. */
  datatype Count = Firings | Successes | Failures | Rearmings | Spins

  predicate Counted(e: Event, c: Count) {
    match c
    case Firings => e.Fired?
    case Successes => e.Fired? && e.result == 0
    case Failures => e.Fired? && e.result != 0
    case Rearmings => e.Rearmed?
    case Spins => e.Spun?
  }

  /** How often that happened to the source last allocated at `p`. */
  function Tally(log: seq<Event>, p: Ptr, c: Count): nat {
    if log == [] then 0
    else
      var e := log[|log| - 1];
      if e.Born? && e.p == p then 0 else Tally(log[..|log| - 1], p, c) + if Counted(e, c) && e.p == p then 1 else 0
  }

  lemma {:induction false} ShotsAreSuccesses(log: seq<Event>, p: Ptr)
    requires !Replay(log, p).Broken? && p != NULL
    ensures var l := Replay(log, p);
            l.Live? && !l.kind.Socket? ==> l.shots == Tally(log, p, Successes) && OneShotAt(log, p) == OneShot(l.kind, l.interval)
    ensures var l := Replay(log, p);
            l.Live? && l.kind.Socket? ==> !OneShotAt(log, p)
    ensures var l := Replay(log, p);
            l.Live? && OneShot(l.kind, l.interval) ==> l.shots == if l.stage.Serving? then 1 else 0
    ensures OneShotAt(log, p) ==> Tally(log, p, Successes) <= 1
  {
    if log != [] {
      ShotsAreSuccesses(log[..|log| - 1], p);
    }
  }

  /** A one-shot timer and a process source fire successfully at most once in their life. */
  lemma AtMostOnce(log: seq<Event>, p: Ptr)
    requires !Replay(log, p).Broken? && p != NULL && OneShotAt(log, p)
    ensures Tally(log, p, Successes) <= 1
  {
    ShotsAreSuccesses(log, p);
  }

  /** Once a callback of a one-shot source has returned 0, its history stays in service until it ends. */
  lemma {:induction false} InServiceUntilBorn(log: seq<Event>, p: Ptr, i: nat, j: nat)
    requires i < j <= |log| && log[i].Fired? && log[i].p == p && log[i].result == 0 && p != NULL
    requires OneShotAt(log[..i], p) && !Replay(log[..j], p).Broken?
    requires forall k :: i < k < j ==> !(log[k].Born? && log[k].p == p)
    ensures var l := Replay(log[..j], p); l.Live? ==> OneShot(l.kind, l.interval) && l.stage.Serving?
  {
    assert log[..j][..j - 1] == log[..j - 1];
    PrefixUnbroken(log[..j], p, j - 1);
    if j > i + 1 {
      InServiceUntilBorn(log, p, i, j - 1);
    } else {
      ShotsAreSuccesses(log[..i], p);
    }
  }

  /**
   A one-shot source fires again only if it failed: between a callback that returned
   0 and any later callback at its address, the address was allocated anew.
   */
  lemma SuccessIsFinal(log: seq<Event>, p: Ptr, i: nat, j: nat)
    requires i < j < |log| && log[i].Fired? && log[i].p == p && log[j].Fired? && log[j].p == p && p != NULL
    requires OneShotAt(log[..i], p) && log[i].result == 0 && !Replay(log, p).Broken?
    ensures exists k :: i < k < j && log[k].Born? && log[k].p == p
  {
    PrefixUnbroken(log, p, j + 1);
    PrefixUnbroken(log, p, j);
    assert log[..j + 1][..j] == log[..j];
    if forall k :: i < k < j ==> !(log[k].Born? && log[k].p == p) {
      InServiceUntilBorn(log, p, i, j);
    }
  }

  /** A history is in the answered stage only straight after a poll that found something. */
  lemma {:induction false} AnsweredByPoll(log: seq<Event>, p: Ptr)
    requires Replay(log, p).Live? && Replay(log, p).stage.Answered? && p != NULL
    ensures exists i :: 0 <= i < |log| && log[i].Polled? && log[i].p == p && log[i].ready
                        && forall m :: i < m < |log| ==> Subject(log[m]) != p
  {
    var n := |log| - 1;
    if Subject(log[n]) == p {
      assert log[n].Polled? && log[n].ready;
    } else {
      AnsweredByPoll(log[..n], p);
      var i :| 0 <= i < n && log[..n][i].Polled? && log[..n][i].p == p && log[..n][i].ready
               && forall m :: i < m < n ==> Subject(log[..n][m]) != p;
      assert log[i].Polled? && log[i].p == p && log[i].ready;
      forall m | i < m < |log|
        ensures Subject(log[m]) != p
      {
        assert m < n ==> log[..n][m] == log[m];
      }
    }
  }

  /** A process callback runs only after a poll of that very source reported completion. */
  lemma ProcessFiresAfterCompletion(log: seq<Event>, p: Ptr, j: nat)
    requires j < |log| && log[j].Fired? && log[j].p == p && p != NULL && !Replay(log, p).Broken?
    requires Replay(log[..j], p).Live? && Replay(log[..j], p).kind.Process?
    ensures exists i :: 0 <= i < j && log[i].Polled? && log[i].p == p && log[i].ready
                        && forall m :: i < m < j ==> Subject(log[m]) != p
  {
    PrefixUnbroken(log, p, j + 1);
    assert log[..j + 1][..j] == log[..j];
    AnsweredByPoll(log[..j], p);
    var i :| 0 <= i < j && log[..j][i].Polled? && log[..j][i].p == p && log[..j][i].ready
             && forall m :: i < m < j ==> Subject(log[..j][m]) != p;
    assert log[i].Polled? && log[i].p == p && log[i].ready;
    forall m | i < m < j
      ensures Subject(log[m]) != p
    {
      assert log[..j][m] == log[m];
    }
  }

  // ---------------------------------------------------------- drift-free timers

  /** How many times the reschedule loop has added the interval to the due time of the source last allocated at `p`. */
  ghost function Additions(log: seq<Event>, p: Ptr): nat {
    if log == [] then 0
    else
      var n := |log| - 1;
      var e, l := log[n], Replay(log[..n], p);
      if e.Born? && e.p == p then 0
      else
        Additions(log[..n], p)
        + if e.Rearmed? && e.p == p && Moving(l) && Ends(l.due, l.interval, l.stage.now)
          then Exit(l.due, l.interval, l.stage.now) else 0
  }

  /**
   The due time is where the additions made so far lead in 64 bits.  Every success
   has been followed by one rearming, of at least one addition, or by an endless
   reschedule, unless it is still in service.
   */
  ghost predicate OnCircle(log: seq<Event>, p: Ptr)
    requires Replay(log, p).Live?
  {
    var l := Replay(log, p);
    && l.due == Wrapped(l.first, l.interval, Additions(log, p))
    && Tally(log, p, Successes) == Tally(log, p, Rearmings) + Tally(log, p, Spins) + (if l.stage.Serving? then 1 else 0)
    && Tally(log, p, Rearmings) <= Additions(log, p)
  }

  /** Every due time of a repeating timer is, in 64 bits, its first due time plus one interval per addition made. */
  lemma {:induction false} DriftFree(log: seq<Event>, p: Ptr)
    requires Replay(log, p).Live? && Replay(log, p).kind.Timer? && 0 < Replay(log, p).interval && p != NULL
    ensures OnCircle(log, p)
  {
    hide Wrapped, FirstDue, Ends;
    var n := |log| - 1;
    var e, l := log[n], Replay(log[..n], p);
    if Subject(e) == p && e.Born? {
      NoTurns(e.due, e.interval);
    } else {
      DriftFree(log[..n], p);
      if Subject(e) == p && e.Rearmed? {
        WrappedAdd(l.first, l.interval, Additions(log[..n], p), Exit(l.due, l.interval, l.stage.now));
      }
    }
  }

  /** A rearmed timer gets the next slot of its grid exactly when that slot is representable in 64 bits. */
  lemma RearmExactIff(log: seq<Event>, p: Ptr, j: nat)
    requires j < |log| && log[j].Rearmed? && log[j].p == p && !Replay(log, p).Broken?
    requires Replay(log[..j], p).Live? && Replay(log[..j], p).kind.Timer?
    ensures var l := Replay(log[..j], p);
            && Moving(l)
            && (log[j].due == NextSlot(l.due, l.interval, l.stage.now) <==> NextSlot(l.due, l.interval, l.stage.now) < TWO64)
  {
    PrefixUnbroken(log, p, j + 1);
    assert log[..j + 1][..j] == log[..j];
    var l := Replay(log[..j], p);
    RescheduleExactIff(l.due, l.interval, l.stage.now);
  }

  lemma {:induction false} CalmLife(log: seq<Event>, p: Ptr, horizon: nat)
    requires CalmLog(log, horizon) && Replay(log, p).Live? && Replay(log, p).kind.Timer?
    ensures var l := Replay(log, p); l.interval + horizon <= TWO64 && (l.stage.Serving? ==> l.stage.now < horizon)
  {
    var n := |log| - 1;
    assert CalmEvent(log[n], horizon);
    if !(Subject(log[n]) == p && log[n].Born?) {
      CalmLife(log[..n], p, horizon);
    }
  }

  /** Without wrap, every due time of a repeating timer is its first due time plus one interval per addition made. */
  lemma {:induction false} OnGrid(log: seq<Event>, p: Ptr, horizon: nat)
    requires Replay(log, p).Live? && Replay(log, p).kind.Timer? && 0 < Replay(log, p).interval && CalmLog(log, horizon)
    ensures var l := Replay(log, p); l.due == Slot(l.first, l.interval, Additions(log, p))
  {
    hide Slot, NextSlot, FirstDue, Rescheduled, Ends;
    var n := |log| - 1;
    var e, l := log[n], Replay(log[..n], p);
    assert CalmEvent(e, horizon);
    if !(Subject(e) == p && e.Born?) {
      OnGrid(log[..n], p, horizon);
      if Subject(e) == p && e.Rearmed? {
        CalmLife(log[..n], p, horizon);
        FitsEnds(l.due, l.interval, l.stage.now, horizon);
        SlotsAdd(l.first, l.interval, Additions(log[..n], p), Exit(l.due, l.interval, l.stage.now));
      }
    }
  }

  /** No callback at `p` ran after `t`. */
  ghost predicate FiredBy(log: seq<Event>, p: Ptr, t: nat) {
    forall i :: 0 <= i < |log| && log[i].Fired? && log[i].p == p ==> log[i].now <= t
  }

  lemma {:induction false} CalmCounts(log: seq<Event>, p: Ptr, horizon: nat)
    requires CalmLog(log, horizon)
    ensures Tally(log, p, Spins) == 0
    ensures Tally(log, p, Firings) == Tally(log, p, Successes) + Tally(log, p, Failures)
  {
    if log != [] {
      assert CalmEvent(log[|log| - 1], horizon);
      CalmCounts(log[..|log| - 1], p, horizon);
    }
  }

  /**
   Without wrap, up to any time `t` a repeating timer has succeeded at most once per
   slot due by `t`; what it has fired beyond that are failures, after which the same
   slot stays due.
   */
  lemma {:induction false} FiringsWithinSlots(log: seq<Event>, p: Ptr, t: nat, horizon: nat)
    requires Replay(log, p).Live? && Replay(log, p).kind.Timer? && 0 < Replay(log, p).interval && p != NULL
    requires FiredBy(log, p, t) && CalmLog(log, horizon)
    ensures var slots := SlotsBy(Replay(log, p).first, Replay(log, p).interval, t);
            Tally(log, p, Successes) <= slots && Tally(log, p, Firings) <= slots + Tally(log, p, Failures)
  {
    hide Slot, SlotsBy, Ends, Additions;
    CalmCounts(log, p, horizon);
    var n := |log| - 1;
    var e, l := log[n], Replay(log[..n], p);
    if !(e.Born? && e.p == p) {
      FiringsWithinSlots(log[..n], p, t, horizon);
      if e.Fired? && e.p == p && e.result == 0 {
        DriftFree(log[..n], p);
        CalmCounts(log[..n], p, horizon);
        OnGrid(log[..n], p, horizon);
        SlotDueIff(l.first, l.interval, Additions(log[..n], p), t);
      }
    }
  }

  // ---------------------------------------------------------------- whole lives

  /**
   Every life of a loop: create it, use it in any way, destroy it.  Throughout, the
   kernel's table holds exactly the active sockets and the wake source stays at
   index 0; the history of every address is unbroken and agrees with the heap; and
   destruction gives back every address.  A session that hangs in a reschedule loop
   is part of this: it ends there, and everything up to that point is as promised.
   */
  lemma WholeLife(w: World, wake: Handle, calls: seq<Call>)
    ensures Create(w, wake).code == 0 ==>
            var s := Session(Create(w, wake).loop, w, calls);
            && BackendAgrees(s.mem) && WakeFirst(s.mem)
            && (forall p: Ptr :: Agrees(Replay(s.log, p), s.mem.heap, p, NULL))
            && (forall p: Ptr :: Replay(Destroy(s).log, p) == Absent)
            && (forall p: Ptr :: Births(Destroy(s).log, p) == Releases(Destroy(s).log, p))
  {
    if Create(w, wake).code == 0 {
      CreateAudited(w, wake);
      SessionAudited(Create(w, wake).loop, w, calls);
      var s := Session(Create(w, wake).loop, w, calls);
      DestroyAudited(s);
      forall p: Ptr
        ensures Births(Destroy(s).log, p) == Releases(Destroy(s).log, p)
      {
        FreedOncePerBirth(Destroy(s).log, p);
      }
    }
  }

  predicate FiresAt(e: Event, p: Ptr) { e.Fired? && e.p == p }

  /** A callback of a one-shot source that returned 0 is its last. */
  ghost predicate FinalSuccesses(log: seq<Event>, p: Ptr) {
    forall i, j :: (0 <= i < j < |log| && FiresAt(log[i], p) && log[i].result == 0
                    && FiresAt(log[j], p) && OneShotAt(log[..i], p)) ==>
      exists k :: i < k < j && log[k].Born? && log[k].p == p
  }

  /** Straight before `j`, as far as `p` is concerned, a poll of `p` found something. */
  ghost predicate JustPolled(log: seq<Event>, p: Ptr, j: nat)
    requires j <= |log|
  {
    exists i :: 0 <= i < j && log[i].Polled? && log[i].p == p && log[i].ready && forall m :: i < m < j ==> Subject(log[m]) != p
  }

  /** Every callback of a process source follows a completed poll of it. */
  ghost predicate PolledFirst(log: seq<Event>, p: Ptr) {
    forall j :: 0 <= j < |log| && FiresAt(log[j], p) && Replay(log[..j], p).Live? && Replay(log[..j], p).kind.Process? ==>
      JustPolled(log, p, j)
  }

  lemma UnbrokenPromises(log: seq<Event>, p: Ptr)
    requires !Replay(log, p).Broken? && p != NULL
    ensures FinalSuccesses(log, p) && PolledFirst(log, p)
  {
    hide Replay, OneShotAt;
    forall i, j | 0 <= i < j < |log| && FiresAt(log[i], p) && log[i].result == 0 && FiresAt(log[j], p) && OneShotAt(log[..i], p)
      ensures exists k :: i < k < j && log[k].Born? && log[k].p == p
    {
      SuccessIsFinal(log, p, i, j);
    }
    forall j | 0 <= j < |log| && FiresAt(log[j], p) && Replay(log[..j], p).Live? && Replay(log[..j], p).kind.Process?
      ensures JustPolled(log, p, j)
    {
      ProcessFiresAfterCompletion(log, p, j);
    }
  }

  /** The promises to the owner of one source, kept in every session of every world: see the lemmas above for each. */
  lemma EverySourceIsTreatedWell(w: World, wake: Handle, calls: seq<Call>, p: Ptr)
    requires p != NULL
    ensures Create(w, wake).code == 0 ==>
            var log := Session(Create(w, wake).loop, w, calls).log; var l := Replay(log, p);
            && !l.Broken?
            && (OneShotAt(log, p) ==> Tally(log, p, Successes) <= 1)
            && FinalSuccesses(log, p) && PolledFirst(log, p)
            && (l.Live? && l.kind.Timer? && 0 < l.interval ==> OnCircle(log, p))
            && Births(log, p) == Releases(log, p) + if l.Absent? then 0 else 1
  {
    hide Session, Create, FinalSuccesses, PolledFirst;
    if Create(w, wake).code == 0 {
      CreateAudited(w, wake);
      SessionAudited(Create(w, wake).loop, w, calls);
      var s := Session(Create(w, wake).loop, w, calls);
      AuditAt(s, p, NULL);
      ShotsAreSuccesses(s.log, p);
      FreedOncePerBirth(s.log, p);
      UnbrokenPromises(s.log, p);
      var l := Replay(s.log, p);
      if l.Live? && l.kind.Timer? && 0 < l.interval {
        DriftFree(s.log, p);
      }
    }
  }

  lemma CreateTame(w: World, wake: Handle, horizon: nat)
    ensures Create(w, wake).code == 0 ==> Tame(Create(w, wake).loop, horizon)
  {
    hide WakeFirst, AddSocketTo;
    NewLoopAudited();
    AddSocketTame(NewLoop, w, wake, true, false, horizon);
    if Create(w, wake).code == 0 {
      MarkedTame(AddSocketTo(NewLoop, w, wake, true, false).loop, horizon);
    }
  }

  lemma MarkedTame(s: Loop, horizon: nat)
    requires Core(s.mem) && |s.mem.list| == 1 && s.mem.heap[s.mem.list[0]].kind.Socket? && s.mem.heap[s.mem.list[0]].active
    requires Tame(s, horizon)
    ensures Tame(s.(mem := Marked(s.mem)), horizon)
  {
    hide BackendAgrees, WakeFirst, Distinct;
  }

  /**
   If the clock stays below a horizon above which every timer's delay and interval
   fit, no session hangs, every repeating timer stays on its grid, and up to any
   time its callbacks number at most the slots due by then and its failures.
   */
  lemma CalmSessionsAreDriftFree(w: World, wake: Handle, calls: seq<Call>, p: Ptr, t: nat, horizon: nat)
    requires p != NULL && NoWrap(w, horizon) && CallsFit(calls, horizon)
    ensures Create(w, wake).code == 0 ==>
            var log := Session(Create(w, wake).loop, w, calls).log; var l := Replay(log, p);
            && (forall i :: 0 <= i < |log| ==> !log[i].Spun?)
            && (l.Live? && l.kind.Timer? && 0 < l.interval ==>
                  && l.due == Slot(l.first, l.interval, Additions(log, p))
                  && (FiredBy(log, p, t) ==>
                        && Tally(log, p, Successes) <= SlotsBy(l.first, l.interval, t)
                        && Tally(log, p, Firings) <= SlotsBy(l.first, l.interval, t) + Tally(log, p, Failures)))
  {
    hide Session, Create, NoWrap;
    if Create(w, wake).code == 0 {
      CreateTame(w, wake, horizon);
      SessionTame(Create(w, wake).loop, w, calls, horizon);
      var log := Session(Create(w, wake).loop, w, calls).log;
      assert CalmLog(log, horizon);
      assert forall i :: 0 <= i < |log| ==> CalmEvent(log[i], horizon);
      var l := Replay(log, p);
      if l.Live? && l.kind.Timer? && 0 < l.interval {
        OnGrid(log, p, horizon);
        if FiredBy(log, p, t) {
          FiringsWithinSlots(log, p, t, horizon);
        }
      }
    }
  }

  /** A create that fails has freed whatever it allocated. */
  lemma FailedCreateLeavesNothing(w: World, wake: Handle)
    requires Create(w, wake).code != 0
    ensures forall p: Ptr :: Replay(Create(w, wake).loop.log, p) == Absent
  {
    NewLoopAudited();
    AddSocketAudited(NewLoop, w, wake, true, false, NULL);
    var r := Create(w, wake).loop;
    forall p: Ptr
      ensures Replay(r.log, p) == Absent
    {
      assert Agrees(Replay(r.log, p), r.mem.heap, p, NULL);
    }
  }

  /** No two active socket sources share a handle, whatever was added, removed or refused before. */
  lemma HandlesAreUnique(m: Mem, p: Ptr, q: Ptr)
    requires Core(m) && p in m.heap && q in m.heap
    requires Listens(m.heap[p], m.heap[q].handle) && Listens(m.heap[q], m.heap[p].handle)
    ensures p == q
  {
  }
}
