/**
 Why a timer pass needs a clock that advances: with a clock that stands still and
 a callback that adds a timer without delay, the pass never gets to the end of the
 list that it keeps extending.
 */
module EventSpin {
  import opened Timing
  import opened EventModel
  import opened EventRun
  import EventActions

  /** The clock stands still, allocation succeeds, and each callback adds a timer due at once. */
  const Standstill := World(
    k => Reading(0),
    k => k + 1,
    k => true,
    k => 0,
    k => Reaction([AddTimer(0, 0)], 0),
    k => PollAnswer.Running,
    k => Changes(false, false, false),
    (k, ms) => Interrupted,
    k => false)

  /** The clock stands still at 0 and every request for memory or registration is granted. */
  ghost predicate Obliging(w: World) {
    forall k: nat :: w.clock(k) == Reading(0) && w.malloc(k) == k + 1 && w.realloc(k) && w.epollAdd(k) == 0
  }

  /** Addresses yet to be handed out are free. */
  ghost predicate Unissued(s: Loop) {
    forall p :: p in s.mem.heap ==> p <= s.step
  }

  /** Besides, whatever is timed is a one-shot timer. */
  ghost predicate OnlyOneShots(s: Loop) {
    && (forall p :: p in s.mem.heap && s.mem.heap[p].Timed() ==> s.mem.heap[p].kind.Timer? && s.mem.heap[p].interval == 0)
    && Unissued(s)
  }

  ghost predicate LastIsDue(m: Mem) {
    0 < |m.list| && m.list[|m.list| - 1] in m.heap && Due(m, m.list[|m.list| - 1], 0)
  }

  lemma ReserveWorks(s: Loop, w: World, needed: nat)
    requires Core(s.mem) && Obliging(w)
    ensures var r := Reserve(s, w, needed);
            r.code == 0 && r.loop.mem.heap == s.mem.heap && r.loop.mem.registry == s.mem.registry && s.step <= r.loop.step
  {
    hide Core, Grows, Doubled;
  }

  lemma ArriveWorks(s: Loop, w: World, interval: U64)
    requires Core(s.mem) && |s.mem.list| < s.mem.capacity && Unissued(s) && Obliging(w)
    ensures var r := Arrive(s, w, Timer, 0, interval); var p := s.step + 2;
            && r.loop.mem.list == s.mem.list + [p] && p !in s.mem.heap && r.loop.log == s.log + [Born(p, Timer, 0, interval)]
            && r.loop.mem.heap == s.mem.heap[p := Source(Timer, true, false, 0, 0, interval)] && p <= r.loop.step
  {
    hide Core, Grows;
    assert Usable(s.mem, s.step + 2);
  }

  /** Adding a timer without delay appends one that is due. */
  lemma AddsDueTimer(s: Loop, w: World, every: nat)
    requires Core(s.mem) && Unissued(s) && Obliging(w)
    ensures var r := Act(s, w, AddTimer(0, every)).loop;
            && Unissued(r) && LastIsDue(r.mem) && |r.mem.list| == |s.mem.list| + 1
            && var p := r.mem.list[|s.mem.list|];
               && p !in s.mem.heap && r.mem.heap == s.mem.heap[p := Source(Timer, true, false, 0, 0, MsToNs(every))]
               && r.log == s.log + [Born(p, Timer, 0, MsToNs(every))]
  {
    hide Core, Grows, Reserve, Arrive, Obliging;
    var needed := |s.mem.list| + 1;
    ReserveWorks(s, w, needed);
    assert MsToNs(0) == 0;
    ArriveWorks(Reserve(s, w, needed).loop, w, MsToNs(every));
  }

  lemma CallbackAddsDueTimer(s: Loop)
    requires Core(s.mem)
    ensures React(s, Standstill, [AddTimer(0, 0)]) == Act(s, Standstill, AddTimer(0, 0)).loop
  {
    hide Core, Grows, Act;
    assert [AddTimer(0, 0)][1..] == [];
  }

  /** The loop when the callback of `p` has just been entered. */
  function Called(s: Loop, p: Ptr): Loop {
    Note(Tick(Note(s, Turn(p, 0))), Fired(p, TIMER, 0, 0))
  }

  lemma ServiceIs(s: Loop, p: Ptr)
    requires Core(s.mem) && OnlyOneShots(s) && p in s.mem.heap && Due(s.mem, p, 0)
    ensures var d := Act(Called(s, p), Standstill, AddTimer(0, 0)).loop;
            p in d.mem.heap && !d.mem.heap[p].internal && Serve(s, Standstill, p, 0) == Passed(Deactivate(d, p), Finished(0))
  {
    hide BackendAgrees, Distinct, React, Act, Without, Rearm;
    CallbackAddsDueTimer(Called(s, p));
  }

  lemma RemovalKeepsDue(s: Loop, p: Ptr)
    requires Core(s.mem) && OnlyOneShots(s) && LastIsDue(s.mem) && p in s.mem.heap && !s.mem.heap[p].internal
    requires p != s.mem.list[|s.mem.list| - 1]
    ensures OnlyOneShots(Deactivate(s, p)) && LastIsDue(Deactivate(s, p).mem)
    ensures |Deactivate(s, p).mem.list| == |s.mem.list|
  {
    hide BackendAgrees, Distinct, Grows;
  }

  lemma ServiceAddsDueTimer(s: Loop, p: Ptr)
    requires Core(s.mem) && OnlyOneShots(s) && p in s.mem.heap && Due(s.mem, p, 0)
    ensures var r := Serve(s, Standstill, p, 0);
            r.outcome == Finished(0) && OnlyOneShots(r.loop) && LastIsDue(r.loop.mem) && |r.loop.mem.list| == |s.mem.list| + 1
  {
    hide Core, Grows, Act, Serve, Deactivate, LastIsDue;
    ServiceIs(s, p);
    AddsDueTimer(Called(s, p), Standstill, 0);
    assert MsToNs(0) == 0;
    RemovalKeepsDue(Act(Called(s, p), Standstill, AddTimer(0, 0)).loop, p);
  }

  /** Whatever its budget, the pass is left unfinished. */
  lemma {:induction false} PassNeverFinishes(s: Loop, i: nat, budget: nat)
    requires Core(s.mem) && OnlyOneShots(s) && LastIsDue(s.mem) && i < |s.mem.list|
    ensures Pass(s, Standstill, 0, i, budget).outcome == Unfinished
    decreases budget, |s.mem.list| - i
  {
    hide BackendAgrees, Distinct, Serve, OnlyOneShots;
    var p := s.mem.list[i];
    if !Due(s.mem, p, 0) {
      PassNeverFinishes(s, i + 1, budget);
    } else if budget > 0 {
      ServiceAddsDueTimer(s, p);
      PassNeverFinishes(Serve(s, Standstill, p, 0).loop, i + 1, budget - 1);
    }
  }

  lemma RegisterWorks(s: Loop, w: World, handle: Handle)
    requires Core(s.mem) && |s.mem.list| < s.mem.capacity && handle !in s.mem.registry && Usable(s.mem, s.step) && Obliging(w)
    ensures var r := Register(s, w, s.step, handle);
            && r.code == 0 && s.step <= r.loop.step
            && r.loop.mem.heap == s.mem.heap[s.step := Source(Socket, true, false, handle, 0, 0)]
  {
    hide Core, Grows;
  }

  lemma CreatedHere(w: World, wake: Handle)
    requires Obliging(w)
    ensures Create(w, wake).code == 0 && OnlyOneShots(Create(w, wake).loop) && |Create(w, wake).loop.mem.list| == 1
  {
    hide Core, Grows, Reserve, Register, WakeFirst, AddSocketTo, Obliging;
    EventActions.EmptyIsCore();
    ReserveWorks(NewLoop, w, 1);
    AddedHere(w, wake);
    RegisterWorks(Tick(Reserve(NewLoop, w, 1).loop), w, wake);
  }

  lemma AddedHere(w: World, wake: Handle)
    requires Core(NewLoop.mem) && Obliging(w)
    ensures var reserved := Reserve(NewLoop, w, 1);
            reserved.code == 0 ==>
              AddSocketTo(NewLoop, w, wake, true, false) == Register(Tick(reserved.loop), w, reserved.loop.step + 1, wake)
  {
    hide Core, Grows, Reserve, Register;
  }

  /** In this world a loop with one such timer never gets through its first timer pass. */
  lemma FrozenClockNeverEnds(wake: Handle, budget: nat)
    ensures var s := Act(Create(Standstill, wake).loop, Standstill, AddTimer(0, 0)).loop;
            Create(Standstill, wake).code == 0 && TimerPhase(s, Standstill, budget).outcome == Unfinished
  {
    hide Core, WakeFirst, Grows, Pass, Create, Act;
    CreatedHere(Standstill, wake);
    var c := Create(Standstill, wake).loop;
    AddsDueTimer(c, Standstill, 0);
    assert MsToNs(0) == 0;
    PassNeverFinishes(Begun(Act(c, Standstill, AddTimer(0, 0)).loop), 0, budget);
  }
}
