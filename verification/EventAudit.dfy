/**
 The life of one source, read off the log alone.

 `Replay` runs a small automaton over everything the log says about one address.
 It breaks on a dispatch of a source that is not live, a second free, a service
 before the due time, a second successful firing of a one-shot source, a process
 callback without a completed poll, a rearming to anything but the time that the
 64-bit reschedule loop leaves with, or a claim that this loop spins when it does
 not.  The lemmas say that no callback and no timer pass ever breaks it, for any
 address, and that its verdict always agrees with what the heap holds.
 */
module EventAudit {
  import opened Timing
  import opened EventModel

  datatype Stage = Rest | Waiting(now: U64) | Answered | Serving(now: U64)

  datatype Life =
    | Absent
    | Live(kind: Kind, first: U64, interval: U64, due: U64, shots: nat, stage: Stage)
    | Retired
    | Broken

  function AdvanceFired(l: Life, flags: nat, now: U64, result: int): Life
    requires l.Live?
  {
    match l.kind
    case Socket => if l.stage.Rest? && 1 <= flags <= READ + WRITE then l.(shots := l.shots + 1) else Broken
    case Timer =>
      if !l.stage.Rest? || flags != TIMER || now < l.due then Broken
      else if result != 0 then l
      else l.(shots := l.shots + 1, stage := Serving(now))
    case Process =>
      if !l.stage.Answered? || flags != PROCESS then Broken
      else if result != 0 then l.(stage := Rest)
      else l.(shots := l.shots + 1, stage := Serving(now))
    case File =>
      if !l.stage.Answered? || flags <= FILE then Broken
      else if result != 0 then l.(stage := Rest)
      else l.(shots := l.shots + 1, stage := Serving(now))
  }

  /** A repeating timer whose callback has just succeeded. */
  predicate Moving(l: Life) {
    l.Live? && l.kind.Timer? && l.stage.Serving? && 0 < l.interval && l.due <= l.stage.now
  }

  ghost function AdvanceRearmed(l: Life, due: U64): Life
    requires l.Live?
  {
    match l.kind
    case Socket => Broken
    case Timer =>
      if Moving(l) && Ends(l.due, l.interval, l.stage.now) && due == Rescheduled(l.due, l.interval, l.stage.now)
      then l.(due := due, stage := Rest) else Broken
    case Process =>
      if l.stage.Waiting? && due == FirstDue(l.stage.now, l.interval) then l.(due := due, stage := Rest) else Broken
    case File =>
      if (l.stage.Waiting? || l.stage.Serving?) && due == FirstDue(l.stage.now, l.interval)
      then l.(due := due, stage := Rest) else Broken
  }

  ghost function Advance(l: Life, e: Event): Life {
    match e
    case Born(_, kind, due, interval) => if l.Absent? then Live(kind, due, interval, due, 0, Rest) else Broken
    case Turn(_, now) => if l.Live? && !l.kind.Socket? && l.stage.Rest? && l.due <= now then l else Broken
    case Polled(_, now, ready) =>
      if l.Live? && (l.kind.Process? || l.kind.File?) && l.stage.Rest? && l.due <= now
      then l.(stage := if ready then Answered else Waiting(now)) else Broken
    case Fired(_, flags, now, result) => if l.Live? then AdvanceFired(l, flags, now, result) else Broken
    case Rearmed(_, due) => if l.Live? then AdvanceRearmed(l, due) else Broken
    case Spun(_) => if Moving(l) && !Ends(l.due, l.interval, l.stage.now) then l.(stage := Rest) else Broken
    case Removed(_) => if l.Live? then Retired else Broken
    case Freed(_) => if l.Live? || l.Retired? then Absent else Broken
    case _ => l
  }

  ghost function Replay(log: seq<Event>, p: Ptr): Life {
    if log == [] then Absent
    else
      var before := Replay(log[..|log| - 1], p);
      var e := log[|log| - 1];
      if Subject(e) == p then Advance(before, e) else before
  }

  lemma ReplaySnoc(log: seq<Event>, e: Event, p: Ptr)
    ensures Replay(log + [e], p) == if Subject(e) == p then Advance(Replay(log, p), e) else Replay(log, p)
  {
    assert (log + [e])[..|log|] == log;
  }

  /** The automaton's state for `p` is what the heap says; only `serving` may be in the middle of a service. */
  predicate Agrees(l: Life, heap: map<Ptr, Source>, p: Ptr, serving: Ptr) {
    if p !in heap then l.Absent?
    else if !heap[p].active then l.Retired?
    else
      && l.Live? && l.kind == heap[p].kind && l.interval == heap[p].interval && l.due == heap[p].due
      && (p != serving ==> l.stage.Rest?)
  }

  ghost predicate AuditedIn(log: seq<Event>, heap: map<Ptr, Source>, serving: Ptr) {
    forall p: Ptr :: Agrees(Replay(log, p), heap, p, serving)
  }

  ghost predicate Audited(s: Loop, serving: Ptr) {
    AuditedIn(s.log, s.mem.heap, serving)
  }

  /** Only the subject of the last event, and who is being served, changed. */
  ghost predicate OnlyAbout(s: Loop, r: Loop, e: Event, serving: Ptr, serving': Ptr) {
    && r.log == s.log + [e]
    && (forall q: Ptr :: q != Subject(e) ==> (q in r.mem.heap <==> q in s.mem.heap))
    && (forall q: Ptr :: q != Subject(e) && q in r.mem.heap ==> r.mem.heap[q] == s.mem.heap[q])
    && (serving == NULL || serving == Subject(e) || serving == serving')
  }

  lemma AuditStep(s: Loop, r: Loop, e: Event, serving: Ptr, serving': Ptr)
    requires Audited(s, serving) && NULL !in s.mem.heap && OnlyAbout(s, r, e, serving, serving')
    requires Agrees(Replay(r.log, Subject(e)), r.mem.heap, Subject(e), serving')
    ensures Audited(r, serving')
  {
    forall p: Ptr
      ensures Agrees(Replay(r.log, p), r.mem.heap, p, serving')
    {
      ReplaySnoc(s.log, e, p);
      assert Agrees(Replay(s.log, p), s.mem.heap, p, serving);
    }
  }

  /** Whatever happened, an old source that is still active has nothing new in its history. */
  ghost predicate Untouched(s: Loop, r: Loop) {
    SameStories(s.log, s.mem.heap, r.log, r.mem.heap)
  }

  ghost predicate SameStories(log: seq<Event>, heap: map<Ptr, Source>, log': seq<Event>, heap': map<Ptr, Source>) {
    forall p :: p in heap && p in heap' && heap'[p].active ==> Replay(log', p) == Replay(log, p)
  }

  // ----------------------------------------------------------- callback actions

  lemma DeactivateAudited(s: Loop, p: Ptr, serving: Ptr)
    requires Core(s.mem) && p in s.mem.heap && !s.mem.heap[p].internal && Audited(s, serving)
    ensures Audited(Deactivate(s, p), serving) && Untouched(s, Deactivate(s, p))
  {
    var r := Deactivate(s, p);
    if s.mem.heap[p].active {
      assert Agrees(Replay(s.log, p), s.mem.heap, p, serving);
      forall q { ReplaySnoc(s.log, Removed(p), q); }
      AuditStep(s, r, Removed(p), serving, serving);
    }
  }

  lemma AttachAudited(s: Loop, p: Ptr, src: Source, serving: Ptr)
    requires Core(s.mem) && Usable(s.mem, p) && |s.mem.list| < s.mem.capacity
    requires src.active && !src.internal
    requires src.kind.Socket? ==> src.handle !in s.mem.registry
    requires Audited(s, serving)
    ensures Audited(Attach(s, p, src), serving) && Untouched(s, Attach(s, p, src))
  {
    var e := Born(p, src.kind, src.due, src.interval);
    assert Agrees(Replay(s.log, p), s.mem.heap, p, serving);
    forall q { ReplaySnoc(s.log, e, q); }
    AuditStep(s, Attach(s, p, src), e, serving, serving);
  }

  /** A source whose registration fails is born and freed without being listed. */
  lemma StillbornAudited(s: Loop, p: Ptr, serving: Ptr)
    requires Audited(s, serving) && Usable(s.mem, p)
    ensures Audited(Note(Note(s, Born(p, Socket, 0, 0)), Freed(p)), serving)
    ensures Untouched(s, Note(Note(s, Born(p, Socket, 0, 0)), Freed(p)))
  {
    var b := Note(s, Born(p, Socket, 0, 0));
    forall q: Ptr
      ensures Replay(Note(b, Freed(p)).log, q) == Replay(s.log, q)
    {
      assert Agrees(Replay(s.log, q), s.mem.heap, q, serving);
      ReplaySnoc(s.log, Born(p, Socket, 0, 0), q);
      ReplaySnoc(b.log, Freed(p), q);
    }
  }

  lemma RegisterAudited(s: Loop, w: World, p: Ptr, handle: Handle, serving: Ptr)
    requires Core(s.mem) && Usable(s.mem, p) && |s.mem.list| < s.mem.capacity && Audited(s, serving)
    ensures Audited(Register(s, w, p, handle).loop, serving) && Untouched(s, Register(s, w, p, handle).loop)
  {
    StillbornAudited(Tick(s), p, serving);
    if handle !in s.mem.registry {
      AttachAudited(Tick(s), p, Source(Socket, true, false, handle, 0, 0), serving);
    }
  }

  lemma AddSocketAudited(s: Loop, w: World, handle: Handle, read: bool, write: bool, serving: Ptr)
    requires Core(s.mem) && Audited(s, serving)
    ensures Audited(AddSocketTo(s, w, handle, read, write).loop, serving)
    ensures Untouched(s, AddSocketTo(s, w, handle, read, write).loop)
  {
    hide Core, Grows, Register, AuditedIn;
    var reserved := Reserve(s, w, |s.mem.list| + 1);
    var p := w.malloc(reserved.loop.step);
    if reserved.code == 0 && Usable(reserved.loop.mem, p) {
      RegisterAudited(Tick(reserved.loop), w, p, handle, serving);
    }
  }

  lemma ArriveAudited(s: Loop, w: World, kind: Kind, delay: U64, interval: U64, serving: Ptr)
    requires Core(s.mem) && |s.mem.list| < s.mem.capacity && !kind.Socket? && Audited(s, serving)
    ensures Audited(Arrive(s, w, kind, delay, interval).loop, serving)
    ensures Untouched(s, Arrive(s, w, kind, delay, interval).loop)
  {
    var p := w.malloc(s.step + 1);
    if w.clock(s.step).Reading? && Usable(s.mem, p) {
      var src := Source(kind, true, false, 0, FirstDue(w.clock(s.step).ns, delay), interval);
      AttachAudited(Tick(Tick(s)), p, src, serving);
      assert Arrive(s, w, kind, delay, interval).loop == Attach(Tick(Tick(s)), p, src);
    } else {
      assert Arrive(s, w, kind, delay, interval).loop.mem == s.mem;
    }
  }

  lemma AddTimedAudited(s: Loop, w: World, kind: Kind, delay: U64, interval: U64, serving: Ptr)
    requires Core(s.mem) && !kind.Socket? && Audited(s, serving)
    ensures Audited(AddTimedTo(s, w, kind, delay, interval).loop, serving)
    ensures Untouched(s, AddTimedTo(s, w, kind, delay, interval).loop)
  {
    var reserved := Reserve(s, w, |s.mem.list| + 1);
    if reserved.code == 0 {
      ArriveAudited(reserved.loop, w, kind, delay, interval, serving);
    }
  }

  /** An event about no source changes no history. */
  lemma GeneralAudited(s: Loop, e: Event, serving: Ptr)
    requires NULL !in s.mem.heap && Audited(s, serving) && General(e)
    ensures Audited(Note(s, e), serving) && Untouched(s, Note(s, e))
  {
    forall q { ReplaySnoc(s.log, e, q); }
    assert Agrees(Replay(s.log, NULL), s.mem.heap, NULL, serving);
    AuditStep(s, Note(s, e), e, serving, serving);
  }

  lemma ActAudited(s: Loop, w: World, a: Action, serving: Ptr)
    requires Core(s.mem) && Audited(s, serving)
    ensures Audited(Act(s, w, a).loop, serving) && Untouched(s, Act(s, w, a).loop)
  {
    match a
    case AddSocket(h, read, write) => AddSocketAudited(s, w, h, read, write, serving);
    case AddTimer(delay, every) => AddTimedAudited(s, w, Timer, MsToNs(delay), MsToNs(every), serving);
    case AddProcess(every) => AddTimedAudited(s, w, Process, 0, MsToNs(if every == 0 then 10 else every), serving);
    case AddFile(every) => AddTimedAudited(s, w, File, 0, MsToNs(if every == 0 then 100 else every), serving);
    case Remove(p) => if Removable(s.mem, p) { DeactivateAudited(s, p, serving); }
    case Stop => GeneralAudited(s.(stop := true), Halted, serving);
  }

  lemma {:induction false} ReactAudited(s: Loop, w: World, actions: seq<Action>, serving: Ptr)
    requires Core(s.mem) && Audited(s, serving)
    ensures Audited(React(s, w, actions), serving) && Untouched(s, React(s, w, actions))
    decreases |actions|
  {
    if actions != [] {
      var s1 := Act(s, w, actions[0]).loop;
      ActAudited(s, w, actions[0], serving);
      ReactAudited(s1, w, actions[1..], serving);
      UntouchedTransitive(s, s1, React(s1, w, actions[1..]));
    }
  }

  lemma UntouchedTransitive(s: Loop, t: Loop, r: Loop)
    requires Untouched(s, t) && Untouched(t, r)
    requires Grows(s.mem, t.mem, NULL) && Grows(t.mem, r.mem, NULL) && NULL !in t.mem.heap
    ensures Untouched(s, r)
  {
  }

  // ------------------------------------------------------------------ services

  /** The history of `p` after its callback has been entered. */
  ghost function AfterFiring(s: Loop, w: World, p: Ptr, flags: nat, now: U64): Life {
    Advance(Replay(s.log, p), Fired(p, flags, now, w.reaction(s.step).result))
  }

  lemma DispatchAudited(s: Loop, w: World, p: Ptr, flags: nat, now: U64)
    requires Core(s.mem) && p in s.mem.heap && s.mem.heap[p].active && Audited(s, p)
    requires AfterFiring(s, w, p, flags, now).Live?
    ensures var d := Dispatch(s, w, p, flags, now); var l := AfterFiring(s, w, p, flags, now);
            && d.code == w.reaction(s.step).result
            && Audited(d.loop, if l.stage.Rest? then NULL else p)
            && (d.loop.mem.heap[p].active ==> Replay(d.loop.log, p) == l)
  {
    hide BackendAgrees, Distinct, React, Replay, AuditedIn;
    AuditAt(s, p, p);
    var l := AfterFiring(s, w, p, flags, now);
    var serving := if l.stage.Rest? then NULL else p;
    var e := Fired(p, flags, now, w.reaction(s.step).result);
    var s1 := Note(Tick(s), e);
    ReplaySnoc(s.log, e, p);
    AuditStep(s, s1, e, p, serving);
    if !s.mem.heap[p].internal {
      ReactAudited(s1, w, w.reaction(s.step).actions, serving);
    }
  }

  lemma NoteAudited(s: Loop, e: Event, serving: Ptr, serving': Ptr)
    requires NULL !in s.mem.heap && Audited(s, serving) && Subject(e) != NULL
    requires serving == NULL || serving == Subject(e) || serving == serving'
    requires Agrees(Advance(Replay(s.log, Subject(e)), e), s.mem.heap, Subject(e), serving')
    ensures Audited(Note(s, e), serving')
    ensures Replay(Note(s, e).log, Subject(e)) == Advance(Replay(s.log, Subject(e)), e)
  {
    ReplaySnoc(s.log, e, Subject(e));
    AuditStep(s, Note(s, e), e, serving, serving');
  }

  lemma FaultAudited(s: Loop, code: Errno)
    requires Core(s.mem) && Audited(s, NULL)
    ensures Audited(Fault(s, code), NULL)
  {
    GeneralAudited(Tick(s), Faulted(code), NULL);
  }

  lemma RearmAudited(s: Loop, p: Ptr, due: U64)
    requires Core(s.mem) && p in s.mem.heap && !s.mem.heap[p].internal && s.mem.heap[p].active && Audited(s, p)
    requires Replay(s.log, p).Live? && AdvanceRearmed(Replay(s.log, p), due).Live?
    ensures Audited(Rearm(s, p, due), NULL)
  {
    assert Agrees(Replay(s.log, p), s.mem.heap, p, p);
    ReplaySnoc(s.log, Rearmed(p, due), p);
    AuditStep(s, Rearm(s, p, due), Rearmed(p, due), p, NULL);
  }

  /** Removing the source being served leaves nobody in service. */
  lemma RetireAudited(s: Loop, p: Ptr)
    requires Core(s.mem) && p in s.mem.heap && !s.mem.heap[p].internal && Audited(s, p)
    ensures Audited(Deactivate(s, p), NULL)
  {
    DeactivateAudited(s, p, p);
    NobodyInService(Deactivate(s, p), p);
  }

  lemma NobodyInService(s: Loop, p: Ptr)
    requires Audited(s, p) && (p in s.mem.heap ==> !s.mem.heap[p].active)
    ensures Audited(s, NULL)
  {
    forall q: Ptr
      ensures Agrees(Replay(s.log, q), s.mem.heap, q, NULL)
    {
      assert Agrees(Replay(s.log, q), s.mem.heap, q, p);
    }
  }

  lemma Loosened(s: Loop, p: Ptr)
    requires Audited(s, NULL) && NULL !in s.mem.heap
    ensures Audited(s, p)
  {
    forall q: Ptr
      ensures Agrees(Replay(s.log, q), s.mem.heap, q, p)
    {
      assert Agrees(Replay(s.log, q), s.mem.heap, q, NULL);
    }
  }

  /** `p` is active, due and at rest, and its history matches the heap. */
  ghost predicate Fresh(s: Loop, p: Ptr, now: U64) {
    Core(s.mem) && p in s.mem.heap && Due(s.mem, p, now) && Audited(s, NULL)
  }

  lemma ProcessExitedAudited(s: Loop, w: World, p: Ptr, now: U64)
    requires Core(s.mem) && p in s.mem.heap && s.mem.heap[p].kind.Process? && s.mem.heap[p].active
    requires Audited(s, p) && Replay(s.log, p).Live? && Replay(s.log, p).stage.Answered?
    ensures Audited(ProcessExited(s, w, p, now).loop, NULL)
  {
    hide BackendAgrees, Distinct, Dispatch, Deactivate, AuditedIn;
    assert Agrees(Replay(s.log, p), s.mem.heap, p, p) by { AuditAt(s, p, p); }
    DispatchAudited(s, w, p, PROCESS, now);
    if Dispatch(s, w, p, PROCESS, now).code == 0 {
      RetireAudited(Dispatch(s, w, p, PROCESS, now).loop, p);
    }
  }

  lemma AuditAt(s: Loop, p: Ptr, serving: Ptr)
    requires Audited(s, serving)
    ensures Agrees(Replay(s.log, p), s.mem.heap, p, serving)
  {
  }

  lemma ServeProcessAudited(s: Loop, w: World, p: Ptr, now: U64)
    requires Fresh(s, p, now) && s.mem.heap[p].kind.Process?
    ensures Audited(ServeProcess(s, w, p, now).loop, NULL)
  {
    hide BackendAgrees, Distinct, ProcessExited, Rearm, AuditedIn, Grows;
    AuditAt(s, p, NULL);
    match w.poll(s.step)
    case PollError(code) => FaultAudited(s, code);
    case Running =>
      NoteAudited(Tick(s), Polled(p, now, false), NULL, p);
      RearmAudited(Note(Tick(s), Polled(p, now, false)), p, FirstDue(now, s.mem.heap[p].interval));
    case Completed =>
      NoteAudited(Tick(s), Polled(p, now, true), NULL, p);
      ProcessExitedAudited(Note(Tick(s), Polled(p, now, true)), w, p, now);
  }

  lemma ServeFileAudited(s: Loop, w: World, p: Ptr, now: U64)
    requires Fresh(s, p, now) && s.mem.heap[p].kind.File?
    ensures Audited(ServeFile(s, w, p, now).loop, NULL)
  {
    assert Agrees(Replay(s.log, p), s.mem.heap, p, NULL);
    var c := w.watch(s.step);
    if c.WatchError? {
      FaultAudited(s, c.code);
    } else {
      var s1 := Note(Tick(s), Polled(p, now, AnyChange(c)));
      NoteAudited(Tick(s), Polled(p, now, AnyChange(c)), NULL, p);
      FilePolledAudited(s1, w, p, now, c);
    }
  }

  lemma FilePolledAudited(s: Loop, w: World, p: Ptr, now: U64, c: WatchAnswer)
    requires Core(s.mem) && p in s.mem.heap && s.mem.heap[p].kind.File? && s.mem.heap[p].active && c.Changes?
    requires Audited(s, p) && Replay(s.log, p).Live?
    requires Replay(s.log, p).stage == if AnyChange(c) then Answered else Waiting(now)
    ensures Audited(FilePolled(s, w, p, now, c).loop, NULL)
  {
    assert Agrees(Replay(s.log, p), s.mem.heap, p, p);
    if AnyChange(c) {
      DispatchAudited(s, w, p, FileFlags(c), now);
    }
    var d := if AnyChange(c) then Dispatch(s, w, p, FileFlags(c), now) else Reply(s, 0);
    if d.code == 0 {
      if d.loop.mem.heap[p].active {
        RearmAudited(d.loop, p, FirstDue(now, s.mem.heap[p].interval));
      } else {
        NobodyInService(d.loop, p);
      }
    }
  }

  lemma AdvancedAudited(s: Loop, p: Ptr, now: U64)
    requires Core(s.mem) && p in s.mem.heap && !s.mem.heap[p].internal && s.mem.heap[p].active && Audited(s, p)
    requires Moving(Replay(s.log, p)) && Replay(s.log, p).stage.now == now
    ensures Audited(Advanced(s, p, now).loop, NULL)
  {
    hide BackendAgrees, Distinct, Rearm, AuditedIn, Grows;
    var src := s.mem.heap[p];
    assert p != NULL;
    AuditAt(s, p, p);
    if Ends(src.due, src.interval, now) {
      RearmAudited(s, p, Rescheduled(src.due, src.interval, now));
    } else {
      NoteAudited(s, Spun(p), p, NULL);
    }
  }

  lemma ServeTimerAudited(s: Loop, w: World, p: Ptr, now: U64)
    requires Fresh(s, p, now) && s.mem.heap[p].kind.Timer?
    ensures Audited(ServeTimer(s, w, p, now).loop, NULL)
  {
    assert Agrees(Replay(s.log, p), s.mem.heap, p, NULL);
    Loosened(s, p);
    DispatchAudited(s, w, p, TIMER, now);
    var d := Dispatch(s, w, p, TIMER, now);
    if d.code == 0 {
      if !d.loop.mem.heap[p].active {
        NobodyInService(d.loop, p);
      } else if s.mem.heap[p].interval == 0 {
        RetireAudited(d.loop, p);
      } else {
        AdvancedAudited(d.loop, p, now);
      }
    }
  }

  lemma ServeAudited(s: Loop, w: World, p: Ptr, now: U64)
    requires Fresh(s, p, now)
    ensures Audited(Serve(s, w, p, now).loop, NULL)
  {
    assert Agrees(Replay(s.log, p), s.mem.heap, p, NULL);
    NoteAudited(s, Turn(p, now), NULL, NULL);
    var s1 := Note(s, Turn(p, now));
    match s.mem.heap[p].kind
    case Process => ServeProcessAudited(s1, w, p, now);
    case File => ServeFileAudited(s1, w, p, now);
    case Timer => ServeTimerAudited(s1, w, p, now);
  }

  lemma {:induction false} PassAudited(s: Loop, w: World, now: U64, i: nat, budget: nat)
    requires Core(s.mem) && Audited(s, NULL)
    ensures Audited(Pass(s, w, now, i, budget).loop, NULL)
    decreases budget, |s.mem.list| - i
  {
    hide Serve, Audited, Grows, Distinct, BackendAgrees, WakeFirst;
    if i < |s.mem.list| {
      var p := s.mem.list[i];
      if !Due(s.mem, p, now) {
        PassAudited(s, w, now, i + 1, budget);
      } else if budget > 0 {
        ServeAudited(s, w, p, now);
        var served := Serve(s, w, p, now);
        if served.outcome == Finished(0) {
          PassAudited(served.loop, w, now, i + 1, budget - 1);
        }
      }
    }
  }

  lemma TimerPhaseAudited(s: Loop, w: World, budget: nat)
    requires Core(s.mem) && Audited(s, NULL)
    ensures Audited(TimerPhase(s, w, budget).loop, NULL)
  {
    match w.clock(s.step)
    case ClockError(code) => FaultAudited(s, code);
    case Reading(now) =>
      GeneralAudited(Tick(s), PassBegun(s.step, |s.mem.list|), NULL);
      PassAudited(Begun(s), w, now, 0, budget);
  }
}
