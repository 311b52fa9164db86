/**
 The event loop as a state machine over values.

 Memory is explicit: `heap` maps the address of every allocated source to its
 fields, freeing removes the address, and an address may be handed out again
 later.  Reading a source needs its address in the heap, so each function below
 that accepts a pointer also proves that the pointer does not dangle.

 Whatever lies outside the loop is a `World`: total functions that say what the
 k-th call to the clock, the allocator, the kernel or a callback does.
 */
module EventModel {
  import opened Limits
  import opened Timing

  type Ptr = nat
  type Handle = nat
  type Errno = code: int | code != 0 witness 22

  const NULL: Ptr := 0
  const ENOMEM: Errno := 12
  const EEXIST: Errno := 17

  const READ: nat := 1
  const WRITE: nat := 2
  const TIMER: nat := 4
  const PROCESS: nat := 8
  const FILE: nat := 16
  const FILE_CREATED: nat := 32
  const FILE_MODIFIED: nat := 64
  const FILE_DELETED: nat := 128

  datatype Kind = Socket | Timer | Process | File

  datatype Source = Source(kind: Kind, active: bool, internal: bool, handle: Handle, due: U64, interval: U64)
  {
    predicate Timed() { active && !kind.Socket? }
  }

  /** The sources, the array that lists them, and the kernel's table of handles. */
  datatype Mem = Mem(heap: map<Ptr, Source>, list: seq<Ptr>, registry: map<Handle, Ptr>, capacity: nat)

  /** What the loop does, in the order it does it.  `call` is the number of the outside call that an event records. */
  datatype Event =
    | Born(p: Ptr, kind: Kind, due: U64, interval: U64)
    | Turn(p: Ptr, now: U64)
    | Polled(p: Ptr, now: U64, ready: bool)
    | Fired(p: Ptr, flags: nat, now: U64, result: int)
    | Rearmed(p: Ptr, due: U64)
    | Spun(p: Ptr)
    | Removed(p: Ptr)
    | Freed(p: Ptr)
    | Faulted(code: Errno)
    | PassBegun(call: nat, listed: nat)
    | WaitBegun(call: nat, timeout: int)
    | Halted

  /** Events about the loop and no source in particular. */
  predicate General(e: Event) {
    e.Faulted? || e.PassBegun? || e.WaitBegun? || e.Halted?
  }

  /** The address an event is about; NULL for none. */
  function Subject(e: Event): Ptr {
    if General(e) then NULL else e.p
  }

  datatype Loop = Loop(mem: Mem, stop: bool, step: nat, log: seq<Event>)

  // ------------------------------------------------------------- surroundings

  /** What a callback may do to the loop. */
  datatype Action =
    | AddSocket(handle: Handle, read: bool, write: bool)
    | AddTimer(delayMs: nat, intervalMs: nat)
    | AddProcess(everyMs: nat)
    | AddFile(everyMs: nat)
    | Remove(p: Ptr)
    | Stop

  datatype Reaction = Reaction(actions: seq<Action>, result: int)
  datatype Reading = Reading(ns: U64) | ClockError(code: Errno)
  datatype PollAnswer = Running | Completed | PollError(code: Errno)
  datatype WatchAnswer = Changes(created: bool, modified: bool, deleted: bool) | WatchError(code: Errno)
  datatype Readiness = Readiness(input: bool, output: bool, hangup: bool, error: bool)
  datatype WaitAnswer = Ready(raw: seq<(Handle, Readiness)>) | Interrupted | WaitError(code: Errno)

  datatype World = World(
    clock: nat -> Reading,
    malloc: nat -> Ptr,
    realloc: nat -> bool,
    epollAdd: nat -> int,
    reaction: nat -> Reaction,
    poll: nat -> PollAnswer,
    watch: nat -> WatchAnswer,
    wait: (nat, int) -> WaitAnswer,
    cancelled: nat -> bool)

  // --------------------------------------------------------------- invariants

  ghost predicate Distinct(list: seq<Ptr>) {
    forall i, j :: 0 <= i < j < |list| ==> list[i] != list[j]
  }

  predicate Listens(src: Source, h: Handle) {
    src.active && src.kind.Socket? && src.handle == h
  }

  /** The kernel's table holds exactly the active socket sources. */
  ghost predicate BackendAgrees(m: Mem) {
    && (forall h {:trigger m.registry[h]} :: h in m.registry ==> m.registry[h] in m.heap && Listens(m.heap[m.registry[h]], h))
    && (forall p {:trigger m.heap[p].handle} :: p in m.heap && m.heap[p].active && m.heap[p].kind.Socket? ==>
          m.heap[p].handle in m.registry && m.registry[m.heap[p].handle] == p)
  }

  ghost predicate Core(m: Mem) {
    && NULL !in m.heap
    && Distinct(m.list)
    && (forall i :: 0 <= i < |m.list| ==> m.list[i] in m.heap)
    && |m.list| == |m.heap| <= m.capacity
    && (forall p {:trigger m.heap[p].internal} :: p in m.heap && m.heap[p].internal ==> m.heap[p].kind.Socket?)
    && BackendAgrees(m)
  }

  /** Every allocated source is listed, so whatever is on the heap can still be freed. */
  lemma AllocatedIsListed(m: Mem)
    requires Core(m)
    ensures forall p :: p in m.heap <==> p in m.list
  {
    DistinctSize(m.list, m.heap.Keys);
  }

  lemma {:induction false} DistinctSize(list: seq<Ptr>, all: set<Ptr>)
    requires Distinct(list) && |list| == |all|
    requires forall i :: 0 <= i < |list| ==> list[i] in all
    ensures forall p :: p in all ==> p in list
  {
    if list != [] {
      var n := |list| - 1;
      DistinctSize(list[..n], all - {list[n]});
      assert list == list[..n] + [list[n]];
    }
  }

  /** The wake source is active at index 0 and is the only internal source. */
  ghost predicate WakeFirst(m: Mem) {
    && 0 < |m.list| && m.list[0] in m.heap
    && m.heap[m.list[0]].active && m.heap[m.list[0]].internal
    && forall p :: p in m.heap && m.heap[p].internal ==> p == m.list[0]
  }

  ghost predicate Inv(m: Mem) {
    Core(m) && WakeFirst(m)
  }

  predicate SameIdentity(a: Source, b: Source) {
    b.kind == a.kind && b.internal == a.internal && b.handle == a.handle && b.interval == a.interval
    && (b.active ==> a.active)
  }

  predicate MayBecome(a: Source, b: Source, free: bool) {
    && (if free then SameIdentity(a, b) else b == a || b == a.(active := false))
    && (a.internal ==> a == b)
  }

  /**
   How memory may change between two compactions: nothing is freed, the list only
   grows at its end, an inactive source stays inactive, and only `but` may get a
   new due time.
   */
  ghost predicate Grows(m: Mem, n: Mem, but: Ptr) {
    && m.list <= n.list
    && (forall p :: p in m.heap ==> p in n.heap && MayBecome(m.heap[p], n.heap[p], p == but))
    && (forall p :: p in n.heap && n.heap[p].internal ==> p in m.heap)
  }

  lemma GrowsTransitive(l: Mem, m: Mem, n: Mem, but: Ptr)
    requires Grows(l, m, but) || Grows(l, m, NULL)
    requires Grows(m, n, but) || Grows(m, n, NULL)
    requires NULL !in l.heap
    ensures Grows(l, n, but)
  {
  }

  lemma GrowsLoosely(m: Mem, n: Mem, but: Ptr)
    requires Grows(m, n, NULL) && NULL !in m.heap
    ensures Grows(m, n, but)
  {
  }

  lemma GrowsKeepsWake(m: Mem, n: Mem, but: Ptr)
    requires WakeFirst(m) && Grows(m, n, but)
    ensures WakeFirst(n)
  {
    assert n.list[0] == m.list[0];
  }

  /** Time, the log and a stop request only move forward. */
  ghost predicate Forward(s: Loop, r: Loop) {
    s.log <= r.log && s.step <= r.step && (s.stop ==> r.stop)
  }

  // ---------------------------------------------------------- memory updates

  function WithDue(m: Mem, p: Ptr, due: U64): (n: Mem)
    requires Core(m) && p in m.heap && !m.heap[p].internal
    ensures Core(n) && Grows(m, n, p)
  {
    m.(heap := m.heap[p := m.heap[p].(due := due)])
  }

  /** Deactivates a source and takes a socket out of the kernel's table; frees nothing. */
  function Without(m: Mem, p: Ptr): (n: Mem)
    requires Core(m) && p in m.heap && !m.heap[p].internal && m.heap[p].active
    ensures Core(n) && Grows(m, n, NULL)
    ensures !n.heap[p].active
  {
    m.(heap := m.heap[p := m.heap[p].(active := false)],
       registry := if m.heap[p].kind.Socket? then m.registry - {m.heap[p].handle} else m.registry)
  }

  function With(m: Mem, p: Ptr, src: Source): (n: Mem)
    requires Core(m) && Usable(m, p) && |m.list| < m.capacity
    requires src.active && !src.internal
    requires src.kind.Socket? ==> src.handle !in m.registry
    ensures Core(n) && Grows(m, n, NULL)
    ensures n.list == m.list + [p] && n.heap == m.heap[p := src]
  {
    m.(heap := m.heap[p := src],
       list := m.list + [p],
       registry := if src.kind.Socket? then m.registry[src.handle := p] else m.registry)
  }

  function Resized(m: Mem, capacity: nat): (n: Mem)
    requires Core(m) && m.capacity <= capacity
    ensures Core(n) && Grows(m, n, NULL)
  {
    m.(capacity := capacity)
  }

  /** An allocator never returns an address in use, so such an answer counts as a refusal. */
  predicate Usable(m: Mem, p: Ptr) { p != NULL && p !in m.heap }

  function Tick(s: Loop): Loop { s.(step := s.step + 1) }

  function Note(s: Loop, e: Event): Loop { s.(log := s.log + [e]) }

  function Fault(s: Loop, code: Errno): Loop { Note(Tick(s), Faulted(code)) }

  function Rearm(s: Loop, p: Ptr, due: U64): (r: Loop)
    requires Core(s.mem) && p in s.mem.heap && !s.mem.heap[p].internal
    ensures Core(r.mem) && Grows(s.mem, r.mem, p) && Forward(s, r)
  {
    Note(s.(mem := WithDue(s.mem, p, due)), Rearmed(p, due))
  }

  /** `x_event_source_remove`: a second removal has no effect. */
  function Deactivate(s: Loop, p: Ptr): (r: Loop)
    requires Core(s.mem) && p in s.mem.heap && !s.mem.heap[p].internal
    ensures Core(r.mem) && Grows(s.mem, r.mem, NULL) && Forward(s, r)
    ensures !r.mem.heap[p].active
  {
    if !s.mem.heap[p].active then s
    else Note(s.(mem := Without(s.mem, p)), Removed(p))
  }

  /** Removal touches nothing but the source's own flag and its entry in the kernel's table. */
  lemma RemovalTouchesOnly(s: Loop, p: Ptr)
    requires Core(s.mem) && p in s.mem.heap && !s.mem.heap[p].internal
    ensures var r := Deactivate(s, p);
            && r.mem.heap == s.mem.heap[p := s.mem.heap[p].(active := false)]
            && r.mem.list == s.mem.list && r.mem.capacity == s.mem.capacity && r.stop == s.stop
            && (forall h :: h in r.mem.registry <==> h in s.mem.registry && s.mem.registry[h] != p)
            && (forall h :: h in r.mem.registry ==> r.mem.registry[h] == s.mem.registry[h])
            && r.log == if s.mem.heap[p].active then s.log + [Removed(p)] else s.log
  {
  }

  // --------------------------------------------------------------------- adds

  datatype Reply = Reply(loop: Loop, code: int)

  function Doubled(capacity: nat, needed: nat): (r: nat)
    requires 0 < capacity
    ensures needed <= r && capacity <= r
    ensures r == capacity || r < 2 * needed
    decreases needed - capacity
  {
    if needed <= capacity then capacity else Doubled(2 * capacity, needed)
  }

  function Reserve(s: Loop, w: World, needed: nat): (r: Reply)
    requires Core(s.mem)
    ensures Core(r.loop.mem) && Grows(s.mem, r.loop.mem, NULL) && Forward(s, r.loop)
    ensures r.loop.mem.(capacity := s.mem.capacity) == s.mem && r.loop.log == s.log
    ensures r.loop.mem.heap == s.mem.heap && r.loop.mem.list == s.mem.list
    ensures r.code == 0 ==> needed <= r.loop.mem.capacity
  {
    if needed <= s.mem.capacity then Reply(s, 0)
    else if w.realloc(s.step) then
      var first := if s.mem.capacity == 0 then 8 else 2 * s.mem.capacity;
      Reply(Tick(s).(mem := Resized(s.mem, Doubled(first, needed))), 0)
    else Reply(Tick(s), ENOMEM)
  }

  const POINTER_SIZE: nat := 8

  /**
   Every caller makes room for one source more than are listed, for which doubling
   once is enough.  The byte count of the new array fits 64 bits exactly as long as
   the old array has fewer than 2^60 entries.
   */
  lemma GrowthFitsIff(m: Mem)
    requires Core(m) && m.capacity <= |m.list|
    ensures var doubled := if m.capacity == 0 then 8 else 2 * m.capacity;
            && Doubled(doubled, |m.list| + 1) == doubled
            && (doubled * POINTER_SIZE < TWO64 <==> m.capacity < 0x1000_0000_0000_0000)
  {
  }

  function Attach(s: Loop, p: Ptr, src: Source): (r: Loop)
    requires Core(s.mem) && Usable(s.mem, p) && |s.mem.list| < s.mem.capacity
    requires src.active && !src.internal
    requires src.kind.Socket? ==> src.handle !in s.mem.registry
    ensures Core(r.mem) && Grows(s.mem, r.mem, NULL) && Forward(s, r)
  {
    Note(s.(mem := With(s.mem, p, src)), Born(p, src.kind, src.due, src.interval))
  }

  /** The part of `x_event_loop_add_socket` after both allocations succeeded. */
  function Register(s: Loop, w: World, p: Ptr, handle: Handle): (r: Reply)
    requires Core(s.mem) && Usable(s.mem, p) && |s.mem.list| < s.mem.capacity
    ensures Core(r.loop.mem) && Grows(s.mem, r.loop.mem, NULL) && Forward(s, r.loop)
    ensures r.code != 0 ==> r.loop.mem == s.mem
    ensures r.code == 0 ==> handle !in s.mem.registry && r.loop.mem.list == s.mem.list + [p]
                            && r.loop.mem.registry == s.mem.registry[handle := p]
  {
    var code := if handle in s.mem.registry then EEXIST else w.epollAdd(s.step);
    if code != 0 then Reply(Note(Note(Tick(s), Born(p, Socket, 0, 0)), Freed(p)), code)
    else Reply(Attach(Tick(s), p, Source(Socket, true, false, handle, 0, 0)), 0)
  }

  function AddSocketTo(s: Loop, w: World, handle: Handle, read: bool, write: bool): (r: Reply)
    requires Core(s.mem)
    ensures Core(r.loop.mem) && Grows(s.mem, r.loop.mem, NULL) && Forward(s, r.loop)
    ensures r.code != 0 ==> r.loop.mem.(capacity := s.mem.capacity) == s.mem
    ensures r.code == 0 ==> handle !in s.mem.registry && |r.loop.mem.list| == |s.mem.list| + 1
    ensures r.code == 0 ==> r.loop.mem.registry == s.mem.registry[handle := r.loop.mem.list[|s.mem.list|]]
  {
    if !read && !write then Reply(s, EINVAL)
    else
      var reserved := Reserve(s, w, |s.mem.list| + 1);
      if reserved.code != 0 then reserved
      else
        var s1 := Tick(reserved.loop);
        var p := w.malloc(reserved.loop.step);
        if !Usable(s1.mem, p) then Reply(s1, ENOMEM)
        else
          var r := Register(s1, w, p, handle);
          GrowsTransitive(s.mem, s1.mem, r.loop.mem, NULL);
          r
  }

  /** The part of adding a polled or timed source after the array has room. */
  function Arrive(s: Loop, w: World, kind: Kind, delay: U64, interval: U64): (r: Reply)
    requires Core(s.mem) && |s.mem.list| < s.mem.capacity && !kind.Socket?
    ensures Core(r.loop.mem) && Grows(s.mem, r.loop.mem, NULL) && Forward(s, r.loop)
    ensures r.code != 0 ==> r.loop.mem == s.mem
    ensures r.code == 0 ==> |r.loop.mem.list| == |s.mem.list| + 1 && r.loop.mem.registry == s.mem.registry
  {
    match w.clock(s.step)
    case ClockError(code) => Reply(Tick(s), code)
    case Reading(now) =>
      var p := w.malloc(s.step + 1);
      var s1 := Tick(Tick(s));
      if !Usable(s1.mem, p) then Reply(s1, ENOMEM)
      else Reply(Attach(s1, p, Source(kind, true, false, 0, FirstDue(now, delay), interval)), 0)
  }

  /** The common body of the three functions that add a polled or timed source. */
  function AddTimedTo(s: Loop, w: World, kind: Kind, delay: U64, interval: U64): (r: Reply)
    requires Core(s.mem) && !kind.Socket?
    ensures Core(r.loop.mem) && Grows(s.mem, r.loop.mem, NULL) && Forward(s, r.loop)
    ensures r.code != 0 ==> r.loop.mem.(capacity := s.mem.capacity) == s.mem
    ensures r.code == 0 ==> |r.loop.mem.list| == |s.mem.list| + 1 && r.loop.mem.registry == s.mem.registry
  {
    var reserved := Reserve(s, w, |s.mem.list| + 1);
    if reserved.code != 0 then reserved
    else
      var r := Arrive(reserved.loop, w, kind, delay, interval);
      GrowsTransitive(s.mem, reserved.loop.mem, r.loop.mem, NULL);
      r
  }

  /** Exactly the source `src` was added, at the end of the list. */
  ghost predicate Joined(m: Mem, n: Mem, src: Source) {
    && |n.list| == |m.list| + 1
    && var p := n.list[|m.list|];
       p !in m.heap && n.list == m.list + [p] && n.heap == m.heap[p := src] && n.registry == m.registry
  }

  /** A successful add appends a source with the given interval, due its delay after a clock reading of that call. */
  lemma NewcomerIs(s: Loop, w: World, kind: Kind, delay: U64, interval: U64)
    requires Core(s.mem) && !kind.Socket?
    ensures var r := AddTimedTo(s, w, kind, delay, interval);
            r.code == 0 ==>
              exists k: nat :: s.step <= k < r.loop.step && w.clock(k).Reading?
                && Joined(s.mem, r.loop.mem, Source(kind, true, false, 0, FirstDue(w.clock(k).ns, delay), interval))
  {
    hide Core, Grows, Doubled, FirstDue;
    var k := Reserve(s, w, |s.mem.list| + 1).loop.step;
    if AddTimedTo(s, w, kind, delay, interval).code == 0 {
      assert w.clock(k).Reading?;
    }
  }

  // ---------------------------------------------------------------- callbacks

  /** A callback holds handles of listed user sources only; naming another one has no effect here. */
  predicate Removable(m: Mem, p: Ptr) { p in m.heap && !m.heap[p].internal }

  function Act(s: Loop, w: World, a: Action): (r: Reply)
    requires Core(s.mem)
    ensures Core(r.loop.mem) && Grows(s.mem, r.loop.mem, NULL) && Forward(s, r.loop)
  {
    match a
    case AddSocket(h, read, write) => AddSocketTo(s, w, h, read, write)
    case AddTimer(delay, every) => AddTimedTo(s, w, Timer, MsToNs(delay), MsToNs(every))
    case AddProcess(every) => AddTimedTo(s, w, Process, 0, MsToNs(if every == 0 then 10 else every))
    case AddFile(every) => AddTimedTo(s, w, File, 0, MsToNs(if every == 0 then 100 else every))
    case Remove(p) => Reply(if Removable(s.mem, p) then Deactivate(s, p) else s, 0)
    case Stop => Reply(Note(s.(stop := true), Halted), 0)
  }

  function React(s: Loop, w: World, actions: seq<Action>): (r: Loop)
    requires Core(s.mem)
    ensures Core(r.mem) && Grows(s.mem, r.mem, NULL) && Forward(s, r)
    decreases |actions|
  {
    if actions == [] then s
    else
      var s1 := Act(s, w, actions[0]).loop;
      var r := React(s1, w, actions[1..]);
      GrowsTransitive(s.mem, s1.mem, r.mem, NULL);
      r
  }

  /** Runs the callback of an active source; the wake callback only drains its socket. */
  function Dispatch(s: Loop, w: World, p: Ptr, flags: nat, now: U64): (r: Reply)
    requires Core(s.mem) && p in s.mem.heap
    ensures Core(r.loop.mem) && Grows(s.mem, r.loop.mem, NULL) && Forward(s, r.loop)
    ensures !s.mem.heap[p].active ==> r == Reply(s, 0)
  {
    if !s.mem.heap[p].active then Reply(s, 0)
    else
      var reaction := w.reaction(s.step);
      var s1 := Note(Tick(s), Fired(p, flags, now, reaction.result));
      Reply(if s.mem.heap[p].internal then s1 else React(s1, w, reaction.actions), reaction.result)
  }

  // --------------------------------------------------------------- timer pass

  predicate Due(m: Mem, p: Ptr, now: nat)
    requires p in m.heap
  {
    m.heap[p].Timed() && m.heap[p].due <= now
  }

  predicate AnyChange(c: WatchAnswer)
    requires c.Changes?
  {
    c.created || c.modified || c.deleted
  }

  function FileFlags(c: WatchAnswer): (flags: nat)
    requires c.Changes?
  {
    FILE + (if c.created then FILE_CREATED else 0) + (if c.modified then FILE_MODIFIED else 0)
    + (if c.deleted then FILE_DELETED else 0)
  }

  /** A poll that found the child exited: the callback runs, then the source goes. */
  function ProcessExited(s: Loop, w: World, p: Ptr, now: U64): (r: Reply)
    requires Core(s.mem) && p in s.mem.heap && s.mem.heap[p].kind.Process?
    ensures Core(r.loop.mem) && Grows(s.mem, r.loop.mem, p) && Forward(s, r.loop)
  {
    var d := Dispatch(s, w, p, PROCESS, now);
    GrowsLoosely(s.mem, d.loop.mem, p);
    if d.code != 0 then d
    else
      var r := Deactivate(d.loop, p);
      GrowsTransitive(s.mem, d.loop.mem, r.mem, p);
      Reply(r, 0)
  }

  function ProcessRunning(s: Loop, p: Ptr, now: U64): (r: Reply)
    requires Core(s.mem) && p in s.mem.heap && s.mem.heap[p].kind.Process?
    ensures Core(r.loop.mem) && Grows(s.mem, r.loop.mem, p) && Forward(s, r.loop)
  {
    Reply(Rearm(s, p, FirstDue(now, s.mem.heap[p].interval)), 0)
  }

  function ServeProcess(s: Loop, w: World, p: Ptr, now: U64): (r: Reply)
    requires Core(s.mem) && p in s.mem.heap && s.mem.heap[p].kind.Process? && s.mem.heap[p].active
    ensures Core(r.loop.mem) && Grows(s.mem, r.loop.mem, p) && Forward(s, r.loop)
  {
    match w.poll(s.step)
    case PollError(code) => Reply(Fault(s, code), code)
    case Running => ProcessRunning(Note(Tick(s), Polled(p, now, false)), p, now)
    case Completed => ProcessExited(Note(Tick(s), Polled(p, now, true)), w, p, now)
  }

  /** A successful watcher poll: the callback runs if anything changed, then the source is rearmed. */
  function FilePolled(s: Loop, w: World, p: Ptr, now: U64, c: WatchAnswer): (r: Reply)
    requires Core(s.mem) && p in s.mem.heap && s.mem.heap[p].kind.File? && c.Changes?
    ensures Core(r.loop.mem) && Grows(s.mem, r.loop.mem, p) && Forward(s, r.loop)
  {
    var d := if AnyChange(c) then Dispatch(s, w, p, FileFlags(c), now) else Reply(s, 0);
    GrowsLoosely(s.mem, d.loop.mem, p);
    if d.code != 0 || !d.loop.mem.heap[p].active then d
    else
      var r := Rearm(d.loop, p, FirstDue(now, s.mem.heap[p].interval));
      GrowsTransitive(s.mem, d.loop.mem, r.mem, p);
      Reply(r, 0)
  }

  function ServeFile(s: Loop, w: World, p: Ptr, now: U64): (r: Reply)
    requires Core(s.mem) && p in s.mem.heap && s.mem.heap[p].kind.File? && s.mem.heap[p].active
    ensures Core(r.loop.mem) && Grows(s.mem, r.loop.mem, p) && Forward(s, r.loop)
  {
    var c := w.watch(s.step);
    if c.WatchError? then Reply(Fault(s, c.code), c.code)
    else FilePolled(Note(Tick(s), Polled(p, now, AnyChange(c))), w, p, now, c)
  }

  /**
   How a stretch of the loop ends: with a result, by using up the bound that the
   model puts on it, or in a reschedule loop that never leaves.
   */
  datatype Outcome = Finished(code: int) | Unfinished | Hung

  datatype Passed = Passed(loop: Loop, outcome: Outcome)

  function Ended(r: Reply): Passed { Passed(r.loop, Finished(r.code)) }

  /** The reschedule loop in 64-bit arithmetic; where it never leaves, nothing follows. */
  ghost function Advanced(s: Loop, p: Ptr, now: U64): (r: Passed)
    requires Core(s.mem) && p in s.mem.heap && !s.mem.heap[p].internal
    ensures Core(r.loop.mem) && Grows(s.mem, r.loop.mem, p) && Forward(s, r.loop)
  {
    var src := s.mem.heap[p];
    if Ends(src.due, src.interval, now)
    then Passed(Rearm(s, p, Rescheduled(src.due, src.interval, now)), Finished(0))
    else Passed(Note(s, Spun(p)), Hung)
  }

  ghost function ServeTimer(s: Loop, w: World, p: Ptr, now: U64): (r: Passed)
    requires Core(s.mem) && p in s.mem.heap && s.mem.heap[p].kind.Timer? && Due(s.mem, p, now)
    ensures Core(r.loop.mem) && Grows(s.mem, r.loop.mem, p) && Forward(s, r.loop)
  {
    var d := Dispatch(s, w, p, TIMER, now);
    GrowsLoosely(s.mem, d.loop.mem, p);
    if d.code != 0 || !d.loop.mem.heap[p].active then Ended(d)
    else
      var r := if s.mem.heap[p].interval == 0 then Passed(Deactivate(d.loop, p), Finished(0)) else Advanced(d.loop, p, now);
      GrowsTransitive(s.mem, d.loop.mem, r.loop.mem, p);
      r
  }

  ghost function Serve(s: Loop, w: World, p: Ptr, now: U64): (r: Passed)
    requires Core(s.mem) && p in s.mem.heap && Due(s.mem, p, now)
    ensures Core(r.loop.mem) && Grows(s.mem, r.loop.mem, p) && Forward(s, r.loop)
  {
    var s1 := Note(s, Turn(p, now));
    match s.mem.heap[p].kind
    case Process => Ended(ServeProcess(s1, w, p, now))
    case File => Ended(ServeFile(s1, w, p, now))
    case Timer => ServeTimer(s1, w, p, now)
  }

  /**
   The timer pass from index `i` on.  The list may grow while the pass walks it,
   so the pass gets a budget of services and says whether it got to the end.
   */
  ghost function Pass(s: Loop, w: World, now: U64, i: nat, budget: nat): (r: Passed)
    requires Core(s.mem)
    ensures Core(r.loop.mem) && Forward(s, r.loop)
    ensures WakeFirst(s.mem) ==> WakeFirst(r.loop.mem)
    decreases budget, |s.mem.list| - i
  {
    if i >= |s.mem.list| then Passed(s, Finished(0))
    else
      var p := s.mem.list[i];
      if !Due(s.mem, p, now) then Pass(s, w, now, i + 1, budget)
      else if budget == 0 then Passed(s, Unfinished)
      else
        var served := Serve(s, w, p, now);
        assert WakeFirst(s.mem) ==> WakeFirst(served.loop.mem) by {
          if WakeFirst(s.mem) { GrowsKeepsWake(s.mem, served.loop.mem, p); }
        }
        if served.outcome != Finished(0) then served
        else Pass(served.loop, w, now, i + 1, budget - 1)
  }

  /** The clock has been read and the walk over the list begins. */
  function Begun(s: Loop): (r: Loop)
    ensures r.mem == s.mem && Forward(s, r)
  {
    Note(Tick(s), PassBegun(s.step, |s.mem.list|))
  }

  ghost function TimerPhase(s: Loop, w: World, budget: nat): (r: Passed)
    requires Core(s.mem)
    ensures Core(r.loop.mem) && Forward(s, r.loop)
    ensures WakeFirst(s.mem) ==> WakeFirst(r.loop.mem)
  {
    match w.clock(s.step)
    case ClockError(code) => Passed(Fault(s, code), Finished(code))
    case Reading(now) => Pass(Begun(s), w, now, 0, budget)
  }

  // ---------------------------------------------------------------- wait batch

  function FlagsOf(r: Readiness): (flags: nat) {
    (if r.input || r.hangup || r.error then READ else 0) + (if r.output then WRITE else 0)
  }

  /** The kernel's answer: each entry carries the pointer stored for a registered handle. */
  function Select(registry: map<Handle, Ptr>, raw: seq<(Handle, Readiness)>): (batch: seq<(Ptr, Readiness)>)
    ensures forall i :: 0 <= i < |batch| ==> batch[i].0 in registry.Values
  {
    if raw == [] then []
    else
      var rest := Select(registry, raw[1..]);
      if raw[0].0 in registry then [(registry[raw[0].0], raw[0].1)] + rest else rest
  }

  /** At most 32 entries per wait. */
  function Truncated(batch: seq<(Ptr, Readiness)>): seq<(Ptr, Readiness)> {
    if |batch| <= MAX_BATCH then batch else batch[..MAX_BATCH]
  }

  ghost predicate Allocated(m: Mem, batch: seq<(Ptr, Readiness)>) {
    forall i :: 0 <= i < |batch| ==> batch[i].0 in m.heap
  }

  /** Dispatches a batch of kernel events; every pointer in it is still allocated when reached. */
  function Batch(s: Loop, w: World, batch: seq<(Ptr, Readiness)>): (r: Reply)
    requires Core(s.mem) && Allocated(s.mem, batch)
    ensures Core(r.loop.mem) && Grows(s.mem, r.loop.mem, NULL) && Forward(s, r.loop)
    decreases |batch|
  {
    if batch == [] then Reply(s, 0)
    else
      var (p, readiness) := batch[0];
      var flags := FlagsOf(readiness);
      var d := if s.mem.heap[p].active && flags != 0 then Dispatch(s, w, p, flags, 0) else Reply(s, 0);
      if d.code != 0 then d
      else
        var r := Batch(d.loop, w, batch[1..]);
        GrowsTransitive(s.mem, d.loop.mem, r.loop.mem, NULL);
        r
  }

  /** The kernel has been asked to wait. */
  function Entered(s: Loop, timeout: int): (r: Loop)
    ensures r.mem == s.mem && Forward(s, r)
  {
    Note(Tick(s), WaitBegun(s.step, timeout))
  }

  function WaitPhase(s: Loop, w: World, timeout: int): (r: Reply)
    requires Core(s.mem)
    ensures Core(r.loop.mem) && Grows(s.mem, r.loop.mem, NULL) && Forward(s, r.loop)
  {
    match w.wait(s.step, timeout)
    case WaitError(code) => Reply(Note(Entered(s, timeout), Faulted(code)), code)
    case Interrupted => Reply(Entered(s, timeout), 0)
    case Ready(raw) => Batch(Entered(s, timeout), w, Truncated(Select(s.mem.registry, raw)))
  }
}
