/**
 The event loop as the code runs it: an object with a growable array of source
 pointers that its methods update in place.  Every method is proved to take the
 loop from one state of the model to the next, in every world.  Where the code may
 go on for ever, a method takes the model's bound and says when it reached it.
 */
module EventLoop {
  import opened Limits
  import opened Timing
  import opened EventModel
  import opened EventRun
  import opened EventTrace

  class Reactor {
    const world: World

    var sources: array<Ptr>
    var count: nat
    var heap: map<Ptr, Source>
    var registry: map<Handle, Ptr>
    var stop: bool
    var step: nat
    ghost var log: seq<Event>

    ghost function State(): (s: Loop)
      requires count <= sources.Length
      reads this, sources
    {
      Loop(Mem(heap, sources[..count], registry, sources.Length), stop, step, log)
    }

    ghost predicate Valid()
      reads this, sources
    {
      count <= sources.Length && Core(State().mem)
    }

    // ------------------------------------------------------------------- array

    method Reserve(needed: nat) returns (code: int)
      requires Valid()
      modifies this
      ensures count <= sources.Length && EventModel.Reserve(old(State()), world, needed) == Reply(State(), code)
      ensures Valid() && (sources == old(sources) || fresh(sources))
    {
      hide Core, Grows;
      if needed <= sources.Length {
        return 0;
      }
      var capacity := if sources.Length == 0 then 8 else sources.Length * 2;
      ghost var first := capacity;
      while capacity < needed
        invariant 0 < capacity && Doubled(capacity, needed) == Doubled(first, needed)
        decreases needed - capacity
      {
        capacity := capacity * 2;
      }
      var granted := world.realloc(step);
      step := step + 1;
      if !granted {
        return ENOMEM;
      }
      var bigger := new Ptr[capacity];
      forall i | 0 <= i < count {
        bigger[i] := sources[i];
      }
      sources := bigger;
      assert sources[..count] == old(sources[..count]);
      code := 0;
    }

    method Append(p: Ptr, src: Source)
      requires Valid() && Usable(State().mem, p) && count < sources.Length
      requires src.active && !src.internal && (src.kind.Socket? ==> src.handle !in registry)
      modifies this, sources
      ensures count <= sources.Length && State() == Attach(old(State()), p, src)
      ensures Valid() && sources == old(sources)
    {
      hide Core, Grows;
      heap := heap[p := src];
      sources[count] := p;
      count := count + 1;
      if src.kind.Socket? {
        registry := registry[src.handle := p];
      }
      log := log + [Born(p, src.kind, src.due, src.interval)];
      assert sources[..count] == old(sources[..count]) + [p];
    }

    method AddSocket(handle: Handle, read: bool, write: bool) returns (code: int)
      requires Valid()
      modifies this, sources
      ensures count <= sources.Length && AddSocketTo(old(State()), world, handle, read, write) == Reply(State(), code)
      ensures Valid() && (sources == old(sources) || fresh(sources))
    {
      hide Core, Grows, Register, EventModel.Reserve;
      if !read && !write {
        return EINVAL;
      }
      code := Reserve(count + 1);
      if code != 0 {
        return;
      }
      var p := world.malloc(step);
      step := step + 1;
      if p == NULL || p in heap {
        return ENOMEM;
      }
      code := RegisterSocket(p, handle);
    }

    method RegisterSocket(p: Ptr, handle: Handle) returns (code: int)
      requires Valid() && Usable(State().mem, p) && count < sources.Length
      modifies this, sources
      ensures count <= sources.Length && Register(old(State()), world, p, handle) == Reply(State(), code)
      ensures Valid() && sources == old(sources)
    {
      hide Core, Grows, With, Attach;
      code := if handle in registry then EEXIST else world.epollAdd(step);
      step := step + 1;
      if code != 0 {
        log := log + [Born(p, Socket, 0, 0)];
        log := log + [Freed(p)];
        return;
      }
      Append(p, Source(Socket, true, false, handle, 0, 0));
    }

    method AddTimed(kind: Kind, delay: U64, interval: U64) returns (code: int)
      requires Valid() && !kind.Socket?
      modifies this, sources
      ensures count <= sources.Length && AddTimedTo(old(State()), world, kind, delay, interval) == Reply(State(), code)
      ensures Valid() && (sources == old(sources) || fresh(sources))
    {
      hide Core, Grows, Arrive, EventModel.Reserve;
      code := Reserve(count + 1);
      if code != 0 {
        return;
      }
      code := ArriveTimed(kind, delay, interval);
    }

    method ArriveTimed(kind: Kind, delay: U64, interval: U64) returns (code: int)
      requires Valid() && count < sources.Length && !kind.Socket?
      modifies this, sources
      ensures count <= sources.Length && Arrive(old(State()), world, kind, delay, interval) == Reply(State(), code)
      ensures Valid() && sources == old(sources)
    {
      hide Core, Grows, With, Attach, FirstDue;
      var reading := world.clock(step);
      step := step + 1;
      if reading.ClockError? {
        return reading.code;
      }
      var p := world.malloc(step);
      step := step + 1;
      if p == NULL || p in heap {
        return ENOMEM;
      }
      var due := FirstDue(reading.ns, delay);
      Append(p, Source(kind, true, false, 0, due, interval));
      code := 0;
    }

    method Remove(p: Ptr)
      requires Valid() && p in heap && !heap[p].internal
      modifies this
      ensures count <= sources.Length && State() == Deactivate(old(State()), p)
      ensures Valid() && sources == old(sources)
    {
      hide Core, Grows;
      if !heap[p].active {
        return;
      }
      if heap[p].kind.Socket? {
        registry := registry - {heap[p].handle};
      }
      heap := heap[p := heap[p].(active := false)];
      log := log + [Removed(p)];
    }

    method Rearm(p: Ptr, due: U64)
      requires Valid() && p in heap && !heap[p].internal
      modifies this
      ensures count <= sources.Length && State() == EventModel.Rearm(old(State()), p, due)
      ensures Valid() && sources == old(sources)
    {
      hide Core, Grows;
      heap := heap[p := heap[p].(due := due)];
      log := log + [Rearmed(p, due)];
    }

    // --------------------------------------------------------------- callbacks

    method Act(a: Action)
      requires Valid()
      modifies this, sources
      ensures count <= sources.Length && State() == EventModel.Act(old(State()), world, a).loop
      ensures Valid() && (sources == old(sources) || fresh(sources))
    {
      hide Core, Grows;
      match a {
        case AddSocket(h, read, write) =>
          var _ := AddSocket(h, read, write);
        case AddTimer(delay, every) =>
          var _ := AddTimed(Timer, MsToNs(delay), MsToNs(every));
        case AddProcess(every) =>
          var _ := AddTimed(Process, 0, MsToNs(if every == 0 then 10 else every));
        case AddFile(every) =>
          var _ := AddTimed(File, 0, MsToNs(if every == 0 then 100 else every));
        case Remove(p) =>
          if p in heap && !heap[p].internal {
            Remove(p);
          }
        case Stop =>
          stop := true;
          log := log + [Halted];
      }
    }

    /** What a callback does while it runs. */
    method React(actions: seq<Action>)
      requires Valid()
      modifies this, sources
      ensures count <= sources.Length && State() == EventModel.React(old(State()), world, actions)
      ensures Valid() && (sources == old(sources) || fresh(sources))
    {
      hide Core, Grows;
      ghost var goal := EventModel.React(State(), world, actions);
      for k := 0 to |actions|
        invariant Valid() && (sources == old(sources) || fresh(sources))
        invariant EventModel.React(State(), world, actions[k..]) == goal
      {
        assert actions[k..][0] == actions[k] && actions[k..][1..] == actions[k + 1..];
        Act(actions[k]);
      }
    }

    method Dispatch(p: Ptr, flags: nat, now: U64) returns (code: int)
      requires Valid() && p in heap
      modifies this, sources
      ensures count <= sources.Length && EventModel.Dispatch(old(State()), world, p, flags, now) == Reply(State(), code)
      ensures Valid() && (sources == old(sources) || fresh(sources))
    {
      hide Core, Grows, EventModel.React;
      if !heap[p].active {
        return 0;
      }
      var reaction := world.reaction(step);
      step := step + 1;
      log := log + [Fired(p, flags, now, reaction.result)];
      assert State() == Note(Tick(old(State())), Fired(p, flags, now, reaction.result));
      if !heap[p].internal {
        React(reaction.actions);
      }
      code := reaction.result;
    }

    // -------------------------------------------------------------- timer pass

    method ServeProcess(p: Ptr, now: U64) returns (code: int)
      requires Valid() && p in heap && heap[p].kind.Process? && heap[p].active
      modifies this, sources
      ensures count <= sources.Length && EventModel.ServeProcess(old(State()), world, p, now) == Reply(State(), code)
      ensures Valid() && (sources == old(sources) || fresh(sources))
    {
      hide Core, Grows, EventModel.Dispatch, Deactivate, EventModel.Rearm, FirstDue, Forward;
      TimedIsUser(State().mem, p);
      var answer := world.poll(step);
      step := step + 1;
      match answer {
        case PollError(e) =>
          log := log + [Faulted(e)];
          return e;
        case Running =>
          log := log + [Polled(p, now, false)];
          assert State() == Note(Tick(old(State())), Polled(p, now, false));
          Rearm(p, FirstDue(now, heap[p].interval));
          return 0;
        case Completed =>
          log := log + [Polled(p, now, true)];
          ghost var before := State();
          assert before == Note(Tick(old(State())), Polled(p, now, true));
          code := Dispatch(p, PROCESS, now);
          StillThere(before.mem, State().mem, p);
          if code != 0 {
            return;
          }
          Remove(p);
      }
    }

    method ServeFile(p: Ptr, now: U64) returns (code: int)
      requires Valid() && p in heap && heap[p].kind.File? && heap[p].active
      modifies this, sources
      ensures count <= sources.Length && EventModel.ServeFile(old(State()), world, p, now) == Reply(State(), code)
      ensures Valid() && (sources == old(sources) || fresh(sources))
    {
      hide Core, Grows, EventModel.Dispatch, EventModel.Rearm, FileFlags, FirstDue, Forward;
      TimedIsUser(State().mem, p);
      var c := world.watch(step);
      step := step + 1;
      if c.WatchError? {
        log := log + [Faulted(c.code)];
        return c.code;
      }
      var pending := c.created || c.modified || c.deleted;
      log := log + [Polled(p, now, pending)];
      code := 0;
      ghost var before := State();
      assert before == Note(Tick(old(State())), Polled(p, now, AnyChange(c)));
      if pending {
        code := Dispatch(p, FileFlags(c), now);
        StillThere(before.mem, State().mem, p);
        if code != 0 {
          return;
        }
      }
      if heap[p].active {
        Rearm(p, FirstDue(now, heap[p].interval));
      }
    }

    method ServeTimer(p: Ptr, now: U64) returns (outcome: Outcome)
      requires Valid() && p in heap && heap[p].kind.Timer? && Due(State().mem, p, now)
      modifies this, sources
      ensures count <= sources.Length && EventModel.ServeTimer(old(State()), world, p, now) == Passed(State(), outcome)
      ensures Valid() && (sources == old(sources) || fresh(sources))
    {
      hide Core, Grows, EventModel.Dispatch, Deactivate, Advanced;
      TimedIsUser(State().mem, p);
      ghost var before := State();
      var code := Dispatch(p, TIMER, now);
      StillThere(before.mem, State().mem, p);
      if code != 0 || !heap[p].active {
        return Finished(code);
      }
      if heap[p].interval == 0 {
        Remove(p);
        return Finished(0);
      }
      outcome := Advance(p, now);
    }

    /** Moves the due time of a repeating timer past `now`, unless that takes for ever. */
    method Advance(p: Ptr, now: U64) returns (outcome: Outcome)
      requires Valid() && p in heap && !heap[p].internal
      modifies this
      ensures count <= sources.Length && Advanced(old(State()), p, now) == Passed(State(), outcome)
      ensures Valid() && sources == old(sources)
    {
      hide Core, Grows, Ends, Rescheduled, EventModel.Rearm;
      var ended, next := Reschedule(heap[p].due, heap[p].interval, now);
      if !ended {
        log := log + [Spun(p)];
        return Hung;
      }
      Rearm(p, next);
      outcome := Finished(0);
    }

    method Serve(p: Ptr, now: U64) returns (outcome: Outcome)
      requires Valid() && p in heap && Due(State().mem, p, now)
      modifies this, sources
      ensures count <= sources.Length && EventModel.Serve(old(State()), world, p, now) == Passed(State(), outcome)
      ensures Valid() && (sources == old(sources) || fresh(sources))
    {
      hide Core, Grows, EventModel.ServeProcess, EventModel.ServeFile, EventModel.ServeTimer;
      log := log + [Turn(p, now)];
      if heap[p].kind.Process? {
        var code := ServeProcess(p, now);
        return Finished(code);
      }
      if heap[p].kind.File? {
        var code := ServeFile(p, now);
        return Finished(code);
      }
      outcome := ServeTimer(p, now);
    }

    /** The loop over the sources, whose list may grow while it runs, with a budget of services. */
    method VisitSources(now: U64, budget: nat) returns (outcome: Outcome)
      requires Valid()
      modifies this, sources
      ensures count <= sources.Length && Pass(old(State()), world, now, 0, budget) == Passed(State(), outcome)
      ensures Valid() && (sources == old(sources) || fresh(sources))
    {
      hide Core, Grows, Pass, EventModel.Serve, Forward, WakeFirst;
      ghost var goal := Pass(State(), world, now, 0, budget);
      var i, left := 0, budget;
      while i < count
        invariant Valid() && (sources == old(sources) || fresh(sources))
        invariant 0 <= i <= count && Pass(State(), world, now, i, left) == goal
        decreases left, count - i
      {
        ghost var s := State();
        PassStep(s, world, now, i, left);
        var p := sources[i];
        assert p == s.mem.list[i];
        if heap[p].active && !heap[p].kind.Socket? && heap[p].due <= now {
          if left == 0 {
            return Unfinished;
          }
          outcome := Serve(p, now);
          if outcome != Finished(0) {
            return;
          }
          left := left - 1;
        }
        i := i + 1;
      }
      PassEnd(State(), world, now, i, left);
      outcome := Finished(0);
    }

    method DispatchTimers(budget: nat) returns (outcome: Outcome)
      requires Valid()
      modifies this, sources
      ensures count <= sources.Length && TimerPhase(old(State()), world, budget) == Passed(State(), outcome)
      ensures Valid() && (sources == old(sources) || fresh(sources))
    {
      hide Core, Grows, Pass, WakeFirst;
      var reading := world.clock(step);
      step := step + 1;
      if reading.ClockError? {
        log := log + [Faulted(reading.code)];
        return Finished(reading.code);
      }
      log := log + [PassBegun(old(step), count)];
      outcome := VisitSources(reading.ns, budget);
    }

    // -------------------------------------------------------------- compaction

    method Compact()
      requires Valid()
      modifies this, sources
      ensures count <= sources.Length && State() == EventRun.Compact(old(State()))
      ensures Valid() && sources == old(sources)
    {
      hide Core, ChosenUpTo, Chosen, Frees, Elements, Compacted;
      ghost var was := State();
      ghost var kept, gone: seq<Ptr> := [], [];
      NothingChosen(was.mem, was.log);
      var read, write := 0, 0;
      while read < count
        invariant 0 <= write <= read <= count == old(count) <= sources.Length && sources == old(sources)
        invariant unchanged(this`registry, this`stop, this`step)
        invariant kept == ChosenUpTo(was.mem, read, true)
        invariant gone == ChosenUpTo(was.mem, read, false)
        invariant sources[..write] == kept && forall i :: read <= i < count ==> sources[i] == was.mem.list[i]
        invariant heap == was.mem.heap - Elements(gone) && log == was.log + Frees(gone)
      {
        var p := sources[read];
        ChosenStep(was.mem, read, was.log);
        if heap[p].active {
          sources[write] := p;
          write := write + 1;
          kept := kept + [p];
        } else {
          heap := heap - {p};
          log := log + [Freed(p)];
          gone := gone + [p];
        }
        read := read + 1;
      }
      count := write;
      CompactedMem(was.mem);
      assert State() == EventRun.Compact(was);
    }

    // ---------------------------------------------------------------- queries

    method ActiveUserSources() returns (n: nat)
      requires Valid()
      ensures n == ActiveUsers(State().mem, count)
    {
      hide BackendAgrees, Distinct;
      n := 0;
      for i := 0 to count
        invariant n == ActiveUsers(State().mem, i)
      {
        var p := sources[i];
        assert p == State().mem.list[i];
        if heap[p].active && !heap[p].internal {
          n := n + 1;
        }
      }
    }

    method NextTimeout(now: U64) returns (found: bool, ms: int)
      requires Valid()
      ensures found <==> Nearest(State().mem, now, count) != -1
      ensures ms == Timeout(State().mem, now) && (!found ==> ms == -1)
    {
      hide BackendAgrees, Distinct;
      found, ms := false, -1;
      var best := TWO64 - 1;
      for i := 0 to count
        invariant found <==> Nearest(State().mem, now, i) != -1
        invariant ms == -1 && Nearest(State().mem, now, i) != 0
        invariant best == if found then Nearest(State().mem, now, i) else TWO64 - 1
        invariant best < TWO64
      {
        var p := sources[i];
        assert p == State().mem.list[i];
        if heap[p].active && !heap[p].kind.Socket? {
          found := true;
          if heap[p].due <= now {
            NearestZero(State().mem, now, i + 1, count);
            return true, 0;
          }
          if heap[p].due - now < best {
            best := heap[p].due - now;
          }
        }
      }
      if found {
        var whole := (best + 999_999) % TWO64 / NS_PER_MS;
        ms := if whole > INT_MAX then INT_MAX else whole;
      }
    }

    // ------------------------------------------------------------------- waits

    method WaitSockets(timeout: int) returns (code: int)
      requires Valid()
      modifies this, sources
      ensures count <= sources.Length && WaitPhase(old(State()), world, timeout) == Reply(State(), code)
      ensures Valid() && (sources == old(sources) || fresh(sources))
    {
      hide Core, Grows, Batch, EventModel.Dispatch;
      var answer := world.wait(step, timeout);
      step := step + 1;
      log := log + [WaitBegun(old(step), timeout)];
      match answer {
        case WaitError(e) =>
          log := log + [Faulted(e)];
          return e;
        case Interrupted =>
          return 0;
        case Ready(raw) =>
          var events := Truncated(Select(registry, raw));
          FromRegistry(State().mem, raw);
          code := DispatchBatch(events);
      }
    }

    method DispatchBatch(events: seq<(Ptr, Readiness)>) returns (code: int)
      requires Valid() && Allocated(State().mem, events)
      modifies this, sources
      ensures count <= sources.Length && Batch(old(State()), world, events) == Reply(State(), code)
      ensures Valid() && (sources == old(sources) || fresh(sources))
    {
      hide Core, Batch, EventModel.Dispatch, Grows, Forward;
      ghost var goal := Batch(State(), world, events);
      for i := 0 to |events|
        invariant Valid() && (sources == old(sources) || fresh(sources))
        invariant Allocated(State().mem, events) && Batch(State(), world, events[i..]) == goal
      {
        var p, readiness := events[i].0, events[i].1;
        BatchStep(State(), world, events, i);
        var flags := 0;
        if readiness.input || readiness.hangup || readiness.error {
          flags := flags + READ;
        }
        if readiness.output {
          flags := flags + WRITE;
        }
        if heap[p].active && flags != 0 {
          code := Dispatch(p, flags, 0);
          if code != 0 {
            return;
          }
        }
      }
      EmptyBatch(State(), world);
      code := 0;
    }

    // -------------------------------------------------------------------- runs

    method ReadStop() returns (stopped: bool)
      requires Valid()
      modifies this
      ensures count <= sources.Length && State() == EventRun.ReadStop(old(State()), world)
      ensures stopped == stop && Valid() && sources == old(sources)
    {
      hide Core;
      stop := stop || world.cancelled(step);
      step := step + 1;
      stopped := stop;
    }

    method WaitAndDispatch(timeout: int, budget: nat -> nat) returns (flow: Flow)
      requires Valid() && WakeFirst(State().mem)
      modifies this, sources
      ensures count <= sources.Length && WaitHalf(old(State()), world, timeout, budget) == Round(State(), flow)
      ensures Valid() && (sources == old(sources) || fresh(sources))
    {
      hide Core, WakeFirst, Grows, WaitPhase, TimerPhase, EventRun.Compact;
      var code := WaitSockets(timeout);
      if code != 0 {
        return Leave(Finished(code));
      }
      var outcome := DispatchTimers(budget(count));
      if outcome != Finished(0) {
        return Leave(outcome);
      }
      Compact();
      flow := Continue;
    }

    /** The middle of a round: stop flag, compaction, timeout and wait. */
    method CheckAndWait(budget: nat -> nat) returns (flow: Flow)
      requires Valid() && WakeFirst(State().mem)
      modifies this, sources
      ensures count <= sources.Length && AfterPass(old(State()), world, budget) == Round(State(), flow)
      ensures Valid() && (sources == old(sources) || fresh(sources))
    {
      hide Core, WakeFirst, Grows, WaitHalf, EventRun.Compact, Timeout, ActiveUsers;
      var stopped := ReadStop();
      if stopped {
        return Leave(Finished(0));
      }
      Compact();
      var users := ActiveUserSources();
      if users == 0 {
        return Leave(Finished(0));
      }
      var reading := world.clock(step);
      step := step + 1;
      if reading.ClockError? {
        log := log + [Faulted(reading.code)];
        return Leave(Finished(reading.code));
      }
      var found, ms := NextTimeout(reading.ns);
      flow := WaitAndDispatch(if found then ms else -1, budget);
    }

    method RunRound(budget: nat -> nat) returns (flow: Flow)
      requires Valid() && WakeFirst(State().mem)
      modifies this, sources
      ensures count <= sources.Length && OneRound(old(State()), world, budget) == Round(State(), flow)
      ensures Valid() && (sources == old(sources) || fresh(sources))
    {
      hide Core, WakeFirst, Grows, TimerPhase, AfterPass;
      var outcome := DispatchTimers(budget(count));
      if outcome != Finished(0) {
        return Leave(outcome);
      }
      flow := CheckAndWait(budget);
    }

    method Run(rounds: nat, budget: nat -> nat) returns (outcome: Outcome)
      requires Valid() && WakeFirst(State().mem)
      modifies this, sources
      ensures count <= sources.Length && EventRun.Run(old(State()), world, rounds, budget) == Passed(State(), outcome)
      ensures Valid() && (sources == old(sources) || fresh(sources))
    {
      hide Core, WakeFirst, OneRound, ActiveUsers;
      stop := false;
      ghost var goal := Rounds(State(), world, rounds, budget);
      var left := rounds;
      while true
        invariant Valid() && WakeFirst(State().mem) && (sources == old(sources) || fresh(sources))
        invariant Rounds(State(), world, left, budget) == goal
        decreases left
      {
        var stopped := ReadStop();
        var users := ActiveUserSources();
        if stopped || users == 0 {
          return Finished(0);
        }
        if left == 0 {
          return Unfinished;
        }
        var flow := RunRound(budget);
        left := left - 1;
        if flow.Leave? {
          return flow.outcome;
        }
      }
    }

    // ------------------------------------------------------ creation, destruction

    constructor (world: World)
      ensures this.world == world
      ensures count <= sources.Length && State() == NewLoop && fresh(sources)
      ensures Valid()
    {
      this.world := world;
      sources := new Ptr[0];
      count, heap, registry, stop, step, log := 0, map[], map[], false, 0, [];
    }

    /** The last part of `x_event_loop_create`: adds the wake socket and marks it internal. */
    method AddWake(handle: Handle) returns (code: int)
      requires Valid() && State() == NewLoop
      modifies this, sources
      ensures count <= sources.Length && Create(world, handle) == Reply(State(), code)
      ensures Valid() && (code == 0 ==> WakeFirst(State().mem))
    {
      hide Core, WakeFirst, Grows, AddSocketTo;
      code := AddSocket(handle, true, false);
      if code == 0 {
        FirstIsThere(State().mem);
        heap := heap[sources[0] := heap[sources[0]].(internal := true)];
      }
    }

    method Destroy()
      requires Valid()
      modifies this
      ensures heap == map[] && registry == map[] && log == EventRun.Destroy(old(State())).log
    {
      hide Core, Frees, Elements;
      ghost var was := State();
      NothingChosen(was.mem, was.log);
      assert was.mem.list[..0] == [];
      for i := 0 to count
        invariant count == old(count) && sources == old(sources)
        invariant heap == was.mem.heap - Elements(was.mem.list[..i])
        invariant log == was.log + Frees(was.mem.list[..i])
        invariant Unregistered(was.mem, registry, i)
      {
        var p := sources[i];
        assert p == was.mem.list[i];
        DestroyStep(was.mem, i, was.log, registry);
        if heap[p].active && heap[p].kind.Socket? {
          registry := registry - {heap[p].handle};
        }
        heap := heap - {p};
        log := log + [Freed(p)];
      }
      assert was.mem.list[..count] == was.mem.list;
      AllGone(was.mem, registry);
    }
  }

  // ------------------------------------------------------------------- lemmas

  function Elements(list: seq<Ptr>): set<Ptr> {
    set p | p in list
  }

  /** The active or the inactive ones among the first `i` sources. */
  function ChosenUpTo(m: Mem, i: nat, active: bool): seq<Ptr>
    requires Core(m) && i <= |m.list|
  {
    Chosen(m.list[..i], m.heap, active)
  }

  lemma NothingChosen(m: Mem, log: seq<Event>)
    requires Core(m)
    ensures forall active :: ChosenUpTo(m, 0, active) == []
    ensures m.heap - Elements([]) == m.heap && log + Frees([]) == log
  {
  }

  /** One turn of the compaction loop. */
  lemma ChosenStep(m: Mem, i: nat, log: seq<Event>)
    requires Core(m) && i < |m.list|
    ensures m.list[i] in m.heap
    ensures forall active :: ChosenUpTo(m, i + 1, active) ==
              ChosenUpTo(m, i, active) + if m.heap[m.list[i]].active == active then [m.list[i]] else []
    ensures var p, gone := m.list[i], ChosenUpTo(m, i, false); var rest := m.heap - Elements(gone);
            && p in rest && rest[p] == m.heap[p]
            && rest - {p} == m.heap - Elements(gone + [p])
            && log + Frees(gone) + [Freed(p)] == log + Frees(gone + [p])
  {
    hide BackendAgrees;
    assert m.list[..i + 1][..i] == m.list[..i];
    var p, gone := m.list[i], ChosenUpTo(m, i, false);
    assert p !in gone;
    assert Elements(gone + [p]) == Elements(gone) + {p};
    assert Frees(gone) + [Freed(p)] == Frees(gone + [p]);
  }

  lemma FirstIsThere(m: Mem)
    requires Core(m) && 0 < |m.list|
    ensures m.list[0] in m.heap
  {
  }

  /** The kernel's table without the sources destroyed so far. */
  ghost predicate Unregistered(m: Mem, registry: map<Handle, Ptr>, i: nat)
    requires i <= |m.list|
  {
    && (forall h :: h in registry ==> h in m.registry && registry[h] == m.registry[h] && m.registry[h] !in m.list[..i])
    && (forall h :: h in m.registry && m.registry[h] !in m.list[..i] ==> h in registry)
  }

  /** One turn of the destruction loop. */
  lemma DestroyStep(m: Mem, i: nat, log: seq<Event>, registry: map<Handle, Ptr>)
    requires Core(m) && i < |m.list| && Unregistered(m, registry, i)
    ensures var p, rest := m.list[i], m.heap - Elements(m.list[..i]);
            && p in rest && rest[p] == m.heap[p]
            && rest - {p} == m.heap - Elements(m.list[..i + 1])
            && log + Frees(m.list[..i]) + [Freed(p)] == log + Frees(m.list[..i + 1])
            && Unregistered(m, if rest[p].active && rest[p].kind.Socket? then registry - {rest[p].handle} else registry, i + 1)
  {
    var p := m.list[i];
    assert m.list[..i + 1] == m.list[..i] + [p];
    assert Elements(m.list[..i + 1]) == Elements(m.list[..i]) + {p};
    assert Frees(m.list[..i]) + [Freed(p)] == Frees(m.list[..i + 1]);
    assert p !in m.list[..i];
  }

  lemma AllGone(m: Mem, registry: map<Handle, Ptr>)
    requires Core(m) && Unregistered(m, registry, |m.list|)
    ensures m.heap - Elements(m.list) == map[] && registry == map[]
  {
    AllocatedIsListed(m);
    assert m.list[..|m.list|] == m.list;
    assert forall h :: h !in registry;
  }

  lemma CompactedMem(m: Mem)
    requires Core(m)
    ensures ChosenUpTo(m, |m.list|, true) == Compacted(m).list
    ensures ChosenUpTo(m, |m.list|, false) == Chosen(m.list, m.heap, false)
    ensures m.heap - Elements(ChosenUpTo(m, |m.list|, false)) == Compacted(m).heap
    ensures m.registry == Compacted(m).registry && m.capacity == Compacted(m).capacity
  {
    hide BackendAgrees, Distinct;
    assert m.list[..|m.list|] == m.list;
    AllocatedIsListed(m);
  }

  lemma {:induction false} NearestZero(m: Mem, now: nat, i: nat, n: nat)
    requires Core(m) && i <= n <= |m.list| && Nearest(m, now, i) == 0
    ensures Nearest(m, now, n) == 0
    decreases n - i
  {
    hide BackendAgrees, Distinct;
    if i < n {
      NearestZero(m, now, i + 1, n);
    }
  }

  /** One turn of the loop in the timer pass. */
  lemma PassStep(s: Loop, w: World, now: U64, i: nat, budget: nat)
    requires Core(s.mem) && i < |s.mem.list|
    ensures s.mem.list[i] in s.mem.heap
    ensures !Due(s.mem, s.mem.list[i], now) ==> Pass(s, w, now, i, budget) == Pass(s, w, now, i + 1, budget)
    ensures Due(s.mem, s.mem.list[i], now) && budget == 0 ==> Pass(s, w, now, i, budget) == Passed(s, Unfinished)
    ensures Due(s.mem, s.mem.list[i], now) && budget > 0 ==>
      var served := EventModel.Serve(s, w, s.mem.list[i], now);
      && i + 1 <= |served.loop.mem.list|
      && Pass(s, w, now, i, budget) ==
         if served.outcome != Finished(0) then served else Pass(served.loop, w, now, i + 1, budget - 1)
  {
    hide BackendAgrees, Distinct, EventModel.Serve;
  }

  lemma PassEnd(s: Loop, w: World, now: U64, i: nat, budget: nat)
    requires Core(s.mem) && i >= |s.mem.list|
    ensures Pass(s, w, now, i, budget) == Passed(s, Finished(0))
  {
  }

  lemma TimedIsUser(m: Mem, p: Ptr)
    requires Core(m) && p in m.heap && !m.heap[p].kind.Socket?
    ensures !m.heap[p].internal && p != NULL
  {
  }

  lemma StillThere(m: Mem, n: Mem, p: Ptr)
    requires Grows(m, n, NULL) && p in m.heap && p != NULL
    ensures p in n.heap && n.heap[p].internal == m.heap[p].internal && n.heap[p].kind == m.heap[p].kind
    ensures n.heap[p].active ==> n.heap[p] == m.heap[p]
  {
  }
}
