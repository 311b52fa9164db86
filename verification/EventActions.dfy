/**
 What each call on the loop does, in terms of what the surroundings grant: when an
 add succeeds and what it adds, what removal and stop leave behind, and that a
 callback gets everything it asks for.
 */
module EventActions {
  import opened Limits
  import opened Timing
  import opened EventModel
  import opened EventRun

  // ------------------------------------------------------------------------ adds

  /** The array has room for one more source, or can be made to. */
  predicate RoomFor(s: Loop, w: World) {
    |s.mem.list| < s.mem.capacity || w.realloc(s.step)
  }

  /** The number of the outside call after making room. */
  function AfterRoom(s: Loop): nat {
    if |s.mem.list| < s.mem.capacity then s.step else s.step + 1
  }

  /** The call failed and left nothing behind but perhaps a larger array. */
  ghost predicate Rejected(s: Loop, r: Reply, code: int) {
    r.code == code != 0 && r.loop.mem.(capacity := s.mem.capacity) == s.mem && r.loop.log == s.log && r.loop.stop == s.stop
  }

  /** The call added exactly `src`, at address `p` and at the end of the list. */
  ghost predicate Accepted(s: Loop, r: Reply, p: Ptr, src: Source) {
    && r.code == 0 && r.loop.stop == s.stop && r.loop.log == s.log + [Born(p, src.kind, src.due, src.interval)]
    && r.loop.mem.list == s.mem.list + [p] && p != NULL && p !in s.mem.heap && r.loop.mem.heap == s.mem.heap[p := src]
    && r.loop.mem.registry == if src.kind.Socket? then s.mem.registry[src.handle := p] else s.mem.registry
  }

  /** Adding a polled or timed source needs room, a clock reading and memory, in this order. */
  ghost predicate TimedAdd(s: Loop, w: World, r: Reply, kind: Kind, delay: nat, interval: U64) {
    var k := AfterRoom(s);
    if !RoomFor(s, w) then Rejected(s, r, ENOMEM)
    else if w.clock(k).ClockError? then Rejected(s, r, w.clock(k).code)
    else if !Usable(s.mem, w.malloc(k + 1)) then Rejected(s, r, ENOMEM)
    else Accepted(s, r, w.malloc(k + 1), Source(kind, true, false, 0, (w.clock(k).ns + delay) % TWO64, interval))
  }

  /** Adding a socket needs an interest, room, memory, a handle not yet registered, and the kernel's consent. */
  ghost predicate SocketAdd(s: Loop, w: World, r: Reply, handle: Handle, read: bool, write: bool) {
    var k := AfterRoom(s);
    if !read && !write then Rejected(s, r, EINVAL)
    else if !RoomFor(s, w) then Rejected(s, r, ENOMEM)
    else if !Usable(s.mem, w.malloc(k)) then Rejected(s, r, ENOMEM)
    else if handle in s.mem.registry || w.epollAdd(k + 1) != 0 then
      var p := w.malloc(k);
      Rejected(s.(log := s.log + [Born(p, Socket, 0, 0), Freed(p)]), r,
               if handle in s.mem.registry then EEXIST else w.epollAdd(k + 1))
    else Accepted(s, r, w.malloc(k), Source(Socket, true, false, handle, 0, 0))
  }

  lemma AddTimedMeans(s: Loop, w: World, kind: Kind, delay: U64, interval: U64)
    requires Core(s.mem) && !kind.Socket?
    ensures TimedAdd(s, w, AddTimedTo(s, w, kind, delay, interval), kind, delay, interval)
  {
    hide Core, Grows, Doubled, Forward;
  }

  lemma AddSocketMeans(s: Loop, w: World, handle: Handle, read: bool, write: bool)
    requires Core(s.mem)
    ensures SocketAdd(s, w, AddSocketTo(s, w, handle, read, write), handle, read, write)
  {
    hide Core, Grows, Doubled, Forward;
    var k := AfterRoom(s);
    if (read || write) && RoomFor(s, w) && Usable(s.mem, w.malloc(k)) {
      var s1 := Tick(Reserve(s, w, |s.mem.list| + 1).loop);
      assert s1.step == k + 1 && AddSocketTo(s, w, handle, read, write) == Register(s1, w, w.malloc(k), handle);
    }
  }

  /** A loop is created exactly if its first array, the wake source and its registration are granted, and then holds just that. */
  lemma CreateMeans(w: World, wake: Handle)
    ensures var r := Create(w, wake);
            && (r.code == 0 <==> w.realloc(0) && w.malloc(1) != NULL && w.epollAdd(2) == 0)
            && (r.code == 0 ==> var p := w.malloc(1);
                  && r.loop.mem.list == [p] && r.loop.mem.registry == map[wake := p]
                  && r.loop.mem.heap == map[p := Source(Socket, true, true, wake, 0, 0)])
  {
    EmptyIsCore();
    hide WakeFirst, AddSocketTo, BackendAgrees, Grows, Forward;
    AddSocketMeans(NewLoop, w, wake, true, false);
  }

  lemma EmptyIsCore()
    ensures Core(NewLoop.mem)
  {
  }

  // --------------------------------------------------------------------- actions

  /** What each action does, and exactly when an add succeeds. */
  lemma ActMeans(s: Loop, w: World, a: Action)
    requires Core(s.mem)
    ensures var r := Act(s, w, a);
            match a
            case AddSocket(h, read, write) => SocketAdd(s, w, r, h, read, write)
            case AddTimer(delay, every) => TimedAdd(s, w, r, Timer, MsToNs(delay), MsToNs(every))
            case AddProcess(every) => TimedAdd(s, w, r, Process, 0, if every == 0 then 10_000_000 else MsToNs(every))
            case AddFile(every) => TimedAdd(s, w, r, File, 0, if every == 0 then 100_000_000 else MsToNs(every))
            case Remove(p) =>
              && r.code == 0 && r.loop.stop == s.stop && r.loop.mem.list == s.mem.list
              && r.loop.mem.heap == if Removable(s.mem, p) then s.mem.heap[p := s.mem.heap[p].(active := false)] else s.mem.heap
            case Stop => r.code == 0 && r.loop.stop && r.loop.mem == s.mem && r.loop.log == s.log + [Halted]
  {
    hide Core, Grows, Forward, AddSocketTo, AddTimedTo, TimedAdd, SocketAdd;
    match a
    case AddSocket(h, read, write) => AddSocketMeans(s, w, h, read, write);
    case AddTimer(delay, every) => AddTimedMeans(s, w, Timer, MsToNs(delay), MsToNs(every));
    case AddProcess(every) => AddTimedMeans(s, w, Process, 0, MsToNs(if every == 0 then 10 else every));
    case AddFile(every) => AddTimedMeans(s, w, File, 0, MsToNs(if every == 0 then 100 else every));
    case Remove(p) =>
    case Stop =>
  }

  /** A callback's actions happen one after the other, in its order. */
  lemma {:induction false} ReactSnoc(s: Loop, w: World, actions: seq<Action>, a: Action)
    requires Core(s.mem)
    ensures React(s, w, actions + [a]) == Act(React(s, w, actions), w, a).loop
    decreases |actions|
  {
    hide Core, Grows, Forward, Act;
    if actions == [] {
      assert ([] + [a])[1..] == [];
    } else {
      assert (actions + [a])[1..] == actions[1..] + [a];
      ReactSnoc(Act(s, w, actions[0]).loop, w, actions[1..], a);
    }
  }

  lemma {:induction false} ReactStops(s: Loop, w: World, actions: seq<Action>)
    requires Core(s.mem) && Stop in actions
    ensures React(s, w, actions).stop
    decreases |actions|
  {
    hide Core, Grows, Act;
    if actions[0] == Stop {
      ActMeans(s, w, Stop);
    } else {
      assert actions == [actions[0]] + actions[1..];
      ReactStops(Act(s, w, actions[0]).loop, w, actions[1..]);
    }
  }

  lemma NullIsFree(m: Mem)
    requires Core(m)
    ensures NULL !in m.heap
  {
  }

  lemma StaysRemovable(m: Mem, n: Mem, q: Ptr)
    requires NULL !in m.heap && Grows(m, n, NULL) && Removable(m, q)
    ensures Removable(n, q) && (!m.heap[q].active ==> !n.heap[q].active)
  {
  }

  lemma {:induction false} ReactRemoves(s: Loop, w: World, actions: seq<Action>, q: Ptr)
    requires Core(s.mem) && Remove(q) in actions && Removable(s.mem, q)
    ensures q in React(s, w, actions).mem.heap && !React(s, w, actions).mem.heap[q].active
    decreases |actions|
  {
    hide Core, Grows, Act, TimedAdd, SocketAdd;
    var s1 := Act(s, w, actions[0]).loop;
    NullIsFree(s.mem);
    NullIsFree(s1.mem);
    ActMeans(s, w, actions[0]);
    StaysRemovable(s.mem, s1.mem, q);
    if actions[0] == Remove(q) {
      StaysRemovable(s1.mem, React(s1, w, actions[1..]).mem, q);
    } else {
      assert actions == [actions[0]] + actions[1..];
      ReactRemoves(s1, w, actions[1..], q);
    }
  }

  /**
   What a user callback asks for happens: its result is reported, its stop request is
   in force, the sources it removes are inactive, and without requests nothing changes.
   */
  lemma CallbackDoes(s: Loop, w: World, p: Ptr, flags: nat, now: U64)
    requires Core(s.mem) && p in s.mem.heap && s.mem.heap[p].active && !s.mem.heap[p].internal
    ensures var d := Dispatch(s, w, p, flags, now); var asked := w.reaction(s.step);
            && d.code == asked.result
            && (Stop in asked.actions ==> d.loop.stop)
            && (asked.actions == [] ==> d.loop.mem == s.mem && d.loop.stop == s.stop)
            && (forall q :: Remove(q) in asked.actions && Removable(s.mem, q) ==>
                  q in d.loop.mem.heap && !d.loop.mem.heap[q].active)
  {
    hide BackendAgrees, Distinct, Grows, Forward;
    var asked := w.reaction(s.step);
    var t := Note(Tick(s), Fired(p, flags, now, asked.result));
    if Stop in asked.actions {
      ReactStops(t, w, asked.actions);
    }
    forall q | Remove(q) in asked.actions && Removable(s.mem, q)
      ensures var m := Dispatch(s, w, p, flags, now).loop.mem; q in m.heap && !m.heap[q].active
    {
      ReactRemoves(t, w, asked.actions, q);
    }
  }

  /** The wake callback only drains its socket, whatever the world has for it. */
  lemma WakeCallbackDoes(s: Loop, w: World, p: Ptr, flags: nat, now: U64)
    requires Core(s.mem) && p in s.mem.heap && s.mem.heap[p].active && s.mem.heap[p].internal
    ensures var d := Dispatch(s, w, p, flags, now);
            d.code == w.reaction(s.step).result && d.loop.mem == s.mem && d.loop.stop == s.stop
  {
  }
}
