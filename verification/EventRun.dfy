/**
 Compaction, the wait timeout, whole runs of the loop, and its whole life from
 creation to destruction.
 */
module EventRun {
  import opened Limits
  import opened Timing
  import opened EventModel

  // --------------------------------------------------------------- compaction

  /** The pointers of `list` whose source is active (or not), in order. */
  function Chosen(list: seq<Ptr>, heap: map<Ptr, Source>, active: bool): (r: seq<Ptr>)
    requires forall i :: 0 <= i < |list| ==> list[i] in heap
    ensures forall p :: p in r <==> p in list && heap[p].active == active
    ensures |r| <= |list|
    ensures Distinct(list) ==> Distinct(r)
  {
    if list == [] then []
    else
      var n := |list| - 1;
      var rest := Chosen(list[..n], heap, active);
      assert list == list[..n] + [list[n]];
      if heap[list[n]].active == active then rest + [list[n]] else rest
  }

  /** `p` stands before `q` in the list. */
  ghost predicate Before(list: seq<Ptr>, p: Ptr, q: Ptr) {
    exists i, j :: 0 <= i < j < |list| && list[i] == p && list[j] == q
  }

  /** Compaction does not reorder: what stands earlier in the chosen part stood earlier in the list. */
  lemma ChosenInOrder(list: seq<Ptr>, heap: map<Ptr, Source>, active: bool, a: nat, b: nat)
    requires forall i :: 0 <= i < |list| ==> list[i] in heap
    requires a < b < |Chosen(list, heap, active)|
    ensures Before(list, Chosen(list, heap, active)[a], Chosen(list, heap, active)[b])
  {
    hide Chosen;
    var i, j := Origins(list, heap, active, a, b);
  }

  lemma ChosenLast(list: seq<Ptr>, heap: map<Ptr, Source>, active: bool)
    requires list != [] && forall i :: 0 <= i < |list| ==> list[i] in heap
    ensures var n := |list| - 1;
            Chosen(list, heap, active) ==
              Chosen(list[..n], heap, active) + if heap[list[n]].active == active then [list[n]] else []
  {
  }

  /** Where the chosen entries at `a` and `b` come from. */
  lemma {:induction false} Origins(list: seq<Ptr>, heap: map<Ptr, Source>, active: bool, a: nat, b: nat) returns (i: nat, j: nat)
    requires forall i :: 0 <= i < |list| ==> list[i] in heap
    requires a <= b < |Chosen(list, heap, active)|
    ensures i <= j < |list| && (a < b ==> i < j)
    ensures list[i] == Chosen(list, heap, active)[a] && list[j] == Chosen(list, heap, active)[b]
    decreases |list|
  {
    hide Chosen, Distinct;
    ChosenSize(list, heap, active);
    ChosenLast(list, heap, active);
    var n := |list| - 1;
    var rest := Chosen(list[..n], heap, active);
    if b < |rest| {
      i, j := Origins(list[..n], heap, active, a, b);
    } else if a < b {
      i, j := Origins(list[..n], heap, active, a, a);
      j := n;
    } else {
      i, j := n, n;
    }
  }

  lemma ChosenSize(list: seq<Ptr>, heap: map<Ptr, Source>, active: bool)
    requires forall i :: 0 <= i < |list| ==> list[i] in heap
    ensures |Chosen(list, heap, active)| <= |list|
  {
  }

  function Frees(list: seq<Ptr>): (r: seq<Event>)
    ensures |r| == |list| && forall i :: 0 <= i < |r| ==> r[i] == Freed(list[i])
  {
    seq(|list|, i requires 0 <= i < |list| => Freed(list[i]))
  }

  function Compacted(m: Mem): (n: Mem)
    requires Core(m)
    ensures Core(n)
    ensures WakeFirst(m) ==> WakeFirst(n)
  {
    var n := m.(heap := map p | p in m.heap && m.heap[p].active :: m.heap[p], list := Chosen(m.list, m.heap, true));
    CompactedCore(m, n);
    n
  }

  lemma CompactedCore(m: Mem, n: Mem)
    requires Core(m)
    requires n.list == Chosen(m.list, m.heap, true) && n.registry == m.registry && n.capacity == m.capacity
    requires n.heap == map p | p in m.heap && m.heap[p].active :: m.heap[p]
    ensures Core(n)
    ensures WakeFirst(m) ==> WakeFirst(n)
  {
    AllocatedIsListed(m);
    SameElementsSameSize(n.list, n.heap.Keys);
    if WakeFirst(m) {
      HeadStays(m.list, m.heap);
    }
  }

  lemma {:induction false} SameElementsSameSize(list: seq<Ptr>, all: set<Ptr>)
    requires Distinct(list) && forall p :: p in all <==> p in list
    ensures |list| == |all|
  {
    if list == [] {
      assert all == {};
    } else {
      var n := |list| - 1;
      assert list == list[..n] + [list[n]];
      SameElementsSameSize(list[..n], all - {list[n]});
    }
  }

  lemma {:induction false} HeadStays(list: seq<Ptr>, heap: map<Ptr, Source>)
    requires 0 < |list| && forall i :: 0 <= i < |list| ==> list[i] in heap
    requires heap[list[0]].active
    ensures 0 < |Chosen(list, heap, true)| && Chosen(list, heap, true)[0] == list[0]
  {
    if |list| == 1 {
      assert list[..0] == [];
    } else {
      HeadStays(list[..|list| - 1], heap);
    }
  }

  function Compact(s: Loop): (r: Loop)
    requires Core(s.mem)
    ensures Core(r.mem) && Forward(s, r)
    ensures WakeFirst(s.mem) ==> WakeFirst(r.mem)
  {
    s.(mem := Compacted(s.mem), log := s.log + Frees(Chosen(s.mem.list, s.mem.heap, false)))
  }

  // ------------------------------------------------------------------ timeout

  /** The least distance to a due time among the first `n` listed sources, 0 if one is due, -1 if there is none. */
  function Nearest(m: Mem, now: nat, n: nat): (d: int)
    requires Core(m) && n <= |m.list|
    ensures -1 <= d
  {
    if n == 0 then -1
    else
      var rest := Nearest(m, now, n - 1);
      var src := m.heap[m.list[n - 1]];
      if !src.Timed() then rest
      else
        var here := if src.due <= now then 0 else src.due - now;
        if rest == -1 || here < rest then here else rest
  }

  /** The timeout argument of the wait; -1 waits without one. */
  function Timeout(m: Mem, now: nat): (ms: int)
    requires Core(m)
    ensures -1 <= ms <= INT_MAX
  {
    var d := Nearest(m, now, |m.list|);
    if d == -1 then -1 else RoundUpMs(d)
  }

  /** The number of active sources of the user among the first `n`. */
  function ActiveUsers(m: Mem, n: nat): (count: nat)
    requires Core(m) && n <= |m.list|
  {
    if n == 0 then 0
    else
      var src := m.heap[m.list[n - 1]];
      ActiveUsers(m, n - 1) + (if src.active && !src.internal then 1 else 0)
  }

  /** A loop is deserted exactly when no active user source is left. */
  lemma {:induction false} NobodyActiveIff(m: Mem, n: nat)
    requires Core(m) && n <= |m.list|
    ensures ActiveUsers(m, n) == 0 <==>
            forall i :: 0 <= i < n ==> !m.heap[m.list[i]].active || m.heap[m.list[i]].internal
  {
    if n != 0 {
      NobodyActiveIff(m, n - 1);
    }
  }

  predicate Deserted(m: Mem)
    requires Core(m)
  {
    ActiveUsers(m, |m.list|) == 0
  }

  // --------------------------------------------------------------------- runs

  /** Reads the stop flag, which another thread may have set meanwhile. */
  function ReadStop(s: Loop, w: World): Loop {
    Tick(s).(stop := s.stop || w.cancelled(s.step))
  }

  datatype Flow = Continue | Leave(outcome: Outcome)

  datatype Round = Round(loop: Loop, flow: Flow)

  /** The end of a round: the second timer pass and compaction. */
  ghost function AfterWait(s: Loop, w: World, budget: nat -> nat): (r: Round)
    requires Inv(s.mem)
    ensures Inv(r.loop.mem) && Forward(s, r.loop)
    ensures r.flow != Leave(Finished(0))
  {
    var passed := TimerPhase(s, w, budget(|s.mem.list|));
    if passed.outcome != Finished(0) then Round(passed.loop, Leave(passed.outcome))
    else Round(Compact(passed.loop), Continue)
  }

  ghost function WaitHalf(s: Loop, w: World, timeout: int, budget: nat -> nat): (r: Round)
    requires Inv(s.mem)
    ensures Inv(r.loop.mem) && Forward(s, r.loop)
    ensures r.flow != Leave(Finished(0))
  {
    var waited := WaitPhase(s, w, timeout);
    GrowsKeepsWake(s.mem, waited.loop.mem, NULL);
    if waited.code != 0 then Round(waited.loop, Leave(Finished(waited.code))) else AfterWait(waited.loop, w, budget)
  }

  /** The middle of a round: the stop flag, compaction, and the clock reading behind the timeout. */
  ghost function AfterPass(s: Loop, w: World, budget: nat -> nat): (r: Round)
    requires Inv(s.mem)
    ensures Inv(r.loop.mem) && Forward(s, r.loop)
    ensures r.flow == Leave(Finished(0)) ==> r.loop.stop || Deserted(r.loop.mem)
  {
    var s1 := ReadStop(s, w);
    if s1.stop then Round(s1, Leave(Finished(0)))
    else
      var s2 := Compact(s1);
      if Deserted(s2.mem) then Round(s2, Leave(Finished(0)))
      else
        match w.clock(s2.step)
        case ClockError(code) => Round(Fault(s2, code), Leave(Finished(code)))
        case Reading(now) => WaitHalf(Tick(s2), w, Timeout(s2.mem, now), budget)
  }

  /** One turn of the loop in `x_event_loop_run`. */
  ghost function OneRound(s: Loop, w: World, budget: nat -> nat): (r: Round)
    requires Inv(s.mem)
    ensures Inv(r.loop.mem) && Forward(s, r.loop)
    ensures r.flow == Leave(Finished(0)) ==> r.loop.stop || Deserted(r.loop.mem)
  {
    var passed := TimerPhase(s, w, budget(|s.mem.list|));
    if passed.outcome != Finished(0) then Round(passed.loop, Leave(passed.outcome))
    else AfterPass(passed.loop, w, budget)
  }

  /**
   At most `rounds` turns of the run loop; `budget` limits the services of a timer
   pass, given the number of sources at its start.  Quantifying over both covers
   every finite part of every run.
   */
  ghost function Rounds(s: Loop, w: World, rounds: nat, budget: nat -> nat): (r: Passed)
    requires Inv(s.mem)
    ensures Inv(r.loop.mem) && s.log <= r.loop.log && s.step <= r.loop.step
    ensures r.outcome == Finished(0) ==> r.loop.stop || Deserted(r.loop.mem)
    decreases rounds
  {
    var s1 := ReadStop(s, w);
    if s1.stop || Deserted(s1.mem) then Passed(s1, Finished(0))
    else if rounds == 0 then Passed(s1, Unfinished)
    else
      var round := OneRound(s1, w, budget);
      match round.flow
      case Continue => Rounds(round.loop, w, rounds - 1, budget)
      case Leave(outcome) => Passed(round.loop, outcome)
  }

  ghost function Run(s: Loop, w: World, rounds: nat, budget: nat -> nat): (r: Passed)
    requires Inv(s.mem)
    ensures Inv(r.loop.mem) && s.log <= r.loop.log
    ensures r.outcome == Finished(0) ==> r.loop.stop || Deserted(r.loop.mem)
  {
    Rounds(s.(stop := false), w, rounds, budget)
  }

  // ------------------------------------------------------------ whole lifetime

  const NewLoop := Loop(Mem(map[], [], map[], 0), false, 0, [])

  /** The loop after `x_event_loop_create`; a failed create leaves nothing allocated. */
  function Create(w: World, wake: Handle): (r: Reply)
    ensures r.code == 0 ==> Inv(r.loop.mem)
    ensures r.code != 0 ==> r.loop.mem.heap == map[] && r.loop.mem.registry == map[]
  {
    var added := AddSocketTo(NewLoop, w, wake, true, false);
    if added.code != 0 then added else Reply(added.loop.(mem := Marked(added.loop.mem)), 0)
  }

  /** The first and only source becomes the wake source. */
  function Marked(m: Mem): (n: Mem)
    requires Core(m) && |m.list| == 1 && m.heap[m.list[0]].kind.Socket? && m.heap[m.list[0]].active
    ensures Inv(n)
  {
    var p := m.list[0];
    AllocatedIsListed(m);
    m.(heap := m.heap[p := m.heap[p].(internal := true)])
  }

  /** `x_event_loop_destroy`: frees every listed source and empties the kernel's table. */
  function Destroy(s: Loop): (r: Loop) {
    s.(mem := Mem(map[], [], map[], 0), log := s.log + Frees(s.mem.list))
  }

  /** What the owner of a loop may do with it between creation and destruction. */
  datatype Call = Outside(action: Action) | Running(rounds: nat, budget: nat -> nat)

  ghost function Perform(s: Loop, w: World, c: Call): (r: Passed)
    requires Inv(s.mem)
    ensures Inv(r.loop.mem) && s.log <= r.loop.log
  {
    match c
    case Outside(a) =>
      var r := Act(s, w, a);
      GrowsKeepsWake(s.mem, r.loop.mem, NULL);
      Ended(r)
    case Running(rounds, budget) => Run(s, w, rounds, budget)
  }

  /** Any sequence of calls; a run that hangs is the last. */
  ghost function Session(s: Loop, w: World, calls: seq<Call>): (r: Loop)
    requires Inv(s.mem)
    ensures Inv(r.mem) && s.log <= r.log
    decreases |calls|
  {
    if calls == [] then s
    else
      var r := Perform(s, w, calls[0]);
      if r.outcome.Hung? then r.loop else Session(r.loop, w, calls[1..])
  }
}
