/**
 What happens to a source whose callback fails: it stays as it was, and the next run
 calls it again.
 */
module EventRetry {
  import opened Timing
  import opened EventModel
  import opened EventRun
  import opened EventTrace
  import opened EventLife
  import opened EventSpin

  /** After its callback has run, a one-shot source is still armed exactly if the callback failed and did not remove it. */
  lemma OneShotStaysIff(s: Loop, w: World, p: Ptr, now: U64)
    requires Core(s.mem) && p in s.mem.heap && Due(s.mem, p, now)
    requires OneShot(s.mem.heap[p].kind, s.mem.heap[p].interval) && PlanOf(s, w, p).Firing?
    ensures var d := Dispatch(BeforeCallback(s, w, p, now), w, p, PlanOf(s, w, p).flags, now);
            Serve(s, w, p, now).loop.mem.heap[p].active <==> d.code != 0 && d.loop.mem.heap[p].active
  {
    hide BackendAgrees, Distinct, Dispatch;
  }

  /**
   After the service of a repeating timer the same slot is still due exactly if its
   callback failed, or the reschedule never ends, and the timer was not removed.
   */
  lemma SlotStaysIff(s: Loop, w: World, p: Ptr, now: U64)
    requires Core(s.mem) && p in s.mem.heap && Due(s.mem, p, now) && s.mem.heap[p].kind.Timer? && 0 < s.mem.heap[p].interval
    ensures var d, src := Dispatch(BeforeCallback(s, w, p, now), w, p, TIMER, now), s.mem.heap[p];
            Serve(s, w, p, now).loop.mem.heap[p] == src <==>
              d.loop.mem.heap[p].active && (d.code != 0 || !Ends(src.due, src.interval, now))
  {
    hide BackendAgrees, Distinct, Dispatch, Ends;
    var d := Dispatch(BeforeCallback(s, w, p, now), w, p, TIMER, now);
    assert p != NULL;
    assert d.loop.mem.heap[p].active ==> d.loop.mem.heap[p] == s.mem.heap[p];
  }

  /** Every callback does nothing and fails. */
  const Failing := World(
    k => Reading(0),
    k => k + 1,
    k => true,
    k => 0,
    k => Reaction([], 7),
    k => PollAnswer.Running,
    k => Changes(false, false, false),
    (k, ms) => Interrupted,
    k => false)

  /** The wake source and one timer that is due. */
  ghost predicate Armed(m: Mem) {
    Inv(m) && |m.list| == 2 && m.heap[m.list[1]].kind.Timer? && Due(m, m.list[1], 0)
  }

  function Attempted(s: Loop, p: Ptr): seq<Event> {
    s.log + [Turn(p, 0), Fired(p, TIMER, 0, 7)]
  }

  lemma ServiceFails(s: Loop, p: Ptr)
    requires Core(s.mem) && p in s.mem.heap && s.mem.heap[p].kind.Timer? && Due(s.mem, p, 0)
    ensures var r := Serve(s, Failing, p, 0);
            r.outcome == Finished(7) && r.loop.mem == s.mem && r.loop.log == Attempted(s, p)
  {
    hide BackendAgrees, Distinct;
    var t := Note(s, Turn(p, 0));
    assert React(Note(Tick(t), Fired(p, TIMER, 0, 7)), Failing, []) == Note(Tick(t), Fired(p, TIMER, 0, 7));
  }

  lemma PassFails(s: Loop, budget: nat)
    requires Armed(s.mem) && 0 < budget
    ensures var r := Pass(s, Failing, 0, 0, budget);
            r.outcome == Finished(7) && r.loop.mem == s.mem && r.loop.log == Attempted(s, s.mem.list[1])
  {
    hide BackendAgrees, Distinct, Serve;
    ServiceFails(s, s.mem.list[1]);
    assert Pass(s, Failing, 0, 0, budget) == Pass(s, Failing, 0, 1, budget);
  }

  lemma RunFails(s: Loop, rounds: nat, budget: nat -> nat)
    requires Armed(s.mem) && 0 < rounds && 0 < budget(2)
    ensures var r := Run(s, Failing, rounds, budget);
            && r.outcome == Finished(7) && r.loop.mem == s.mem
            && r.loop.log == s.log + [PassBegun(s.step + 1, 2)] + [Turn(s.mem.list[1], 0), Fired(s.mem.list[1], TIMER, 0, 7)]
  {
    hide BackendAgrees, Distinct, Pass, AfterPass;
    var s1 := ReadStop(s.(stop := false), Failing);
    NobodyActiveIff(s1.mem, 2);
    PassFails(Begun(s1), budget(2));
  }

  function OnePerSource(n: nat): nat { n }

  /** A loop whose owner adds one timer without delay and runs it twice. */
  function Retrying(every: nat): seq<Call> {
    [Outside(AddTimer(0, every)), Call.Running(1, OnePerSource), Call.Running(1, OnePerSource)]
  }

  /** One timer, and two passes with a callback of it. */
  function TwoAttempts(p: Ptr, interval: U64, j: nat, k: nat): seq<Event> {
    [Born(p, Timer, 0, interval), PassBegun(j, 2), Turn(p, 0), Fired(p, TIMER, 0, 7),
     PassBegun(k, 2), Turn(p, 0), Fired(p, TIMER, 0, 7)]
  }

  /**
   The timer fires in both runs: a one-shot timer although it has but one shot, and a
   repeating one although only one of its slots has come due.
   */
  lemma FailedTimerFiresAgain(wake: Handle, every: nat)
    ensures Create(Failing, wake).code == 0
    ensures var c := Create(Failing, wake).loop; var log := Session(c, Failing, Retrying(every)).log;
            exists p, j, k :: log == c.log + TwoAttempts(p, MsToNs(every), j, k) && Tally(log, p, Firings) == 2
  {
    hide Core, WakeFirst, Create, Act, Run;
    assert Obliging(Failing);
    CreatedHere(Failing, wake);
    var c := Create(Failing, wake).loop;
    AddsDueTimer(c, Failing, every);
    var s := Act(c, Failing, AddTimer(0, every)).loop;
    GrowsKeepsWake(c.mem, s.mem, NULL);
    assert Armed(s.mem) by { hide BackendAgrees, Distinct; }
    RunFails(s, 1, OnePerSource);
    var r := Run(s, Failing, 1, OnePerSource).loop;
    RunFails(r, 1, OnePerSource);
    SessionIs(c, s, r, every);
    var p := s.mem.list[1];
    assert Run(r, Failing, 1, OnePerSource).loop.log == c.log + TwoAttempts(p, MsToNs(every), s.step + 1, r.step + 1);
    TwoFirings(c.log, p, MsToNs(every), s.step + 1, r.step + 1);
  }

  lemma TallySnoc(log: seq<Event>, e: Event, p: Ptr, c: Count)
    ensures Tally(log + [e], p, c) ==
            if e.Born? && e.p == p then 0 else Tally(log, p, c) + if Counted(e, c) && e.p == p then 1 else 0
  {
    assert (log + [e])[..|log|] == log;
  }

  lemma TwoFirings(log: seq<Event>, p: Ptr, interval: U64, j: nat, k: nat)
    ensures Tally(log + TwoAttempts(p, interval, j, k), p, Firings) == 2
  {
    hide Tally;
    var events := TwoAttempts(p, interval, j, k);
    assert log + events[..0] == log;
    for i := 0 to |events|
      invariant i > 0 ==> Tally(log + events[..i], p, Firings) == (if i < 4 then 0 else if i < 7 then 1 else 2)
    {
      TallySnoc(log + events[..i], events[i], p, Firings);
      assert log + events[..i] + [events[i]] == log + events[..i + 1];
    }
    assert events[..|events|] == events;
  }

  lemma SessionIs(c: Loop, s: Loop, r: Loop, every: nat)
    requires Inv(c.mem) && Inv(s.mem) && Inv(r.mem)
    ensures s == Act(c, Failing, AddTimer(0, every)).loop && Run(s, Failing, 1, OnePerSource) == Passed(r, Finished(7)) ==>
              Session(c, Failing, Retrying(every)) == Run(r, Failing, 1, OnePerSource).loop
  {
    hide Core, WakeFirst, Act, Run;
    var calls := Retrying(every);
    assert calls[1..][0] == Call.Running(1, OnePerSource) && calls[1..][1..][0] == Call.Running(1, OnePerSource);
    assert calls[1..][1..][1..] == [];
    if s == Act(c, Failing, AddTimer(0, every)).loop && Run(s, Failing, 1, OnePerSource) == Passed(r, Finished(7)) {
      assert Session(c, Failing, calls) == Session(s, Failing, calls[1..]);
      assert Session(s, Failing, calls[1..]) == Session(r, Failing, calls[1..][1..]);
    }
  }

  /** At time 0 only the first slot of that timer has come due. */
  lemma OneSlot(every: nat)
    requires 0 < every
    ensures 0 < MsToNs(every) && SlotsBy(0, MsToNs(every), 0) == 1
  {
  }
}
