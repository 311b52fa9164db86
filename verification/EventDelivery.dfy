/**
 What a wait delivers, stated on the log alone: from the kernel's answer to the
 callbacks that run and the flags that they get.
 */
module EventDelivery {
  import opened Timing
  import opened EventModel
  import opened EventTrace
  import opened EventService
  import opened EventFairness

  // ------------------------------------------------------------------ wait batch

  /** The position of the next callback at or after `a`, or the end of the log. */
  function NextFired(log: seq<Event>, a: nat): (f: nat)
    requires a <= |log|
    ensures a <= f <= |log| && (f < |log| ==> log[f].Fired?)
    ensures forall x :: a <= x < f ==> !log[x].Fired?
    decreases |log| - a
  {
    if a == |log| || log[a].Fired? then a else NextFired(log, a + 1)
  }

  /** The kernel reported anything at all. */
  predicate Reported(r: Readiness) {
    r.input || r.hangup || r.error || r.output
  }

  /**
   The flags that a callback gets: bit 0, X_EVENT_READ, for something to read, a hangup
   or an error, bit 1, X_EVENT_WRITE, for room to write, and nothing else.
   */
  predicate Tells(flags: nat, r: Readiness) {
    && flags < 4
    && (flags % 2 == 1 <==> r.input || r.hangup || r.error)
    && (flags / 2 == 1 <==> r.output)
  }

  lemma FlagsTell(r: Readiness)
    ensures Tells(FlagsOf(r), r) && (FlagsOf(r) == 0 <==> !Reported(r))
  {
  }

  /** The callback at `f` is for `p` and tells it what was reported. */
  ghost predicate TellsAt(log: seq<Event>, f: nat, p: Ptr, r: Readiness) {
    f < |log| && log[f].Fired? && log[f].p == p && Tells(log[f].flags, r)
  }

  /**
   From `a` on, the log of a batch that began at `s` holds exactly the callbacks of
   these entries, in order, each telling what was reported.  An entry with nothing to
   report has none; any other has one exactly when its source was active at `s` and
   has not been removed in the batch by then.  The first callback that fails is the
   last, and its result is `code`.
   */
  ghost predicate Delivered(s: Loop, log: seq<Event>, a: nat, batch: seq<(Ptr, Readiness)>, code: int)
    requires a <= |log|
    decreases |batch|
  {
    var f := NextFired(log, a);
    if batch == [] then f == |log| && code == 0
    else
      var (p, ready) := batch[0];
      if !Reported(ready) || Gone(s.mem, p) || RemovedIn(log, |s.log|, f, p) then Delivered(s, log, f, batch[1..], code)
      else
        && TellsAt(log, f, p, ready)
        && if log[f].result != 0 then code == log[f].result && NextFired(log, f + 1) == |log|
           else Delivered(s, log, f + 1, batch[1..], code)
  }

  /** Only the next callback matters. */
  lemma DeliveredFrom(s: Loop, log: seq<Event>, a: nat, b: nat, batch: seq<(Ptr, Readiness)>, code: int)
    requires a <= b <= |log| && (forall x :: a <= x < b ==> !log[x].Fired?)
    ensures Delivered(s, log, a, batch, code) == Delivered(s, log, b, batch, code)
  {
    assert NextFired(log, a) == NextFired(log, b);
  }

  /** Between the start of a batch and now: nobody freed, and the inactive are exactly those removed on record. */
  ghost predicate OnRecord(s: Loop, t: Loop) {
    s.log <= t.log && Keeps(s.mem, t.mem) && Accounted(s, t) && Entombed(s, t) && StaysGone(s.mem, t.mem)
  }

  lemma OnRecordStep(s: Loop, t: Loop, w: World, p: Ptr, flags: nat)
    requires Core(t.mem) && OnRecord(s, t) && p in t.mem.heap && t.mem.heap[p].active
    ensures OnRecord(s, Dispatch(t, w, p, flags, 0).loop)
  {
    hide Core, Dispatch, Grows;
    var d := Dispatch(t, w, p, flags, 0).loop;
    DispatchLog(t, w, p, flags, 0);
    DispatchOrderly(t, w, p, flags, 0);
    GrowsKeeps(t.mem, d.mem, NULL);
    GrowsStaysGone(t.mem, d.mem, NULL);
    AccountedTransitive(s, t, d);
    EntombedTransitive(s, t, d);
  }

  /** An entry whose source is still active runs its callback next. */
  lemma EntryFires(s: Loop, t: Loop, d: Reply, log: seq<Event>, batch: seq<(Ptr, Readiness)>, code: int)
    requires batch != [] && batch[0].0 in s.mem.heap
    requires OnRecord(s, t) && batch[0].0 in t.mem.heap && t.mem.heap[batch[0].0].active && FlagsOf(batch[0].1) != 0
    requires t.log + [Fired(batch[0].0, FlagsOf(batch[0].1), 0, d.code)] <= d.loop.log <= log
    requires forall x :: |t.log| < x < |d.loop.log| ==> Neutral(d.loop.log[x])
    requires if d.code == 0 then Delivered(s, log, |d.loop.log|, batch[1..], code) else log == d.loop.log && code == d.code
    ensures Delivered(s, log, |t.log|, batch, code)
  {
    hide FlagsOf, Keeps, Accounted, Tells, Reported;
    FlagsTell(batch[0].1);
    var p := batch[0].0;
    assert log[|t.log|] == d.loop.log[|t.log|];
    assert NextFired(log, |t.log|) == |t.log|;
    assert !RemovedIn(log, |s.log|, |t.log|, p) by {
      assert forall x :: 0 <= x < |t.log| ==> log[x] == t.log[x];
    }
    assert forall x :: |t.log| < x < |d.loop.log| ==> log[x] == d.loop.log[x];
    if d.code == 0 {
      DeliveredFrom(s, log, |t.log| + 1, |d.loop.log|, batch[1..], code);
    }
  }

  /** An entry whose source has been removed, or that reports nothing, runs no callback. */
  lemma EntrySkipped(s: Loop, t: Loop, log: seq<Event>, batch: seq<(Ptr, Readiness)>, code: int)
    requires batch != [] && batch[0].0 in s.mem.heap
    requires OnRecord(s, t) && (FlagsOf(batch[0].1) == 0 || Gone(t.mem, batch[0].0)) && t.log <= log
    requires Delivered(s, log, |t.log|, batch[1..], code)
    ensures Delivered(s, log, |t.log|, batch, code)
  {
    hide FlagsOf, Keeps, Tells, Reported;
    FlagsTell(batch[0].1);
    var p, f := batch[0].0, NextFired(log, |t.log|);
    if FlagsOf(batch[0].1) != 0 && !Gone(s.mem, p) {
      var x :| |s.log| <= x < |t.log| && t.log[x] == Removed(p);
      assert log[x] == Removed(p);
    }
    DeliveredFrom(s, log, |t.log|, f, batch[1..], code);
  }

  lemma {:induction false} BatchDeliversFrom(s: Loop, t: Loop, w: World, batch: seq<(Ptr, Readiness)>)
    requires Core(t.mem) && Allocated(s.mem, batch) && Allocated(t.mem, batch) && OnRecord(s, t)
    ensures var r := Batch(t, w, batch); t.log <= r.loop.log && Delivered(s, r.loop.log, |t.log|, batch, r.code)
    decreases |batch|
  {
    hide Core, Batch, Dispatch, Grows, FlagsOf, OnRecord, Delivered, Forward;
    assert batch[0..] == batch;
    if batch == [] {
      EmptyBatch(t, w);
      NothingDelivered(s, t.log);
    } else {
      BatchStep(t, w, batch, 0);
      var p, flags := batch[0].0, FlagsOf(batch[0].1);
      var r := Batch(t, w, batch);
      if t.mem.heap[p].active && flags != 0 {
        var d := Dispatch(t, w, p, flags, 0);
        OnRecordStep(s, t, w, p, flags);
        DispatchLog(t, w, p, flags, 0);
        if d.code == 0 {
          BatchDeliversFrom(s, d.loop, w, batch[1..]);
        }
        EntryFires(s, t, d, r.loop.log, batch, r.code);
      } else {
        BatchDeliversFrom(s, t, w, batch[1..]);
        EntrySkipped(s, t, r.loop.log, batch, r.code);
      }
    }
  }

  lemma NothingDelivered(s: Loop, log: seq<Event>)
    ensures Delivered(s, log, |log|, [], 0)
  {
  }

  lemma DispatchCaused(s: Loop, w: World, p: Ptr, flags: nat, now: U64)
    requires Core(s.mem) && p in s.mem.heap && s.mem.heap[p].active
    ensures Caused(s, Dispatch(s, w, p, flags, now).loop)
  {
    hide Core, Dispatch, Grows, Accounted;
    DispatchLog(s, w, p, flags, now);
    var d := Dispatch(s, w, p, flags, now);
    assert d.loop.log[|s.log|] == Fired(p, flags, now, d.code);
    forall m | |s.log| <= m < |d.loop.log| && d.loop.log[m].Removed?
      ensures InCallback(d.loop.log, |s.log|, m)
    {
      assert m != |s.log|;
    }
  }

  lemma {:induction false} BatchCaused(s: Loop, w: World, batch: seq<(Ptr, Readiness)>)
    requires Core(s.mem) && Allocated(s.mem, batch)
    ensures Caused(s, Batch(s, w, batch).loop)
    decreases |batch|
  {
    hide Core, Batch, Dispatch, Grows, FlagsOf, Caused;
    assert batch[0..] == batch;
    NothingHappened(s, 0, 0);
    if batch == [] {
      EmptyBatch(s, w);
    } else {
      BatchStep(s, w, batch, 0);
      var p, flags := batch[0].0, FlagsOf(batch[0].1);
      var go := s.mem.heap[p].active && flags != 0;
      if go {
        DispatchCaused(s, w, p, flags, 0);
      }
      var d := if go then Dispatch(s, w, p, flags, 0) else Reply(s, 0);
      if d.code == 0 {
        BatchCaused(d.loop, w, batch[1..]);
        CausedTransitive(s, d.loop, Batch(d.loop, w, batch[1..]).loop);
      }
    }
  }

  /** A wait delivers its batch up to the first error, except to sources removed in it before their entry is reached. */
  lemma BatchDelivers(s: Loop, w: World, batch: seq<(Ptr, Readiness)>)
    requires Core(s.mem) && Allocated(s.mem, batch)
    ensures var r := Batch(s, w, batch);
            s.log <= r.loop.log && Caused(s, r.loop) && Delivered(s, r.loop.log, |s.log|, batch, r.code)
  {
    hide Core, Batch, Delivered, Caused;
    BatchCaused(s, w, batch);
    BatchDeliversFrom(s, s, w, batch);
  }

  // ------------------------------------------------------------- the kernel's answer

  /**
   The same for the kernel's answer itself: `raw` lists handles, of which at most
   `room` registered ones are reported, each standing for the source that registered
   it; `lo` is where the batch begins in the log.
   */
  ghost predicate Answered(registry: map<Handle, Ptr>, lo: nat, log: seq<Event>, a: nat,
                           raw: seq<(Handle, Readiness)>, room: nat, code: int)
    requires a <= |log|
    decreases |raw|
  {
    var f := NextFired(log, a);
    if raw == [] || room == 0 then f == |log| && code == 0
    else
      var (h, ready) := raw[0];
      if h !in registry then Answered(registry, lo, log, f, raw[1..], room, code)
      else if !Reported(ready) || RemovedIn(log, lo, f, registry[h]) then
        Answered(registry, lo, log, f, raw[1..], room - 1, code)
      else
        && TellsAt(log, f, registry[h], ready)
        && if log[f].result != 0 then code == log[f].result && NextFired(log, f + 1) == |log|
           else Answered(registry, lo, log, f + 1, raw[1..], room - 1, code)
  }

  function Take(batch: seq<(Ptr, Readiness)>, n: nat): seq<(Ptr, Readiness)> {
    if |batch| <= n then batch else batch[..n]
  }

  /** The registered handles stand for active sources, so skipping an entry is always due to a removal in the batch. */
  lemma {:induction false} AnswerDelivered(s: Loop, log: seq<Event>, a: nat, raw: seq<(Handle, Readiness)>, room: nat, code: int)
    requires a <= |log| && Core(s.mem) && Delivered(s, log, a, Take(Select(s.mem.registry, raw), room), code)
    ensures Answered(s.mem.registry, |s.log|, log, a, raw, room, code)
    decreases |raw|
  {
    hide Distinct, Tells, RemovedIn;
    var f, batch := NextFired(log, a), Take(Select(s.mem.registry, raw), room);
    assert NextFired(log, f) == f;
    if raw != [] && room > 0 {
      var h := raw[0].0;
      if h !in s.mem.registry {
        DeliveredFrom(s, log, a, f, batch, code);
        AnswerDelivered(s, log, f, raw[1..], room, code);
      } else {
        assert !Gone(s.mem, s.mem.registry[h]);
        assert batch[0] == (s.mem.registry[h], raw[0].1) && batch[1..] == Take(Select(s.mem.registry, raw[1..]), room - 1);
        if Delivered(s, log, f, batch[1..], code) {
          AnswerDelivered(s, log, f, raw[1..], room - 1, code);
        }
        if f < |log| && Delivered(s, log, f + 1, batch[1..], code) {
          AnswerDelivered(s, log, f + 1, raw[1..], room - 1, code);
        }
      }
    }
  }

  /**
   What a wait does with each answer of the kernel: an error is reported and an
   interruption ignored; of the registered handles reported ready the first 32 are
   delivered, in order and with the right flags, up to the first callback that fails.
   */
  lemma WaitDelivers(s: Loop, w: World, timeout: int)
    requires Core(s.mem)
    ensures var r := WaitPhase(s, w, timeout); var begun := s.log + [WaitBegun(s.step, timeout)];
            match w.wait(s.step, timeout)
            case WaitError(code) => r.code == code && r.loop.mem == s.mem && r.loop.log == begun + [Faulted(code)]
            case Interrupted => r.code == 0 && r.loop.mem == s.mem && r.loop.log == begun
            case Ready(raw) =>
              begun <= r.loop.log && Answered(s.mem.registry, |begun|, r.loop.log, |begun|, raw, 32, r.code)
  {
    if w.wait(s.step, timeout).Ready? {
      var raw, e := w.wait(s.step, timeout).raw, Entered(s, timeout);
      var batch := Truncated(Select(s.mem.registry, raw));
      assert Allocated(e.mem, batch);
      hide Core, Batch, Delivered, Caused, Answered;
      BatchDelivers(e, w, batch);
      AnswerDelivered(e, Batch(e, w, batch).loop.log, |e.log|, raw, 32, Batch(e, w, batch).code);
    }
  }
}
