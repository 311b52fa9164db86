/**
 Who gets served, stated on the log alone: a timer pass serves every source that is
 due at its clock reading, in list order and once each, unless a callback of the
 same pass removed it first.
 */
module EventFairness {
  import opened Timing
  import opened EventModel
  import opened EventRun
  import opened EventTrace
  import opened EventService

  // ------------------------------------------------------------------ timer pass

  /**
   The first thing that happens to the source at index `j` happens at `m`: it gets
   its turn or it is removed, and so far only sources before it have had a turn.
   */
  ghost predicate Attended(s: Loop, r: Loop, j: nat, now: U64, m: nat)
    requires j < |s.mem.list|
  {
    var p := s.mem.list[j];
    && |s.log| <= m < |r.log|
    && (r.log[m] == Turn(p, now) || r.log[m] == Removed(p))
    && forall x :: |s.log| <= x < m ==> r.log[x] != Removed(p) && (r.log[x].Turn? ==> r.log[x].p in s.mem.list[..j])
  }

  /** Every source from index `i` on that is due at `now` gets its turn or has been removed before it. */
  ghost predicate NobodyMissed(s: Loop, r: Loop, i: nat, now: U64)
    requires Core(s.mem)
  {
    forall j :: i <= j < |s.mem.list| && Due(s.mem, s.mem.list[j], now) ==> exists m :: Attended(s, r, j, now, m)
  }

  ghost predicate ListedFrom(list: seq<Ptr>, i: nat, p: Ptr) {
    exists k :: i <= k < |list| && list[k] == p
  }

  /** A turn goes to a listed source from index `i` on, which was due at the start if it was there. */
  ghost predicate TurnsDeserved(s: Loop, r: Loop, i: nat, now: U64) {
    forall x :: |s.log| <= x < |r.log| && r.log[x].Turn? ==>
      r.log[x].now == now && ListedFrom(r.mem.list, i, r.log[x].p) && (r.log[x].p in s.mem.heap ==> Due(s.mem, r.log[x].p, now))
  }

  /** Turns come in list order, so nobody has two. */
  ghost predicate TurnsInOrder(s: Loop, r: Loop) {
    forall x, y :: |s.log| <= x < y < |r.log| && r.log[x].Turn? && r.log[y].Turn? ==> Before(r.mem.list, r.log[x].p, r.log[y].p)
  }

  lemma {:induction false} FirstRemoval(log: seq<Event>, lo: nat, hi: nat, p: Ptr) returns (m: nat)
    requires lo <= hi <= |log| && RemovedIn(log, lo, hi, p)
    ensures lo <= m < hi && log[m] == Removed(p) && !RemovedIn(log, lo, m, p)
  {
    m :| lo <= m < hi && log[m] == Removed(p);
    if RemovedIn(log, lo, m, p) {
      m := FirstRemoval(log, lo, m, p);
    }
  }

  /** The source whose turn it is attends to itself; those behind it are attended to in this service or after it. */
  lemma AttendedBehind(s: Loop, t: Loop, r: Loop, i: nat, j: nat, now: U64) returns (m: nat)
    requires Core(s.mem) && Core(t.mem) && i < j < |s.mem.list| && Due(s.mem, s.mem.list[j], now)
    requires OneTurn(s, t, s.mem.list[i], now) && Entombed(s, t) && Grows(s.mem, t.mem, s.mem.list[i])
    requires t.log <= r.log && NobodyMissed(t, r, i + 1, now)
    ensures Attended(s, r, j, now, m)
  {
    hide BackendAgrees, Caused;
    var p, q := s.mem.list[i], s.mem.list[j];
    assert t.mem.list[j] == q && t.mem.list[..j] == s.mem.list[..j] && p in s.mem.list[..j];
    assert forall x :: |s.log| <= x < |t.log| ==> r.log[x] == t.log[x];
    assert t.log[|s.log|] == Turn(p, now);
    if Gone(t.mem, q) {
      m := FirstRemoval(t.log, |s.log|, |t.log|, q);
    } else {
      assert Due(t.mem, q, now);
      m :| Attended(t, r, j, now, m);
      assert forall x :: |s.log| <= x < |t.log| ==> t.log[x] != Removed(q);
    }
  }

  lemma {:induction false} PassFair(s: Loop, w: World, now: U64, i: nat, budget: nat)
    requires Core(s.mem)
    ensures var r := Pass(s, w, now, i, budget); r.outcome == Finished(0) ==> NobodyMissed(s, r.loop, i, now)
    decreases budget, |s.mem.list| - i
  {
    hide Serve, BackendAgrees, Distinct, Grows, OneTurn, Entombed, Attended, WakeFirst;
    var r := Pass(s, w, now, i, budget).loop;
    if i < |s.mem.list| {
      var p := s.mem.list[i];
      if !Due(s.mem, p, now) {
        PassFair(s, w, now, i + 1, budget);
      } else if Pass(s, w, now, i, budget).outcome == Finished(0) {
        var t := Serve(s, w, p, now).loop;
        ServeLog(s, w, p, now);
        ServeOrderly(s, w, p, now);
        PassFair(t, w, now, i + 1, budget - 1);
        NobodyMissedStep(s, t, r, i, now);
      }
    }
  }

  lemma NobodyMissedStep(s: Loop, t: Loop, r: Loop, i: nat, now: U64)
    requires Core(s.mem) && Core(t.mem) && i < |s.mem.list| && OneTurn(s, t, s.mem.list[i], now) && Entombed(s, t)
    requires Grows(s.mem, t.mem, s.mem.list[i]) && t.log <= r.log && NobodyMissed(t, r, i + 1, now)
    ensures NobodyMissed(s, r, i, now)
  {
    hide BackendAgrees, Distinct, Grows, OneTurn, Entombed;
    forall j | i <= j < |s.mem.list| && Due(s.mem, s.mem.list[j], now)
      ensures exists m :: Attended(s, r, j, now, m)
    {
      if j == i {
        assert Attended(s, r, i, now, |s.log|) by { TurnFirst(s, t, s.mem.list[i], now); }
      } else {
        var m := AttendedBehind(s, t, r, i, j, now);
      }
    }
  }

  lemma TurnFirst(s: Loop, t: Loop, p: Ptr, now: U64)
    requires OneTurn(s, t, p, now)
    ensures |s.log| < |t.log| && t.log[|s.log|] == Turn(p, now)
  {
  }

  /** A service takes one turn for `s.list[i]`; the turns after it go to sources behind that one. */
  lemma TurnsCompose(s: Loop, t: Loop, r: Loop, i: nat, now: U64)
    requires Core(s.mem) && Core(r.mem) && i < |s.mem.list| && Due(s.mem, s.mem.list[i], now)
    requires OneTurn(s, t, s.mem.list[i], now) && Grows(s.mem, t.mem, s.mem.list[i])
    requires t.log <= r.log && t.mem.list <= r.mem.list && TurnsDeserved(t, r, i + 1, now) && TurnsInOrder(t, r)
    ensures TurnsDeserved(s, r, i, now) && TurnsInOrder(s, r)
  {
    hide BackendAgrees, Caused, Accounted;
    var p := s.mem.list[i];
    assert r.mem.list[i] == p;
    assert r.log[|s.log|] == t.log[|s.log|] == Turn(p, now);
    forall x | |s.log| <= x < |r.log| && r.log[x].Turn?
      ensures r.log[x].now == now && ListedFrom(r.mem.list, i, r.log[x].p)
      ensures r.log[x].p in s.mem.heap ==> Due(s.mem, r.log[x].p, now)
      ensures x != |s.log| ==> Before(r.mem.list, p, r.log[x].p)
    {
      if x != |s.log| {
        var k :| i + 1 <= k < |r.mem.list| && r.mem.list[k] == r.log[x].p;
        assert r.mem.list[k] != p;
      }
    }
  }

  lemma CausedTransitive(s: Loop, t: Loop, r: Loop)
    requires Caused(s, t) && Caused(t, r) && s.log <= t.log <= r.log
    ensures Caused(s, r)
  {
    forall m | |s.log| <= m < |r.log| && r.log[m].Removed?
      ensures InCallback(r.log, |s.log|, m)
    {
      if m < |t.log| {
        assert t.log[m] == r.log[m];
        var x :| |s.log| <= x < m <= |t.log| && t.log[x].Fired? && forall y :: x < y < m ==> Neutral(t.log[y]);
        assert r.log[x].Fired? && forall y :: x < y < m ==> r.log[y] == t.log[y];
      }
    }
  }

  lemma NothingHappened(s: Loop, i: nat, now: U64)
    ensures TurnsDeserved(s, s, i, now) && TurnsInOrder(s, s) && Caused(s, s)
  {
  }

  lemma TurnsLater(s: Loop, r: Loop, i: nat, now: U64)
    requires TurnsDeserved(s, r, i + 1, now)
    ensures TurnsDeserved(s, r, i, now)
  {
  }

  lemma ServeKeepsOrder(s: Loop, w: World, i: nat, now: U64)
    requires Core(s.mem) && i < |s.mem.list| && Due(s.mem, s.mem.list[i], now)
    ensures var r := Serve(s, w, s.mem.list[i], now).loop; TurnsDeserved(s, r, i, now) && TurnsInOrder(s, r) && Caused(s, r)
  {
    hide Serve, BackendAgrees, Distinct;
    ServeLog(s, w, s.mem.list[i], now);
    var r := Serve(s, w, s.mem.list[i], now).loop;
    assert r.mem.list[i] == s.mem.list[i];
  }

  /** Whether or not the pass gets to its end, the turns in it are deserved and in list order, and so are the removals. */
  lemma {:induction false} PassTurns(s: Loop, w: World, now: U64, i: nat, budget: nat)
    requires Core(s.mem)
    ensures var r := Pass(s, w, now, i, budget).loop;
            && s.mem.list <= r.mem.list
            && TurnsDeserved(s, r, i, now) && TurnsInOrder(s, r) && Caused(s, r)
    decreases budget, |s.mem.list| - i
  {
    hide Serve, BackendAgrees, Distinct, TurnsDeserved, TurnsInOrder, Caused, Accounted, Grows;
    NothingHappened(s, i, now);
    if i < |s.mem.list| {
      var p := s.mem.list[i];
      if !Due(s.mem, p, now) {
        PassTurns(s, w, now, i + 1, budget);
        TurnsLater(s, Pass(s, w, now, i, budget).loop, i, now);
      } else if budget > 0 {
        ServeLog(s, w, p, now);
        ServeKeepsOrder(s, w, i, now);
        var served := Serve(s, w, p, now);
        ListGrows(s.mem, served.loop.mem, p);
        if served.outcome == Finished(0) {
          PassTurns(served.loop, w, now, i + 1, budget - 1);
          var r := Pass(served.loop, w, now, i + 1, budget - 1).loop;
          TurnsCompose(s, served.loop, r, i, now);
          CausedTransitive(s, served.loop, r);
        }
      }
    }
  }

  lemma ListGrows(m: Mem, n: Mem, but: Ptr)
    requires Grows(m, n, but)
    ensures m.list <= n.list
  {
  }

  lemma ActsCompose(s: Loop, t: Loop, r: Loop, p: Ptr, now: U64)
    requires OneTurn(s, t, p, now) && TurnActs(t, |s.log|) && t.log <= r.log && KindsKept(t.mem, r.mem) && TurnsAct(t, r)
    ensures TurnsAct(s, r)
  {
    hide Caused, Accounted, TurnActs;
    forall x | |s.log| <= x < |r.log| && r.log[x].Turn?
      ensures TurnActs(r, x)
    {
      if x < |t.log| {
        assert r.log[x] == t.log[x];
        TurnStillActs(t, r, x);
      }
    }
  }

  /** No turn of a pass is a mere mark, whatever ends the pass. */
  lemma {:induction false} PassActs(s: Loop, w: World, now: U64, i: nat, budget: nat)
    requires Core(s.mem)
    ensures var r := Pass(s, w, now, i, budget).loop; KindsKept(s.mem, r.mem) && TurnsAct(s, r)
    decreases budget, |s.mem.list| - i
  {
    hide Serve, BackendAgrees, Distinct, TurnActs, TurnsAct, KindsKept, OneTurn, Grows, WakeFirst;
    NothingActed(s);
    if i < |s.mem.list| {
      var p := s.mem.list[i];
      if !Due(s.mem, p, now) {
        PassActs(s, w, now, i + 1, budget);
      } else if budget > 0 {
        ServeLog(s, w, p, now);
        ServeActs(s, w, p, now);
        var t := Serve(s, w, p, now);
        GrowsKeepsKinds(s.mem, t.loop.mem, p);
        NothingActed(t.loop);
        if t.outcome == Finished(0) {
          var r := Pass(t.loop, w, now, i + 1, budget - 1).loop;
          PassActs(t.loop, w, now, i + 1, budget - 1);
          KindsKeptTransitive(s.mem, t.loop.mem, r.mem);
          ActsCompose(s, t.loop, r, p, now);
        } else {
          ActsCompose(s, t.loop, t.loop, p, now);
        }
      }
    }
  }

  /**
   A timer pass is fair.  Its turns go, in list order and once each, to sources that
   were due at its clock reading if they were there at its start; every turn is acted
   upon by a poll or a callback; removals happen in callbacks only; and if no error
   ends the pass, nobody due is missed: before anybody listed later gets a turn, a due
   source gets its own or has been removed.
   */
  lemma TimerPhaseFair(s: Loop, w: World, budget: nat)
    requires Core(s.mem) && w.clock(s.step).Reading?
    ensures var r := TimerPhase(s, w, budget); var now := w.clock(s.step).ns;
            && TurnsDeserved(s, r.loop, 0, now) && TurnsInOrder(s, r.loop) && TurnsAct(s, r.loop) && Caused(s, r.loop)
            && (r.outcome == Finished(0) ==> NobodyMissed(s, r.loop, 0, now))
  {
    hide Core, Pass, TurnsDeserved, TurnsInOrder, TurnActs, Caused, NobodyMissed;
    var now, t := w.clock(s.step).ns, Begun(s);
    PassTurns(t, w, now, 0, budget);
    PassActs(t, w, now, 0, budget);
    var r := Pass(t, w, now, 0, budget);
    SameStart(s, t, r.loop, now, PassBegun(s.step, |s.mem.list|));
    PassFair(t, w, now, 0, budget);
    if r.outcome == Finished(0) {
      SameMissed(s, t, r.loop, now, PassBegun(s.step, |s.mem.list|));
    }
  }

  lemma SameStart(s: Loop, t: Loop, r: Loop, now: U64, e: Event)
    requires Core(s.mem) && t.mem == s.mem && t.log == s.log + [e] <= r.log && General(e)
    ensures TurnsDeserved(t, r, 0, now) ==> TurnsDeserved(s, r, 0, now)
    ensures TurnsInOrder(t, r) ==> TurnsInOrder(s, r)
    ensures TurnsAct(t, r) ==> TurnsAct(s, r)
    ensures Caused(t, r) ==> Caused(s, r)
  {
    hide BackendAgrees, Distinct, TurnActs, Before, ListedFrom;
    assert r.log[|s.log|] == t.log[|s.log|] == e;
  }

  lemma SameMissed(s: Loop, t: Loop, r: Loop, now: U64, e: Event)
    requires Core(s.mem) && t.mem == s.mem && t.log == s.log + [e] <= r.log && General(e) && NobodyMissed(t, r, 0, now)
    ensures NobodyMissed(s, r, 0, now)
  {
    hide BackendAgrees, Distinct;
    assert r.log[|s.log|] == t.log[|s.log|] == e;
    forall j | 0 <= j < |s.mem.list| && Due(s.mem, s.mem.list[j], now)
      ensures exists m :: Attended(s, r, j, now, m)
    {
      var m :| Attended(t, r, j, now, m);
      assert Attended(s, r, j, now, m);
    }
  }
}
