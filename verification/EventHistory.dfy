/**
 The histories of all addresses over wait batches, compaction, creation and
 destruction.
 */
module EventHistory {
  import opened EventModel
  import opened EventRun
  import opened EventAudit

  // ---------------------------------------------------------------- wait batch

  /** Every pointer of a batch came from the kernel's table, so it is a socket source. */
  ghost predicate Sockets(m: Mem, batch: seq<(Ptr, Readiness)>) {
    forall i :: 0 <= i < |batch| ==> batch[i].0 in m.heap && m.heap[batch[i].0].kind.Socket?
  }

  lemma SocketAudited(s: Loop, w: World, p: Ptr, flags: nat)
    requires Core(s.mem) && p in s.mem.heap && s.mem.heap[p].active && s.mem.heap[p].kind.Socket?
    requires Audited(s, NULL) && 1 <= flags <= READ + WRITE
    ensures Audited(Dispatch(s, w, p, flags, 0).loop, NULL)
  {
    hide Dispatch, BackendAgrees, Distinct;
    assert Agrees(Replay(s.log, p), s.mem.heap, p, NULL);
    Loosened(s, p);
    DispatchAudited(s, w, p, flags, 0);
  }

  lemma {:induction false} BatchAudited(s: Loop, w: World, batch: seq<(Ptr, Readiness)>)
    requires Core(s.mem) && Sockets(s.mem, batch) && Audited(s, NULL)
    ensures Audited(Batch(s, w, batch).loop, NULL)
    decreases |batch|
  {
    hide Dispatch, Audited, BackendAgrees, Distinct;
    if batch != [] {
      var (p, readiness) := batch[0];
      var flags := FlagsOf(readiness);
      if s.mem.heap[p].active && flags != 0 {
        SocketAudited(s, w, p, flags);
      }
      var d := if s.mem.heap[p].active && flags != 0 then Dispatch(s, w, p, flags, 0) else Reply(s, 0);
      if d.code == 0 {
        BatchAudited(d.loop, w, batch[1..]);
      }
    }
  }

  lemma WaitPhaseAudited(s: Loop, w: World, timeout: int)
    requires Core(s.mem) && Audited(s, NULL)
    ensures Audited(WaitPhase(s, w, timeout).loop, NULL)
  {
    GeneralAudited(Tick(s), WaitBegun(s.step, timeout), NULL);
    match w.wait(s.step, timeout)
    case WaitError(code) => GeneralAudited(Entered(s, timeout), Faulted(code), NULL);
    case Interrupted =>
    case Ready(raw) => BatchAudited(Entered(s, timeout), w, Truncated(Select(s.mem.registry, raw)));
  }

  // ---------------------------------------------------------- frees and lifetimes

  lemma {:induction false} FreesReplay(log: seq<Event>, list: seq<Ptr>, p: Ptr)
    requires Distinct(list)
    ensures Replay(log + Frees(list), p) == if p in list then Advance(Replay(log, p), Freed(p)) else Replay(log, p)
  {
    hide Replay, Advance;
    if list == [] {
      assert log + Frees(list) == log;
    } else {
      var n := |list| - 1;
      FreesReplay(log, list[..n], p);
      assert list == list[..n] + [list[n]];
      assert log + Frees(list) == (log + Frees(list[..n])) + [Freed(list[n])];
      ReplaySnoc(log + Frees(list[..n]), Freed(list[n]), p);
    }
  }

  lemma CompactAgrees(s: Loop, p: Ptr)
    requires Core(s.mem) && Agrees(Replay(s.log, p), s.mem.heap, p, NULL)
    ensures Agrees(Replay(Compact(s).log, p), Compact(s).mem.heap, p, NULL)
  {
    hide BackendAgrees, WakeFirst, Frees;
    AllocatedIsListed(s.mem);
    FreesReplay(s.log, Chosen(s.mem.list, s.mem.heap, false), p);
  }

  lemma CompactAudited(s: Loop)
    requires Core(s.mem) && Audited(s, NULL)
    ensures Audited(Compact(s), NULL)
  {
    hide Core, WakeFirst, Compact;
    forall p: Ptr
      ensures Agrees(Replay(Compact(s).log, p), Compact(s).mem.heap, p, NULL)
    {
      assert Agrees(Replay(s.log, p), s.mem.heap, p, NULL);
      CompactAgrees(s, p);
    }
  }

  /** After destruction every address the loop ever used has been given back. */
  lemma DestroyAudited(s: Loop)
    requires Core(s.mem) && Audited(s, NULL)
    ensures forall p: Ptr :: Replay(Destroy(s).log, p) == Absent
  {
    AllocatedIsListed(s.mem);
    forall p: Ptr
      ensures Replay(Destroy(s).log, p) == Absent
    {
      assert Agrees(Replay(s.log, p), s.mem.heap, p, NULL);
      FreesReplay(s.log, s.mem.list, p);
    }
  }

  lemma NewLoopAudited()
    ensures Core(NewLoop.mem) && Audited(NewLoop, NULL)
  {
  }

  lemma CreateAudited(w: World, wake: Handle)
    ensures Create(w, wake).code == 0 ==> Audited(Create(w, wake).loop, NULL)
  {
    hide WakeFirst, AddSocketTo;
    NewLoopAudited();
    AddSocketAudited(NewLoop, w, wake, true, false, NULL);
    if Create(w, wake).code == 0 {
      MarkedAudited(AddSocketTo(NewLoop, w, wake, true, false).loop);
    }
  }

  lemma MarkedAudited(s: Loop)
    requires Core(s.mem) && |s.mem.list| == 1 && s.mem.heap[s.mem.list[0]].kind.Socket? && s.mem.heap[s.mem.list[0]].active
    requires Audited(s, NULL)
    ensures Audited(s.(mem := Marked(s.mem)), NULL)
  {
    hide BackendAgrees, WakeFirst, Distinct;
    forall p: Ptr
      ensures Agrees(Replay(s.log, p), Marked(s.mem).heap, p, NULL)
    {
      AuditAt(s, p, NULL);
    }
  }
}
