/**
 Waiting for and polling a child process.  The kernel keeps an exited child as a
 zombie until one successful `waitpid` takes its status; the process object
 remembers the status so that it asks only once.
 */
module Reaping {

  const EINTR: int := 4
  const ECHILD: int := 10

  /** The child as the kernel sees it. */
  datatype Child = Alive | Zombie(status: nat) | Gone

  /** The exit code for a wait status: the exit status, 128 plus the signal, or -1. */
  function ExitCode(status: nat): (code: int)
    ensures -1 <= code < 256
  {
    var low := status % 128;
    if low == 0 then status / 256 % 256
    else if low != 127 then 128 + low
    else -1
  }

  /** An exit status comes back as it is, a terminating signal as 128 plus its number, core dump or not. */
  lemma ExitCodeMeans(exit: nat, signal: nat, dumped: bool)
    requires exit < 256 && 1 <= signal < 127
    ensures ExitCode(exit * 256) == exit
    ensures ExitCode(signal + if dumped then 128 else 0) == 128 + signal
  {
    assert exit * 256 == (2 * exit) * 128;
    assert (exit * 256) % 128 == 0;
  }

  datatype Proc = Proc(waited: bool, exitCode: int, child: Child, reaps: nat)

  const Started := Proc(false, 0, Alive, 0)

  /** What can happen to a process object and its child. */
  datatype Call =
    | Wait(final: nat)     // a wait; a child still alive will exit with `final`
    | Poll
    | Exits(status: nat)   // the child exits by itself
    | TakenElsewhere       // another part of the program reaps it

  datatype Report = Nothing | Error(code: int) | NotYet | Done(exitCode: int)

  function Reap(p: Proc, status: nat): Proc {
    Proc(true, ExitCode(status), Gone, p.reaps + 1)
  }

  datatype Outcome = Outcome(proc: Proc, report: Report)

  function Apply(p: Proc, c: Call): Outcome {
    match c
    case Wait(final) =>
      if p.waited then Outcome(p, Done(p.exitCode))
      else (match p.child
            case Gone => Outcome(p, Error(ECHILD))
            case Zombie(status) => Outcome(Reap(p, status), Done(ExitCode(status)))
            case Alive => Outcome(Reap(p, final), Done(ExitCode(final))))
    case Poll =>
      if p.waited then Outcome(p, Done(p.exitCode))
      else (match p.child
            case Gone => Outcome(p, Error(ECHILD))
            case Zombie(status) => Outcome(Reap(p, status), Done(ExitCode(status)))
            case Alive => Outcome(p, NotYet))
    case Exits(status) => Outcome(if p.child.Alive? then p.(child := Zombie(status)) else p, Nothing)
    case TakenElsewhere => Outcome(if p.child.Zombie? then p.(child := Gone) else p, Nothing)
  }

  function After(p: Proc, calls: seq<Call>): Proc {
    if calls == [] then p else Apply(After(p, calls[..|calls| - 1]), calls[|calls| - 1]).proc
  }

  /** What the `i`-th call reports. */
  function ReportOf(p: Proc, calls: seq<Call>, i: nat): Report
    requires i < |calls|
  {
    Apply(After(p, calls[..i]), calls[i]).report
  }

  predicate Inv(p: Proc) {
    (p.waited ==> p.child.Gone?) && p.reaps == if p.waited then 1 else 0
  }

  lemma {:induction false} AfterKeepsInv(p: Proc, calls: seq<Call>)
    requires Inv(p)
    ensures Inv(After(p, calls))
  {
    if calls != [] {
      AfterKeepsInv(p, calls[..|calls| - 1]);
    }
  }

  /** Any mix of waits and polls reaps the child at most once. */
  lemma ReapedAtMostOnce(calls: seq<Call>)
    ensures After(Started, calls).reaps <= 1
  {
    AfterKeepsInv(Started, calls);
  }

  lemma {:induction false} WaitedStays(p: Proc, calls: seq<Call>, i: nat)
    requires i <= |calls| && After(p, calls[..i]).waited
    ensures After(p, calls).waited && After(p, calls).exitCode == After(p, calls[..i]).exitCode
  {
    if i == |calls| {
      assert calls[..i] == calls;
    } else {
      var n := |calls| - 1;
      assert calls[..n][..i] == calls[..i];
      WaitedStays(p, calls[..n], i);
    }
  }

  /** Once a wait or a poll has reported an exit code, every later one reports the same. */
  lemma ExitCodeNeverChanges(p: Proc, calls: seq<Call>, i: nat, j: nat)
    requires i < j < |calls| && ReportOf(p, calls, i).Done? && (calls[j].Wait? || calls[j].Poll?)
    ensures ReportOf(p, calls, j) == ReportOf(p, calls, i)
  {
    var upTo := calls[..j];
    assert upTo[..i + 1] == calls[..i + 1] && calls[..i + 1][..i] == calls[..i];
    WaitedStays(p, upTo, i + 1);
  }

  // ------------------------------------------------------------ what is reported

  predicate Asks(c: Call) {
    c.Wait? || c.Poll?
  }

  /** Among the first `n` calls there is no exit and no wait, so the child still lives. */
  ghost predicate StillAlive(calls: seq<Call>, n: nat) {
    n <= |calls| && forall k :: 0 <= k < n ==> calls[k].Poll? || calls[k].TakenElsewhere?
  }

  /** The child exits in call `a` and nobody has taken its status before call `n`. */
  ghost predicate Exited(calls: seq<Call>, a: nat, n: nat) {
    a < n <= |calls| && StillAlive(calls, a) && calls[a].Exits? && forall k :: a < k < n ==> calls[k].Exits?
  }

  /** The child exits in call `a`, and call `b` takes its status elsewhere before anybody asks. */
  ghost predicate LostAt(calls: seq<Call>, a: nat, b: nat) {
    Exited(calls, a, b) && b < |calls| && calls[b].TakenElsewhere?
  }

  ghost predicate Lost(calls: seq<Call>, n: nat) {
    exists a: nat, b: nat :: LostAt(calls, a, b) && b < n
  }

  /** How a child ends, and what its parent is to be told: the exit status, or 128 plus the signal that killed it. */
  datatype Ending = Exit(status: nat) | Killed(signal: nat, dumped: bool)
  {
    predicate Valid() { if Exit? then status < 256 else 1 <= signal < 127 }

    /** How the kernel encodes it. */
    function Encoded(): nat { if Exit? then status * 256 else signal + if dumped then 128 else 0 }

    function Told(): int { if Exit? then status else 128 + signal }
  }

  lemma EndingIsTold(e: Ending)
    requires e.Valid()
    ensures ExitCode(e.Encoded()) == e.Told()
  {
    if e.Exit? {
      ExitCodeMeans(e.status, 1, false);
    } else {
      ExitCodeMeans(0, e.signal, e.dumped);
    }
  }

  lemma {:induction false} AliveAfter(calls: seq<Call>, n: nat)
    requires StillAlive(calls, n)
    ensures After(Started, calls[..n]) == Started
  {
    if n > 0 {
      AliveAfter(calls, n - 1);
      assert calls[..n][..n - 1] == calls[..n - 1];
    }
  }

  lemma {:induction false} ZombieAfter(calls: seq<Call>, a: nat, n: nat)
    requires Exited(calls, a, n)
    ensures After(Started, calls[..n]) == Started.(child := Zombie(calls[a].status))
    decreases n
  {
    assert calls[..n][..n - 1] == calls[..n - 1];
    if n == a + 1 {
      AliveAfter(calls, a);
    } else {
      ZombieAfter(calls, a, n - 1);
    }
  }

  lemma {:induction false} GoneAfter(calls: seq<Call>, a: nat, b: nat, n: nat)
    requires LostAt(calls, a, b) && b < n <= |calls|
    ensures After(Started, calls[..n]) == Started.(child := Gone)
    decreases n
  {
    assert calls[..n][..n - 1] == calls[..n - 1];
    if n == b + 1 {
      ZombieAfter(calls, a, b);
    } else {
      GoneAfter(calls, a, b, n - 1);
    }
  }

  /** As long as the child lives, a poll says so. */
  lemma PollWhileItLives(calls: seq<Call>, i: nat)
    requires i < |calls| && StillAlive(calls, i) && calls[i].Poll?
    ensures ReportOf(Started, calls, i) == NotYet
  {
    AliveAfter(calls, i);
  }

  /** A wait for a living child reports how it ends. */
  lemma WaitWhileItLives(calls: seq<Call>, i: nat, e: Ending)
    requires i < |calls| && StillAlive(calls, i) && e.Valid() && calls[i] == Wait(e.Encoded())
    ensures ReportOf(Started, calls, i) == Done(e.Told())
  {
    AliveAfter(calls, i);
    EndingIsTold(e);
  }

  /** If the child has exited and nobody else has taken it, the next wait or poll reports how it ended. */
  lemma NextReportIsTheExit(calls: seq<Call>, a: nat, i: nat, e: Ending)
    requires Exited(calls, a, i) && i < |calls| && Asks(calls[i]) && e.Valid() && calls[a].status == e.Encoded()
    ensures ReportOf(Started, calls, i) == Done(e.Told())
  {
    ZombieAfter(calls, a, i);
    EndingIsTold(e);
  }

  /** After `n` calls the child lives, has exited, is lost, or has been reported. */
  lemma {:induction false} Fates(calls: seq<Call>, n: nat)
    requires n <= |calls|
    ensures StillAlive(calls, n) || (exists a :: Exited(calls, a, n)) || Lost(calls, n) || After(Started, calls[..n]).waited
  {
    if n > 0 {
      var m := n - 1;
      assert calls[..n][..m] == calls[..m];
      Fates(calls, m);
      if StillAlive(calls, m) {
        AliveAfter(calls, m);
        assert calls[m].Exits? ==> Exited(calls, m, n);
      } else if exists a :: Exited(calls, a, m) {
        var a :| Exited(calls, a, m);
        ZombieAfter(calls, a, m);
        assert calls[m].Exits? ==> Exited(calls, a, n);
        assert calls[m].TakenElsewhere? ==> LostAt(calls, a, m);
      }
    }
  }

  /** ECHILD is reported exactly if the status was taken elsewhere before anybody asked for it. */
  lemma EchildIff(calls: seq<Call>, i: nat)
    requires i < |calls| && Asks(calls[i])
    ensures ReportOf(Started, calls, i) == Error(ECHILD) <==> Lost(calls, i)
    ensures ReportOf(Started, calls, i).Error? ==> ReportOf(Started, calls, i) == Error(ECHILD)
  {
    if Lost(calls, i) {
      var a: nat, b: nat :| LostAt(calls, a, b) && b < i;
      GoneAfter(calls, a, b, i);
    } else {
      Fates(calls, i);
      if StillAlive(calls, i) {
        AliveAfter(calls, i);
      } else if exists a :: Exited(calls, a, i) {
        var a :| Exited(calls, a, i);
        ZombieAfter(calls, a, i);
      }
    }
  }

  /** `struct x_process` together with the child it stands for. */
  class ProcessHandle {
    var waited: bool
    var exitCode: int
    var child: Child
    ghost var reaps: nat

    ghost function State(): Proc
      reads this
    {
      Proc(waited, exitCode, child, reaps)
    }

    constructor ()
      ensures State() == Started
    {
      waited, exitCode, child, reaps := false, 0, Alive, 0;
    }

    /** One kernel call; a live child has exited with `final` when a blocking call returns. */
    method WaitPid(block: bool, final: nat, interrupted: bool) returns (taken: bool, status: nat, error: int)
      modifies this`child, this`reaps
      ensures error == if interrupted then EINTR else if old(child).Gone? then ECHILD else 0
      ensures taken <==> !interrupted && (old(child).Zombie? || (block && old(child).Alive?))
      ensures taken ==> status == (if old(child).Zombie? then old(child).status else final)
      ensures if taken then child == Gone && reaps == old(reaps) + 1 else child == old(child) && reaps == old(reaps)
    {
      taken, status, error := false, 0, EINTR;
      if !interrupted {
        match child {
          case Gone => error := ECHILD;
          case Zombie(s) => taken, status, error := true, s, 0;
          case Alive => taken, status, error := block, final, 0;
        }
      }
      if taken {
        child := Gone;
        reaps := reaps + 1;
      }
    }

    /** Repeats the call while signals interrupt it, which they do `signals` times. */
    method WaitPidRetrying(block: bool, final: nat, signals: nat) returns (taken: bool, status: nat, error: int)
      modifies this`child, this`reaps
      ensures error == if old(child).Gone? then ECHILD else 0
      ensures taken <==> old(child).Zombie? || (block && old(child).Alive?)
      ensures taken ==> status == (if old(child).Zombie? then old(child).status else final)
      ensures if taken then child == Gone && reaps == old(reaps) + 1 else child == old(child) && reaps == old(reaps)
    {
      var left := signals;
      taken, status, error := WaitPid(block, final, left > 0);
      while error == EINTR
        invariant error == EINTR <==> left > 0
        invariant error == EINTR ==> !taken && child == old(child) && reaps == old(reaps)
        invariant error != EINTR ==>
          && error == (if old(child).Gone? then ECHILD else 0)
          && (taken <==> old(child).Zombie? || (block && old(child).Alive?))
          && (taken ==> status == if old(child).Zombie? then old(child).status else final)
          && (if taken then child == Gone && reaps == old(reaps) + 1 else child == old(child) && reaps == old(reaps))
        decreases left
      {
        left := left - 1;
        taken, status, error := WaitPid(block, final, left > 0);
      }
    }

    method Wait(final: nat, signals: nat) returns (report: Report)
      modifies this
      ensures Apply(old(State()), Call.Wait(final)) == Outcome(State(), report)
    {
      if !waited {
        var taken, status, error := WaitPidRetrying(true, final, signals);
        if !taken {
          return Error(error);
        }
        exitCode := ExitCode(status);
        waited := true;
      }
      report := Done(exitCode);
    }

    method Poll(signals: nat) returns (report: Report)
      modifies this
      ensures Apply(old(State()), Call.Poll) == Outcome(State(), report)
    {
      if waited {
        return Done(exitCode);
      }
      var taken, status, error := WaitPidRetrying(false, 0, signals);
      if error != 0 {
        return Error(error);
      }
      if !taken {
        return NotYet;
      }
      exitCode := ExitCode(status);
      waited := true;
      report := Done(exitCode);
    }
  }
}
