/**
 What one connection and one lease can rely on, told from their fields: the mode a begin leaves,
 what replaces or ends a transaction, who may lend, and what a close and a lock request answer.
*/
module LeaseConnections {
  import opened Basics
  import opened LeaseProtocol
  import opened LeaseInvariant
  import opened LeaseRuns

  function Began(w: World, p: Pid, t: Tid, c: Id, option: ReadOption): (World, Outcome) {
    Next(w, Thread(p, t, DoBegin(c, option)))
  }

  ghost predicate Runs(w: World, p: Pid, t: Tid, c: Id, option: ReadOption) {
    Next(w, Thread(p, t, DoExecute(c, option))).1 == Done
  }

  // No step of p begins a transaction on c or checks c in.
  ghost predicate LeavesConnection(s: Step, p: Pid, c: Id) {
    s.Thread? && s.pid == p ==> s.action != DoCheckin(c) && !(s.action.DoBegin? && s.action.conn == c)
  }

  // ------------------------------------------------------------------------- read-only begins

  /** A completed read-only begin leaves the connection in query-only mode inside a transaction, and
      adds no lease, borrow or lock: a lease kept from an earlier transaction stays as it was. */
  lemma ReadonlyBegin(w: World, p: Pid, t: Tid, c: Id)
    requires p in w.procs && Began(w, p, t, c, Sentinel).1 == Done
    ensures var w' := Began(w, p, t, c, Sentinel).0;
      && c in w.procs[p].conns && c in w'.procs[p].conns
      && w'.procs[p].conns[c].queryOnly && w'.procs[p].conns[c].inTransaction
      && w'.procs[p].conns[c].infoLease == w.procs[p].conns[c].infoLease
      && w'.procs[p].leases == w.procs[p].leases && w'.procs[p].borrows == w.procs[p].borrows
      && w'.procs[p].pending == w.procs[p].pending && w'.locks == w.locks && w'.next == w.next
  {
  }

  ghost predicate Unclaimed(proc: Proc, c: Id) {
    forall t :: t in proc.pending ==> proc.pending[t].purpose != ForBegin(c)
  }

  ghost predicate ReadonlyHere(proc: Proc, p: Pid, c: Id) {
    proc.gatePid == p && c in proc.admissions && proc.admissions[c].readonly && Unclaimed(proc, c)
  }

  // Nothing changed for connection c: its admission, its fields, and that no request waits for it.
  ghost predicate SameAt(a: Proc, b: Proc, c: Id) {
    && (c in a.admissions <==> c in b.admissions) && (c in a.admissions ==> b.admissions[c] == a.admissions[c])
    && (c in a.conns <==> c in b.conns) && (c in a.conns ==> b.conns[c] == a.conns[c])
    && b.gatePid == a.gatePid && (Unclaimed(a, c) ==> Unclaimed(b, c))
  }

  lemma FlockSame(p: Pid, t: Tid, proc: Proc, locks: Locks, next: Id, c: Id)
    requires Unclaimed(proc, c)
    ensures SameAt(proc, Flock(proc, locks, next, p, t).proc, c)
  {
  }

  lemma AdmitSame(proc: Proc, d: Id, lease: Option<Handle>, readonly: bool, c: Id)
    requires d in proc.conns && d != c
    ensures SameAt(proc, Admit(proc, d, lease, readonly), c)
  {
  }

  lemma OpenSame(proc: Proc, locks: Locks, next: Id, p: Pid, t: Tid, d: Id, c: Id)
    requires d != c
    ensures SameAt(proc, Open(proc, locks, next, p, t, false, ForBegin(d)).proc, c)
  {
  }

  lemma BeginShape(p: Pid, t: Tid, proc: Proc, locks: Locks, next: Id, d: Id, option: ReadOption)
    ensures var r := Begin(proc, locks, next, p, t, d, option).proc;
      || r == proc
      || (d in proc.conns && r == Admit(proc, d, AdmittedLease(proc, d), option == Sentinel))
      || (d in proc.conns && Scope(proc, t).Some? && Scope(proc, t).value in proc.leases
          && r == Admit(AddBorrow(proc, p, Scope(proc, t).value, next), d, Some(Part(next)), false))
      || r == Open(proc, locks, next, p, t, false, ForBegin(d)).proc
  {
  }

  lemma BorrowSame(proc: Proc, p: Pid, i: Id, b: Id, d: Id, c: Id)
    requires i in proc.leases && d in proc.conns && d != c
    ensures SameAt(proc, Admit(AddBorrow(proc, p, i, b), d, Some(Part(b)), false), c)
  {
    AdmitSame(AddBorrow(proc, p, i, b), d, Some(Part(b)), false, c);
  }

  lemma BeginSame(p: Pid, t: Tid, proc: Proc, locks: Locks, next: Id, d: Id, option: ReadOption, c: Id)
    requires d != c
    ensures SameAt(proc, Begin(proc, locks, next, p, t, d, option).proc, c)
  {
    BeginShape(p, t, proc, locks, next, d, option);
    var r := Begin(proc, locks, next, p, t, d, option).proc;
    if r != proc {
      OpenSame(proc, locks, next, p, t, d, c);
      if d in proc.conns {
        AdmitSame(proc, d, AdmittedLease(proc, d), option == Sentinel, c);
        if Scope(proc, t).Some? && Scope(proc, t).value in proc.leases {
          BorrowSame(proc, p, Scope(proc, t).value, next, d, c);
        }
      }
    }
  }

  lemma CloseHandleSame(proc: Proc, locks: Locks, p: Pid, h: Handle, c: Id)
    ensures SameAt(proc, CloseHandle(proc, locks, p, h).0, c)
  {
  }

  lemma CheckinSame(p: Pid, proc: Proc, locks: Locks, next: Id, d: Id, c: Id)
    requires d != c
    ensures SameAt(proc, Checkin(proc, locks, next, p, d).proc, c)
  {
    if d in proc.conns {
      PoppedSame(proc, d, c);
      if AdmittedLease(proc, d).Some? {
        CloseHandleSame(Popped(proc, d), locks, p, AdmittedLease(proc, d).value, c);
      }
    }
  }

  lemma PoppedSame(proc: Proc, d: Id, c: Id)
    requires d in proc.conns && d != c
    ensures SameAt(proc, Popped(proc, d), c)
  {
  }

  lemma ActKeepsAdmission(p: Pid, t: Tid, proc: Proc, locks: Locks, next: Id, a: Action, c: Id)
    requires proc.gatePid == p && Unclaimed(proc, c) && c in proc.admissions
    requires a != DoCheckin(c) && !(a.DoBegin? && a.conn == c)
    ensures var proc' := Act(proc, locks, next, p, t, a).proc;
      c in proc'.admissions && proc'.admissions[c] == proc.admissions[c] && proc'.gatePid == p && Unclaimed(proc', c)
  {
    match a
    case DoFlock => FlockSame(p, t, proc, locks, next, c);
    case DoBegin(d, option) => BeginSame(p, t, proc, locks, next, d, option, c);
    case DoCheckin(d) => CheckinSame(p, proc, locks, next, d, c);
    case DoClose(h) => CloseHandleSame(proc, locks, p, h, c);
    case _ =>
  }

  // One step on the process that owns the connection, or on any other.
  lemma StepKeepsAdmission(w: World, s: Step, p: Pid, c: Id)
    requires p in w.used && p in w.procs && w.procs[p].gatePid == p
    requires Unclaimed(w.procs[p], c) && c in w.procs[p].admissions && LeavesConnection(s, p, c)
    ensures var w' := Next(w, s).0;
      p in w'.used && (p in w'.procs ==>
        && w'.procs[p].gatePid == p && Unclaimed(w'.procs[p], c)
        && c in w'.procs[p].admissions && w'.procs[p].admissions[c] == w.procs[p].admissions[c])
  {
    if s.Thread? && s.pid == p {
      ActKeepsAdmission(p, s.tid, w.procs[p], w.locks, w.next, s.action, c);
    }
  }

  lemma {:induction false} RunKeepsAdmission(w: World, steps: seq<Step>, p: Pid, c: Id)
    requires p in w.used && p in w.procs && w.procs[p].gatePid == p
    requires Unclaimed(w.procs[p], c) && c in w.procs[p].admissions
    requires forall s :: s in steps ==> LeavesConnection(s, p, c)
    ensures var w' := Run(w, steps);
      p in w'.used && (p in w'.procs ==>
        && w'.procs[p].gatePid == p && Unclaimed(w'.procs[p], c)
        && c in w'.procs[p].admissions && w'.procs[p].admissions[c] == w.procs[p].admissions[c])
  {
    if steps != [] {
      var front, last := steps[..|steps| - 1], steps[|steps| - 1];
      RunKeepsAdmission(w, front, p, c);
      assert last in steps;
      if p in Run(w, front).procs {
        StepKeepsAdmission(Run(w, front), last, p, c);
      }
    }
  }

  lemma BegunIsUnclaimed(proc: Proc, locks: Locks, next: Id, p: Pid, t: Tid, c: Id, option: ReadOption)
    requires Begin(proc, locks, next, p, t, c, option).outcome == Done && option == Sentinel
    ensures ReadonlyHere(Begin(proc, locks, next, p, t, c, option).proc, p, c)
  {
    assert !InUse(proc, c);
  }

  /** After a completed read-only begin every statement of the connection, of whatever thread and after
      whatever run of all processes, runs in query-only mode and was itself asked for as read-only,
      until the connection begins again or is checked in. */
  lemma ReadonlyTransaction(w: World, steps: seq<Step>, p: Pid, t: Tid, c: Id, u: Tid, option: ReadOption)
    requires Reachable(w) && p in w.procs && Began(w, p, t, c, Sentinel).1 == Done
    requires forall s :: s in steps ==> LeavesConnection(s, p, c)
    requires var w' := Run(Began(w, p, t, c, Sentinel).0, steps); Runs(w', p, u, c, option)
    ensures var w' := Run(Began(w, p, t, c, Sentinel).0, steps);
      && p in w'.procs && c in w'.procs[p].conns && w'.procs[p].conns[c].queryOnly && option == Sentinel
  {
    var begun := Began(w, p, t, c, Sentinel).0;
    ReachableFacts(w, p);
    BegunIsUnclaimed(w.procs[p], w.locks, w.next, p, t, c, Sentinel);
    RunKeepsAdmission(begun, steps, p, c);
  }

  // --------------------------------------------------------------------------- writing begins

  // The connection may write: not query-only, in a transaction, and holding an open granted lease.
  ghost predicate WritesWith(w: World, p: Pid, c: Id)
    requires p in w.procs
  {
    var proc := w.procs[p];
    && c in proc.conns && !proc.conns[c].queryOnly && proc.conns[c].inTransaction && proc.conns[c].infoLease.Some?
    && match proc.conns[c].infoLease.value
       case Whole(i) =>
         && i in proc.leases && proc.leases[i].pid == p && !proc.leases[i].exclusive && !proc.leases[i].closed
         && i in w.locks && w.locks[i].lock == Shared && p in w.locks[i].holders
       case Part(b) =>
         && b in proc.borrows && proc.borrows[b].pid == p && !proc.borrows[b].closed
         && proc.borrows[b].owner in proc.leases && proc.leases[proc.borrows[b].owner].exclusive
  }

  lemma AdmittedWritesWith(w: World, p: Pid, c: Id)
    requires Reachable(w) && p in w.procs && w.procs[p].gatePid == p
    requires c in w.procs[p].conns && !w.procs[p].conns[c].queryOnly && w.procs[p].conns[c].inTransaction
    requires w.procs[p].conns[c].infoLease.Some?
    ensures WritesWith(w, p, c)
  {
    ReachableInv(w);
    var proc := w.procs[p];
    assert ConnsOk(proc.conns, proc.admissions);
    var h := proc.conns[c].infoLease.value;
    LeaseOfAdmissionIsOpen(w, p, c, h);
    match h
    case Whole(i) =>
      assert HoldsLock(w, p, i, false);
      HeldLockKind(w, p, i, false);
    case Part(b) =>
      assert BorrowsOk(proc.leases, proc.borrows, p, w.locks);
  }

  // A begin that needs no new lease, and one that opens a shared lease and waits for its lock.
  lemma WritingBeginLocally(proc: Proc, locks: Locks, next: Id, p: Pid, t: Tid, c: Id)
    requires t !in proc.pending && Begin(proc, locks, next, p, t, c, Absent).outcome == Done
    ensures var r := Begin(proc, locks, next, p, t, c, Absent);
      && r.proc.gatePid == p && c in r.proc.conns
      && if t in r.proc.pending then
           && r.proc.pending[t] == Pending(next, ForBegin(c)) && next in r.proc.leases && !r.proc.leases[next].exclusive
         else
           !r.proc.conns[c].queryOnly && r.proc.conns[c].inTransaction && r.proc.conns[c].infoLease.Some?
  {
  }

  /** A completed begin for writing leaves the connection not query-only and holding an open lease, or
      its thread waiting for the lock of a new shared lease opened for it. */
  lemma WritingBegin(w: World, p: Pid, t: Tid, c: Id)
    requires Reachable(w) && p in w.procs && Began(w, p, t, c, Absent).1 == Done
    ensures var w' := Began(w, p, t, c, Absent).0;
      if t in w'.procs[p].pending then
        && w'.procs[p].pending[t] == Pending(w.next, ForBegin(c))
        && w.next in w'.procs[p].leases && !w'.procs[p].leases[w.next].exclusive
      else WritesWith(w', p, c)
  {
    var w' := Began(w, p, t, c, Absent).0;
    WritingBeginLocally(w.procs[p], w.locks, w.next, p, t, c);
    NextReachable(w, Thread(p, t, DoBegin(c, Absent)));
    if t !in w'.procs[p].pending {
      AdmittedWritesWith(w', p, c);
    }
  }

  lemma GrantedLocallyWrites(proc: Proc, locks: Locks, next: Id, p: Pid, t: Tid, c: Id)
    requires PendingOk(p, proc, locks) && t in proc.pending && proc.pending[t].purpose == ForBegin(c)
    requires Flock(proc, locks, next, p, t).outcome == Done
    ensures var r := Flock(proc, locks, next, p, t).proc;
      && r.gatePid == p && c in r.conns && !r.conns[c].queryOnly && r.conns[c].inTransaction
      && r.conns[c].infoLease == Some(Whole(proc.pending[t].lease)) && t !in r.pending
  {
  }

  /** ... and when that lock is granted, the connection writes with exactly that lease. */
  lemma GrantedBeginWrites(w: World, p: Pid, t: Tid, c: Id)
    requires Reachable(w) && p in w.procs && t in w.procs[p].pending && w.procs[p].pending[t].purpose == ForBegin(c)
    requires Next(w, Thread(p, t, DoFlock)).1 == Done
    ensures var w' := Next(w, Thread(p, t, DoFlock)).0;
      WritesWith(w', p, c) && w'.procs[p].conns[c].infoLease == Some(Whole(w.procs[p].pending[t].lease))
  {
    ReachableFacts(w, p);
    GrantedLocallyWrites(w.procs[p], w.locks, w.next, p, t, c);
    NextReachable(w, Thread(p, t, DoFlock));
    AdmittedWritesWith(Next(w, Thread(p, t, DoFlock)).0, p, c);
  }

  // ------------------------------------------------------- statements, replacement and endings

  /** A statement runs only inside a transaction, on the connection that was admitted, and under a
      read-only admission only as a read-only statement. */
  lemma StatementNeeds(w: World, p: Pid, t: Tid, c: Id, option: ReadOption)
    requires Runs(w, p, t, c, option)
    ensures p in w.procs && w.procs[p].gatePid == p && c in w.procs[p].conns && c in w.procs[p].admissions
    ensures w.procs[p].conns[c].inTransaction && w.procs[p].admissions[c].dbapi == w.procs[p].conns[c].dbapi
    ensures w.procs[p].admissions[c].readonly ==> option == Sentinel && w.procs[p].conns[c].queryOnly
  {
  }

  ghost predicate Checked(s: Step, p: Pid, c: Id) {
    s.Thread? && s.pid == p && s.action == DoCheckin(c)
  }

  // The admission is for an earlier driver connection.
  ghost predicate Stale(proc: Proc, p: Pid, c: Id) {
    && proc.gatePid == p && c in proc.conns && c in proc.admissions && Unclaimed(proc, c)
    && proc.admissions[c].dbapi < proc.conns[c].dbapi
  }

  lemma StaleIsStopped(proc: Proc, locks: Locks, next: Id, p: Pid, t: Tid, c: Id, option: ReadOption)
    requires Stale(proc, p, c)
    ensures var r := Begin(proc, locks, next, p, t, c, option);
      r.proc == proc && r.outcome != Done
    ensures !Admitted(proc, p, t, c, option)
  {
  }

  lemma ActKeepsStale(p: Pid, t: Tid, proc: Proc, locks: Locks, next: Id, a: Action, c: Id)
    requires Stale(proc, p, c) && c < next && a != DoCheckin(c)
    ensures Stale(Act(proc, locks, next, p, t, a).proc, p, c)
  {
    if a.DoBegin? && a.conn == c {
      StaleIsStopped(proc, locks, next, p, t, c, a.option);
    } else {
      match a
      case DoFlock => FlockSame(p, t, proc, locks, next, c);
      case DoBegin(d, option) => BeginSame(p, t, proc, locks, next, d, option, c);
      case DoCheckin(d) => CheckinSame(p, proc, locks, next, d, c);
      case DoClose(h) => CloseHandleSame(proc, locks, p, h, c);
      case _ =>
    }
  }

  lemma {:induction false} StaleOverRun(w: World, steps: seq<Step>, p: Pid, c: Id)
    requires Reachable(w) && p in w.used && (p in w.procs ==> Stale(w.procs[p], p, c))
    requires forall s :: s in steps ==> !Checked(s, p, c)
    ensures var w' := Run(w, steps); p in w'.used && (p in w'.procs ==> Stale(w'.procs[p], p, c))
  {
    if steps != [] {
      var front, last := steps[..|steps| - 1], steps[|steps| - 1];
      StaleOverRun(w, front, p, c);
      RunReachable(w, front);
      var before := Run(w, front);
      assert last in steps;
      if last.Thread? && last.pid == p && p in before.procs {
        ReachableFacts(before, p);
        ActKeepsStale(p, last.tid, before.procs[p], before.locks, before.next, last.action, c);
      }
    }
  }

  lemma StaleStops(w: World, p: Pid, u: Tid, c: Id, option: ReadOption)
    requires p in w.procs ==> Stale(w.procs[p], p, c)
    ensures !Runs(w, p, u, c, option) && Began(w, p, u, c, option).1 != Done
  {
    if p in w.procs {
      StaleIsStopped(w.procs[p], w.locks, w.next, p, u, c, option);
    }
  }

  lemma ReplacedIsStale(proc: Proc, locks: Locks, next: Id, p: Pid, t: Tid, c: Id)
    requires proc.gatePid == p && c in proc.conns && c in proc.admissions && proc.admissions[c].dbapi == proc.conns[c].dbapi
    requires Act(proc, locks, next, p, t, DoReconnect(c)).outcome == Done
    ensures Stale(Act(proc, locks, next, p, t, DoReconnect(c)).proc, p, c)
  {
    assert !InUse(proc, c);
  }

  /** When the pool replaces an admitted connection's driver connection, no transaction begins on it
      and no statement runs, over any run, until it is checked in. */
  lemma ReplacedConnectionIsStopped(
    w: World, t: Tid, steps: seq<Step>, p: Pid, c: Id, u: Tid, option: ReadOption)
    requires Reachable(w) && p in w.procs && w.procs[p].gatePid == p && c in w.procs[p].conns && c in w.procs[p].admissions
    requires w.procs[p].admissions[c].dbapi == w.procs[p].conns[c].dbapi
    requires Next(w, Thread(p, t, DoReconnect(c))).1 == Done
    requires forall s :: s in steps ==> !Checked(s, p, c)
    ensures var w' := Run(Next(w, Thread(p, t, DoReconnect(c))).0, steps);
      !Runs(w', p, u, c, option) && Began(w', p, u, c, option).1 != Done
  {
    var replaced := Next(w, Thread(p, t, DoReconnect(c))).0;
    NextReachable(w, Thread(p, t, DoReconnect(c)));
    ReachableFacts(w, p);
    ReplacedIsStale(w.procs[p], w.locks, w.next, p, t, c);
    StaleOverRun(replaced, steps, p, c);
    StaleStops(Run(replaced, steps), p, u, c, option);
  }

  ghost predicate Idle(proc: Proc, p: Pid, c: Id) {
    proc.gatePid == p && c in proc.conns && !proc.conns[c].inTransaction && Unclaimed(proc, c)
  }

  lemma CheckedIsIdle(p: Pid, proc: Proc, locks: Locks, next: Id, c: Id)
    requires Idle(proc, p, c)
    ensures Idle(Checkin(proc, locks, next, p, c).proc, p, c)
  {
    if AdmittedLease(proc, c).Some? {
      CloseHandleSame(Popped(proc, c), locks, p, AdmittedLease(proc, c).value, c);
    }
  }

  lemma ActKeepsIdle(p: Pid, t: Tid, proc: Proc, locks: Locks, next: Id, a: Action, c: Id)
    requires Idle(proc, p, c) && c < next && !(a.DoBegin? && a.conn == c)
    ensures Idle(Act(proc, locks, next, p, t, a).proc, p, c)
  {
    match a
    case DoFlock => FlockSame(p, t, proc, locks, next, c);
    case DoBegin(d, option) => BeginSame(p, t, proc, locks, next, d, option, c);
    case DoCheckin(d) =>
      if d != c { CheckinSame(p, proc, locks, next, d, c); } else { CheckedIsIdle(p, proc, locks, next, c); }
    case DoClose(h) => CloseHandleSame(proc, locks, p, h, c);
    case _ =>
  }

  lemma IdleStops(w: World, p: Pid, u: Tid, c: Id, option: ReadOption)
    requires p in w.procs ==> Idle(w.procs[p], p, c)
    ensures !Runs(w, p, u, c, option)
  {
  }

  // One step keeps the connection idle.
  lemma StepKeepsIdle(w: World, s: Step, p: Pid, c: Id)
    requires Reachable(w) && p in w.used && (p in w.procs ==> Idle(w.procs[p], p, c))
    requires !(s.Thread? && s.pid == p && s.action.DoBegin? && s.action.conn == c)
    ensures var w' := Next(w, s).0; p in w'.used && (p in w'.procs ==> Idle(w'.procs[p], p, c))
  {
    if s.Thread? && s.pid == p && p in w.procs {
      ReachableFacts(w, p);
      ActKeepsIdle(p, s.tid, w.procs[p], w.locks, w.next, s.action, c);
    }
  }

  /** After a transaction ended, no statement runs on its connection, over any run, before the next
      begin: nothing ever executes in the driver's own commit mode. */
  lemma {:induction false} NothingOutsideTransaction(w: World, steps: seq<Step>, p: Pid, c: Id, u: Tid, option: ReadOption)
    requires Reachable(w) && p in w.procs && Idle(w.procs[p], p, c)
    requires forall s :: s in steps ==> !(s.Thread? && s.pid == p && s.action.DoBegin? && s.action.conn == c)
    ensures var w' := Run(w, steps);
      p in w'.used && (p in w'.procs ==> Idle(w'.procs[p], p, c)) && !Runs(w', p, u, c, option)
  {
    ReachableFacts(w, p);
    if steps != [] {
      var front, last := steps[..|steps| - 1], steps[|steps| - 1];
      NothingOutsideTransaction(w, front, p, c, u, option);
      RunReachable(w, front);
      assert last in steps;
      StepKeepsIdle(Run(w, front), last, p, c);
    }
    IdleStops(Run(w, steps), p, u, c, option);
  }

  /** Ending a transaction is what stops its statements: from there on none runs until the next begin. */
  lemma EndedTransactionStops(w: World, t: Tid, steps: seq<Step>, p: Pid, c: Id, u: Tid, option: ReadOption)
    requires Reachable(w) && p in w.procs && Unclaimed(w.procs[p], c) && Next(w, Thread(p, t, DoEndTransaction(c))).1 == Done
    requires forall s :: s in steps ==> !(s.Thread? && s.pid == p && s.action.DoBegin? && s.action.conn == c)
    ensures !Runs(Run(Next(w, Thread(p, t, DoEndTransaction(c))).0, steps), p, u, c, option)
  {
    NextReachable(w, Thread(p, t, DoEndTransaction(c)));
    NothingOutsideTransaction(Next(w, Thread(p, t, DoEndTransaction(c))).0, steps, p, c, u, option);
  }

  /** A new connection has no lease, no admission and no transaction; after a fork only a reconstructed
      gate admits, and it starts without connections. */
  lemma StartsAfresh(w: World, p: Pid, t: Tid)
    requires Reachable(w) && p in w.procs
    ensures Next(w, Thread(p, t, DoConnect)).1 == Done ==>
      var proc := Next(w, Thread(p, t, DoConnect)).0.procs[p];
      w.next in proc.conns && w.next !in proc.admissions && proc.conns[w.next] == Conn(0, None, false, false)
    ensures Next(w, Thread(p, t, DoReconstruct)).1 == Done ==>
      var proc := Next(w, Thread(p, t, DoReconstruct)).0.procs[p];
      proc.gatePid == p && proc.gate != w.procs[p].gate && proc.conns == map[] && proc.admissions == map[]
  {
    ReachableInv(w);
    assert UsersOk(p, w.procs[p], w.locks);
    ReachableFacts(w, p);
  }

  /** A completed checkin forgets the admission and resets the connection; others are untouched. */
  lemma CheckinResets(w: World, p: Pid, t: Tid, c: Id)
    requires p in w.procs && Next(w, Thread(p, t, DoCheckin(c))).1 == Done
    ensures var w' := Next(w, Thread(p, t, DoCheckin(c))).0;
      && c !in w'.procs[p].admissions && c in w'.procs[p].conns
      && w'.procs[p].conns[c].infoLease == None
      && !w'.procs[p].conns[c].inTransaction && !w'.procs[p].conns[c].queryOnly
      && (forall d :: d != c && d in w.procs[p].conns ==> d in w'.procs[p].conns && w'.procs[p].conns[d] == w.procs[p].conns[d])
      && (forall d :: d != c && d in w.procs[p].admissions ==>
            d in w'.procs[p].admissions && w'.procs[p].admissions[d] == w.procs[p].admissions[d])
  {
    var proc := w.procs[p];
    forall d | d != c
      ensures SameAt(proc, Checkin(proc, w.locks, w.next, p, c).proc, d)
    {
      CheckinSame(p, proc, w.locks, w.next, c, d);
    }
    if AdmittedLease(proc, c).Some? {
      CloseHandleSame(Popped(proc, c), w.locks, p, AdmittedLease(proc, c).value, c);
    }
  }
}
