/**
 The lease protocol over whole runs: who may write, who may maintain, and when a lease ends.
*/
module LeaseRuns {
  import opened Basics
  import opened LeaseProtocol
  import opened LeaseInvariant
  import opened LeaseSteps

  // ------------------------------------------------------- one step of the world

  // A step of p, seen from the world: the other processes keep their memory and their view.
  lemma KeptWorld(w: World, w': World, p: Pid, r: Local)
    requires Inv(w) && p in w.procs
    requires Kept(p, w.procs[p], w.locks, w.next, r)
    requires w' == World(w.procs[p := r.proc], r.locks, r.next, w.used)
    ensures Inv(w')
  {
    forall q | q in w'.procs
      ensures ProcOk(q, w'.procs[q], w'.locks, w'.next)
    {
      if q != p {
        FramedSeesSame(p, q, w.locks, w'.locks, w.next);
        SeesSameProcOk(q, w.procs[q], w.locks, w'.locks, w.next, w'.next);
      }
    }
    HoldersStayProcesses(w, p, r);
  }

  lemma HoldersStayProcesses(w: World, p: Pid, r: Local)
    requires p in w.procs && Framed(p, w.locks, r.locks, w.next)
    requires forall i :: i in w.locks ==> w.locks[i].holders <= w.procs.Keys
    ensures forall i :: i in r.locks ==> r.locks[i].holders <= w.procs.Keys
  {
  }

  lemma ThreadKeepsInv(w: World, p: Pid, t: Tid, a: Action)
    requires Inv(w)
    ensures Inv(Next(w, Thread(p, t, a)).0)
    ensures p in w.procs ==> Framed(p, w.locks, Next(w, Thread(p, t, a)).0.locks, w.next)
  {
    if p in w.procs {
      ThreadKept(w, p, t, a);
      KeptWorld(w, Next(w, Thread(p, t, a)).0, p, Act(w.procs[p], w.locks, w.next, p, t, a));
    }
  }

  lemma ThreadKept(w: World, p: Pid, t: Tid, a: Action)
    requires Inv(w) && p in w.procs
    ensures Kept(p, w.procs[p], w.locks, w.next, Act(w.procs[p], w.locks, w.next, p, t, a))
  {
    ActKept(p, t, w.procs[p], w.locks, w.next, a);
  }

  lemma SpawnKeepsInv(w: World, p: Pid)
    requires Inv(w)
    ensures Inv(Next(w, Spawn(p)).0)
  {
    if p !in w.used {
      var w' := Next(w, Spawn(p)).0;
      assert ProcOk(p, w'.procs[p], w'.locks, w'.next) by {
        assert forall i :: i in w.locks ==> p !in w.locks[i].holders;
      }
    }
  }

  lemma ForkChildObjects(p: Pid, c: Pid, t: Tid, proc: Proc, locks: Locks, next: Id)
    requires ObjectsOk(p, proc, locks, next) && proc.awake
    requires forall i :: i in proc.leases ==> proc.leases[i].pid != c
    requires forall i :: i in locks ==> c !in locks[i].holders
    ensures ObjectsOk(c, ForkedProc(proc, t), ShareDescriptors(locks, OpenLeases(proc), c), next)
  {
    var child := ForkedProc(proc, t);
    var locks' := ShareDescriptors(locks, OpenLeases(proc), c);
    assert LeasesOk(c, child.awake, child.leases, locks');
    assert NoStrayDescriptors(c, child.leases, locks');
  }

  lemma ForkChildUsers(p: Pid, c: Pid, t: Tid, proc: Proc, locks: Locks, locks': Locks)
    requires UsersOk(p, proc, locks) && proc.gatePid != c
    requires forall i :: i in proc.leases ==> proc.leases[i].pid != c
    ensures UsersOk(c, ForkedProc(proc, t), locks')
  {
    var child := ForkedProc(proc, t);
    forall h | h in child.held
      ensures Returned(c, child.leases, child.borrows, locks', h)
    {
      assert Returned(p, proc.leases, proc.borrows, locks, h);
    }
    assert ScopesOk(c, child.leases, locks', child.scopes);
  }

  lemma ForkSeesSame(q: Pid, c: Pid, locks: Locks, ids: set<Id>)
    requires q != c
    ensures SeesSame(q, locks, ShareDescriptors(locks, ids, c))
  {
  }

  lemma ForkProcOk(w: World, p: Pid, t: Tid, c: Pid, q: Pid)
    requires Inv(w) && p in w.procs && c !in w.used && w.procs[p].awake && t !in w.procs[p].pending
    requires q in w.procs || q == c
    ensures c !in w.procs
    ensures ProcOk(q, if q == c then ForkedProc(w.procs[p], t) else w.procs[q],
                   ShareDescriptors(w.locks, OpenLeases(w.procs[p]), c), w.next)
  {
    var proc := w.procs[p];
    var locks' := ShareDescriptors(w.locks, OpenLeases(proc), c);
    if q == c {
      forall i | i in w.locks
        ensures c !in w.locks[i].holders
      {
        assert w.locks[i].holders <= w.procs.Keys;
      }
      ForkChildObjects(p, c, t, proc, w.locks, w.next);
      ForkChildUsers(p, c, t, proc, w.locks, locks');
    } else {
      ForkSeesSame(q, c, w.locks, OpenLeases(proc));
      SeesSameProcOk(q, w.procs[q], w.locks, locks', w.next, w.next);
    }
  }

  lemma ForkKeepsInv(w: World, p: Pid, t: Tid, c: Pid)
    requires Inv(w)
    ensures Inv(Next(w, Fork(p, t, c)).0)
  {
    var w' := Next(w, Fork(p, t, c)).0;
    if w' != w {
      forall q | q in w'.procs
        ensures ProcOk(q, w'.procs[q], w'.locks, w'.next)
      {
        ForkProcOk(w, p, t, c, q);
      }
    }
  }

  lemma KillKeepsInv(w: World, p: Pid)
    requires Inv(w)
    ensures Inv(Next(w, Kill(p)).0)
  {
    var w' := Next(w, Kill(p)).0;
    ReleaseAllLocks(p, w.locks, w.next, w.locks.Keys);
    forall q | q in w'.procs
      ensures ProcOk(q, w'.procs[q], w'.locks, w'.next)
    {
      FramedSeesSame(p, q, w.locks, w'.locks, w.next);
      SeesSameProcOk(q, w.procs[q], w.locks, w'.locks, w.next, w'.next);
    }
  }

  lemma StepKeepsInv(w: World, s: Step)
    requires Inv(w)
    ensures Inv(Next(w, s).0)
  {
    match s
    case Thread(p, t, a) => ThreadKeepsInv(w, p, t, a);
    case Spawn(p) => SpawnKeepsInv(w, p);
    case Fork(p, t, c) => ForkKeepsInv(w, p, t, c);
    case Kill(p) => KillKeepsInv(w, p);
  }

  lemma {:induction false} RunKeepsInv(w: World, steps: seq<Step>)
    requires Inv(w)
    ensures Inv(Run(w, steps))
  {
    if steps != [] {
      RunKeepsInv(w, steps[..|steps| - 1]);
      StepKeepsInv(Run(w, steps[..|steps| - 1]), steps[|steps| - 1]);
    }
  }

  // Every world that some run reaches from an empty one.
  ghost predicate Reachable(w: World) {
    exists steps :: w == Run(Start(), steps)
  }

  lemma ReachableInv(w: World)
    requires Reachable(w)
    ensures Inv(w)
  {
    var steps :| w == Run(Start(), steps);
    RunKeepsInv(Start(), steps);
  }

  lemma NextReachable(w: World, s: Step)
    requires Reachable(w)
    ensures Reachable(Next(w, s).0)
  {
    var steps :| w == Run(Start(), steps);
    assert (steps + [s])[..|steps|] == steps;
    assert Next(w, s).0 == Run(Start(), steps + [s]);
  }

  lemma {:induction false} RunReachable(w: World, steps: seq<Step>)
    requires Reachable(w)
    ensures Reachable(Run(w, steps))
  {
    if steps != [] {
      RunReachable(w, steps[..|steps| - 1]);
      NextReachable(Run(w, steps[..|steps| - 1]), steps[|steps| - 1]);
    }
  }

  // ----------------------------------------------------- who may write, and when

  // A lease that process q opened, still has open, and whose lock was granted.
  ghost predicate HoldsLock(w: World, q: Pid, j: Id, exclusive: bool) {
    && q in w.procs && j in w.procs[q].leases && w.procs[q].leases[j].pid == q
    && !w.procs[q].leases[j].closed && w.procs[q].leases[j].exclusive == exclusive
    && Granted(w.locks, j)
  }

  lemma HeldLockKind(w: World, q: Pid, j: Id, exclusive: bool)
    requires Inv(w) && HoldsLock(w, q, j, exclusive)
    ensures w.locks[j].lock == (if exclusive then Exclusive else Shared) && w.locks[j].owner == q
  {
    assert LeasesOk(q, w.procs[q].awake, w.procs[q].leases, w.locks);
  }

  // The heart of the protocol: an exclusive lock is alone among all locks of all processes.
  lemma MaintenanceIsAlone(w: World, q: Pid, j: Id, r: Pid, k: Id, exclusive: bool)
    requires Inv(w) && HoldsLock(w, q, j, true) && HoldsLock(w, r, k, exclusive)
    ensures r == q && k == j && exclusive
  {
    HeldLockKind(w, q, j, true);
    HeldLockKind(w, r, k, exclusive);
  }

  // What must hold for a statement that may write.
  ghost predicate WritesSafely(w: World, p: Pid, t: Tid, h: Handle)
    requires p in w.procs
  {
    match h
    case Whole(i) =>
      && HoldsLock(w, p, i, false)
      && (forall q, j :: !HoldsLock(w, q, j, true))
    case Part(b) =>
      && b in w.procs[p].borrows && !w.procs[p].borrows[b].closed
      && var i := w.procs[p].borrows[b].owner;
      && HoldsLock(w, p, i, true) && w.procs[p].leases[i].thread == t && !w.procs[p].leases[i].closing
      && (forall q, j :: HoldsLock(w, q, j, true) ==> q == p && j == i)
      && (forall q, j :: !HoldsLock(w, q, j, false))
  }

  lemma AdmittedWritesSafely(w: World, p: Pid, t: Tid, c: Id, option: ReadOption)
    requires Inv(w) && p in w.procs && Admitted(w.procs[p], p, t, c, option) && !w.procs[p].admissions[c].readonly
    ensures w.procs[p].admissions[c].lease.Some? && WritesSafely(w, p, t, w.procs[p].admissions[c].lease.value)
  {
    var proc := w.procs[p];
    var h := proc.admissions[c].lease.value;
    assert AdmissionLease(p, proc.gate, proc.leases, proc.borrows, w.locks, h);
    var i := if h.Whole? then h.lease else proc.borrows[h.borrow].owner;
    if h.Part? {
      assert BorrowsOk(proc.leases, proc.borrows, p, w.locks);
    }
    forall q, j | HoldsLock(w, q, j, true)
      ensures h.Part? && q == p && j == i
    {
      MaintenanceIsAlone(w, q, j, p, i, h.Part?);
    }
    forall q, j | h.Part? && HoldsLock(w, q, j, false)
      ensures false
    {
      MaintenanceIsAlone(w, p, i, q, j, false);
    }
  }

  /** In every interleaving, a statement that runs either is on a connection in query-only mode,
      or writes while no maintenance lock exists anywhere, or is a live borrow of the one
      maintenance lock on its owner's own thread. */
  lemma StatementsAreSafe(w: World, p: Pid, t: Tid, c: Id, option: ReadOption)
    requires Reachable(w)
    requires Next(w, Thread(p, t, DoExecute(c, option))).1 == Done
    ensures p in w.procs && c in w.procs[p].admissions && c in w.procs[p].conns
    ensures if w.procs[p].admissions[c].readonly then w.procs[p].conns[c].queryOnly
      else w.procs[p].admissions[c].lease.Some? && WritesSafely(w, p, t, w.procs[p].admissions[c].lease.value)
  {
    if !w.procs[p].admissions[c].readonly {
      ReachableInv(w);
      AdmittedWritesSafely(w, p, t, c, option);
    }
  }

  // A transaction that was just admitted can run its statements.
  lemma ReadmittedRuns(proc: Proc, p: Pid, t: Tid, c: Id, lease: Option<Handle>, option: ReadOption)
    requires proc.gatePid == p && c in proc.conns && option != Forged
    requires lease.Some? ==> LeaseAccepted(proc, p, t, lease.value)
    requires option == Absent ==> lease.Some?
    ensures Admitted(Admit(proc, c, lease, option == Sentinel), p, t, c, option)
  {
    assert Scope(Admit(proc, c, lease, option == Sentinel), t) == Scope(proc, t);
  }

  lemma LentRuns(proc: Proc, p: Pid, t: Tid, i: Id, b: Id)
    requires proc.gatePid == p && Scope(proc, t) == Some(i) && Lends(proc, p, t, i)
    ensures LeaseAccepted(AddBorrow(proc, p, i, b), p, t, Part(b))
  {
    assert Scope(AddBorrow(proc, p, i, b), t) == Scope(proc, t);
  }

  lemma BegunLocally(proc: Proc, locks: Locks, next: Id, p: Pid, t: Tid, c: Id, option: ReadOption)
    requires Begin(proc, locks, next, p, t, c, option).outcome == Done
    ensures var proc' := Begin(proc, locks, next, p, t, c, option).proc;
      t in proc'.pending || Admitted(proc', p, t, c, option)
  {
    var lease := AdmittedLease(proc, c);
    if lease.Some? || option == Sentinel {
      ReadmittedRuns(proc, p, t, c, lease, option);
    } else if Scope(proc, t).Some? {
      var i := Scope(proc, t).value;
      LentRuns(proc, p, t, i, next);
      ReadmittedRuns(AddBorrow(proc, p, i, next), p, t, c, Some(Part(next)), option);
    }
  }

  lemma BeginIsLocal(w: World, p: Pid, t: Tid, c: Id, option: ReadOption, r: Local)
    requires p in w.procs && Ready(w.procs[p], t, DoBegin(c, option))
    requires r == Begin(w.procs[p], w.locks, w.next, p, t, c, option)
    ensures Next(w, Thread(p, t, DoBegin(c, option))) == (World(w.procs[p := r.proc], r.locks, r.next, w.used), r.outcome)
  {
  }

  lemma StatementRuns(w: World, p: Pid, t: Tid, c: Id, option: ReadOption)
    requires p in w.procs && Ready(w.procs[p], t, DoExecute(c, option)) && Admitted(w.procs[p], p, t, c, option)
    ensures Next(w, Thread(p, t, DoExecute(c, option))).1 == Done
  {
  }

  lemma BegunIsAdmitted(w: World, p: Pid, t: Tid, c: Id, option: ReadOption)
    requires p in w.procs
    requires Next(w, Thread(p, t, DoBegin(c, option))).1 == Done
    ensures var w' := Next(w, Thread(p, t, DoBegin(c, option))).0;
      || t in w'.procs[p].pending
      || Next(w', Thread(p, t, DoExecute(c, option))).1 == Done
  {
    BegunLocally(w.procs[p], w.locks, w.next, p, t, c, option);
    BeginIsLocal(w, p, t, c, option, Begin(w.procs[p], w.locks, w.next, p, t, c, option));
    var w' := Next(w, Thread(p, t, DoBegin(c, option))).0;
    if t !in w'.procs[p].pending {
      StatementRuns(w', p, t, c, option);
    }
  }

  lemma GrantedLocally(proc: Proc, locks: Locks, next: Id, p: Pid, t: Tid, c: Id)
    requires PendingOk(p, proc, locks) && t in proc.pending && proc.pending[t].purpose == ForBegin(c)
    requires Flock(proc, locks, next, p, t).outcome == Done
    ensures Admitted(Flock(proc, locks, next, p, t).proc, p, t, c, Absent)
  {
  }

  lemma GrantedBeginIsAdmitted(w: World, p: Pid, t: Tid, c: Id)
    requires p in w.procs && PendingOk(p, w.procs[p], w.locks)
    requires t in w.procs[p].pending && w.procs[p].pending[t].purpose == ForBegin(c)
    requires Next(w, Thread(p, t, DoFlock)).1 == Done
    ensures Next(Next(w, Thread(p, t, DoFlock)).0, Thread(p, t, DoExecute(c, Absent))).1 == Done
  {
    GrantedLocally(w.procs[p], w.locks, w.next, p, t, c);
  }

  // ------------------------------------------------- a transaction keeps its lease

  ghost predicate Spares(s: Step, p: Pid, c: Id) {
    s != Kill(p) && !(s.Thread? && s.pid == p && s.action == DoCheckin(c))
  }

  ghost predicate HasLease(w: World, p: Pid, c: Id, h: Handle) {
    p in w.procs && w.procs[p].gatePid == p && c in w.procs[p].admissions && w.procs[p].admissions[c].lease == Some(h)
  }

  lemma CloseHandleSpares(proc: Proc, locks: Locks, p: Pid, h: Handle)
    ensures var r := CloseHandle(proc, locks, p, h).0;
      r.admissions == proc.admissions && r.gatePid == proc.gatePid
  {
  }

  ghost predicate SameLease(a: Proc, b: Proc, c: Id) {
    b.gatePid == a.gatePid && c in b.admissions && c in a.admissions && b.admissions[c].lease == a.admissions[c].lease
  }

  lemma FlockKeepsLease(p: Pid, t: Tid, proc: Proc, locks: Locks, next: Id, c: Id)
    requires PendingOk(p, proc, locks) && c in proc.admissions && proc.admissions[c].lease.Some?
    ensures SameLease(proc, Flock(proc, locks, next, p, t).proc, c)
  {
    assert t in proc.pending && proc.pending[t].purpose == ForBegin(c) ==> AdmittedLease(proc, c) == None;
  }

  lemma AdmitKeepsLease(proc: Proc, mid: Proc, d: Id, lease: Option<Handle>, readonly: bool, c: Id)
    requires d in mid.conns && SameLease(proc, mid, c) && (d == c ==> lease == mid.admissions[c].lease)
    ensures SameLease(proc, Admit(mid, d, lease, readonly), c)
  {
  }

  // A begin admits the connection with its own lease, or without any if it had none.
  lemma BeginKeepsLease(p: Pid, t: Tid, proc: Proc, locks: Locks, next: Id, d: Id, option: ReadOption, c: Id)
    requires c in proc.admissions && proc.admissions[c].lease.Some?
    ensures SameLease(proc, Begin(proc, locks, next, p, t, d, option).proc, c)
  {
    assert SameLease(proc, proc, c);
    if d in proc.conns {
      var lease := AdmittedLease(proc, d);
      AdmitKeepsLease(proc, proc, d, lease, option == Sentinel, c);
      if lease.None? && Scope(proc, t).Some? && Lends(proc, p, t, Scope(proc, t).value) {
        AdmitKeepsLease(proc, AddBorrow(proc, p, Scope(proc, t).value, next), d, Some(Part(next)), false, c);
      }
    }
  }

  lemma CheckinKeepsLease(p: Pid, proc: Proc, locks: Locks, next: Id, d: Id, c: Id)
    requires c in proc.admissions && d != c
    ensures SameLease(proc, Checkin(proc, locks, next, p, d).proc, c)
  {
  }

  lemma ActKeepsLease(p: Pid, t: Tid, proc: Proc, locks: Locks, next: Id, a: Action, c: Id)
    requires PendingOk(p, proc, locks) && proc.gatePid == p && c in proc.admissions && proc.admissions[c].lease.Some?
    requires a != DoCheckin(c)
    ensures SameLease(proc, Act(proc, locks, next, p, t, a).proc, c)
  {
    match a
    case DoFlock => FlockKeepsLease(p, t, proc, locks, next, c);
    case DoBegin(d, option) => BeginKeepsLease(p, t, proc, locks, next, d, option, c);
    case DoCheckin(d) => CheckinKeepsLease(p, proc, locks, next, d, c);
    case DoClose(h) => CloseHandleSpares(proc, locks, p, h);
    case _ =>
  }

  lemma ReachableFacts(w: World, p: Pid)
    requires Reachable(w) && p in w.procs
    ensures PendingOk(p, w.procs[p], w.locks) && BelowNext(w.procs[p], w.next) && p in w.used
  {
    ReachableInv(w);
  }

  lemma NextKeepsLease(w: World, s: Step, p: Pid, c: Id, h: Handle)
    requires p in w.used && HasLease(w, p, c, h) && Spares(s, p, c) && PendingOk(p, w.procs[p], w.locks)
    ensures HasLease(Next(w, s).0, p, c, h)
  {
    if s.Thread? && s.pid == p {
      ActKeepsLease(p, s.tid, w.procs[p], w.locks, w.next, s.action, c);
    }
  }

  lemma LeaseOfAdmissionIsOpen(w: World, p: Pid, c: Id, h: Handle)
    requires Reachable(w) && HasLease(w, p, c, h)
    ensures AdmissionLease(p, w.procs[p].gate, w.procs[p].leases, w.procs[p].borrows, w.locks, h)
    ensures forall d :: d in w.procs[p].admissions && d != c ==> w.procs[p].admissions[d].lease != Some(h)
    ensures h !in w.procs[p].held
  {
    ReachableInv(w);
    assert UsersOk(p, w.procs[p], w.locks);
  }

  /** The lease taken at begin belongs to that connection alone and stays open, with its lock,
      through any run until the connection is checked in or its process dies: commit, rollback,
      forks, other closes and other processes do not end it. */
  lemma {:induction false} TransactionKeepsLease(w: World, steps: seq<Step>, p: Pid, c: Id, h: Handle)
    requires Reachable(w) && HasLease(w, p, c, h)
    requires forall s :: s in steps ==> Spares(s, p, c)
    ensures var w' := Run(w, steps);
      && HasLease(w', p, c, h)
      && AdmissionLease(p, w'.procs[p].gate, w'.procs[p].leases, w'.procs[p].borrows, w'.locks, h)
      && h !in w'.procs[p].held
      && (forall d :: d in w'.procs[p].admissions && d != c ==> w'.procs[p].admissions[d].lease != Some(h))
  {
    if steps != [] {
      var front, last := steps[..|steps| - 1], steps[|steps| - 1];
      TransactionKeepsLease(w, front, p, c, h);
      RunReachable(w, front);
      ReachableFacts(Run(w, front), p);
      assert last in steps;
      NextKeepsLease(Run(w, front), last, p, c, h);
    }
    RunReachable(w, steps);
    LeaseOfAdmissionIsOpen(Run(w, steps), p, c, h);
  }

  /** Checking the connection in closes a shared transaction lease and gives its descriptor up. */
  lemma CheckinEndsLease(w: World, p: Pid, t: Tid, c: Id, i: Id)
    requires Reachable(w) && HasLease(w, p, c, Whole(i))
    requires Next(w, Thread(p, t, DoCheckin(c))).1 != Ignored
    ensures var w' := Next(w, Thread(p, t, DoCheckin(c))).0;
      && c !in w'.procs[p].admissions
      && i in w'.procs[p].leases && w'.procs[p].leases[i].closed
      && (i in w'.locks ==> p !in w'.locks[i].holders)
  {
    LeaseOfAdmissionIsOpen(w, p, c, Whole(i));
    SharedHasNoBorrowers(w, p, i);
  }

  // An open borrow's owner belongs to the same process, is open and counts it.
  lemma BorrowHasOwner(w: World, p: Pid, b: Id)
    requires Reachable(w) && p in w.procs && b in w.procs[p].borrows
    requires !w.procs[p].borrows[b].closed && w.procs[p].borrows[b].pid == p
    ensures var i := w.procs[p].borrows[b].owner;
      && i in w.procs[p].leases && w.procs[p].leases[i].pid == p
      && !w.procs[p].leases[i].closed && w.procs[p].leases[i].borrowers > 0
  {
    ReachableInv(w);
    var proc := w.procs[p];
    assert BorrowsOk(proc.leases, proc.borrows, p, w.locks) && CountsOk(p, proc.leases, proc.borrows);
    assert b in OpenBorrows(proc.borrows, proc.borrows[b].owner);
  }

  /** Checking in a borrowed transaction ends the borrow: its owner counts one less, and if the
      owner's close had been refused and this was the last borrow, the owner is closed now and its
      descriptor is given up. */
  lemma CheckinEndsBorrow(w: World, p: Pid, t: Tid, c: Id, b: Id)
    requires Reachable(w) && HasLease(w, p, c, Part(b))
    requires Next(w, Thread(p, t, DoCheckin(c))).1 != Ignored
    ensures b in w.procs[p].borrows && w.procs[p].borrows[b].owner in w.procs[p].leases
    ensures var w' := Next(w, Thread(p, t, DoCheckin(c))).0; var i := w.procs[p].borrows[b].owner;
      && c !in w'.procs[p].admissions
      && b in w'.procs[p].borrows && w'.procs[p].borrows[b].closed
      && i in w'.procs[p].leases && w'.procs[p].leases[i].borrowers == w.procs[p].leases[i].borrowers - 1
      && (w'.procs[p].leases[i].closed <==> w.procs[p].leases[i].closing && w.procs[p].leases[i].borrowers == 1)
      && (w'.procs[p].leases[i].closed ==> (i in w'.locks ==> p !in w'.locks[i].holders))
      && (!w'.procs[p].leases[i].closed ==> w'.locks == w.locks)
  {
    LeaseOfAdmissionIsOpen(w, p, c, Part(b));
    BorrowHasOwner(w, p, b);
    CheckinBorrow(w.procs[p], w.locks, w.next, p, c, b);
  }

  lemma CheckinBorrow(proc: Proc, locks: Locks, next: Id, p: Pid, c: Id, b: Id)
    requires c in proc.conns && !InUse(proc, c) && proc.gatePid == p && AdmittedLease(proc, c) == Some(Part(b))
    requires b in proc.borrows && proc.borrows[b].owner in proc.leases
    ensures var r := Checkin(proc, locks, next, p, c); var i := proc.borrows[b].owner;
      var closed := BorrowClose(proc.borrows[b], proc.leases[i], p);
      && c !in r.proc.admissions && r.proc.borrows == proc.borrows[b := closed.0]
      && r.proc.leases == proc.leases[i := closed.1] && r.locks == if closed.2 then Release(locks, i, p) else locks
  {
  }

  lemma SharedHasNoBorrowers(w: World, p: Pid, i: Id)
    requires Reachable(w) && p in w.procs && i in w.procs[p].leases && !w.procs[p].leases[i].exclusive
    ensures w.procs[p].leases[i].borrowers == 0
  {
    ReachableInv(w);
    if w.procs[p].leases[i].borrowers != 0 {
      BorrowedIsExclusive(p, w.procs[p], w.locks, w.next, i);
    }
  }

  lemma FlockOutcome(w: World, q: Pid, u: Tid)
    requires q in w.procs && w.procs[q].awake && u in w.procs[q].pending && PendingOk(q, w.procs[q], w.locks)
    ensures var i := w.procs[q].pending[u].lease;
      && i in w.procs[q].leases && i in w.locks && w.locks[i].lock == Unlocked
      && Next(w, Thread(q, u, DoFlock)).1 == if Grantable(w.locks, i, w.procs[q].leases[i].exclusive) then Done else Busy
  {
  }

  /** While a transaction holds its shared lease, every maintenance request is refused. */
  lemma TransactionBlocksMaintenance(w: World, steps: seq<Step>, p: Pid, c: Id, i: Id, q: Pid, u: Tid)
    requires Reachable(w) && HasLease(w, p, c, Whole(i))
    requires forall s :: s in steps ==> Spares(s, p, c)
    requires var w' := Run(w, steps);
      q in w'.procs && u in w'.procs[q].pending && w'.procs[q].awake
      && w'.procs[q].pending[u].lease in w'.procs[q].leases && w'.procs[q].leases[w'.procs[q].pending[u].lease].exclusive
    ensures Next(Run(w, steps), Thread(q, u, DoFlock)).1 == Busy
  {
    TransactionKeepsLease(w, steps, p, c, Whole(i));
    RunReachable(w, steps);
    var w' := Run(w, steps);
    ReachableFacts(w', q);
    FlockOutcome(w', q, u);
    assert i in w'.locks && w'.locks[i].lock != Unlocked;
  }

  // Whoever keeps a lock from being granted: a process with that lease open.
  ghost predicate Blocks(w: World, i: Id, r: Pid, j: Id) {
    r in w.procs && j in w.procs[r].leases && !w.procs[r].leases[j].closed && j != i && Granted(w.locks, j)
  }

  lemma RefusalHasHolder(locks: Locks, next: Id, i: Id, exclusive: bool) returns (r: Pid, j: Id)
    requires KernelOk(locks, next) && !Grantable(locks, i, exclusive)
    ensures j in locks && j != i && locks[j].lock != Unlocked && r in locks[j].holders
  {
    j :| j in locks && j != i && locks[j].lock != Unlocked;
    r :| r in locks[j].holders;
  }

  /** A refusal is never spurious: some other lease is open and holds the lock. */
  lemma BusyHasReason(w: World, q: Pid, u: Tid) returns (r: Pid, j: Id)
    requires Reachable(w) && q in w.procs && w.procs[q].awake && u in w.procs[q].pending
    requires Next(w, Thread(q, u, DoFlock)).1 == Busy
    ensures Blocks(w, w.procs[q].pending[u].lease, r, j)
  {
    var i := w.procs[q].pending[u].lease;
    ReachableFacts(w, q);
    FlockOutcome(w, q, u);
    ReachableKernel(w);
    r, j := RefusalHasHolder(w.locks, w.next, i, w.procs[q].leases[i].exclusive);
    HolderIsOpen(w, r, j);
  }

  lemma ReachableKernel(w: World)
    requires Reachable(w)
    ensures KernelOk(w.locks, w.next)
  {
    ReachableInv(w);
  }

  lemma HolderIsOpen(w: World, r: Pid, j: Id)
    requires Reachable(w) && j in w.locks && r in w.locks[j].holders
    ensures r in w.procs && j in w.procs[r].leases && !w.procs[r].leases[j].closed
  {
    ReachableInv(w);
    assert w.locks[j].holders <= w.procs.Keys;
  }

  // --------------------------------------------------------- the end of a lease

  /** In the owning process: the counter is the number of open borrows, the descriptor is held
      exactly while the lease is open, and a closed lease has no open borrow left. */
  lemma LeaseAccounting(w: World, p: Pid, i: Id)
    requires Reachable(w) && p in w.procs && i in w.procs[p].leases && w.procs[p].leases[i].pid == p
    ensures var proc := w.procs[p]; var l := proc.leases[i];
      && l.borrowers == |OpenBorrows(proc.borrows, i)|
      && (!l.closed <==> i in w.locks && p in w.locks[i].holders)
      && (l.closed ==> OpenBorrows(proc.borrows, i) == {})
      && (l.closing ==> (l.closed <==> OpenBorrows(proc.borrows, i) == {}))
  {
    ReachableInv(w);
    assert ObjectsOk(p, w.procs[p], w.locks, w.next);
  }

  // Objects never disappear, reopen, or take a refused close back; closed borrows stay closed;
  // nothing new is lent by a lease that is closed or closing.
  ghost predicate LeasesAge(a: map<Id, Lease>, b: map<Id, Lease>) {
    forall i :: i in a ==>
      && i in b && b[i].pid == a[i].pid && (a[i].closed ==> b[i].closed) && (a[i].closing ==> b[i].closing)
  }

  ghost predicate BorrowsAge(leases: map<Id, Lease>, a: map<Id, Borrow>, b: map<Id, Borrow>) {
    && (forall x :: x in a ==> x in b && b[x].owner == a[x].owner && (a[x].closed ==> b[x].closed))
    && (forall x :: x in b && x !in a && b[x].owner in leases ==>
          !leases[b[x].owner].closing && !leases[b[x].owner].closed)
  }

  ghost predicate Ages(a: Proc, b: Proc) {
    LeasesAge(a.leases, b.leases) && BorrowsAge(a.leases, a.borrows, b.borrows)
  }

  lemma AddBorrowAges(p: Pid, t: Tid, proc: Proc, i: Id, x: Id)
    requires x !in proc.borrows && Lends(proc, p, t, i)
    ensures Ages(proc, AddBorrow(proc, p, i, x))
  {
  }

  lemma CloseWholeAges(proc: Proc, locks: Locks, p: Pid, i: Id)
    ensures Ages(proc, CloseHandle(proc, locks, p, Whole(i)).0)
  {
    if i in proc.leases { CloseWholeCases(p, proc, locks, i); }
  }

  lemma ClosePartAges(proc: Proc, locks: Locks, p: Pid, b: Id)
    ensures Ages(proc, CloseHandle(proc, locks, p, Part(b)).0)
  {
    if b in proc.borrows && proc.borrows[b].owner in proc.leases { ClosePartCases(p, proc, locks, b); }
  }

  lemma CloseHandleAges(proc: Proc, locks: Locks, p: Pid, h: Handle)
    ensures Ages(proc, CloseHandle(proc, locks, p, h).0)
  {
    match h
    case Whole(i) => CloseWholeAges(proc, locks, p, i);
    case Part(b) => ClosePartAges(proc, locks, p, b);
  }

  lemma AcquireAges(p: Pid, t: Tid, proc: Proc, locks: Locks, next: Id, exclusive: bool)
    requires BelowNext(proc, next)
    ensures Ages(proc, Acquire(proc, locks, next, p, t, exclusive).proc)
  {
    if Scope(proc, t).Some? && Lends(proc, p, t, Scope(proc, t).value) {
      AddBorrowAges(p, t, proc, Scope(proc, t).value, next);
    }
  }

  lemma SameObjectsAge(a: Proc, b: Proc)
    requires b.leases == a.leases && b.borrows == a.borrows
    ensures Ages(a, b)
  {
  }

  lemma OpenAges(proc: Proc, locks: Locks, next: Id, p: Pid, t: Tid, exclusive: bool, purpose: Purpose)
    requires next !in proc.leases
    ensures Ages(proc, Open(proc, locks, next, p, t, exclusive, purpose).proc)
  {
  }

  function Objects(proc: Proc): (map<Id, Lease>, map<Id, Borrow>) {
    (proc.leases, proc.borrows)
  }

  lemma ObjectsAge(a: Proc, b: Proc, c: Proc)
    requires Ages(a, b) && Objects(c) == Objects(b)
    ensures Ages(a, c)
  {
  }

  lemma AdmitKeepsObjects(proc: Proc, c: Id, lease: Option<Handle>, readonly: bool)
    requires c in proc.conns
    ensures Objects(Admit(proc, c, lease, readonly)) == Objects(proc)
  {
  }

  // A begin leaves the lease objects alone, borrows from the thread's lease, or opens one.
  lemma BeginObjects(p: Pid, t: Tid, proc: Proc, locks: Locks, next: Id, c: Id, option: ReadOption)
    ensures var objects := Objects(Begin(proc, locks, next, p, t, c, option).proc);
      || objects == Objects(proc)
      || (Scope(proc, t).Some? && Lends(proc, p, t, Scope(proc, t).value)
          && objects == Objects(AddBorrow(proc, p, Scope(proc, t).value, next)))
      || objects == Objects(Open(proc, locks, next, p, t, false, ForBegin(c)).proc)
  {
    if c in proc.conns {
      AdmitKeepsObjects(proc, c, AdmittedLease(proc, c), option == Sentinel);
    }
  }

  lemma BeginAges(p: Pid, t: Tid, proc: Proc, locks: Locks, next: Id, c: Id, option: ReadOption)
    requires BelowNext(proc, next)
    ensures Ages(proc, Begin(proc, locks, next, p, t, c, option).proc)
  {
    var b := Begin(proc, locks, next, p, t, c, option).proc;
    BeginObjects(p, t, proc, locks, next, c, option);
    if Objects(b) == Objects(proc) {
      SameObjectsAge(proc, b);
    } else if Objects(b) == Objects(Open(proc, locks, next, p, t, false, ForBegin(c)).proc) {
      OpenAges(proc, locks, next, p, t, false, ForBegin(c));
      ObjectsAge(proc, Open(proc, locks, next, p, t, false, ForBegin(c)).proc, b);
    } else {
      AddBorrowAges(p, t, proc, Scope(proc, t).value, next);
      ObjectsAge(proc, AddBorrow(proc, p, Scope(proc, t).value, next), b);
    }
  }

  lemma FlockAges(p: Pid, t: Tid, proc: Proc, locks: Locks, next: Id)
    ensures Ages(proc, Flock(proc, locks, next, p, t).proc)
  {
  }

  lemma CheckinAges(p: Pid, proc: Proc, locks: Locks, next: Id, c: Id)
    ensures Ages(proc, Checkin(proc, locks, next, p, c).proc)
  {
    if c in proc.conns && AdmittedLease(proc, c).Some? {
      CloseHandleAges(Popped(proc, c), locks, p, AdmittedLease(proc, c).value);
    }
  }

  lemma OtherAges(p: Pid, t: Tid, proc: Proc, locks: Locks, next: Id, a: Action)
    requires a.DoEnterScope? || a.DoExitScope? || a.DoCopyContext? || a.DoConnect? || a.DoReconnect?
      || a.DoExecute? || a.DoEndTransaction? || a.DoReconstruct? || a.DoAfterFork?
    ensures Ages(proc, Act(proc, locks, next, p, t, a).proc)
  {
  }

  lemma ActAges(p: Pid, t: Tid, proc: Proc, locks: Locks, next: Id, a: Action)
    requires BelowNext(proc, next)
    ensures Ages(proc, Act(proc, locks, next, p, t, a).proc)
  {
    match a
    case DoAcquire(exclusive) => AcquireAges(p, t, proc, locks, next, exclusive);
    case DoFlock => FlockAges(p, t, proc, locks, next);
    case DoBegin(c, option) => BeginAges(p, t, proc, locks, next, c, option);
    case DoCheckin(c) => CheckinAges(p, proc, locks, next, c);
    case DoClose(h) => CloseHandleAges(proc, locks, p, h);
    case _ => OtherAges(p, t, proc, locks, next, a);
  }

  lemma NextAges(w: World, s: Step, p: Pid)
    requires p in w.procs && p in w.used && BelowNext(w.procs[p], w.next)
    ensures p in Next(w, s).0.procs ==> Ages(w.procs[p], Next(w, s).0.procs[p])
  {
    if s.Thread? && s.pid == p {
      ActAges(p, s.tid, w.procs[p], w.locks, w.next, s.action);
    }
  }

  // Pids are not reused, so a living process was alive all along and its objects aged.
  lemma StepAges(w: World, s: Step, p: Pid)
    requires Reachable(w) && p in w.used
    ensures var w' := Next(w, s).0;
      p in w'.used && (p in w'.procs ==> p in w.procs && Ages(w.procs[p], w'.procs[p]))
  {
    if p in w.procs {
      ReachableFacts(w, p);
      NextAges(w, s, p);
    }
  }

  // Whether this step is the one that closes lease i of process p.
  predicate ClosesAt(w: World, w': World, p: Pid, i: Id) {
    && p in w.procs && i in w.procs[p].leases && !w.procs[p].leases[i].closed
    && p in w'.procs && i in w'.procs[p].leases && w'.procs[p].leases[i].closed
  }

  function Closings(w: World, steps: seq<Step>, p: Pid, i: Id): nat {
    if steps == [] then 0
    else
      var before := Run(w, steps[..|steps| - 1]);
      Closings(w, steps[..|steps| - 1], p, i)
      + if ClosesAt(before, Next(before, steps[|steps| - 1]).0, p, i) then 1 else 0
  }

  /** Over any run a lease object is closed at most once, and once closed it stays closed. */
  lemma {:induction false} ClosedOnce(w: World, steps: seq<Step>, p: Pid, i: Id)
    requires Reachable(w) && p in w.used
    requires p in w.procs && i in w.procs[p].leases
    ensures Closings(w, steps, p, i) <= 1
    ensures var w' := Run(w, steps); p in w'.used && (p in w'.procs ==>
      i in w'.procs[p].leases
      && (w'.procs[p].leases[i].closed <==> w.procs[p].leases[i].closed || Closings(w, steps, p, i) == 1))
    ensures w.procs[p].leases[i].closed ==> Closings(w, steps, p, i) == 0
  {
    if steps != [] {
      var front, last := steps[..|steps| - 1], steps[|steps| - 1];
      ClosedOnce(w, front, p, i);
      RunReachable(w, front);
      StepAges(Run(w, front), last, p);
    }
  }

  // ------------------------------------------------------------ after a refused close

  lemma NoNewBorrows(a: Proc, b: Proc, i: Id)
    requires Ages(a, b) && i in a.leases && (a.leases[i].closing || a.leases[i].closed)
    ensures OpenBorrows(b.borrows, i) <= OpenBorrows(a.borrows, i)
  {
  }

  // A lease whose close was refused: it is closed exactly when its last borrow has ended.
  ghost predicate Draining(w: World, p: Pid, i: Id, borrows: set<Id>) {
    && p in w.procs && i in w.procs[p].leases
    && w.procs[p].leases[i].pid == p && w.procs[p].leases[i].closing
    && OpenBorrows(w.procs[p].borrows, i) <= borrows
    && (w.procs[p].leases[i].closed <==> OpenBorrows(w.procs[p].borrows, i) == {})
  }

  /** After a refused close no run lends the lease again: its open borrows only run out, and the
      last one to end closes it. */
  lemma {:induction false} RefusedCloseDrains(w: World, steps: seq<Step>, p: Pid, i: Id)
    requires Reachable(w) && p in w.procs && p in w.used && i in w.procs[p].leases
    requires w.procs[p].leases[i].pid == p && w.procs[p].leases[i].closing
    ensures var w' := Run(w, steps);
      p in w'.used && (p in w'.procs ==> Draining(w', p, i, OpenBorrows(w.procs[p].borrows, i)))
  {
    if steps == [] {
      LeaseAccounting(w, p, i);
    } else {
      var front, last := steps[..|steps| - 1], steps[|steps| - 1];
      RefusedCloseDrains(w, front, p, i);
      RunReachable(w, front);
      RunReachable(w, steps);
      StepAges(Run(w, front), last, p);
      if p in Run(w, steps).procs {
        NoNewBorrows(Run(w, front).procs[p], Run(w, steps).procs[p], i);
        LeaseAccounting(Run(w, steps), p, i);
      }
    }
  }

  /** ... and no statement is admitted under a borrow of a closed or closing lease. */
  lemma NoStatementUnderEndingLease(w: World, p: Pid, t: Tid, c: Id, option: ReadOption, b: Id)
    requires p in w.procs && HasLease(w, p, c, Part(b)) && !w.procs[p].admissions[c].readonly
    requires b in w.procs[p].borrows && w.procs[p].borrows[b].owner in w.procs[p].leases
    requires var l := w.procs[p].leases[w.procs[p].borrows[b].owner]; l.closing || l.closed
    ensures Next(w, Thread(p, t, DoExecute(c, option))).1 != Done
  {
  }

  /** Once a close was refused, no statement is ever admitted under a borrow of that lease again,
      after any further run of all processes. */
  lemma NoStatementAfterRefusedClose(
    w: World, steps: seq<Step>, p: Pid, i: Id, t: Tid, c: Id, option: ReadOption, b: Id)
    requires Reachable(w) && p in w.procs && p in w.used && i in w.procs[p].leases
    requires w.procs[p].leases[i].pid == p && w.procs[p].leases[i].closing
    requires var w' := Run(w, steps);
      HasLease(w', p, c, Part(b)) && !w'.procs[p].admissions[c].readonly
      && b in w'.procs[p].borrows && w'.procs[p].borrows[b].owner == i
    ensures Next(Run(w, steps), Thread(p, t, DoExecute(c, option))).1 != Done
  {
    RefusedCloseDrains(w, steps, p, i);
    NoStatementUnderEndingLease(Run(w, steps), p, t, c, option, b);
  }

  // ------------------------------------------------------------------ forks and deaths

  // A step that some other process takes, or that happens to it.
  ghost predicate Foreign(s: Step, p: Pid) {
    s.pid != p
  }

  lemma ForeignSeesSame(w: World, s: Step, p: Pid)
    requires Reachable(w) && p in w.procs && Foreign(s, p)
    ensures SeesSame(p, w.locks, Next(w, s).0.locks)
  {
    var w' := Next(w, s).0;
    match s
    case Thread(q, t, a) =>
      if q in w.procs {
        ReachableInv(w);
        ThreadKept(w, q, t, a);
        FramedSeesSame(q, p, w.locks, w'.locks, w.next);
      }
    case Spawn(_) =>
    case Fork(q, t, c) =>
      ReachableFacts(w, p);
      if w' != w { ForkSeesSame(p, c, w.locks, OpenLeases(w.procs[q])); }
    case Kill(q) =>
      ReachableKernel(w);
      ReleaseAllLocks(q, w.locks, w.next, w.locks.Keys);
      FramedSeesSame(q, p, w.locks, w'.locks, w.next);
  }

  lemma OpenLeaseInTable(w: World, p: Pid, i: Id)
    requires Reachable(w) && p in w.procs && i in w.procs[p].leases
    requires w.procs[p].leases[i].pid == p && !w.procs[p].leases[i].closed
    ensures i in w.locks && p in w.locks[i].holders && w.locks[i].owner == p
  {
    ReachableInv(w);
    assert LeasesOk(p, w.procs[p].awake, w.procs[p].leases, w.locks);
  }

  /** No step of another process (including a forked child closing its inherited copies, and
      another process's death) touches this process's leases or releases its locks. */
  lemma OthersCannotRelease(w: World, s: Step, p: Pid, i: Id)
    requires Reachable(w) && p in w.procs && i in w.procs[p].leases && Foreign(s, p)
    requires w.procs[p].leases[i].pid == p && !w.procs[p].leases[i].closed
    ensures var w' := Next(w, s).0;
      && p in w'.procs && w'.procs[p] == w.procs[p]
      && i in w.locks && i in w'.locks && p in w'.locks[i].holders && w'.locks[i].lock == w.locks[i].lock
  {
    ReachableFacts(w, p);
    ForeignSeesSame(w, s, p);
    OpenLeaseInTable(w, p, i);
  }

  /** A process that inherited its gate and leases has no authority through them. */
  lemma InheritedHasNoAuthority(w: World, p: Pid, t: Tid, a: Action)
    requires p in w.procs && w.procs[p].gatePid != p
    requires a.DoAcquire? || a.DoBegin? || a.DoExecute? || a.DoCheckin? || a.DoEndTransaction? || a.DoConnect?
    ensures Next(w, Thread(p, t, a)).0 == w && Next(w, Thread(p, t, a)).1 in {Stopped, Ignored}
  {
    assert w.procs[p := w.procs[p]] == w.procs;
  }

  lemma ActKeepsGatePid(p: Pid, t: Tid, proc: Proc, locks: Locks, next: Id, a: Action)
    requires !a.DoReconstruct?
    ensures Act(proc, locks, next, p, t, a).proc.gatePid == proc.gatePid
  {
    match a
    case DoFlock => FlockKeepsGatePid(p, t, proc, locks, next);
    case DoBegin(c, option) =>
    case DoClose(h) => CloseHandleSpares(proc, locks, p, h);
    case DoCheckin(c) => CheckinKeepsGatePid(p, proc, locks, next, c);
    case _ =>
  }

  lemma FlockKeepsGatePid(p: Pid, t: Tid, proc: Proc, locks: Locks, next: Id)
    ensures Flock(proc, locks, next, p, t).proc.gatePid == proc.gatePid
  {
  }

  lemma CheckinKeepsGatePid(p: Pid, proc: Proc, locks: Locks, next: Id, c: Id)
    ensures Checkin(proc, locks, next, p, c).proc.gatePid == proc.gatePid
  {
    if c in proc.conns && AdmittedLease(proc, c).Some? {
      CloseHandleSpares(Popped(proc, c), locks, p, AdmittedLease(proc, c).value);
    }
  }

  /** A forked child that never reconstructs its gate admits no statement, over any run. */
  lemma {:induction false} ChildNeverWrites(
    w: World, steps: seq<Step>, p: Pid, t: Tid, c: Id, option: ReadOption)
    requires Reachable(w) && p in w.procs && w.procs[p].gatePid != p
    requires forall s :: s in steps ==> !(s.Thread? && s.pid == p && s.action.DoReconstruct?)
    ensures var w' := Run(w, steps);
      && p in w'.used && (p in w'.procs ==> w'.procs[p].gatePid == w.procs[p].gatePid)
      && Next(w', Thread(p, t, DoExecute(c, option))).1 != Done
  {
    ReachableFacts(w, p);
    if steps != [] {
      var front, last := steps[..|steps| - 1], steps[|steps| - 1];
      ChildNeverWrites(w, front, p, t, c, option);
      RunReachable(w, front);
      assert last in steps;
      var before := Run(w, front);
      if last.Thread? && last.pid == p && p in before.procs {
        ActKeepsGatePid(p, last.tid, before.procs[p], before.locks, before.next, last.action);
      }
    }
    var w' := Run(w, steps);
    if p in w'.procs {
      InheritedHasNoAuthority(w', p, t, DoExecute(c, option));
    }
  }

  lemma InheritedLeaseCannotBeClosed(w: World, p: Pid, t: Tid, i: Id)
    requires p in w.procs && i in w.procs[p].leases && w.procs[p].leases[i].pid != p
    ensures Next(w, Thread(p, t, DoClose(Whole(i)))).0 == w
  {
    assert w.procs[p].leases[i := w.procs[p].leases[i]] == w.procs[p].leases;
    assert w.procs[p := w.procs[p]] == w.procs;
  }

  /** When no lease is open anywhere, no lock is left behind. */
  lemma NothingOpenNothingLocked(w: World)
    requires Reachable(w)
    requires forall p, i :: p in w.procs && i in w.procs[p].leases ==> w.procs[p].leases[i].closed
    ensures w.locks == map[]
  {
    ReachableKernel(w);
    forall j | j in w.locks
      ensures false
    {
      var r :| r in w.locks[j].holders;
      HolderIsOpen(w, r, j);
    }
  }

  /** The death of a process releases every description that it alone held. */
  lemma DeathReleases(w: World, p: Pid, j: Id)
    requires j in w.locks && w.locks[j].holders == {p}
    ensures j !in Next(w, Kill(p)).0.locks
  {
  }

  /** A death unblocks: when only the dead process held the locks in the way, a waiting request of
      another process is granted. */
  lemma DeathUnblocks(w: World, p: Pid, q: Pid, u: Tid)
    requires Reachable(w) && q != p && q in w.procs && w.procs[q].awake && u in w.procs[q].pending
    requires forall j :: j in w.locks && j != w.procs[q].pending[u].lease && w.locks[j].lock != Unlocked ==>
      w.locks[j].holders == {p}
    ensures Next(Next(w, Kill(p)).0, Thread(q, u, DoFlock)).1 == Done
  {
    var w' := Next(w, Kill(p)).0;
    NextReachable(w, Kill(p));
    ReachableFacts(w', q);
    FlockOutcome(w', q, u);
    var i := w.procs[q].pending[u].lease;
    forall j | j in w'.locks && j != i
      ensures w'.locks[j].lock == Unlocked
    {
      if w.locks[j].lock != Unlocked {
        DeathReleases(w, p, j);
      }
    }
  }
}
