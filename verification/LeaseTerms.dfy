/**
 What a lock request, a close, a write scope and a fork answer, told from the lock table, the lease
 fields and the scopes alone.
*/
module LeaseTerms {
  import opened Basics
  import opened LeaseProtocol
  import opened LeaseInvariant
  import opened LeaseRuns

  // ------------------------------------------------------------------------------ requests

  /** A request is granted exactly when no other description has an exclusive lock and, for an
      exclusive request, none has any lock: shared holders never refuse each other. */
  lemma GrantedIff(w: World, q: Pid, u: Tid)
    requires Reachable(w) && q in w.procs && w.procs[q].awake && u in w.procs[q].pending
    ensures var i := w.procs[q].pending[u].lease;
      && i in w.procs[q].leases
      && (Next(w, Thread(q, u, DoFlock)).1 == Done <==>
            forall j :: j in w.locks && j != i ==>
              if w.procs[q].leases[i].exclusive then w.locks[j].lock == Unlocked else w.locks[j].lock != Exclusive)
      && (Next(w, Thread(q, u, DoFlock)).1 != Done ==> Next(w, Thread(q, u, DoFlock)).1 == Busy)
  {
    ReachableFacts(w, q);
    FlockOutcome(w, q, u);
  }

  /** A refused request leaves no trace in the lock table: its own description is gone again. */
  lemma RefusedLeavesNothing(w: World, q: Pid, u: Tid)
    requires Reachable(w) && q in w.procs && w.procs[q].awake && u in w.procs[q].pending
    requires Next(w, Thread(q, u, DoFlock)).1 == Busy
    ensures var i := w.procs[q].pending[u].lease; var w' := Next(w, Thread(q, u, DoFlock)).0;
      && u !in w'.procs[q].pending && i in w'.procs[q].leases && w'.procs[q].leases[i].closed
      && (i in w'.locks ==> q !in w'.locks[i].holders)
      && forall j :: j != i ==> (j in w'.locks <==> j in w.locks) && (j in w.locks ==> w'.locks[j] == w.locks[j])
  {
    ReachableFacts(w, q);
    FlockOutcome(w, q, u);
    var i := w.procs[q].pending[u].lease;
    PendingHasNoBorrowers(w, q, u);
  }

  lemma PendingHasNoBorrowers(w: World, q: Pid, u: Tid)
    requires Reachable(w) && q in w.procs && u in w.procs[q].pending
    ensures var i := w.procs[q].pending[u].lease;
      i in w.procs[q].leases && w.procs[q].leases[i].borrowers == 0 && Usable(w.procs[q].leases[i], q)
  {
    ReachableInv(w);
    ReachableFacts(w, q);
    var i := w.procs[q].pending[u].lease;
    assert BorrowsOk(w.procs[q].leases, w.procs[q].borrows, q, w.locks);
    if w.procs[q].leases[i].borrowers != 0 {
      var b := SomeBorrow(w, q, i);
    }
  }

  lemma SomeBorrow(w: World, q: Pid, i: Id) returns (b: Id)
    requires Reachable(w) && q in w.procs && i in w.procs[q].leases && w.procs[q].leases[i].borrowers != 0
    ensures b in w.procs[q].borrows && w.procs[q].borrows[b].owner == i && !w.procs[q].borrows[b].closed
  {
    ReachableInv(w);
    assert CountsOk(q, w.procs[q].leases, w.procs[q].borrows);
    assert OpenBorrows(w.procs[q].borrows, i) != {};
    b :| b in OpenBorrows(w.procs[q].borrows, i);
  }

  // -------------------------------------------------------------------------------- closes

  /** Closing an own open lease closes it and gives its descriptor up when nothing borrows from it;
      otherwise the close is refused, the lease stays open and is marked as ending. */
  lemma CloseOutcome(w: World, p: Pid, t: Tid, i: Id)
    requires Reachable(w) && p in w.procs && w.procs[p].awake && t !in w.procs[p].pending && Whole(i) in w.procs[p].held
    requires i in w.procs[p].leases && w.procs[p].leases[i].pid == p && !w.procs[p].leases[i].closed
    ensures var (w', out) := Next(w, Thread(p, t, DoClose(Whole(i))));
      && i in w'.procs[p].leases
      && if OpenBorrows(w.procs[p].borrows, i) == {} then
           && out == Done && w'.procs[p].leases[i].closed && (i in w'.locks ==> p !in w'.locks[i].holders)
         else
           && out == Stopped && !w'.procs[p].leases[i].closed && w'.procs[p].leases[i].closing && w'.locks == w.locks
  {
    LeaseAccounting(w, p, i);
  }

  // -------------------------------------------------------------------------------- scopes

  // The lease whose write scope is innermost for the thread.
  function Innermost(proc: Proc, t: Tid): Option<Id> {
    if t !in proc.scopes || |proc.scopes[t]| == 0 then None else proc.scopes[t][|proc.scopes[t]| - 1]
  }

  /** Entering a write scope succeeds exactly for a held exclusive lease that is open, not ending and
      was opened by this thread of this process; then it is the innermost, and leaving restores the
      scopes there were. */
  lemma ScopeOutcome(w: World, p: Pid, t: Tid, i: Id)
    requires p in w.procs && w.procs[p].awake && t !in w.procs[p].pending && Whole(i) in w.procs[p].held && i in w.procs[p].leases
    ensures var l := w.procs[p].leases[i]; var (w', out) := Next(w, Thread(p, t, DoEnterScope(i)));
      && (out == Done <==> l.exclusive && l.pid == p && l.thread == t && !l.closed && !l.closing)
      && (out != Done ==> w' == w)
      && (out == Done ==>
            && Innermost(w'.procs[p], t) == Some(i)
            && var left := Next(w', Thread(p, t, DoExitScope));
               left.1 == Done && left.0.procs[p].scopes == w.procs[p].scopes[t := if t in w.procs[p].scopes then w.procs[p].scopes[t] else []])
  {
    assert w.procs[p := w.procs[p]] == w.procs;
    ScopeLocally(w.procs[p], w.locks, w.next, p, t, i);
  }

  lemma ScopeLocally(proc: Proc, locks: Locks, next: Id, p: Pid, t: Tid, i: Id)
    requires Whole(i) in proc.held && i in proc.leases
    ensures var l := proc.leases[i]; var r := EnterScope(proc, locks, next, p, t, i);
      && (r.outcome == Done <==> l.exclusive && l.pid == p && l.thread == t && !l.closed && !l.closing)
      && r.locks == locks && r.next == next && r.proc.awake == proc.awake && r.proc.pending == proc.pending
      && (r.outcome != Done ==> r.proc == proc)
      && (r.outcome == Done ==>
            && Innermost(r.proc, t) == Some(i)
            && var left := ExitScope(r.proc, locks, next, t);
               left.outcome == Done && left.proc.scopes == proc.scopes[t := if t in proc.scopes then proc.scopes[t] else []])
  {
    var stack := if t in proc.scopes then proc.scopes[t] else [];
    assert (stack + [Some(i)])[..|stack|] == stack;
  }

  // A connection on which nothing was begun.
  ghost predicate Fresh(proc: Proc, c: Id) {
    && c in proc.conns && c !in proc.admissions && proc.conns[c].infoLease == None
    && forall t :: t in proc.pending ==> proc.pending[t].purpose != ForBegin(c)
  }

  lemma GateIsAwake(w: World, p: Pid)
    requires Reachable(w) && p in w.procs && w.procs[p].gatePid == p
    ensures w.procs[p].awake
  {
    ReachableInv(w);
    assert UsersOk(p, w.procs[p], w.locks);
  }

  lemma AcquireIsLocal(w: World, p: Pid, t: Tid, r: Local)
    requires p in w.procs && w.procs[p].awake && t !in w.procs[p].pending
    requires r == Acquire(w.procs[p], w.locks, w.next, p, t, false)
    ensures Next(w, Thread(p, t, DoAcquire(false))) == (World(w.procs[p := r.proc], r.locks, r.next, w.used), r.outcome)
  {
  }

  /** Inside its own write scope the maintenance owner writes at once: the begin borrows from the owner
      without asking for any lock, the owner counts one more, and the statement runs. */
  lemma OwnerBegins(w: World, p: Pid, t: Tid, c: Id, i: Id)
    requires Reachable(w) && p in w.procs && w.procs[p].gatePid == p && t !in w.procs[p].pending && Fresh(w.procs[p], c)
    requires Innermost(w.procs[p], t) == Some(i) && i in w.procs[p].leases
    requires var l := w.procs[p].leases[i]; l.pid == p && l.thread == t && !l.closed && !l.closing
    ensures var (w', out) := Next(w, Thread(p, t, DoBegin(c, Absent)));
      && out == Done && w'.locks == w.locks && p in w'.procs && t !in w'.procs[p].pending
      && w'.procs[p].leases == w.procs[p].leases[i := w.procs[p].leases[i].(borrowers := w.procs[p].leases[i].borrowers + 1)]
      && c in w'.procs[p].conns && w'.procs[p].conns[c].infoLease == Some(Part(w.next))
      && w'.procs[p].borrows == w.procs[p].borrows[w.next := Borrow(i, p, false)]
      && Next(w', Thread(p, t, DoExecute(c, Absent))).1 == Done
  {
    GateIsAwake(w, p);
    var r := Begin(w.procs[p], w.locks, w.next, p, t, c, Absent);
    OwnerBeginsLocally(w.procs[p], w.locks, w.next, p, t, c, i, r);
    BeginIsLocal(w, p, t, c, Absent, r);
    StatementRuns(World(w.procs[p := r.proc], r.locks, r.next, w.used), p, t, c, Absent);
  }

  lemma OwnerBeginsLocally(proc: Proc, locks: Locks, next: Id, p: Pid, t: Tid, c: Id, i: Id, r: Local)
    requires proc.gatePid == p && t !in proc.pending && Fresh(proc, c)
    requires Innermost(proc, t) == Some(i) && i in proc.leases
    requires var l := proc.leases[i]; l.pid == p && l.thread == t && !l.closed && !l.closing
    requires r == Begin(proc, locks, next, p, t, c, Absent)
    ensures r.outcome == Done && r.locks == locks && r.proc.pending == proc.pending && r.proc.awake == proc.awake
    ensures r.proc.leases == proc.leases[i := proc.leases[i].(borrowers := proc.leases[i].borrowers + 1)]
    ensures c in r.proc.conns && r.proc.conns[c].infoLease == Some(Part(next))
    ensures r.proc.borrows == proc.borrows[next := Borrow(i, p, false)]
    ensures Admitted(r.proc, p, t, c, Absent)
  {
    assert !InUse(proc, c) && Scope(proc, t) == Some(i) && Lends(proc, p, t, i);
    assert r.proc == Admit(AddBorrow(proc, p, i, next), c, Some(Part(next)), false);
    assert Scope(r.proc, t) == Some(i) && Lends(r.proc, p, t, i);
  }

  /** A scope that is not the thread's own, or whose lease is closed or ending, lends nothing: neither a
      begin nor a writer lease is given, and nothing changes. */
  lemma ForeignScopeLendsNothing(w: World, p: Pid, t: Tid, c: Id, i: Id)
    requires Reachable(w) && p in w.procs && w.procs[p].gatePid == p && t !in w.procs[p].pending && Fresh(w.procs[p], c)
    requires Innermost(w.procs[p], t) == Some(i) && i in w.procs[p].leases
    requires var l := w.procs[p].leases[i]; l.pid != p || l.thread != t || l.closed || l.closing
    ensures Next(w, Thread(p, t, DoBegin(c, Absent))) == (w, Stopped)
    ensures Next(w, Thread(p, t, DoAcquire(false))) == (w, Stopped)
  {
    GateIsAwake(w, p);
    var r := Begin(w.procs[p], w.locks, w.next, p, t, c, Absent);
    var a := Acquire(w.procs[p], w.locks, w.next, p, t, false);
    ForeignLocally(w.procs[p], w.locks, w.next, p, t, c, i, r, a);
    BeginIsLocal(w, p, t, c, Absent, r);
    AcquireIsLocal(w, p, t, a);
    assert w.procs[p := w.procs[p]] == w.procs;
  }

  lemma ForeignLocally(proc: Proc, locks: Locks, next: Id, p: Pid, t: Tid, c: Id, i: Id, r: Local, a: Local)
    requires proc.gatePid == p && Fresh(proc, c) && Innermost(proc, t) == Some(i) && i in proc.leases
    requires var l := proc.leases[i]; l.pid != p || l.thread != t || l.closed || l.closing
    requires r == Begin(proc, locks, next, p, t, c, Absent) && a == Acquire(proc, locks, next, p, t, false)
    ensures r == Local(proc, locks, next, Stopped) && a == Local(proc, locks, next, Stopped)
  {
    assert !InUse(proc, c) && Scope(proc, t) == Some(i) && !Lends(proc, p, t, i);
  }

  /** A context copied to another thread brings the owner's scope along, and the scope lends nothing
      there: only the thread that opened the exclusive lease borrows from it. */
  lemma CopiedScopeLendsNothing(w: World, p: Pid, t: Tid, u: Tid, c: Id, i: Id)
    requires Reachable(w) && p in w.procs && w.procs[p].gatePid == p && t !in w.procs[p].pending && u !in w.procs[p].pending
    requires Fresh(w.procs[p], c) && Innermost(w.procs[p], t) == Some(i) && i in w.procs[p].leases && w.procs[p].leases[i].thread != u
    ensures var w' := Next(w, Thread(p, t, DoCopyContext(u))).0;
      Innermost(w'.procs[p], u) == Some(i) && Next(w', Thread(p, u, DoBegin(c, Absent))) == (w', Stopped)
  {
    GateIsAwake(w, p);
    NextReachable(w, Thread(p, t, DoCopyContext(u)));
    ForeignScopeLendsNothing(Next(w, Thread(p, t, DoCopyContext(u))).0, p, u, c, i);
  }

  /** A writer request of the owner inside its scope borrows at once and is held; outside any scope it
      opens a shared lease like any other, and a granted `with` request is held as a lease. */
  lemma WriterRequest(w: World, p: Pid, t: Tid)
    requires Reachable(w) && p in w.procs && w.procs[p].gatePid == p && t !in w.procs[p].pending
    ensures var (w', out) := Next(w, Thread(p, t, DoAcquire(false)));
      match Innermost(w.procs[p], t)
      case None =>
        && out == Done && w'.procs[p].pending == w.procs[p].pending[t := Pending(w.next, ForScope)]
        && w'.procs[p].leases == w.procs[p].leases[w.next := Lease(w.procs[p].gate, false, p, t, false, false, 0)]
      case Some(i) =>
        out == Done ==>
          && i in w.procs[p].leases && w'.procs[p].held == w.procs[p].held + {Part(w.next)} && w'.locks == w.locks
          && w'.procs[p].borrows == w.procs[p].borrows[w.next := Borrow(i, p, false)]
  {
    GateIsAwake(w, p);
    var r := Acquire(w.procs[p], w.locks, w.next, p, t, false);
    AcquireIsLocal(w, p, t, r);
    assert Scope(w.procs[p], t) == Innermost(w.procs[p], t);
  }

  lemma GrantedIsHeld(w: World, p: Pid, t: Tid)
    requires Reachable(w) && p in w.procs && w.procs[p].awake && t in w.procs[p].pending
    requires w.procs[p].pending[t].purpose == ForScope && Next(w, Thread(p, t, DoFlock)).1 == Done
    ensures var i := w.procs[p].pending[t].lease; var w' := Next(w, Thread(p, t, DoFlock)).0;
      && w'.procs[p].held == w.procs[p].held + {Whole(i)} && t !in w'.procs[p].pending && i in w'.locks
      && i in w.procs[p].leases && w'.locks[i].lock == if w.procs[p].leases[i].exclusive then Exclusive else Shared
  {
    ReachableFacts(w, p);
    FlockOutcome(w, p, t);
  }

  /** Outside any write scope a begin for writing opens one new shared lease of its thread and waits for
      its lock; a maintenance request opens one exclusive lease, in a scope or not. */
  lemma NewLeaseIsOpened(w: World, p: Pid, t: Tid, c: Id, exclusive: bool)
    requires Reachable(w) && p in w.procs && w.procs[p].gatePid == p && t !in w.procs[p].pending && Fresh(w.procs[p], c)
    requires exclusive || Innermost(w.procs[p], t) == None
    ensures var (w', out) := Next(w, Thread(p, t, if exclusive then DoAcquire(true) else DoBegin(c, Absent)));
      && out == Done && w'.next == w.next + 1
      && w'.procs[p].pending == w.procs[p].pending[t := Pending(w.next, if exclusive then ForScope else ForBegin(c))]
      && w'.procs[p].leases == w.procs[p].leases[w.next := Lease(w.procs[p].gate, exclusive, p, t, false, false, 0)]
      && w'.locks == w.locks[w.next := Description(p, {p}, Unlocked)]
  {
    ReachableInv(w);
    assert UsersOk(p, w.procs[p], w.locks);
    assert !InUse(w.procs[p], c);
    assert Scope(w.procs[p], t) == Innermost(w.procs[p], t);
  }

  // --------------------------------------------------------------------------------- forks

  /** Once its handler has run, a forked child holds no descriptor of any lock file, every lease object
      it inherited is closed, and its thread is in no write scope. */
  lemma ForkedChildOwnsNothing(w: World, p: Pid, t: Tid, child: Pid, u: Tid)
    requires Reachable(w) && Next(w, Fork(p, t, child)).1 == Done
    ensures var w' := Next(Next(w, Fork(p, t, child)).0, Thread(child, t, DoAfterFork)).0;
      && child in w'.procs
      && (forall i :: i in w'.procs[child].leases ==> w'.procs[child].leases[i].closed)
      && (forall i :: i in w'.locks ==> child !in w'.locks[i].holders)
      && Innermost(w'.procs[child], u) == None
  {
    var forked := Next(w, Fork(p, t, child)).0;
    var w' := Next(forked, Thread(child, t, DoAfterFork)).0;
    NextReachable(w, Fork(p, t, child));
    NextReachable(forked, Thread(child, t, DoAfterFork));
    ForkedMemory(w, p, t, child);
    HandlerCloses(w.procs[p], forked.locks, forked.next, t, child, u);
    NothingHeld(w', child);
  }

  lemma ForkedMemory(w: World, p: Pid, t: Tid, child: Pid)
    requires Next(w, Fork(p, t, child)).1 == Done
    ensures var w' := Next(w, Fork(p, t, child)).0;
      p in w.procs && child in w'.procs && w'.procs[child] == ForkedProc(w.procs[p], t)
  {
  }

  lemma HandlerCloses(proc: Proc, locks: Locks, next: Id, t: Tid, child: Pid, u: Tid)
    ensures var r := Act(ForkedProc(proc, t), locks, next, child, t, DoAfterFork).proc;
      (forall i :: i in r.leases ==> r.leases[i].closed) && Innermost(r, u) == None
  {
  }

  lemma NothingHeld(w: World, p: Pid)
    requires Reachable(w) && p in w.procs && forall i :: i in w.procs[p].leases ==> w.procs[p].leases[i].closed
    ensures forall i :: i in w.locks ==> p !in w.locks[i].holders
  {
    ReachableInv(w);
    assert NoStrayDescriptors(p, w.procs[p].leases, w.locks);
  }
}
