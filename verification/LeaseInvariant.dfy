/**
 What every step of the lease protocol keeps.
*/
module LeaseInvariant {
  import opened Basics
  import opened LeaseProtocol

  // ------------------------------------------------------------ one process

  ghost predicate Granted(locks: Locks, i: Id) {
    i in locks && locks[i].lock != Unlocked
  }

  // An unclosed lease holds its descriptor; only the opening process may own unclosed leases,
  // except in a forked child whose handler has not run.
  ghost predicate LeasesOk(p: Pid, awake: bool, leases: map<Id, Lease>, locks: Locks) {
    forall i :: i in leases ==>
      && (!leases[i].closed ==> i in locks && p in locks[i].holders)
      && (leases[i].pid == p ==> awake)
      && (awake && leases[i].pid != p ==> leases[i].closed)
      && (leases[i].pid == p && !leases[i].closed ==>
            && locks[i].owner == p
            && (locks[i].lock == Unlocked || locks[i].lock == if leases[i].exclusive then Exclusive else Shared))
  }

  // Every descriptor of this process belongs to an unclosed lease.
  ghost predicate NoStrayDescriptors(p: Pid, leases: map<Id, Lease>, locks: Locks) {
    forall i :: i in locks && p in locks[i].holders ==> i in leases && !leases[i].closed
  }

  function OpenBorrows(borrows: map<Id, Borrow>, i: Id): set<Id> {
    set b | b in borrows && borrows[b].owner == i && !borrows[b].closed
  }

  // The owner counts exactly the open borrows, and is not closed while it has any.
  ghost predicate CountsOk(p: Pid, leases: map<Id, Lease>, borrows: map<Id, Borrow>) {
    forall i :: i in leases ==>
      && leases[i].borrowers == |OpenBorrows(borrows, i)|
      && (leases[i].pid == p && leases[i].closed ==> leases[i].borrowers == 0)
  }

  // A refused close waits for the last borrow only.
  ghost predicate ClosingOk(p: Pid, leases: map<Id, Lease>) {
    forall i :: i in leases && leases[i].pid == p && leases[i].closing && !leases[i].closed ==>
      leases[i].borrowers > 0
  }

  // Borrows come from exclusive leases of the same process that hold the lock.
  ghost predicate BorrowsOk(leases: map<Id, Lease>, borrows: map<Id, Borrow>, p: Pid, locks: Locks) {
    forall b :: b in borrows ==>
      && borrows[b].owner in leases
      && leases[borrows[b].owner].exclusive
      && leases[borrows[b].owner].pid == borrows[b].pid
      && (leases[borrows[b].owner].pid == p && !leases[borrows[b].owner].closed ==> Granted(locks, borrows[b].owner))
  }

  ghost predicate Returned(p: Pid, leases: map<Id, Lease>, borrows: map<Id, Borrow>, locks: Locks, h: Handle) {
    match h
    case Whole(i) => i in leases && (leases[i].pid == p && !leases[i].closed ==> Granted(locks, i))
    case Part(b) => b in borrows
  }

  ghost predicate HeldOk(p: Pid, leases: map<Id, Lease>, borrows: map<Id, Borrow>, locks: Locks, held: set<Handle>) {
    forall h :: h in held ==> Returned(p, leases, borrows, locks, h)
  }

  ghost predicate ScopesOk(p: Pid, leases: map<Id, Lease>, locks: Locks, scopes: map<Tid, seq<Option<Id>>>) {
    forall t, k :: t in scopes && 0 <= k < |scopes[t]| && scopes[t][k].Some? ==>
      var i := scopes[t][k].value;
      && i in leases && leases[i].exclusive
      && (leases[i].pid == p && !leases[i].closed ==> Granted(locks, i))
  }

  // A handle held by an admission is open and belongs to this gate.
  ghost predicate AdmissionLease(p: Pid, gate: nat, leases: map<Id, Lease>, borrows: map<Id, Borrow>, locks: Locks, h: Handle) {
    match h
    case Whole(i) =>
      i in leases && Usable(leases[i], p) && !leases[i].exclusive && leases[i].gate == gate && Granted(locks, i)
    case Part(b) => b in borrows && !borrows[b].closed && borrows[b].pid == p
  }

  ghost predicate AdmissionsOk(p: Pid, gate: nat, leases: map<Id, Lease>, borrows: map<Id, Borrow>, locks: Locks,
                               held: set<Handle>, admissions: map<Id, Admission>) {
    && (forall c :: c in admissions && admissions[c].lease.Some? ==>
          && AdmissionLease(p, gate, leases, borrows, locks, admissions[c].lease.value)
          && admissions[c].lease.value !in held)
    && (forall c, d :: c in admissions && d in admissions && c != d && admissions[c].lease.Some? ==>
          admissions[c].lease != admissions[d].lease)
  }

  ghost predicate ConnsOk(conns: map<Id, Conn>, admissions: map<Id, Admission>) {
    && (forall c :: c in conns && conns[c].infoLease.Some? ==>
          c in admissions && admissions[c].lease == conns[c].infoLease)
    && admissions.Keys <= conns.Keys
  }

  ghost predicate PendingOk(p: Pid, proc: Proc, locks: Locks) {
    && (forall t :: t in proc.pending ==>
          var i := proc.pending[t].lease;
          && proc.gatePid == p
          && i in proc.leases && Usable(proc.leases[i], p)
          && i in locks && locks[i].lock == Unlocked
          && (proc.pending[t].purpose.ForBegin? ==>
                && !proc.leases[i].exclusive && proc.leases[i].gate == proc.gate
                && proc.pending[t].purpose.conn in proc.conns
                && AdmittedLease(proc, proc.pending[t].purpose.conn) == None))
    && (forall t, u :: t in proc.pending && u in proc.pending && t != u ==>
          && proc.pending[t].lease != proc.pending[u].lease
          && (proc.pending[t].purpose.ForBegin? ==> proc.pending[t].purpose != proc.pending[u].purpose))
  }

  ghost predicate BelowNext(proc: Proc, next: Id) {
    && (forall i :: i in proc.leases ==> i < next)
    && (forall b :: b in proc.borrows ==> b < next)
    && (forall c :: c in proc.conns ==> c < next)
  }

  // The lease and borrow objects themselves ...
  ghost predicate BaseOk(p: Pid, proc: Proc, locks: Locks, next: Id) {
    && BelowNext(proc, next)
    && LeasesOk(p, proc.awake, proc.leases, locks)
    && NoStrayDescriptors(p, proc.leases, locks)
    && CountsOk(p, proc.leases, proc.borrows)
    && BorrowsOk(proc.leases, proc.borrows, p, locks)
  }

  ghost predicate ObjectsOk(p: Pid, proc: Proc, locks: Locks, next: Id) {
    BaseOk(p, proc, locks, next) && ClosingOk(p, proc.leases)
  }

  // ... and everything that refers to them.
  ghost predicate UsersOk(p: Pid, proc: Proc, locks: Locks) {
    && HeldOk(p, proc.leases, proc.borrows, locks, proc.held)
    && ScopesOk(p, proc.leases, locks, proc.scopes)
    && (proc.gatePid == p ==> proc.awake)
    && (proc.gatePid == p ==>
          AdmissionsOk(p, proc.gate, proc.leases, proc.borrows, locks, proc.held, proc.admissions))
    && ConnsOk(proc.conns, proc.admissions)
    && PendingOk(p, proc, locks)
  }

  ghost predicate ProcOk(p: Pid, proc: Proc, locks: Locks, next: Id) {
    ObjectsOk(p, proc, locks, next) && UsersOk(p, proc, locks)
  }

  // ----------------------------------------------------------------- world

  // The kernel never grants an exclusive lock beside any other lock.
  ghost predicate Compatible(locks: Locks) {
    forall i, j :: i in locks && j in locks && i != j && locks[i].lock == Exclusive ==> locks[j].lock == Unlocked
  }

  ghost predicate KernelOk(locks: Locks, next: Id) {
    && Compatible(locks)
    && (forall i :: i in locks ==> i < next && locks[i].holders != {})
  }

  ghost predicate Inv(w: World) {
    && KernelOk(w.locks, w.next)
    && w.procs.Keys <= w.used
    && (forall i :: i in w.locks ==> w.locks[i].holders <= w.procs.Keys)
    && (forall p :: p in w.procs ==> ProcOk(p, w.procs[p], w.locks, w.next))
    && (forall p, i :: p in w.procs && i in w.procs[p].leases ==> w.procs[p].leases[i].pid in w.used)
    && (forall p :: p in w.procs ==> w.procs[p].gatePid in w.used)
  }

  // --------------------------------------------------- effect on other processes

  // What a step of p may do to the lock table, seen from any other process.
  ghost predicate Framed(p: Pid, a: Locks, b: Locks, next: Id) {
    && (forall i :: i in a && a[i].holders - {p} != {} ==>
          && i in b && b[i].holders - {p} == a[i].holders - {p} && b[i].owner == a[i].owner
          && (a[i].owner != p ==> b[i].lock == a[i].lock))
    && (forall i :: i in b && i < next ==> i in a && b[i].holders <= a[i].holders)
    && (forall i :: i in b && next <= i ==> b[i].holders == {p})
  }

  // What process q can tell about the lock table: its own descriptors and its own locks.
  ghost predicate SeesSame(q: Pid, a: Locks, b: Locks) {
    && (forall i :: i in a && q in a[i].holders ==>
          i in b && q in b[i].holders && b[i].owner == a[i].owner && (a[i].owner == q ==> b[i].lock == a[i].lock))
    && (forall i :: i in b && q in b[i].holders ==> i in a && q in a[i].holders)
  }

  lemma FramedSeesSame(p: Pid, q: Pid, a: Locks, b: Locks, next: Id)
    requires q != p && Framed(p, a, b, next)
    ensures SeesSame(q, a, b)
  {
    forall i | i in a && q in a[i].holders
      ensures i in b && q in b[i].holders && b[i].owner == a[i].owner && (a[i].owner == q ==> b[i].lock == a[i].lock)
    {
      assert q in a[i].holders - {p};
      assert q in b[i].holders - {p};
    }
    forall i | i in b && q in b[i].holders
      ensures i in a && q in a[i].holders
    {
    }
  }

  lemma SeesSameLeasesOk(q: Pid, awake: bool, leases: map<Id, Lease>, a: Locks, b: Locks)
    requires LeasesOk(q, awake, leases, a) && SeesSame(q, a, b)
    ensures LeasesOk(q, awake, leases, b)
    ensures forall i :: i in leases && leases[i].pid == q && !leases[i].closed ==>
      i in a && i in b && b[i].lock == a[i].lock
  {
  }

  lemma SeesSameProcOk(q: Pid, proc: Proc, a: Locks, b: Locks, next: Id, next': Id)
    requires next <= next'
    requires ProcOk(q, proc, a, next) && SeesSame(q, a, b)
    ensures ProcOk(q, proc, b, next')
  {
    SeesSameLeasesOk(q, proc.awake, proc.leases, a, b);
    assert NoStrayDescriptors(q, proc.leases, b);
    assert BorrowsOk(proc.leases, proc.borrows, q, b);
    assert ScopesOk(q, proc.leases, b, proc.scopes);
    forall h | h in proc.held
      ensures Returned(q, proc.leases, proc.borrows, b, h)
    {
      assert Returned(q, proc.leases, proc.borrows, a, h);
    }
  }
}
