/**
 Each action of one process keeps that process's invariant and the kernel's, and disturbs
 no other process.
*/
module LeaseSteps {
  import opened Basics
  import opened LeaseProtocol
  import opened LeaseInvariant

  ghost predicate LocalOk(p: Pid, proc: Proc, locks: Locks, next: Id) {
    ProcOk(p, proc, locks, next) && KernelOk(locks, next)
  }

  ghost predicate Kept(p: Pid, proc: Proc, locks: Locks, next: Id, r: Local) {
    && next <= r.next
    && LocalOk(p, r.proc, r.locks, r.next)
    && Framed(p, locks, r.locks, next)
    && (forall i :: i in r.proc.leases ==> r.proc.leases[i].pid == p || (i in proc.leases && proc.leases[i].pid == r.proc.leases[i].pid))
    && (r.proc.gatePid == p || r.proc.gatePid == proc.gatePid)
  }

  lemma SameLocksKept(p: Pid, proc: Proc, locks: Locks, next: Id, r: Local)
    requires LocalOk(p, proc, locks, next)
    requires r.locks == locks && r.proc.leases == proc.leases
    requires next <= r.next && ProcOk(p, r.proc, locks, r.next)
    requires r.proc.gatePid == p || r.proc.gatePid == proc.gatePid
    ensures Kept(p, proc, locks, next, r)
  {
  }

  lemma EnterScopeKept(p: Pid, proc: Proc, locks: Locks, next: Id, t: Tid, i: Id)
    requires LocalOk(p, proc, locks, next)
    ensures Kept(p, proc, locks, next, EnterScope(proc, locks, next, p, t, i))
  {
    var r := EnterScope(proc, locks, next, p, t, i);
    if r.outcome == Done {
      assert Returned(p, proc.leases, proc.borrows, locks, Whole(i));
      assert ScopesOk(p, proc.leases, locks, r.proc.scopes);
    }
    SameLocksKept(p, proc, locks, next, r);
  }

  lemma ExitScopeKept(p: Pid, proc: Proc, locks: Locks, next: Id, t: Tid)
    requires LocalOk(p, proc, locks, next)
    ensures Kept(p, proc, locks, next, ExitScope(proc, locks, next, t))
  {
    var r := ExitScope(proc, locks, next, t);
    assert ScopesOk(p, proc.leases, locks, r.proc.scopes);
    SameLocksKept(p, proc, locks, next, r);
  }

  lemma CopyContextKept(p: Pid, proc: Proc, locks: Locks, next: Id, t: Tid, u: Tid)
    requires LocalOk(p, proc, locks, next)
    ensures Kept(p, proc, locks, next, CopyContext(proc, locks, next, t, u))
  {
    var r := CopyContext(proc, locks, next, t, u);
    assert ScopesOk(p, proc.leases, locks, r.proc.scopes);
    SameLocksKept(p, proc, locks, next, r);
  }

  lemma ConnectKept(p: Pid, proc: Proc, locks: Locks, next: Id)
    requires LocalOk(p, proc, locks, next)
    ensures Kept(p, proc, locks, next, Connect(proc, locks, next, p))
  {
    SameLocksKept(p, proc, locks, next, Connect(proc, locks, next, p));
  }

  lemma ReconnectKept(p: Pid, proc: Proc, locks: Locks, next: Id, c: Id)
    requires LocalOk(p, proc, locks, next)
    ensures Kept(p, proc, locks, next, Reconnect(proc, locks, next, c))
  {
    SameLocksKept(p, proc, locks, next, Reconnect(proc, locks, next, c));
  }

  lemma EndTransactionKept(p: Pid, proc: Proc, locks: Locks, next: Id, c: Id)
    requires LocalOk(p, proc, locks, next)
    ensures Kept(p, proc, locks, next, EndTransaction(proc, locks, next, p, c))
  {
    SameLocksKept(p, proc, locks, next, EndTransaction(proc, locks, next, p, c));
  }

  lemma ReconstructKept(p: Pid, proc: Proc, locks: Locks, next: Id)
    requires LocalOk(p, proc, locks, next) && proc.awake
    ensures Kept(p, proc, locks, next, Reconstruct(proc, locks, next, p))
  {
    SameLocksKept(p, proc, locks, next, Reconstruct(proc, locks, next, p));
  }

  // Lending: the owner gains one open borrow, named by a fresh id.
  lemma AddBorrowCounts(p: Pid, proc: Proc, i: Id, b: Id)
    requires CountsOk(p, proc.leases, proc.borrows)
    requires i in proc.leases && Usable(proc.leases[i], p) && b !in proc.borrows
    ensures CountsOk(p, AddBorrow(proc, p, i, b).leases, AddBorrow(proc, p, i, b).borrows)
  {
    var proc' := AddBorrow(proc, p, i, b);
    assert OpenBorrows(proc'.borrows, i) == OpenBorrows(proc.borrows, i) + {b};
    forall j | j in proc.leases && j != i
      ensures OpenBorrows(proc'.borrows, j) == OpenBorrows(proc.borrows, j)
    {
    }
  }

  // ------------------------------------------- what a change of the lease table leaves alone

  // Leases stay, and an own lease that is still open has not lost its lock.
  ghost predicate Persists(p: Pid, a: map<Id, Lease>, b: map<Id, Lease>, la: Locks, lb: Locks) {
    forall i :: i in a ==>
      && i in b && b[i].exclusive == a[i].exclusive && b[i].pid == a[i].pid && b[i].gate == a[i].gate
      && (b[i].pid == p && !b[i].closed ==> !a[i].closed && (Granted(la, i) ==> Granted(lb, i)))
  }

  lemma PersistsHeld(p: Pid, a: map<Id, Lease>, b: map<Id, Lease>, ba: map<Id, Borrow>, bb: map<Id, Borrow>,
                     la: Locks, lb: Locks, held: set<Handle>)
    requires Persists(p, a, b, la, lb) && ba.Keys <= bb.Keys && HeldOk(p, a, ba, la, held)
    ensures HeldOk(p, b, bb, lb, held)
  {
    forall h | h in held
      ensures Returned(p, b, bb, lb, h)
    {
      assert Returned(p, a, ba, la, h);
    }
  }

  lemma PersistsScopes(p: Pid, a: map<Id, Lease>, b: map<Id, Lease>, la: Locks, lb: Locks, scopes: map<Tid, seq<Option<Id>>>)
    requires Persists(p, a, b, la, lb) && ScopesOk(p, a, la, scopes)
    ensures ScopesOk(p, b, lb, scopes)
  {
  }

  lemma PersistsBorrows(p: Pid, a: map<Id, Lease>, b: map<Id, Lease>, ba: map<Id, Borrow>, la: Locks, lb: Locks)
    requires Persists(p, a, b, la, lb) && BorrowsOk(a, ba, p, la)
    ensures BorrowsOk(b, ba, p, lb)
  {
  }

  // The handles held by admissions are not touched.
  ghost predicate AdmissionsSpared(p: Pid, a: Proc, b: Proc, la: Locks, lb: Locks) {
    forall c :: c in a.admissions && a.admissions[c].lease.Some? ==>
      match a.admissions[c].lease.value
      case Whole(i) => i in a.leases ==> i in b.leases && b.leases[i] == a.leases[i] && (Granted(la, i) ==> Granted(lb, i))
      case Part(x) => x in a.borrows ==> x in b.borrows && b.borrows[x] == a.borrows[x]
  }

  lemma SparedAdmissions(p: Pid, a: Proc, b: Proc, la: Locks, lb: Locks)
    requires AdmissionsOk(p, a.gate, a.leases, a.borrows, la, a.held, a.admissions)
    requires AdmissionsSpared(p, a, b, la, lb)
    requires b.gate == a.gate && b.admissions == a.admissions
    requires forall h :: h in b.held && h !in a.held ==> forall c :: c in a.admissions ==> a.admissions[c].lease != Some(h)
    ensures AdmissionsOk(p, b.gate, b.leases, b.borrows, lb, b.held, b.admissions)
  {
    forall c | c in b.admissions && b.admissions[c].lease.Some?
      ensures AdmissionLease(p, b.gate, b.leases, b.borrows, lb, b.admissions[c].lease.value)
    {
      assert AdmissionLease(p, a.gate, a.leases, a.borrows, la, a.admissions[c].lease.value);
    }
  }

  lemma SparedPending(p: Pid, a: Proc, b: Proc, la: Locks, lb: Locks)
    requires PendingOk(p, a, la)
    requires b.pending == a.pending && b.gatePid == a.gatePid && b.gate == a.gate && b.conns == a.conns
    requires forall c :: c in b.admissions ==> c in a.admissions && a.admissions[c].lease == b.admissions[c].lease
    requires forall t :: t in a.pending ==>
      var i := a.pending[t].lease; i in a.leases && i in la ==> i in b.leases && b.leases[i] == a.leases[i] && i in lb && lb[i].lock == la[i].lock
    ensures PendingOk(p, b, lb)
  {
    assert forall c :: AdmittedLease(b, c).Some? ==> AdmittedLease(b, c) == AdmittedLease(a, c);
  }

  // ------------------------------------------------------------------ lending

  lemma AddBorrowPersists(p: Pid, proc: Proc, locks: Locks, next: Id, i: Id)
    requires i in proc.leases
    ensures Persists(p, proc.leases, AddBorrow(proc, p, i, next).leases, locks, locks)
  {
  }

  lemma AddBorrowBorrows(p: Pid, proc: Proc, locks: Locks, next: Id, i: Id)
    requires ObjectsOk(p, proc, locks, next)
    requires i in proc.leases && Usable(proc.leases[i], p) && proc.leases[i].exclusive && Granted(locks, i)
    ensures BorrowsOk(AddBorrow(proc, p, i, next).leases, AddBorrow(proc, p, i, next).borrows, p, locks)
  {
  }

  lemma AddBorrowObjects(p: Pid, proc: Proc, locks: Locks, next: Id, i: Id)
    requires ObjectsOk(p, proc, locks, next)
    requires i in proc.leases && Usable(proc.leases[i], p) && proc.leases[i].exclusive && Granted(locks, i)
    ensures ObjectsOk(p, AddBorrow(proc, p, i, next), locks, next + 1)
    ensures Persists(p, proc.leases, AddBorrow(proc, p, i, next).leases, locks, locks)
  {
    AddBorrowCounts(p, proc, i, next);
    AddBorrowPersists(p, proc, locks, next, i);
    AddBorrowBorrows(p, proc, locks, next, i);
  }

  lemma AddBorrowUsers(p: Pid, proc: Proc, locks: Locks, i: Id, b: Id)
    requires UsersOk(p, proc, locks)
    requires i in proc.leases && Usable(proc.leases[i], p) && proc.leases[i].exclusive && Granted(locks, i) && b !in proc.borrows
    requires Persists(p, proc.leases, AddBorrow(proc, p, i, b).leases, locks, locks)
    ensures UsersOk(p, AddBorrow(proc, p, i, b), locks)
  {
    var proc' := AddBorrow(proc, p, i, b);
    PersistsHeld(p, proc.leases, proc'.leases, proc.borrows, proc'.borrows, locks, locks, proc.held);
    PersistsScopes(p, proc.leases, proc'.leases, locks, locks, proc.scopes);
    if proc.gatePid == p {
      assert AdmissionsSpared(p, proc, proc', locks, locks);
      SparedAdmissions(p, proc, proc', locks, locks);
    }
    SparedPending(p, proc, proc', locks, locks);
  }

  lemma AddBorrowOk(p: Pid, proc: Proc, locks: Locks, next: Id, t: Tid, i: Id)
    requires ProcOk(p, proc, locks, next)
    requires Scope(proc, t) == Some(i) && Lends(proc, p, t, i)
    ensures ProcOk(p, AddBorrow(proc, p, i, next), locks, next + 1)
  {
    assert ScopesOk(p, proc.leases, locks, proc.scopes);
    AddBorrowObjects(p, proc, locks, next, i);
    AddBorrowUsers(p, proc, locks, i, next);
  }

  // A handle that no admission of this process can hold.
  ghost predicate Unadmitted(proc: Proc, h: Handle) {
    forall c :: c in proc.admissions ==> proc.admissions[c].lease != Some(h)
  }

  lemma HoldUsers(p: Pid, proc: Proc, locks: Locks, h: Handle)
    requires UsersOk(p, proc, locks)
    requires Returned(p, proc.leases, proc.borrows, locks, h)
    requires proc.gatePid == p ==> Unadmitted(proc, h)
    ensures UsersOk(p, proc.(held := proc.held + {h}), locks)
  {
    var proc' := proc.(held := proc.held + {h});
    assert HeldOk(p, proc'.leases, proc'.borrows, locks, proc'.held);
    if proc.gatePid == p {
      SparedAdmissions(p, proc, proc', locks, locks);
    }
    SparedPending(p, proc, proc', locks, locks);
  }

  lemma FreshUnadmitted(p: Pid, proc: Proc, locks: Locks, h: Handle)
    requires AdmissionsOk(p, proc.gate, proc.leases, proc.borrows, locks, proc.held, proc.admissions)
    requires !AdmissionLease(p, proc.gate, proc.leases, proc.borrows, locks, h) || h in proc.held
    ensures Unadmitted(proc, h)
  {
  }

  lemma AcquireBorrowKept(p: Pid, proc: Proc, locks: Locks, next: Id, t: Tid, i: Id)
    requires LocalOk(p, proc, locks, next)
    requires Scope(proc, t) == Some(i) && Lends(proc, p, t, i)
    ensures Kept(p, proc, locks, next,
      Local(AddBorrow(proc, p, i, next).(held := proc.held + {Part(next)}), locks, next + 1, Done))
  {
    AddBorrowOk(p, proc, locks, next, t, i);
    if proc.gatePid == p {
      FreshUnadmitted(p, proc, locks, Part(next));
    }
    HoldUsers(p, AddBorrow(proc, p, i, next), locks, Part(next));
    HeldKept(p, proc, locks, next, AddBorrow(proc, p, i, next), Part(next));
  }

  // Holding a fresh handle of an already kept state keeps it.
  lemma HeldKept(p: Pid, proc: Proc, locks: Locks, next: Id, mid: Proc, h: Handle)
    requires LocalOk(p, proc, locks, next) && ObjectsOk(p, mid, locks, next + 1)
    requires UsersOk(p, mid.(held := mid.held + {h}), locks)
    requires mid.leases.Keys == proc.leases.Keys && mid.gatePid == proc.gatePid
    requires forall i :: i in mid.leases ==> mid.leases[i].pid == proc.leases[i].pid
    ensures Kept(p, proc, locks, next, Local(mid.(held := mid.held + {h}), locks, next + 1, Done))
  {
  }

  // ------------------------------------------------------------------ opening

  lemma OpenLocks(p: Pid, locks: Locks, next: Id)
    requires KernelOk(locks, next)
    ensures KernelOk(locks[next := Description(p, {p}, Unlocked)], next + 1)
    ensures Framed(p, locks, locks[next := Description(p, {p}, Unlocked)], next)
  {
  }

  lemma OpenDescriptors(p: Pid, proc: Proc, locks: Locks, next: Id, t: Tid, exclusive: bool, purpose: Purpose)
    requires BaseOk(p, proc, locks, next) && proc.awake
    ensures var r := Open(proc, locks, next, p, t, exclusive, purpose);
      && LeasesOk(p, r.proc.awake, r.proc.leases, r.locks)
      && NoStrayDescriptors(p, r.proc.leases, r.locks)
      && Persists(p, proc.leases, r.proc.leases, locks, r.locks)
  {
  }

  lemma OpenObjects(p: Pid, proc: Proc, locks: Locks, next: Id, t: Tid, exclusive: bool, purpose: Purpose)
    requires ObjectsOk(p, proc, locks, next) && proc.awake
    ensures ObjectsOk(p, Open(proc, locks, next, p, t, exclusive, purpose).proc,
                      locks[next := Description(p, {p}, Unlocked)], next + 1)
  {
    var r := Open(proc, locks, next, p, t, exclusive, purpose);
    OpenDescriptors(p, proc, locks, next, t, exclusive, purpose);
    assert OpenBorrows(proc.borrows, next) == {};
    assert CountsOk(p, r.proc.leases, r.proc.borrows);
    PersistsBorrows(p, proc.leases, r.proc.leases, proc.borrows, locks, r.locks);
  }

  lemma OpenPending(p: Pid, proc: Proc, locks: Locks, next: Id, t: Tid, exclusive: bool, purpose: Purpose)
    requires PendingOk(p, proc, locks) && BelowNext(proc, next)
    requires proc.gatePid == p && t !in proc.pending
    requires purpose.ForBegin? ==>
      !exclusive && purpose.conn in proc.conns && !InUse(proc, purpose.conn) && AdmittedLease(proc, purpose.conn) == None
    ensures PendingOk(p, Open(proc, locks, next, p, t, exclusive, purpose).proc, locks[next := Description(p, {p}, Unlocked)])
  {
    assert forall c :: AdmittedLease(Open(proc, locks, next, p, t, exclusive, purpose).proc, c) == AdmittedLease(proc, c);
  }

  lemma OpenUsers(p: Pid, proc: Proc, locks: Locks, next: Id, t: Tid, exclusive: bool, purpose: Purpose)
    requires UsersOk(p, proc, locks) && BelowNext(proc, next) && KernelOk(locks, next)
    requires proc.gatePid == p && t !in proc.pending
    requires purpose.ForBegin? ==>
      !exclusive && purpose.conn in proc.conns && !InUse(proc, purpose.conn) && AdmittedLease(proc, purpose.conn) == None
    requires Persists(p, proc.leases, Open(proc, locks, next, p, t, exclusive, purpose).proc.leases, locks,
                      locks[next := Description(p, {p}, Unlocked)])
    ensures UsersOk(p, Open(proc, locks, next, p, t, exclusive, purpose).proc, locks[next := Description(p, {p}, Unlocked)])
  {
    var r := Open(proc, locks, next, p, t, exclusive, purpose);
    PersistsHeld(p, proc.leases, r.proc.leases, proc.borrows, proc.borrows, locks, r.locks, proc.held);
    PersistsScopes(p, proc.leases, r.proc.leases, locks, r.locks, proc.scopes);
    SparedAdmissions(p, proc, r.proc, locks, r.locks);
    OpenPending(p, proc, locks, next, t, exclusive, purpose);
  }

  lemma OpenKept(p: Pid, proc: Proc, locks: Locks, next: Id, t: Tid, exclusive: bool, purpose: Purpose)
    requires LocalOk(p, proc, locks, next)
    requires proc.gatePid == p && t !in proc.pending
    requires purpose.ForBegin? ==>
      !exclusive && purpose.conn in proc.conns && !InUse(proc, purpose.conn) && AdmittedLease(proc, purpose.conn) == None
    ensures Kept(p, proc, locks, next, Open(proc, locks, next, p, t, exclusive, purpose))
  {
    OpenObjects(p, proc, locks, next, t, exclusive, purpose);
    OpenDescriptors(p, proc, locks, next, t, exclusive, purpose);
    OpenLocks(p, locks, next);
    OpenUsers(p, proc, locks, next, t, exclusive, purpose);
  }

  lemma AcquireKept(p: Pid, proc: Proc, locks: Locks, next: Id, t: Tid, exclusive: bool)
    requires LocalOk(p, proc, locks, next) && t !in proc.pending
    ensures Kept(p, proc, locks, next, Acquire(proc, locks, next, p, t, exclusive))
  {
    if proc.gatePid == p {
      if !exclusive && Scope(proc, t).Some? {
        if Lends(proc, p, t, Scope(proc, t).value) {
          AcquireBorrowKept(p, proc, locks, next, t, Scope(proc, t).value);
        }
      } else {
        OpenKept(p, proc, locks, next, t, exclusive, ForScope);
      }
    }
  }

  // ----------------------------------------------------------------- admission

  // Storing an admission whose lease is fresh to every other admission.
  lemma AdmitUsers(p: Pid, proc: Proc, locks: Locks, c: Id, lease: Option<Handle>, readonly: bool)
    requires UsersOk(p, proc, locks) && proc.gatePid == p
    requires c in proc.conns && !InUse(proc, c)
    requires lease.Some? ==>
      && AdmissionLease(p, proc.gate, proc.leases, proc.borrows, locks, lease.value)
      && lease.value !in proc.held
      && forall d :: d in proc.admissions && d != c ==> proc.admissions[d].lease != lease
    ensures UsersOk(p, Admit(proc, c, lease, readonly), locks)
  {
    var proc' := Admit(proc, c, lease, readonly);
    assert ConnsOk(proc'.conns, proc'.admissions);
    assert AdmissionsOk(p, proc'.gate, proc'.leases, proc'.borrows, locks, proc'.held, proc'.admissions);
    assert forall d :: d != c ==> AdmittedLease(proc', d) == AdmittedLease(proc, d);
    assert PendingOk(p, proc', locks);
  }

  // ------------------------------------------------------------------- closing

  lemma ReleaseLocks(p: Pid, locks: Locks, next: Id, i: Id)
    requires KernelOk(locks, next)
    ensures KernelOk(Release(locks, i, p), next) && Framed(p, locks, Release(locks, i, p), next)
    ensures forall j :: j != i ==> (j in Release(locks, i, p) <==> j in locks)
    ensures forall j :: j != i && j in locks ==> Release(locks, i, p)[j] == locks[j]
    ensures i in Release(locks, i, p) ==> p !in Release(locks, i, p)[i].holders
  {
  }

  function Shut(proc: Proc, i: Id): Proc
    requires i in proc.leases
  {
    proc.(leases := proc.leases[i := proc.leases[i].(closed := true)])
  }

  lemma ShutObjects(p: Pid, proc: Proc, locks: Locks, next: Id, i: Id)
    requires BaseOk(p, proc, locks, next) && KernelOk(locks, next)
    requires i in proc.leases && !proc.leases[i].closed && proc.leases[i].borrowers == 0
    ensures BaseOk(p, Shut(proc, i), Release(locks, i, p), next)
    ensures Persists(p, proc.leases, Shut(proc, i).leases, locks, Release(locks, i, p))
  {
    ReleaseLocks(p, locks, next, i);
    var after := Shut(proc, i);
    var locks' := Release(locks, i, p);
    assert LeasesOk(p, after.awake, after.leases, locks');
    assert NoStrayDescriptors(p, after.leases, locks');
    assert Persists(p, proc.leases, after.leases, locks, locks');
    PersistsBorrows(p, proc.leases, after.leases, proc.borrows, locks, locks');
  }

  // A lease used by nobody else: not admitted, and not waiting for its lock.
  ghost predicate Loose(p: Pid, proc: Proc, i: Id) {
    && (proc.gatePid == p ==> Unadmitted(proc, Whole(i)))
    && (forall t :: t in proc.pending ==> proc.pending[t].lease != i)
  }

  lemma ShutUsers(p: Pid, proc: Proc, locks: Locks, next: Id, i: Id)
    requires UsersOk(p, proc, locks) && KernelOk(locks, next) && i in proc.leases && Loose(p, proc, i)
    requires Persists(p, proc.leases, Shut(proc, i).leases, locks, Release(locks, i, p))
    ensures UsersOk(p, Shut(proc, i), Release(locks, i, p))
  {
    ReleaseLocks(p, locks, next, i);
    var after := Shut(proc, i);
    var locks' := Release(locks, i, p);
    PersistsHeld(p, proc.leases, after.leases, proc.borrows, proc.borrows, locks, locks', proc.held);
    PersistsScopes(p, proc.leases, after.leases, locks, locks', proc.scopes);
    if proc.gatePid == p {
      SparedAdmissions(p, proc, after, locks, locks');
    }
    SparedPending(p, proc, after, locks, locks');
  }

  // What closing or lending leaves behind, whatever the handle.
  ghost predicate ClosedOk(p: Pid, proc: Proc, locks: Locks, next: Id, proc': Proc, locks': Locks) {
    && LocalOk(p, proc', locks', next) && Framed(p, locks, locks', next)
    && proc'.leases.Keys == proc.leases.Keys && proc'.gatePid == proc.gatePid
    && (forall i :: i in proc.leases ==> proc'.leases[i].pid == proc.leases[i].pid)
  }

  lemma ShutOk(p: Pid, proc: Proc, locks: Locks, next: Id, i: Id)
    requires BaseOk(p, proc, locks, next) && UsersOk(p, proc, locks) && KernelOk(locks, next)
    requires i in proc.leases && !proc.leases[i].closed && proc.leases[i].borrowers == 0 && Loose(p, proc, i)
    requires ClosingOk(p, Shut(proc, i).leases)
    ensures ClosedOk(p, proc, locks, next, Shut(proc, i), Release(locks, i, p))
  {
    ShutObjects(p, proc, locks, next, i);
    ShutUsers(p, proc, locks, next, i);
    ReleaseLocks(p, locks, next, i);
  }

  // Only the owner of a borrow is counted up, so a lease with borrowers is exclusive and locked.
  lemma BorrowedIsExclusive(p: Pid, proc: Proc, locks: Locks, next: Id, i: Id)
    requires BaseOk(p, proc, locks, next) && i in proc.leases && proc.leases[i].borrowers != 0
    ensures proc.leases[i].exclusive && proc.leases[i].borrowers > 0
    ensures proc.leases[i].pid == p ==> !proc.leases[i].closed && Granted(locks, i)
  {
    assert |OpenBorrows(proc.borrows, i)| > 0;
    var b :| b in OpenBorrows(proc.borrows, i);
    assert BorrowsOk(proc.leases, proc.borrows, p, locks);
  }

  // A granted exclusive lease is loose: admissions hold shared leases, waiting threads unlocked ones.
  lemma ExclusiveIsLoose(p: Pid, proc: Proc, locks: Locks, i: Id)
    requires UsersOk(p, proc, locks) && i in proc.leases && proc.leases[i].exclusive && Granted(locks, i)
    ensures Loose(p, proc, i)
  {
    if proc.gatePid == p {
      FreshUnadmitted(p, proc, locks, Whole(i));
    }
  }

  function Closing(proc: Proc, i: Id): Proc
    requires i in proc.leases
  {
    proc.(leases := proc.leases[i := proc.leases[i].(closing := true)])
  }

  lemma ClosingUsers(p: Pid, proc: Proc, locks: Locks, i: Id)
    requires UsersOk(p, proc, locks) && i in proc.leases && Loose(p, proc, i)
    ensures UsersOk(p, Closing(proc, i), locks)
  {
    var after := Closing(proc, i);
    assert Persists(p, proc.leases, after.leases, locks, locks);
    PersistsHeld(p, proc.leases, after.leases, proc.borrows, proc.borrows, locks, locks, proc.held);
    PersistsScopes(p, proc.leases, after.leases, locks, locks, proc.scopes);
    if proc.gatePid == p {
      SparedAdmissions(p, proc, after, locks, locks);
    }
    SparedPending(p, proc, after, locks, locks);
  }

  lemma ClosingKept(p: Pid, proc: Proc, locks: Locks, next: Id, i: Id)
    requires LocalOk(p, proc, locks, next) && i in proc.leases && proc.leases[i].pid == p && proc.leases[i].borrowers != 0
    ensures ClosedOk(p, proc, locks, next, Closing(proc, i), locks)
  {
    BorrowedIsExclusive(p, proc, locks, next, i);
    ExclusiveIsLoose(p, proc, locks, i);
    ClosingUsers(p, proc, locks, i);
    var after := Closing(proc, i);
    assert LeasesOk(p, after.awake, after.leases, locks);
    assert CountsOk(p, after.leases, after.borrows);
    assert BorrowsOk(after.leases, after.borrows, p, locks);
  }

  lemma UnchangedOk(p: Pid, proc: Proc, locks: Locks, next: Id)
    requires LocalOk(p, proc, locks, next)
    ensures ClosedOk(p, proc, locks, next, proc, locks)
  {
  }

  // The three ways `_Lease.close` can go.
  lemma CloseWholeCases(p: Pid, proc: Proc, locks: Locks, i: Id)
    requires i in proc.leases
    ensures var l := proc.leases[i]; var r := CloseHandle(proc, locks, p, Whole(i));
      if l.pid != p || l.closed then r.0 == proc && r.1 == locks
      else if l.borrowers != 0 then r.0 == Closing(proc, i) && r.1 == locks
      else r.0 == Shut(proc, i) && r.1 == Release(locks, i, p)
  {
    assert proc.leases[i := proc.leases[i]] == proc.leases;
  }

  lemma CloseWholeOk(p: Pid, proc: Proc, locks: Locks, next: Id, i: Id)
    requires LocalOk(p, proc, locks, next)
    requires i in proc.leases && Loose(p, proc, i)
    ensures var r := CloseHandle(proc, locks, p, Whole(i)); ClosedOk(p, proc, locks, next, r.0, r.1)
  {
    CloseWholeCases(p, proc, locks, i);
    var l := proc.leases[i];
    if l.pid != p || l.closed {
      UnchangedOk(p, proc, locks, next);
    } else if l.borrowers != 0 {
      ClosingKept(p, proc, locks, next, i);
    } else {
      ShutOk(p, proc, locks, next, i);
    }
  }

  // `_BorrowedLease.close` before it decides about the owner.
  function Repaid(proc: Proc, b: Id): Proc
    requires b in proc.borrows && proc.borrows[b].owner in proc.leases
  {
    var i := proc.borrows[b].owner;
    proc.(borrows := proc.borrows[b := proc.borrows[b].(closed := true)],
          leases := proc.leases[i := proc.leases[i].(borrowers := proc.leases[i].borrowers - 1)])
  }

  lemma RepaidObjects(p: Pid, proc: Proc, locks: Locks, next: Id, b: Id)
    requires BaseOk(p, proc, locks, next) && b in proc.borrows && !proc.borrows[b].closed
    requires proc.borrows[b].owner in proc.leases
    ensures BaseOk(p, Repaid(proc, b), locks, next)
    ensures proc.borrows[b].pid == p ==> !proc.leases[proc.borrows[b].owner].closed
  {
    var i := proc.borrows[b].owner;
    var after := Repaid(proc, b);
    assert OpenBorrows(after.borrows, i) == OpenBorrows(proc.borrows, i) - {b};
    assert b in OpenBorrows(proc.borrows, i);
    assert |OpenBorrows(proc.borrows, i)| > 0;
    forall j | j in proc.leases && j != i
      ensures OpenBorrows(after.borrows, j) == OpenBorrows(proc.borrows, j)
    {
    }
    RepaidRest(p, proc, locks, b);
  }

  lemma RepaidRest(p: Pid, proc: Proc, locks: Locks, b: Id)
    requires LeasesOk(p, proc.awake, proc.leases, locks) && BorrowsOk(proc.leases, proc.borrows, p, locks)
    requires NoStrayDescriptors(p, proc.leases, locks)
    requires b in proc.borrows && proc.borrows[b].owner in proc.leases
    ensures var after := Repaid(proc, b);
      && LeasesOk(p, after.awake, after.leases, locks) && BorrowsOk(after.leases, after.borrows, p, locks)
      && NoStrayDescriptors(p, after.leases, locks)
  {
  }

  lemma RepaidUsers(p: Pid, proc: Proc, locks: Locks, b: Id)
    requires UsersOk(p, proc, locks) && b in proc.borrows && proc.borrows[b].owner in proc.leases
    requires Loose(p, proc, proc.borrows[b].owner)
    requires proc.gatePid == p ==> Unadmitted(proc, Part(b))
    ensures UsersOk(p, Repaid(proc, b), locks)
  {
    var after := Repaid(proc, b);
    assert Persists(p, proc.leases, after.leases, locks, locks);
    PersistsHeld(p, proc.leases, after.leases, proc.borrows, after.borrows, locks, locks, proc.held);
    PersistsScopes(p, proc.leases, after.leases, locks, locks, proc.scopes);
    if proc.gatePid == p {
      SparedAdmissions(p, proc, after, locks, locks);
    }
    SparedPending(p, proc, after, locks, locks);
  }

  lemma RepaidClosing(p: Pid, proc: Proc, locks: Locks, next: Id, b: Id)
    requires ClosingOk(p, proc.leases) && b in proc.borrows && proc.borrows[b].owner in proc.leases
    requires BaseOk(p, Repaid(proc, b), locks, next)
    requires !(Repaid(proc, b).leases[proc.borrows[b].owner].closing && Repaid(proc, b).leases[proc.borrows[b].owner].borrowers == 0)
    ensures ClosingOk(p, Repaid(proc, b).leases)
  {
  }

  // The three ways `_BorrowedLease.close` can go; the last borrow of a refused owner closes it.
  lemma ClosePartCases(p: Pid, proc: Proc, locks: Locks, b: Id)
    requires b in proc.borrows && proc.borrows[b].owner in proc.leases
    ensures var i := proc.borrows[b].owner; var r := CloseHandle(proc, locks, p, Part(b)); var mid := Repaid(proc, b);
      if proc.borrows[b].pid != p || proc.borrows[b].closed then r.0 == proc && r.1 == locks
      else if mid.leases[i].closing && mid.leases[i].borrowers == 0 then r.0 == Shut(mid, i) && r.1 == Release(locks, i, p)
      else r.0 == mid && r.1 == locks
  {
    assert proc.leases[proc.borrows[b].owner := proc.leases[proc.borrows[b].owner]] == proc.leases;
    assert proc.borrows[b := proc.borrows[b]] == proc.borrows;
  }

  lemma RepaidOk(p: Pid, proc: Proc, locks: Locks, next: Id, b: Id)
    requires LocalOk(p, proc, locks, next) && b in proc.borrows && proc.borrows[b].owner in proc.leases
    requires proc.borrows[b].pid == p && !proc.borrows[b].closed
    requires proc.gatePid == p ==> Unadmitted(proc, Part(b))
    ensures BaseOk(p, Repaid(proc, b), locks, next) && UsersOk(p, Repaid(proc, b), locks)
    ensures var i := proc.borrows[b].owner;
      Loose(p, Repaid(proc, b), i) && !proc.leases[i].closed && proc.leases[i].pid == p
  {
    RepaidObjects(p, proc, locks, next, b);
    assert BorrowsOk(proc.leases, proc.borrows, p, locks);
    ExclusiveIsLoose(p, proc, locks, proc.borrows[b].owner);
    RepaidUsers(p, proc, locks, b);
  }

  lemma RepaidShutClosing(p: Pid, proc: Proc, b: Id)
    requires ClosingOk(p, proc.leases) && b in proc.borrows && proc.borrows[b].owner in proc.leases
    ensures ClosingOk(p, Shut(Repaid(proc, b), proc.borrows[b].owner).leases)
  {
  }

  lemma RepaidFrame(p: Pid, proc: Proc, locks: Locks, next: Id, b: Id)
    requires KernelOk(locks, next) && b in proc.borrows && proc.borrows[b].owner in proc.leases
    requires BaseOk(p, Repaid(proc, b), locks, next) && UsersOk(p, Repaid(proc, b), locks)
    requires ClosingOk(p, Repaid(proc, b).leases)
    ensures ClosedOk(p, proc, locks, next, Repaid(proc, b), locks)
  {
  }

  lemma RepaidIsClosed(p: Pid, proc: Proc, locks: Locks, next: Id, b: Id, proc': Proc, locks': Locks)
    requires b in proc.borrows && proc.borrows[b].owner in proc.leases
    requires ClosedOk(p, Repaid(proc, b), locks, next, proc', locks')
    ensures ClosedOk(p, proc, locks, next, proc', locks')
  {
  }

  lemma RepaidShut(p: Pid, proc: Proc, locks: Locks, next: Id, b: Id)
    requires KernelOk(locks, next) && ClosingOk(p, proc.leases) && b in proc.borrows && proc.borrows[b].owner in proc.leases
    requires BaseOk(p, Repaid(proc, b), locks, next) && UsersOk(p, Repaid(proc, b), locks)
    requires Loose(p, Repaid(proc, b), proc.borrows[b].owner) && !proc.leases[proc.borrows[b].owner].closed
    requires Repaid(proc, b).leases[proc.borrows[b].owner].borrowers == 0
    ensures ClosedOk(p, proc, locks, next, Shut(Repaid(proc, b), proc.borrows[b].owner), Release(locks, proc.borrows[b].owner, p))
  {
    RepaidShutClosing(p, proc, b);
    ShutOk(p, Repaid(proc, b), locks, next, proc.borrows[b].owner);
    RepaidIsClosed(p, proc, locks, next, b, Shut(Repaid(proc, b), proc.borrows[b].owner), Release(locks, proc.borrows[b].owner, p));
  }

  lemma ClosePartOk(p: Pid, proc: Proc, locks: Locks, next: Id, b: Id)
    requires LocalOk(p, proc, locks, next) && b in proc.borrows && proc.borrows[b].owner in proc.leases
    requires proc.gatePid == p ==> Unadmitted(proc, Part(b))
    ensures var r := CloseHandle(proc, locks, p, Part(b)); ClosedOk(p, proc, locks, next, r.0, r.1)
  {
    ClosePartCases(p, proc, locks, b);
    var i := proc.borrows[b].owner;
    if proc.borrows[b].pid != p || proc.borrows[b].closed {
      UnchangedOk(p, proc, locks, next);
    } else {
      RepaidOk(p, proc, locks, next, b);
      var mid := Repaid(proc, b);
      if mid.leases[i].closing && mid.leases[i].borrowers == 0 {
        RepaidShut(p, proc, locks, next, b);
      } else {
        RepaidClosing(p, proc, locks, next, b);
        RepaidFrame(p, proc, locks, next, b);
      }
    }
  }

  lemma CloseHandleOk(p: Pid, proc: Proc, locks: Locks, next: Id, h: Handle)
    requires LocalOk(p, proc, locks, next)
    requires Returned(p, proc.leases, proc.borrows, locks, h)
    requires proc.gatePid == p ==> Unadmitted(proc, h)
    ensures var r := CloseHandle(proc, locks, p, h); ClosedOk(p, proc, locks, next, r.0, r.1)
  {
    match h
    case Whole(i) =>
      if proc.leases[i].pid == p && !proc.leases[i].closed {
        CloseWholeOk(p, proc, locks, next, i);
      } else {
        CloseWholeCases(p, proc, locks, i);
        UnchangedOk(p, proc, locks, next);
      }
    case Part(b) =>
      assert BorrowsOk(proc.leases, proc.borrows, p, locks);
      ClosePartOk(p, proc, locks, next, b);
  }

  lemma ClosedKept(p: Pid, proc: Proc, locks: Locks, next: Id, r: Local)
    requires ClosedOk(p, proc, locks, next, r.proc, r.locks) && r.next == next
    ensures Kept(p, proc, locks, next, r)
  {
  }

  lemma CloseKept(p: Pid, proc: Proc, locks: Locks, next: Id, h: Handle)
    requires LocalOk(p, proc, locks, next)
    ensures Kept(p, proc, locks, next, Close(proc, locks, next, p, h))
  {
    if h in proc.held {
      if proc.gatePid == p {
        FreshUnadmitted(p, proc, locks, h);
      }
      CloseHandleOk(p, proc, locks, next, h);
    } else {
      UnchangedOk(p, proc, locks, next);
    }
    ClosedKept(p, proc, locks, next, Close(proc, locks, next, p, h));
  }

  // ------------------------------------------------------------------- checkin

  lemma PoppedUsers(p: Pid, proc: Proc, locks: Locks, c: Id)
    requires UsersOk(p, proc, locks) && c in proc.conns && !InUse(proc, c)
    ensures UsersOk(p, Popped(proc, c), locks)
    ensures proc.gatePid == p && c in proc.admissions && proc.admissions[c].lease.Some? ==>
      Unadmitted(Popped(proc, c), proc.admissions[c].lease.value)
  {
    var after := Popped(proc, c);
    assert forall d :: d != c ==> AdmittedLease(after, d) == AdmittedLease(proc, d);
    assert PendingOk(p, after, locks);
    assert ConnsOk(after.conns, after.admissions);
  }

  lemma PoppedOk(p: Pid, proc: Proc, locks: Locks, next: Id, c: Id)
    requires LocalOk(p, proc, locks, next) && c in proc.conns && !InUse(proc, c)
    ensures LocalOk(p, Popped(proc, c), locks, next)
  {
    PoppedUsers(p, proc, locks, c);
    assert BelowNext(Popped(proc, c), next);
  }

  lemma CheckinKept(p: Pid, proc: Proc, locks: Locks, next: Id, c: Id)
    requires LocalOk(p, proc, locks, next)
    ensures Kept(p, proc, locks, next, Checkin(proc, locks, next, p, c))
  {
    var r := Checkin(proc, locks, next, p, c);
    if c !in proc.conns || InUse(proc, c) || proc.gatePid != p {
      UnchangedOk(p, proc, locks, next);
      ClosedKept(p, proc, locks, next, r);
    } else {
      PoppedOk(p, proc, locks, next, c);
      PoppedUsers(p, proc, locks, c);
      var popped := Popped(proc, c);
      match AdmittedLease(proc, c)
      case None =>
        UnchangedOk(p, popped, locks, next);
        ClosedKept(p, popped, locks, next, r);
      case Some(h) =>
        assert AdmissionLease(p, proc.gate, proc.leases, proc.borrows, locks, h);
        CloseHandleOk(p, popped, locks, next, h);
        ClosedKept(p, popped, locks, next, r);
    }
  }

  // --------------------------------------------------------------------- flock

  function Resumed(proc: Proc, t: Tid): Proc {
    proc.(pending := Pop(proc.pending, t))
  }

  lemma ResumedOk(p: Pid, proc: Proc, locks: Locks, next: Id, t: Tid)
    requires LocalOk(p, proc, locks, next) && t in proc.pending
    ensures LocalOk(p, Resumed(proc, t), locks, next)
    ensures var i := proc.pending[t].lease;
      i in proc.leases && i in locks && Usable(proc.leases[i], p) && locks[i].lock == Unlocked && proc.leases[i].borrowers == 0
    ensures Loose(p, Resumed(proc, t), proc.pending[t].lease) && Whole(proc.pending[t].lease) !in proc.held
    ensures proc.pending[t].purpose.ForBegin? ==> !InUse(Resumed(proc, t), proc.pending[t].purpose.conn)
  {
    var after := Resumed(proc, t);
    var i := proc.pending[t].lease;
    assert PendingOk(p, after, locks) by {
      assert forall c :: AdmittedLease(after, c) == AdmittedLease(proc, c);
    }
    if proc.leases[i].borrowers != 0 {
      BorrowedIsExclusive(p, proc, locks, next, i);
    }
    assert Whole(i) in proc.held ==> Returned(p, proc.leases, proc.borrows, locks, Whole(i));
    FreshUnadmitted(p, proc, locks, Whole(i));
  }

  function Locked(locks: Locks, i: Id, exclusive: bool): Locks
    requires i in locks
  {
    locks[i := locks[i].(lock := if exclusive then Exclusive else Shared)]
  }

  lemma LockedKernel(p: Pid, locks: Locks, next: Id, i: Id, exclusive: bool)
    requires KernelOk(locks, next) && i in locks && locks[i].owner == p && Grantable(locks, i, exclusive)
    ensures KernelOk(Locked(locks, i, exclusive), next) && Framed(p, locks, Locked(locks, i, exclusive), next)
  {
  }

  lemma LockedObjects(p: Pid, proc: Proc, locks: Locks, next: Id, i: Id)
    requires ObjectsOk(p, proc, locks, next) && i in proc.leases && i in locks
    requires Usable(proc.leases[i], p)
    ensures ObjectsOk(p, proc, Locked(locks, i, proc.leases[i].exclusive), next)
    ensures Persists(p, proc.leases, proc.leases, locks, Locked(locks, i, proc.leases[i].exclusive))
  {
    var locks' := Locked(locks, i, proc.leases[i].exclusive);
    assert LeasesOk(p, proc.awake, proc.leases, locks');
    assert NoStrayDescriptors(p, proc.leases, locks');
    PersistsBorrows(p, proc.leases, proc.leases, proc.borrows, locks, locks');
  }

  lemma LockedUsers(p: Pid, proc: Proc, locks: Locks, i: Id)
    requires UsersOk(p, proc, locks) && i in proc.leases && i in locks && Loose(p, proc, i)
    requires Persists(p, proc.leases, proc.leases, locks, Locked(locks, i, proc.leases[i].exclusive))
    ensures UsersOk(p, proc, Locked(locks, i, proc.leases[i].exclusive))
  {
    var locks' := Locked(locks, i, proc.leases[i].exclusive);
    PersistsHeld(p, proc.leases, proc.leases, proc.borrows, proc.borrows, locks, locks', proc.held);
    PersistsScopes(p, proc.leases, proc.leases, locks, locks', proc.scopes);
    if proc.gatePid == p {
      SparedAdmissions(p, proc, proc, locks, locks');
    }
    SparedPending(p, proc, proc, locks, locks');
  }

  lemma FlockGranted(p: Pid, proc: Proc, locks: Locks, next: Id, t: Tid)
    requires LocalOk(p, proc, locks, next) && t in proc.pending
    requires proc.pending[t].lease in proc.leases && proc.pending[t].lease in locks
    requires Grantable(locks, proc.pending[t].lease, proc.leases[proc.pending[t].lease].exclusive)
    ensures var i := proc.pending[t].lease; var locks' := Locked(locks, i, proc.leases[i].exclusive);
      && LocalOk(p, Resumed(proc, t), locks', next) && Framed(p, locks, locks', next)
      && Loose(p, Resumed(proc, t), i)
  {
    var i := proc.pending[t].lease;
    ResumedOk(p, proc, locks, next, t);
    LockedKernel(p, locks, next, i, proc.leases[i].exclusive);
    LockedObjects(p, Resumed(proc, t), locks, next, i);
    LockedUsers(p, Resumed(proc, t), locks, i);
  }

  lemma FlockAdmits(p: Pid, proc: Proc, locks: Locks, next: Id, t: Tid, c: Id)
    requires LocalOk(p, proc, locks, next) && t in proc.pending && proc.pending[t].purpose == ForBegin(c)
    requires proc.pending[t].lease in proc.leases && proc.pending[t].lease in locks
    requires Grantable(locks, proc.pending[t].lease, proc.leases[proc.pending[t].lease].exclusive)
    requires LocalOk(p, Resumed(proc, t), Locked(locks, proc.pending[t].lease, proc.leases[proc.pending[t].lease].exclusive), next)
    ensures c in proc.conns && UsersOk(p, Admit(Resumed(proc, t), c, Some(Whole(proc.pending[t].lease)), false),
                    Locked(locks, proc.pending[t].lease, proc.leases[proc.pending[t].lease].exclusive))
  {
    var i := proc.pending[t].lease;
    ResumedOk(p, proc, locks, next, t);
    AdmitUsers(p, Resumed(proc, t), Locked(locks, i, proc.leases[i].exclusive), c, Some(Whole(i)), false);
  }

  lemma FlockRefusedKept(p: Pid, proc: Proc, locks: Locks, next: Id, t: Tid)
    requires LocalOk(p, proc, locks, next) && t in proc.pending
    requires proc.pending[t].lease in proc.leases && proc.pending[t].lease in locks
    requires !Grantable(locks, proc.pending[t].lease, proc.leases[proc.pending[t].lease].exclusive)
    ensures ClosedOk(p, proc, locks, next, Flock(proc, locks, next, p, t).proc, Flock(proc, locks, next, p, t).locks)
  {
    ResumedOk(p, proc, locks, next, t);
    var i := proc.pending[t].lease;
    var rest := Resumed(proc, t);
    assert ClosingOk(p, Shut(rest, i).leases);
    ShutOk(p, rest, locks, next, i);
    assert Flock(proc, locks, next, p, t).proc == Shut(rest, i);
  }

  lemma FlockScopeKept(p: Pid, proc: Proc, locks: Locks, next: Id, t: Tid)
    requires t in proc.pending && proc.pending[t].purpose == ForScope
    requires proc.pending[t].lease in proc.leases && proc.pending[t].lease in locks
    requires Loose(p, Resumed(proc, t), proc.pending[t].lease)
    requires LocalOk(p, Resumed(proc, t), Locked(locks, proc.pending[t].lease, proc.leases[proc.pending[t].lease].exclusive), next)
    ensures var i := proc.pending[t].lease;
      UsersOk(p, Resumed(proc, t).(held := proc.held + {Whole(i)}), Locked(locks, i, proc.leases[i].exclusive))
  {
    var i := proc.pending[t].lease;
    HoldUsers(p, Resumed(proc, t), Locked(locks, i, proc.leases[i].exclusive), Whole(i));
  }

  // A step that leaves the objects of `mid` alone and re-establishes what refers to them.
  lemma KeptFrom(p: Pid, proc: Proc, locks: Locks, next: Id, mid: Proc, r: Local)
    requires ObjectsOk(p, mid, r.locks, next) && UsersOk(p, r.proc, r.locks)
    requires KernelOk(r.locks, next) && Framed(p, locks, r.locks, next) && r.next == next
    requires mid.leases == proc.leases && mid.gatePid == proc.gatePid
    requires r.proc.leases == mid.leases && r.proc.borrows == mid.borrows && r.proc.awake == mid.awake
    requires r.proc.conns.Keys == mid.conns.Keys && r.proc.gatePid == mid.gatePid
    ensures Kept(p, proc, locks, next, r)
  {
  }

  lemma FlockHeldKept(p: Pid, proc: Proc, locks: Locks, next: Id, t: Tid)
    requires LocalOk(p, proc, locks, next) && t in proc.pending && proc.pending[t].purpose == ForScope
    requires proc.pending[t].lease in proc.leases && proc.pending[t].lease in locks
    requires Grantable(locks, proc.pending[t].lease, proc.leases[proc.pending[t].lease].exclusive)
    ensures Kept(p, proc, locks, next, Flock(proc, locks, next, p, t))
  {
    FlockGranted(p, proc, locks, next, t);
    FlockScopeKept(p, proc, locks, next, t);
    KeptFrom(p, proc, locks, next, Resumed(proc, t), Flock(proc, locks, next, p, t));
  }

  lemma FlockBeginKept(p: Pid, proc: Proc, locks: Locks, next: Id, t: Tid)
    requires LocalOk(p, proc, locks, next) && t in proc.pending && proc.pending[t].purpose.ForBegin?
    requires proc.pending[t].lease in proc.leases && proc.pending[t].lease in locks
    requires Grantable(locks, proc.pending[t].lease, proc.leases[proc.pending[t].lease].exclusive)
    ensures Kept(p, proc, locks, next, Flock(proc, locks, next, p, t))
  {
    FlockGranted(p, proc, locks, next, t);
    FlockAdmits(p, proc, locks, next, t, proc.pending[t].purpose.conn);
    FlockBeginIs(p, proc, locks, next, t);
    var i, c := proc.pending[t].lease, proc.pending[t].purpose.conn;
    AdmittedFrom(
      p, proc, locks, next, Resumed(proc, t), Locked(locks, i, proc.leases[i].exclusive), c, Some(Whole(i)));
  }

  lemma AdmittedFrom(p: Pid, proc: Proc, locks: Locks, next: Id, mid: Proc, locks': Locks, c: Id, lease: Option<Handle>)
    requires ObjectsOk(p, mid, locks', next) && c in mid.conns && UsersOk(p, Admit(mid, c, lease, false), locks')
    requires KernelOk(locks', next) && Framed(p, locks, locks', next)
    requires mid.leases == proc.leases && mid.gatePid == proc.gatePid
    ensures Kept(p, proc, locks, next, Local(Admit(mid, c, lease, false), locks', next, Done))
  {
    KeptFrom(p, proc, locks, next, mid, Local(Admit(mid, c, lease, false), locks', next, Done));
  }

  lemma FlockBeginIs(p: Pid, proc: Proc, locks: Locks, next: Id, t: Tid)
    requires t in proc.pending && proc.pending[t].purpose.ForBegin? && proc.pending[t].purpose.conn in proc.conns
    requires proc.pending[t].lease in proc.leases && proc.pending[t].lease in locks
    requires Grantable(locks, proc.pending[t].lease, proc.leases[proc.pending[t].lease].exclusive)
    ensures var i := proc.pending[t].lease;
      Flock(proc, locks, next, p, t) == Local(
        Admit(Resumed(proc, t), proc.pending[t].purpose.conn, Some(Whole(i)), false),
        Locked(locks, i, proc.leases[i].exclusive), next, Done)
  {
  }

  lemma FlockKept(p: Pid, proc: Proc, locks: Locks, next: Id, t: Tid)
    requires LocalOk(p, proc, locks, next) && t in proc.pending
    ensures Kept(p, proc, locks, next, Flock(proc, locks, next, p, t))
  {
    assert PendingOk(p, proc, locks);
    if !Grantable(locks, proc.pending[t].lease, proc.leases[proc.pending[t].lease].exclusive) {
      FlockRefusedKept(p, proc, locks, next, t);
      ClosedKept(p, proc, locks, next, Flock(proc, locks, next, p, t));
    } else {
      match proc.pending[t].purpose
      case ForScope => FlockHeldKept(p, proc, locks, next, t);
      case ForBegin(_) => FlockBeginKept(p, proc, locks, next, t);
    }
  }

  // --------------------------------------------------------------------- begin

  lemma AdmitKept(p: Pid, proc: Proc, locks: Locks, next: Id, c: Id, lease: Option<Handle>, readonly: bool)
    requires LocalOk(p, proc, locks, next) && proc.gatePid == p
    requires c in proc.conns && !InUse(proc, c)
    requires lease == AdmittedLease(proc, c)
    ensures Kept(p, proc, locks, next, Local(Admit(proc, c, lease, readonly), locks, next, Done))
  {
    AdmitUsers(p, proc, locks, c, lease, readonly);
    UnchangedOk(p, proc, locks, next);
    KeptFrom(p, proc, locks, next, proc, Local(Admit(proc, c, lease, readonly), locks, next, Done));
  }

  lemma BeginBorrowKept(p: Pid, proc: Proc, locks: Locks, next: Id, t: Tid, c: Id, i: Id)
    requires LocalOk(p, proc, locks, next) && proc.gatePid == p
    requires c in proc.conns && !InUse(proc, c)
    requires Scope(proc, t) == Some(i) && Lends(proc, p, t, i)
    ensures Kept(p, proc, locks, next,
      Local(Admit(AddBorrow(proc, p, i, next), c, Some(Part(next)), false), locks, next + 1, Done))
  {
    AddBorrowOk(p, proc, locks, next, t, i);
    FreshUnadmitted(p, proc, locks, Part(next));
    assert Part(next) in proc.held ==> Returned(p, proc.leases, proc.borrows, locks, Part(next));
    AdmitUsers(p, AddBorrow(proc, p, i, next), locks, c, Some(Part(next)), false);
    LentKept(p, proc, locks, next, i, Admit(AddBorrow(proc, p, i, next), c, Some(Part(next)), false));
  }

  lemma LentKept(p: Pid, proc: Proc, locks: Locks, next: Id, i: Id, after: Proc)
    requires KernelOk(locks, next) && i in proc.leases
    requires ObjectsOk(p, AddBorrow(proc, p, i, next), locks, next + 1) && UsersOk(p, after, locks)
    requires after == AddBorrow(proc, p, i, next).(admissions := after.admissions, conns := after.conns)
    requires after.conns.Keys == proc.conns.Keys
    ensures Kept(p, proc, locks, next, Local(after, locks, next + 1, Done))
  {
  }

  lemma BeginKept(p: Pid, proc: Proc, locks: Locks, next: Id, t: Tid, c: Id, option: ReadOption)
    requires LocalOk(p, proc, locks, next) && t !in proc.pending
    ensures Kept(p, proc, locks, next, Begin(proc, locks, next, p, t, c, option))
  {
    var r := Begin(proc, locks, next, p, t, c, option);
    if r.proc == proc {
      UnchangedOk(p, proc, locks, next);
      ClosedKept(p, proc, locks, next, r);
    } else if AdmittedLease(proc, c).Some? || option == Sentinel {
      AdmitKept(p, proc, locks, next, c, AdmittedLease(proc, c), option == Sentinel);
    } else if Scope(proc, t).Some? {
      BeginBorrowKept(p, proc, locks, next, t, c, Scope(proc, t).value);
    } else {
      OpenKept(p, proc, locks, next, t, false, ForBegin(c));
    }
  }

  // ----------------------------------------------------------- a forked child

  lemma ReleaseAllLocks(p: Pid, locks: Locks, next: Id, ids: set<Id>)
    requires KernelOk(locks, next)
    ensures KernelOk(ReleaseAll(locks, ids, p), next) && Framed(p, locks, ReleaseAll(locks, ids, p), next)
  {
  }

  lemma AfterForkObjects(p: Pid, proc: Proc, locks: Locks, next: Id, t: Tid)
    requires ObjectsOk(p, proc, locks, next) && !proc.awake
    ensures ObjectsOk(p, AfterFork(proc, locks, next, p, t).proc, ReleaseAll(locks, OpenLeases(proc), p), next)
  {
    var r := AfterFork(proc, locks, next, p, t);
    assert NoStrayDescriptors(p, r.proc.leases, r.locks);
    assert CountsOk(p, r.proc.leases, r.proc.borrows);
  }

  lemma AfterForkUsers(p: Pid, proc: Proc, locks: Locks, next: Id, t: Tid)
    requires UsersOk(p, proc, locks) && !proc.awake
    ensures UsersOk(p, AfterFork(proc, locks, next, p, t).proc, ReleaseAll(locks, OpenLeases(proc), p))
  {
    var r := AfterFork(proc, locks, next, p, t);
    assert Persists(p, proc.leases, r.proc.leases, locks, r.locks);
    PersistsHeld(p, proc.leases, r.proc.leases, proc.borrows, proc.borrows, locks, r.locks, proc.held);
    PersistsScopes(p, proc.leases, r.proc.leases, locks, r.locks, proc.scopes);
    SparedPending(p, proc, r.proc, locks, r.locks);
    assert ScopesOk(p, r.proc.leases, r.locks, r.proc.scopes);
  }

  lemma AfterForkKept(p: Pid, proc: Proc, locks: Locks, next: Id, t: Tid)
    requires LocalOk(p, proc, locks, next) && !proc.awake
    ensures Kept(p, proc, locks, next, AfterFork(proc, locks, next, p, t))
  {
    AfterForkObjects(p, proc, locks, next, t);
    AfterForkUsers(p, proc, locks, next, t);
    ReleaseAllLocks(p, locks, next, OpenLeases(proc));
  }

  // ---------------------------------------------------------------- any action

  lemma ActKept(p: Pid, t: Tid, proc: Proc, locks: Locks, next: Id, a: Action)
    requires LocalOk(p, proc, locks, next)
    ensures Kept(p, proc, locks, next, Act(proc, locks, next, p, t, a))
  {
    if !Ready(proc, t, a) || a.DoExecute? || (a.DoFlock? && t !in proc.pending) {
      UnchangedOk(p, proc, locks, next);
      ClosedKept(p, proc, locks, next, Act(proc, locks, next, p, t, a));
    } else {
      match a
      case DoAcquire(exclusive) => AcquireKept(p, proc, locks, next, t, exclusive);
      case DoFlock => FlockKept(p, proc, locks, next, t);
      case DoClose(h) => CloseKept(p, proc, locks, next, h);
      case DoEnterScope(i) => EnterScopeKept(p, proc, locks, next, t, i);
      case DoExitScope => ExitScopeKept(p, proc, locks, next, t);
      case DoCopyContext(u) => CopyContextKept(p, proc, locks, next, t, u);
      case DoConnect => ConnectKept(p, proc, locks, next);
      case DoReconnect(c) => ReconnectKept(p, proc, locks, next, c);
      case DoBegin(c, option) => BeginKept(p, proc, locks, next, t, c, option);
      case DoEndTransaction(c) => EndTransactionKept(p, proc, locks, next, c);
      case DoCheckin(c) => CheckinKept(p, proc, locks, next, c);
      case DoReconstruct => ReconstructKept(p, proc, locks, next);
      case DoAfterFork => AfterForkKept(p, proc, locks, next, t);
    }
  }
}
