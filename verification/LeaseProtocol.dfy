/**
 Writer admission and maintenance leases as a step system over processes and threads.

 The kernel side is an advisory lock table.  Every lease opens the lock file once, so an open
 file description is named by the id of the lease that opened it; a description is shared by
 every process that still holds a descriptor for it (a fork copies descriptors), and its lock
 disappears with the last descriptor.  Process memory is copied by a fork as well.

 Each action below is one critical section of the Python code; acquisition is split where the
 code leaves the registry lock, between opening the file and asking for the lock.
*/
module LeaseProtocol {
  import opened Basics

  type Pid = nat
  type Tid = nat
  type Id = nat

  datatype Lock = Unlocked | Shared | Exclusive

  datatype Description = Description(owner: Pid, holders: set<Pid>, lock: Lock)

  type Locks = map<Id, Description>

  // `_Lease`: the fields the Python object has, without the descriptor number (it is the id).
  datatype Lease = Lease(
    gate: nat, exclusive: bool, pid: Pid, thread: Tid,
    closed: bool, closing: bool, borrowers: int)

  // `_BorrowedLease`
  datatype Borrow = Borrow(owner: Id, pid: Pid, closed: bool)

  datatype Handle = Whole(lease: Id) | Part(borrow: Id)

  // The value stored in `admissions` for one connection, and the connection itself.
  datatype Admission = Admission(dbapi: nat, lease: Option<Handle>, readonly: bool)

  datatype Conn = Conn(dbapi: nat, infoLease: Option<Handle>, inTransaction: bool, queryOnly: bool)

  datatype Purpose = ForScope | ForBegin(conn: Id)

  // A thread between os.open and flock inside `_acquire`.
  datatype Pending = Pending(lease: Id, purpose: Purpose)

  // The `scratch_readonly` execution option: absent, the private sentinel, or anything else.
  datatype ReadOption = Absent | Sentinel | Forged

  datatype Outcome = Done | Busy | Stopped | Ignored

  // One process: its gate object, lease objects, context variables, engine and pool.
  // `held` are the handles returned to `with` blocks; all other handles belong to admissions.
  datatype Proc = Proc(
    gate: nat, gatePid: Pid, awake: bool,
    leases: map<Id, Lease>, borrows: map<Id, Borrow>,
    scopes: map<Tid, seq<Option<Id>>>, pending: map<Tid, Pending>, held: set<Handle>,
    conns: map<Id, Conn>, admissions: map<Id, Admission>)

  datatype Local = Local(proc: Proc, locks: Locks, next: Id, outcome: Outcome)

  // ---------------------------------------------------------------- objects

  predicate Usable(l: Lease, p: Pid) {
    l.pid == p && !l.closed && !l.closing
  }

  // `_Lease.close`: the new object, whether the descriptor was closed, and the outcome.
  function LeaseClose(l: Lease, p: Pid): (Lease, bool, Outcome) {
    if l.pid != p then (l, false, Stopped)
    else if l.closed then (l, false, Done)
    else if l.borrowers != 0 then (l.(closing := true), false, Stopped)
    else (l.(closed := true), true, Done)
  }

  // `_BorrowedLease.close`
  function BorrowClose(b: Borrow, o: Lease, p: Pid): (Borrow, Lease, bool, Outcome) {
    if b.pid != p then (b, o, false, Stopped)
    else if b.closed then (b, o, false, Done)
    else
      var o' := o.(borrowers := o.borrowers - 1);
      if o'.closing && o'.borrowers == 0
      then (b.(closed := true), o'.(closed := true), true, Done)
      else (b.(closed := true), o', false, Done)
  }

  // ----------------------------------------------------------------- kernel

  // os.close of one process's descriptor.
  function Release(locks: Locks, i: Id, p: Pid): Locks {
    if i !in locks then locks
    else
      var rest := locks[i].holders - {p};
      if rest == {} then map j | j in locks && j != i :: locks[j]
      else locks[i := locks[i].(holders := rest)]
  }

  // Whether flock(LOCK_NB) on description i succeeds.
  predicate Grantable(locks: Locks, i: Id, exclusive: bool) {
    forall j :: j in locks && j != i ==>
      locks[j].lock != Exclusive && (exclusive ==> locks[j].lock == Unlocked)
  }

  // ---------------------------------------------------- operations of a process

  function Scope(proc: Proc, t: Tid): Option<Id> {
    if t in proc.scopes && proc.scopes[t] != [] then proc.scopes[t][|proc.scopes[t]| - 1] else None
  }

  // Whether the current owner scope may lend itself to thread t (lines 260-265 of the gate).
  predicate Lends(proc: Proc, p: Pid, t: Tid, i: Id) {
    i in proc.leases && Usable(proc.leases[i], p) && proc.leases[i].thread == t
  }

  function AddBorrow(proc: Proc, p: Pid, i: Id, b: Id): Proc
    requires i in proc.leases
  {
    proc.(borrows := proc.borrows[b := Borrow(i, p, false)],
          leases := proc.leases[i := proc.leases[i].(borrowers := proc.leases[i].borrowers + 1)])
  }

  function Open(proc: Proc, locks: Locks, next: Id, p: Pid, t: Tid, exclusive: bool, purpose: Purpose): Local {
    Local(proc.(leases := proc.leases[next := Lease(proc.gate, exclusive, p, t, false, false, 0)],
                pending := proc.pending[t := Pending(next, purpose)]),
          locks[next := Description(p, {p}, Unlocked)], next + 1, Done)
  }

  // `writer()` and `maintenance()`: `_acquire` for a `with` block.
  function Acquire(proc: Proc, locks: Locks, next: Id, p: Pid, t: Tid, exclusive: bool): Local {
    if proc.gatePid != p then Local(proc, locks, next, Stopped)
    else if !exclusive && Scope(proc, t).Some? then
      var i := Scope(proc, t).value;
      if !Lends(proc, p, t, i) then Local(proc, locks, next, Stopped)
      else
        Local(AddBorrow(proc, p, i, next).(held := proc.held + {Part(next)}), locks, next + 1, Done)
    else Open(proc, locks, next, p, t, exclusive, ForScope)
  }

  // `_admit_transaction` stores its evidence and the driver begins the transaction.
  function Admit(proc: Proc, c: Id, lease: Option<Handle>, readonly: bool): Proc
    requires c in proc.conns
  {
    proc.(admissions := proc.admissions[c := Admission(proc.conns[c].dbapi, lease, readonly)],
          conns := proc.conns[c := proc.conns[c].(infoLease := lease, inTransaction := true, queryOnly := readonly)])
  }

  function Pop(pending: map<Tid, Pending>, t: Tid): map<Tid, Pending> {
    map u | u in pending && u != t :: pending[u]
  }

  // flock on the description opened by this thread; a refused lease is closed again.
  function Flock(proc: Proc, locks: Locks, next: Id, p: Pid, t: Tid): Local {
    if t !in proc.pending || proc.pending[t].lease !in proc.leases || proc.pending[t].lease !in locks then
      Local(proc, locks, next, Ignored)
    else
      var i := proc.pending[t].lease;
      var rest := proc.(pending := Pop(proc.pending, t));
      if !Grantable(locks, i, proc.leases[i].exclusive) then
        var closed := LeaseClose(proc.leases[i], p);
        Local(rest.(leases := proc.leases[i := closed.0]),
              if closed.1 then Release(locks, i, p) else locks, next, Busy)
      else
        var locks' := locks[i := locks[i].(lock := if proc.leases[i].exclusive then Exclusive else Shared)];
        match proc.pending[t].purpose
        case ForScope => Local(rest.(held := proc.held + {Whole(i)}), locks', next, Done)
        case ForBegin(c) =>
          if c in proc.conns
          then Local(Admit(rest, c, Some(Whole(i)), false), locks', next, Done)
          else Local(proc, locks, next, Ignored)
  }

  // `_check_lease`
  predicate LeaseAccepted(proc: Proc, p: Pid, t: Tid, h: Handle) {
    match h
    case Whole(i) =>
      i in proc.leases && !proc.leases[i].exclusive && proc.leases[i].gate == proc.gate && Usable(proc.leases[i], p)
    case Part(b) =>
      b in proc.borrows && !proc.borrows[b].closed && proc.borrows[b].pid == proc.gatePid
      && Scope(proc, t) == Some(proc.borrows[b].owner) && Lends(proc, p, t, proc.borrows[b].owner)
  }

  function AdmittedLease(proc: Proc, c: Id): Option<Handle> {
    if c in proc.admissions then proc.admissions[c].lease else None
  }

  predicate InUse(proc: Proc, c: Id) {
    exists t :: t in proc.pending && proc.pending[t].purpose == ForBegin(c)
  }

  // The engine's "begin" listeners.
  function Begin(proc: Proc, locks: Locks, next: Id, p: Pid, t: Tid, c: Id, option: ReadOption): Local {
    if c !in proc.conns || InUse(proc, c) then Local(proc, locks, next, Ignored)
    else if proc.gatePid != p || option == Forged then Local(proc, locks, next, Stopped)
    else
      var conn := proc.conns[c];
      var lease := AdmittedLease(proc, c);
      var readonly := option == Sentinel;
      if (c in proc.admissions && proc.admissions[c].dbapi != conn.dbapi) || conn.infoLease != lease then
        Local(proc, locks, next, Stopped)
      else if lease.Some? then
        if LeaseAccepted(proc, p, t, lease.value)
        then Local(Admit(proc, c, lease, readonly), locks, next, Done)
        else Local(proc, locks, next, Stopped)
      else if readonly then Local(Admit(proc, c, None, true), locks, next, Done)
      else if Scope(proc, t).Some? then
        var i := Scope(proc, t).value;
        if !Lends(proc, p, t, i) then Local(proc, locks, next, Stopped)
        else Local(Admit(AddBorrow(proc, p, i, next), c, Some(Part(next)), false), locks, next + 1, Done)
      else Open(proc, locks, next, p, t, false, ForBegin(c))
  }

  // The "before_cursor_execute" listener: whether this statement may run.
  predicate Admitted(proc: Proc, p: Pid, t: Tid, c: Id, option: ReadOption) {
    && proc.gatePid == p && c in proc.conns && c in proc.admissions
    && proc.admissions[c].dbapi == proc.conns[c].dbapi && proc.conns[c].inTransaction
    && if proc.admissions[c].readonly then option == Sentinel && proc.conns[c].queryOnly
       else
         && proc.admissions[c].lease.Some?
         && proc.conns[c].infoLease == proc.admissions[c].lease
         && LeaseAccepted(proc, p, t, proc.admissions[c].lease.value)
  }

  // `lease.close()` on either kind of handle.
  function CloseHandle(proc: Proc, locks: Locks, p: Pid, h: Handle): (Proc, Locks, Outcome) {
    match h
    case Whole(i) =>
      if i !in proc.leases then (proc, locks, Ignored)
      else
        var r := LeaseClose(proc.leases[i], p);
        (proc.(leases := proc.leases[i := r.0]), if r.1 then Release(locks, i, p) else locks, r.2)
    case Part(b) =>
      if b !in proc.borrows || proc.borrows[b].owner !in proc.leases then (proc, locks, Ignored)
      else
        var i := proc.borrows[b].owner;
        var r := BorrowClose(proc.borrows[b], proc.leases[i], p);
        (proc.(borrows := proc.borrows[b := r.0], leases := proc.leases[i := r.1]),
         if r.2 then Release(locks, i, p) else locks, r.3)
  }

  function Close(proc: Proc, locks: Locks, next: Id, p: Pid, h: Handle): Local {
    if h !in proc.held then Local(proc, locks, next, Ignored)
    else
      var r := CloseHandle(proc, locks, p, h);
      Local(r.0, r.1, next, r.2)
  }

  function Popped(proc: Proc, c: Id): Proc
    requires c in proc.conns
  {
    proc.(
      admissions := map d | d in proc.admissions && d != c :: proc.admissions[d],
      conns := proc.conns[c := proc.conns[c].(infoLease := None, inTransaction := false, queryOnly := false)])
  }

  // The pool's "checkin" listener.
  function Checkin(proc: Proc, locks: Locks, next: Id, p: Pid, c: Id): Local {
    if c !in proc.conns || InUse(proc, c) then Local(proc, locks, next, Ignored)
    else if proc.gatePid != p then Local(proc, locks, next, Stopped)
    else
      match AdmittedLease(proc, c)
      case None => Local(Popped(proc, c), locks, next, Done)
      case Some(h) =>
        var r := CloseHandle(Popped(proc, c), locks, p, h);
        Local(r.0, r.1, next, r.2)
  }

  // `write_scope` entry: `check()`, exclusive, own thread.
  function EnterScope(proc: Proc, locks: Locks, next: Id, p: Pid, t: Tid, i: Id): Local {
    if Whole(i) !in proc.held || i !in proc.leases then Local(proc, locks, next, Ignored)
    else if !Usable(proc.leases[i], p) || !proc.leases[i].exclusive || proc.leases[i].thread != t then
      Local(proc, locks, next, Stopped)
    else
      var stack := if t in proc.scopes then proc.scopes[t] else [];
      Local(proc.(scopes := proc.scopes[t := stack + [Some(i)]]), locks, next, Done)
  }

  function ExitScope(proc: Proc, locks: Locks, next: Id, t: Tid): Local {
    if t in proc.scopes && proc.scopes[t] != []
    then Local(proc.(scopes := proc.scopes[t := proc.scopes[t][..|proc.scopes[t]| - 1]]), locks, next, Done)
    else Local(proc, locks, next, Ignored)
  }

  // A context may be copied to another thread (asyncio's thread offloading does this).
  function CopyContext(proc: Proc, locks: Locks, next: Id, t: Tid, to: Tid): Local {
    Local(proc.(scopes := proc.scopes[to := if t in proc.scopes then proc.scopes[t] else []]), locks, next, Done)
  }

  function Connect(proc: Proc, locks: Locks, next: Id, p: Pid): Local {
    if proc.gatePid != p then Local(proc, locks, next, Stopped)
    else Local(proc.(conns := proc.conns[next := Conn(0, None, false, false)]), locks, next + 1, Done)
  }

  // The pool replaces the DBAPI connection of a record: its info is emptied, the table is not told.
  function Reconnect(proc: Proc, locks: Locks, next: Id, c: Id): Local {
    if c !in proc.conns || InUse(proc, c) then Local(proc, locks, next, Ignored)
    else Local(proc.(conns := proc.conns[c := Conn(proc.conns[c].dbapi + 1, None, false, false)]), locks, next, Done)
  }

  function EndTransaction(proc: Proc, locks: Locks, next: Id, p: Pid, c: Id): Local {
    if c !in proc.conns then Local(proc, locks, next, Ignored)
    else if proc.gatePid != p then Local(proc, locks, next, Stopped)
    else Local(proc.(conns := proc.conns[c := proc.conns[c].(inTransaction := false)]), locks, next, Done)
  }

  // After a fork only a freshly constructed gate and engine are usable.
  function Reconstruct(proc: Proc, locks: Locks, next: Id, p: Pid): Local {
    if proc.gatePid == p then Local(proc, locks, next, Ignored)
    else Local(proc.(gate := proc.gate + 1, gatePid := p, conns := map[], admissions := map[]), locks, next, Done)
  }

  // `_after_fork`: close every inherited descriptor that the parent had not closed.
  function ReleaseAll(locks: Locks, ids: set<Id>, p: Pid): Locks {
    map i | i in locks && !(i in ids && locks[i].holders - {p} == {}) ::
      if i in ids then locks[i].(holders := locks[i].holders - {p}) else locks[i]
  }

  function OpenLeases(proc: Proc): set<Id> {
    set i | i in proc.leases && !proc.leases[i].closed
  }

  function AfterFork(proc: Proc, locks: Locks, next: Id, p: Pid, t: Tid): Local {
    var stack := if t in proc.scopes && proc.scopes[t] != [] then proc.scopes[t][..|proc.scopes[t]| - 1] else [];
    Local(proc.(awake := true,
                leases := map i | i in proc.leases :: proc.leases[i].(closed := true),
                scopes := proc.scopes[t := stack + [None]]),
          ReleaseAll(locks, OpenLeases(proc), p), next, Done)
  }

  datatype Action =
    | DoAcquire(exclusive: bool) | DoFlock | DoClose(handle: Handle)
    | DoEnterScope(lease: Id) | DoExitScope | DoCopyContext(to: Tid)
    | DoConnect | DoReconnect(conn: Id) | DoBegin(conn: Id, option: ReadOption)
    | DoExecute(conn: Id, option: ReadOption) | DoEndTransaction(conn: Id) | DoCheckin(conn: Id)
    | DoReconstruct | DoAfterFork

  // A thread inside `_acquire` only continues with its flock; a forked child first runs its handler.
  predicate Ready(proc: Proc, t: Tid, a: Action) {
    && (proc.awake <==> !a.DoAfterFork?)
    && (t in proc.pending ==> a.DoFlock?)
  }

  function Act(proc: Proc, locks: Locks, next: Id, p: Pid, t: Tid, a: Action): Local {
    if !Ready(proc, t, a) then Local(proc, locks, next, Ignored)
    else
      match a
      case DoAcquire(exclusive) => Acquire(proc, locks, next, p, t, exclusive)
      case DoFlock => Flock(proc, locks, next, p, t)
      case DoClose(h) => Close(proc, locks, next, p, h)
      case DoEnterScope(i) => EnterScope(proc, locks, next, p, t, i)
      case DoExitScope => ExitScope(proc, locks, next, t)
      case DoCopyContext(u) => CopyContext(proc, locks, next, t, u)
      case DoConnect => Connect(proc, locks, next, p)
      case DoReconnect(c) => Reconnect(proc, locks, next, c)
      case DoBegin(c, option) => Begin(proc, locks, next, p, t, c, option)
      case DoExecute(c, option) =>
        Local(proc, locks, next, if Admitted(proc, p, t, c, option) then Done else Stopped)
      case DoEndTransaction(c) => EndTransaction(proc, locks, next, p, c)
      case DoCheckin(c) => Checkin(proc, locks, next, p, c)
      case DoReconstruct => Reconstruct(proc, locks, next, p)
      case DoAfterFork => AfterFork(proc, locks, next, p, t)
  }

  // -------------------------------------------------------------------- world

  datatype World = World(procs: map<Pid, Proc>, locks: Locks, next: Id, used: set<Pid>)

  datatype Step =
    | Thread(pid: Pid, tid: Tid, action: Action)
    | Spawn(pid: Pid)
    | Fork(pid: Pid, tid: Tid, child: Pid)
    | Kill(pid: Pid)

  const NEW_PROC := Proc(0, 0, true, map[], map[], map[], map[], {}, map[], map[])

  function Start(): World {
    World(map[], map[], 0, {})
  }

  function ShareDescriptors(locks: Locks, ids: set<Id>, p: Pid): Locks {
    map i | i in locks :: if i in ids then locks[i].(holders := locks[i].holders + {p}) else locks[i]
  }

  // Memory and descriptors are copied; only the forking thread and its context survive.
  function ForkedProc(proc: Proc, t: Tid): Proc {
    proc.(awake := false, pending := map[],
          scopes := map u | u in proc.scopes && u == t :: proc.scopes[u])
  }

  function ReleaseProcess(locks: Locks, p: Pid): Locks {
    ReleaseAll(locks, locks.Keys, p)
  }

  function Next(w: World, s: Step): (World, Outcome) {
    match s
    case Thread(p, t, a) =>
      if p !in w.procs then (w, Ignored)
      else
        var r := Act(w.procs[p], w.locks, w.next, p, t, a);
        (World(w.procs[p := r.proc], r.locks, r.next, w.used), r.outcome)
    case Spawn(p) =>
      if p in w.used then (w, Ignored)
      else (w.(procs := w.procs[p := NEW_PROC.(gatePid := p)], used := w.used + {p}), Done)
    case Fork(p, t, c) =>
      if p !in w.procs || c in w.used || !w.procs[p].awake || t in w.procs[p].pending then (w, Ignored)
      else
        (World(w.procs[c := ForkedProc(w.procs[p], t)],
               ShareDescriptors(w.locks, OpenLeases(w.procs[p]), c), w.next, w.used + {c}), Done)
    case Kill(p) =>
      (w.(procs := map q | q in w.procs && q != p :: w.procs[q], locks := ReleaseProcess(w.locks, p)), Done)
  }

  function Run(w: World, steps: seq<Step>): World {
    if steps == [] then w else Next(Run(w, steps[..|steps| - 1]), steps[|steps| - 1]).0
  }
}
