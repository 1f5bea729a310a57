/**
 The lease classes and the engine's connection listeners as the code runs them: objects whose
 fields are assigned, a lock table, and dictionaries that are reassigned.  Every method is tied
 to the function of the same step in the protocol.
*/
module LeaseObjects {
  import opened Basics
  import opened LeaseProtocol

  class LockTable {
    var locks: Locks
    var next: Id

    constructor ()
      ensures locks == map[] && next == 0
    {
      locks, next := map[], 0;
    }
  }

  class LeaseObject {
    const id: Id
    const gate: nat
    const exclusive: bool
    const pid: Pid
    const thread: Tid
    var closed: bool
    var closing: bool
    var borrowers: int

    function Value(): Lease
      reads this
    {
      Lease(gate, exclusive, pid, thread, closed, closing, borrowers)
    }

    // `_Lease.__init__`: one new open file description of the lock file.
    constructor (table: LockTable, gate: nat, exclusive: bool, pid: Pid, thread: Tid)
      modifies table
      ensures id == old(table.next) && table.next == old(table.next) + 1
      ensures Value() == Lease(gate, exclusive, pid, thread, false, false, 0)
      ensures table.locks == old(table.locks)[id := Description(pid, {pid}, Unlocked)]
    {
      this.id, this.gate, this.exclusive, this.pid, this.thread := table.next, gate, exclusive, pid, thread;
      closed, closing, borrowers := false, false, 0;
      new;
      table.locks := table.locks[id := Description(pid, {pid}, Unlocked)];
      table.next := table.next + 1;
    }

    method CloseDescriptor(table: LockTable)
      modifies this`closed, table`locks
      ensures Value() == old(Value()).(closed := true)
      ensures table.locks == Release(old(table.locks), id, pid)
    {
      closed := true;
      table.locks := Release(table.locks, id, pid);
    }

    method Close(table: LockTable, current: Pid) returns (out: Outcome)
      modifies this, table`locks
      ensures var r := LeaseClose(old(Value()), current);
        && Value() == r.0 && out == r.2
        && table.locks == if r.1 then Release(old(table.locks), id, current) else old(table.locks)
    {
      if pid != current { return Stopped; }
      if closed { return Done; }
      if borrowers != 0 {
        closing := true;
        return Stopped;
      }
      CloseDescriptor(table);
      out := Done;
    }

    // flock(LOCK_NB) on this lease's description.
    method TryLock(table: LockTable) returns (granted: bool)
      requires id in table.locks
      modifies table`locks
      ensures granted <==> Grantable(old(table.locks), id, exclusive)
      ensures table.locks == if granted
        then old(table.locks)[id := old(table.locks)[id].(lock := if exclusive then Exclusive else Shared)]
        else old(table.locks)
    {
      granted := Grantable(table.locks, id, exclusive);
      if granted {
        table.locks := table.locks[id := table.locks[id].(lock := if exclusive then Exclusive else Shared)];
      }
    }
  }

  class BorrowObject {
    const id: Id
    const owner: LeaseObject
    const pid: Pid
    var closed: bool

    function Value(): Borrow
      reads this
    {
      Borrow(owner.id, pid, closed)
    }

    // `_BorrowedLease.__init__` after `owner.check()` passed.
    constructor (id: Id, owner: LeaseObject, pid: Pid)
      requires Usable(owner.Value(), pid)
      modifies owner`borrowers
      ensures this.id == id && this.owner == owner && Value() == Borrow(owner.id, pid, false)
      ensures owner.Value() == old(owner.Value()).(borrowers := old(owner.borrowers) + 1)
    {
      this.id, this.owner, this.pid, closed := id, owner, pid, false;
      new;
      owner.borrowers := owner.borrowers + 1;
    }

    method Close(table: LockTable, current: Pid) returns (out: Outcome)
      requires owner.pid == pid
      modifies this`closed, owner, table`locks
      ensures var r := BorrowClose(old(Value()), old(owner.Value()), current);
        && Value() == r.0 && owner.Value() == r.1 && out == r.3
        && table.locks == if r.2 then Release(old(table.locks), owner.id, current) else old(table.locks)
    {
      if pid != current { return Stopped; }
      if !closed {
        closed := true;
        owner.borrowers := owner.borrowers - 1;
        if owner.closing && owner.borrowers == 0 {
          owner.CloseDescriptor(table);
        }
      }
      out := Done;
    }
  }

  // `_acquire` without an interruption between opening and locking.
  function Uninterrupted(r: Local, p: Pid, t: Tid): Local {
    if t in r.proc.pending then Flock(r.proc, r.locks, r.next, p, t) else r
  }

  // Opening and locking in one go: the lease stays, closed again if the lock was refused.
  function NewLease(locks: Locks, i: Id, gate: nat, p: Pid, t: Tid, exclusive: bool): (Lease, Locks, bool) {
    var withFile := locks[i := Description(p, {p}, Unlocked)];
    var granted := Grantable(withFile, i, exclusive);
    (Lease(gate, exclusive, p, t, !granted, false, 0),
     if granted then withFile[i := Description(p, {p}, if exclusive then Exclusive else Shared)]
     else Release(withFile, i, p),
     granted)
  }

  function OpenAndLock(proc: Proc, locks: Locks, next: Id, p: Pid, t: Tid, exclusive: bool): (Proc, Locks, bool) {
    var r := NewLease(locks, next, proc.gate, p, t, exclusive);
    (proc.(leases := proc.leases[next := r.0]), r.1, r.2)
  }

  method AcquireNew(table: LockTable, gate: nat, exclusive: bool, p: Pid, t: Tid) returns (lease: LeaseObject, granted: bool)
    modifies table
    ensures fresh(lease) && lease.id == old(table.next) && table.next == old(table.next) + 1
    ensures (lease.Value(), table.locks, granted) == NewLease(old(table.locks), old(table.next), gate, p, t, exclusive)
  {
    lease := new LeaseObject(table, gate, exclusive, p, t);
    granted := lease.TryLock(table);
    if !granted {
      var _ := lease.Close(table, p);
    }
  }

  lemma UninterruptedOpen(proc: Proc, locks: Locks, next: Id, p: Pid, t: Tid, exclusive: bool, purpose: Purpose)
    requires proc.pending == map[] && (purpose.ForBegin? ==> purpose.conn in proc.conns)
    ensures var r := Uninterrupted(Open(proc, locks, next, p, t, exclusive, purpose), p, t);
      var s := OpenAndLock(proc, locks, next, p, t, exclusive);
      && r.locks == s.1 && r.next == next + 1
      && r.outcome == (if s.2 then Done else Busy)
      && r.proc == (if !s.2 then s.0
                    else match purpose
                         case ForScope => s.0.(held := proc.held + {Whole(next)})
                         case ForBegin(c) => Admit(s.0, c, Some(Whole(next)), false))
  {
    var withFile := Open(proc, locks, next, p, t, exclusive, purpose);
    assert Pop(withFile.proc.pending, t) == map[];
    var l := Lease(proc.gate, exclusive, p, t, false, false, 0);
    assert withFile.proc.leases[next := l.(closed := true)] == proc.leases[next := l.(closed := true)];
  }

  /** One process's engine: what `make_engine` closes over, and the objects it can reach. */
  class Engine {
    const table: LockTable
    const gate: nat
    const gatePid: Pid
    const pid: Pid
    var leases: map<Id, LeaseObject>
    var borrows: map<Id, BorrowObject>
    var scopes: map<Tid, seq<Option<Id>>>
    var held: set<Handle>
    var conns: map<Id, Conn>
    var admissions: map<Id, Admission>

    constructor (table: LockTable, gate: nat, pid: Pid)
      ensures this.table == table && this.gate == gate && this.pid == pid
      ensures Valid() && Memory() == NEW_PROC.(gate := gate, gatePid := pid)
    {
      this.table, this.gate, this.gatePid, this.pid := table, gate, pid, pid;
      leases, borrows, scopes, held, conns, admissions := map[], map[], map[], {}, map[], map[];
    }

    // Every object is filed under its own id, and a borrow's owner is filed too.
    ghost predicate Valid()
      reads this, table
    {
      && (forall i :: i in leases ==> leases[i].id == i && i < table.next)
      && (forall b :: b in borrows ==>
            && borrows[b].id == b && b < table.next
            && borrows[b].owner.id in leases && leases[borrows[b].owner.id] == borrows[b].owner
            && borrows[b].owner.pid == borrows[b].pid)
    }

    ghost function LeaseValues(): map<Id, Lease>
      reads this`leases, leases.Values
    {
      map i | i in leases :: leases[i].Value()
    }

    ghost function BorrowValues(): map<Id, Borrow>
      reads this`borrows, borrows.Values
    {
      map b | b in borrows :: borrows[b].Value()
    }

    // The protocol's view of this process between two calls.
    ghost function Memory(): Proc
      reads this, leases.Values, borrows.Values
    {
      Proc(gate, gatePid, true, LeaseValues(), BorrowValues(), scopes, map[], held, conns, admissions)
    }

    function CurrentScope(t: Tid): Option<Id>
      reads this
    {
      if t in scopes && scopes[t] != [] then scopes[t][|scopes[t]| - 1] else None
    }

    // `owner.check()` and the thread comparison.
    method CanLend(t: Tid, i: Id) returns (ok: bool)
      ensures ok == Lends(Memory(), pid, t, i)
    {
      ok := i in leases && Usable(leases[i].Value(), pid) && leases[i].thread == t;
    }

    method CheckLease(t: Tid, h: Handle) returns (ok: bool)
      ensures ok == LeaseAccepted(Memory(), pid, t, h)
    {
      match h
      case Whole(i) =>
        ok := i in leases && !leases[i].exclusive && leases[i].gate == gate && Usable(leases[i].Value(), pid);
      case Part(b) =>
        if b !in borrows || borrows[b].closed || borrows[b].pid != gatePid || CurrentScope(t) != Some(borrows[b].owner.id) {
          return false;
        }
        ok := CanLend(t, borrows[b].owner.id);
    }

    method Lend(i: Id) returns (b: Id)
      requires Valid() && i in leases && Usable(leases[i].Value(), pid)
      modifies this`borrows, table`next, leases.Values
      ensures Valid() && leases == old(leases) && b == old(table.next) && table.next == old(table.next) + 1
      ensures Memory() == AddBorrow(old(Memory()), pid, i, b)
    {
      b := table.next;
      table.next := table.next + 1;
      var borrow := new BorrowObject(b, leases[i], pid);
      borrows := borrows[b := borrow];
      assert BorrowValues() == old(BorrowValues())[b := Borrow(i, pid, false)];
      assert forall j :: j in leases && j != i ==> leases[j] != leases[i];
      assert LeaseValues() == old(LeaseValues())[i := old(leases[i].Value()).(borrowers := old(leases[i].borrowers) + 1)];
    }

    method OpenLease(t: Tid, exclusive: bool) returns (i: Id, granted: bool)
      requires Valid()
      modifies this`leases, table
      ensures Valid() && i == old(table.next) && table.next == old(table.next) + 1 && borrows == old(borrows)
      ensures (Memory(), table.locks, granted) == OpenAndLock(old(Memory()), old(table.locks), i, pid, t, exclusive)
    {
      var lease;
      lease, granted := AcquireNew(table, gate, exclusive, pid, t);
      i := lease.id;
      leases := leases[i := lease];
      assert LeaseValues() == old(LeaseValues())[i := lease.Value()];
      assert BorrowValues() == old(BorrowValues());
    }

    // `_acquire()` for a transaction: a borrow of the current owner, or a new shared lease.
    method AcquireWriter(t: Tid, ghost c: Id) returns (lease: Option<Handle>, out: Outcome)
      requires Valid() && c in conns && gatePid == pid
      modifies this`leases, this`borrows, table, leases.Values
      ensures Valid()
      ensures out == Done <==> lease.Some?
      ensures var was := old(Memory());
        Local(if lease.Some? then Admit(Memory(), c, lease, false) else Memory(), table.locks, table.next, out) ==
          if Scope(was, t).None? then
            Uninterrupted(Open(was, old(table.locks), old(table.next), pid, t, false, ForBegin(c)), pid, t)
          else if Lends(was, pid, t, Scope(was, t).value) then
            Local(Admit(AddBorrow(was, pid, Scope(was, t).value, old(table.next)), c, Some(Part(old(table.next))), false),
                  old(table.locks), old(table.next) + 1, Done)
          else Local(was, old(table.locks), old(table.next), Stopped)
    {
      var owner := CurrentScope(t);
      if owner.Some? {
        var lends := CanLend(t, owner.value);
        if !lends { return None, Stopped; }
        var b := Lend(owner.value);
        return Some(Part(b)), Done;
      }
      UninterruptedOpen(Memory(), table.locks, table.next, pid, t, false, ForBegin(c));
      var i, granted := OpenLease(t, false);
      if granted { return Some(Whole(i)), Done; }
      return None, Busy;
    }

    method StoreAdmission(c: Id, lease: Option<Handle>, readonly: bool)
      requires Valid() && c in conns
      modifies this`admissions, this`conns
      ensures Valid() && Memory() == Admit(old(Memory()), c, lease, readonly)
    {
      admissions := admissions[c := Admission(conns[c].dbapi, lease, readonly)];
      conns := conns[c := conns[c].(infoLease := lease, inTransaction := true, queryOnly := readonly)];
    }

    // The "begin" listeners.
    method Begin(t: Tid, c: Id, option: ReadOption) returns (out: Outcome)
      requires Valid() && c in conns
      modifies this, table, leases.Values
      ensures Valid()
      ensures Local(Memory(), table.locks, table.next, out) ==
              Uninterrupted(LeaseProtocol.Begin(old(Memory()), old(table.locks), old(table.next), pid, t, c, option), pid, t)
    {
      assert !InUse(Memory(), c);
      if gatePid != pid || option == Forged { return Stopped; }
      var lease := if c in admissions then admissions[c].lease else None;
      if (c in admissions && admissions[c].dbapi != conns[c].dbapi) || conns[c].infoLease != lease { return Stopped; }
      var readonly := option == Sentinel;
      if lease.Some? {
        var accepted := CheckLease(t, lease.value);
        if !accepted { return Stopped; }
      } else if !readonly {
        lease, out := AcquireWriter(t, c);
        if out != Done { return; }
      }
      StoreAdmission(c, lease, readonly);
      out := Done;
    }

    // The "before_cursor_execute" listener.
    method Execute(t: Tid, c: Id, option: ReadOption) returns (admitted: bool)
      requires c in conns
      ensures admitted == Admitted(Memory(), pid, t, c, option)
    {
      if gatePid != pid || c !in admissions || admissions[c].dbapi != conns[c].dbapi || !conns[c].inTransaction {
        return false;
      }
      if admissions[c].readonly {
        return option == Sentinel && conns[c].queryOnly;
      }
      var lease := admissions[c].lease;
      if lease == None || conns[c].infoLease != lease { return false; }
      admitted := CheckLease(t, lease.value);
    }

    method CloseWhole(i: Id) returns (out: Outcome)
      requires Valid() && i in leases
      modifies leases.Values, table`locks
      ensures Valid()
      ensures (Memory(), table.locks, out) == LeaseProtocol.CloseHandle(old(Memory()), old(table.locks), pid, Whole(i))
    {
      out := leases[i].Close(table, pid);
      assert forall j :: j in leases && j != i ==> leases[j] != leases[i];
      assert LeaseValues() == old(LeaseValues())[i := leases[i].Value()];
      assert BorrowValues() == old(BorrowValues());
    }

    method ClosePart(b: Id) returns (out: Outcome)
      requires Valid() && b in borrows
      modifies leases.Values, borrows.Values, table`locks
      ensures Valid()
      ensures (Memory(), table.locks, out) == LeaseProtocol.CloseHandle(old(Memory()), old(table.locks), pid, Part(b))
    {
      var i := borrows[b].owner.id;
      out := borrows[b].Close(table, pid);
      assert forall j :: j in leases && j != i ==> leases[j] != leases[i];
      assert forall x :: x in borrows && x != b ==> borrows[x] != borrows[b];
      assert LeaseValues() == old(LeaseValues())[i := leases[i].Value()];
      assert BorrowValues() == old(BorrowValues())[b := borrows[b].Value()];
    }

    method PopAdmission(c: Id) returns (lease: Option<Handle>)
      requires Valid() && c in conns
      modifies this`admissions, this`conns
      ensures Valid() && lease == AdmittedLease(old(Memory()), c) && Memory() == Popped(old(Memory()), c)
    {
      lease := if c in admissions then admissions[c].lease else None;
      admissions := map d | d in admissions && d != c :: admissions[d];
      conns := conns[c := conns[c].(infoLease := None, inTransaction := false, queryOnly := false)];
    }

    // The pool's "checkin" listener.
    method Checkin(c: Id) returns (out: Outcome)
      requires Valid() && c in conns
      requires c in admissions && admissions[c].lease.Some? ==>
        match admissions[c].lease.value case Whole(i) => i in leases case Part(b) => b in borrows
      modifies this`admissions, this`conns, table`locks, leases.Values, borrows.Values
      ensures Valid()
      ensures Local(Memory(), table.locks, table.next, out) ==
              LeaseProtocol.Checkin(old(Memory()), old(table.locks), old(table.next), pid, c)
    {
      assert !InUse(Memory(), c);
      if gatePid != pid { return Stopped; }
      var lease := PopAdmission(c);
      out := Done;
      if lease.Some? {
        match lease.value
        case Whole(i) => out := CloseWhole(i);
        case Part(b) => out := ClosePart(b);
      }
    }
  }
}
