/** A lock's entry (determ.h): who has used it, whether it is taken, and how often its only user may still take it
    without the token.  mutex_lock in steps, from one access that others may come between to the next. */
module Mutex {
  type Tid = int
  type LockId = int

  const LOCK_OWNER_BUDGET := 10

  datatype Lock = Lock(users: int, last: Tid, acquired: bool, budget: int)

  datatype Tried = Tried(ok: bool, lock: Lock)

  // ---------- the operations, undisturbed ----------

  function IsOwner(e: Lock, pid: Tid): Tried {
    if e.users != 1 then Tried(false, e)
    else if e.last != pid then Tried(false, e.(users := e.users + 1))
    else Tried(true, e)
  }

  /** lock_acquire once it has marked the lock acquired. */
  function Count(e: Lock, pid: Tid, single: bool): Tried {
    if e.users == 0 then Tried(true, e.(last := pid, users := 1, budget := LOCK_OWNER_BUDGET))
    else if e.users == 1 && e.last != pid then Tried(true, e.(users := 2))
    else if e.users == 1 then
      if e.budget != 1 then Tried(true, e.(budget := e.budget - 1))
      else Tried(single, e.(budget := LOCK_OWNER_BUDGET, acquired := single))
    else Tried(true, e)
  }

  function Acquire(e: Lock, pid: Tid, single: bool): Tried {
    if e.acquired then Tried(false, e) else Count(e.(acquired := true), pid, single)
  }

  function Release(e: Lock): Lock {
    e.(acquired := false)
  }

  class LockEntry {
    var total_users: int
    var last_thread: Tid
    var is_acquired: bool
    var lock_budget: int

    function Value(): Lock
      reads this
    {
      Lock(total_users, last_thread, is_acquired, lock_budget)
    }

    /** lock_init, which leaves the budget as it finds it. */
    constructor (unset: int)
      ensures Value() == Lock(0, 0, false, unset)
    {
      total_users, last_thread, is_acquired, lock_budget := 0, 0, false, unset;
    }

    method TryAcquire(pid: Tid, single: bool) returns (result: bool)
      modifies this
      ensures Tried(result, Value()) == Acquire(old(Value()), pid, single)
    {
      result := true;
      if is_acquired { return false; }
      is_acquired := true;
      if total_users == 0 {
        last_thread, total_users, lock_budget := pid, 1, LOCK_OWNER_BUDGET;
      } else if total_users == 1 {
        if last_thread != pid {
          total_users := total_users + 1;
        } else {
          lock_budget := lock_budget - 1;
          if lock_budget == 0 {
            lock_budget := LOCK_OWNER_BUDGET;
            if !single {
              result := false;
              is_acquired := false;
            }
          }
        }
      }
    }
  }

  // ---------- the budget ----------

  /** A new lock taken once and released, by its first user. */
  function FirstUse(pid: Tid, single: bool, unset: int): Lock {
    Release(Acquire(Lock(0, 0, false, unset), pid, single).lock)
  }

  /** The lock after the owner has tried to take it k times more, releasing it whenever it got it. */
  function Reuse(pid: Tid, single: bool, unset: int, k: nat): Lock {
    if k == 0 then FirstUse(pid, single, unset) else Release(Acquire(Reuse(pid, single, unset, k - 1), pid, single).lock)
  }

  lemma {:induction false} ReuseBudget(pid: Tid, single: bool, unset: int, k: nat)
    ensures Reuse(pid, single, unset, k) == Lock(1, pid, false, LOCK_OWNER_BUDGET - k % LOCK_OWNER_BUDGET)
  {
    if k > 0 { ReuseBudget(pid, single, unset, k - 1); }
  }

  /** The sole owner is refused its k-th re-acquisition exactly when the budget is used up and others run; and it stays
      the owner, and nobody else is. */
  lemma BudgetRefuses(pid: Tid, single: bool, unset: int, k: nat, t: Tid)
    requires k >= 1
    ensures !Acquire(Reuse(pid, single, unset, k - 1), pid, single).ok <==> k % LOCK_OWNER_BUDGET == 0 && !single
    ensures IsOwner(Reuse(pid, single, unset, k), t).ok <==> t == pid
  {
    ReuseBudget(pid, single, unset, k - 1);
    ReuseBudget(pid, single, unset, k);
  }

  /** A lock that p has taken refuses everybody, and does not change by that, until it is released; then it refuses
      nobody but an owner without budget. */
  lemma TakenUntilReleased(e: Lock, p: Tid, q: Tid, single: bool)
    requires Acquire(e, p, single).ok
    ensures var l := Acquire(e, p, single).lock;
            && Acquire(l, q, single) == Tried(false, l)
            && (Acquire(Release(l), q, single).ok <==> single || !(l.users == 1 && l.last == q && l.budget == 1))
  {
  }

  // ---------- mutex_lock, access by access ----------

  /** Where a thread is in mutex_lock of the lock m: it has seen one user and looks who; it is not the one and is about
      to read the number of users, or to write it back plus one; it needs the token; it is about to test
      is_acquired, to set it, or to count itself in, on the way of owners and single threads or on that of the
      token; it was refused with the token in hand. */
  datatype Pc = Idle | Looks(m: LockId) | Bumps(m: LockId) | Writes(m: LockId, v: int) | Wants(m: LockId)
              | Tests(m: LockId, fast: bool) | Sets(m: LockId, fast: bool) | Counts(m: LockId, fast: bool) | Denied(m: LockId)

  datatype Accessed = Accessed(lock: Lock, pc: Pc, got: bool)

  /** The call itself: the first look at total_users. */
  function Enter(e: Lock, single: bool, m: LockId): Pc {
    if e.users == 1 then Looks(m) else if single then Tests(m, true) else Wants(m)
  }

  function Refused(m: LockId, fast: bool): Pc {
    if fast then Wants(m) else Denied(m)
  }

  /** The next access of thread t to the lock. */
  function Access(e: Lock, t: Tid, single: bool, pc: Pc): Accessed
    requires !pc.Idle?
  {
    match pc
    case Looks(m) => Accessed(e, if e.last == t then Tests(m, true) else Bumps(m), false)
    case Bumps(m) => Accessed(e, Writes(m, e.users), false)
    case Writes(m, v) => Accessed(e.(users := v + 1), if single then Tests(m, true) else Wants(m), false)
    case Wants(m) => Accessed(e, Tests(m, false), false)
    case Tests(m, fast) => Accessed(e, if e.acquired then Refused(m, fast) else Sets(m, fast), false)
    case Sets(m, fast) => Accessed(e.(acquired := true), Counts(m, fast), false)
    case Counts(m, fast) => var r := Count(e, t, single); Accessed(r.lock, if r.ok then Idle else Refused(m, fast), r.ok)
    case Denied(m) => Accessed(e, pc, false)
  }

  ghost predicate Acquiring(pc: Pc) {
    pc.Tests? || pc.Sets? || pc.Counts?
  }

  /** What n accesses come to if nobody else touches the lock. */
  function Undisturbed(e: Lock, t: Tid, single: bool, pc: Pc, n: nat): Accessed
    decreases n
  {
    if n == 0 || pc.Idle? then Accessed(e, pc, false) else
      var r := Access(e, t, single, pc);
      if r.got then r else Undisturbed(r.lock, t, single, r.pc, n - 1)
  }

  /** Undisturbed, the first accesses do what lock_isowner does as a whole, and send owners and single threads to
      lock_acquire at once and all others for the token. */
  lemma OwnerSteps(e: Lock, t: Tid, single: bool, m: LockId)
    ensures var n := if e.users != 1 then 0 else if e.last == t then 1 else 3;
            var r := Undisturbed(e, t, single, Enter(e, single, m), n);
            && r.lock == IsOwner(e, t).lock && !r.got
            && r.pc == if IsOwner(e, t).ok || single then Tests(m, true) else Wants(m)
  {
    var r := Access(e, t, single, Looks(m));
    if e.users == 1 && e.last != t {
      var q := Access(r.lock, t, single, r.pc);
      assert Undisturbed(q.lock, t, single, q.pc, 1) == Access(q.lock, t, single, q.pc).(got := false);
      assert Undisturbed(r.lock, t, single, r.pc, 2) == Undisturbed(q.lock, t, single, q.pc, 1);
    }
    if e.users == 1 { assert Undisturbed(e, t, single, Looks(m), 1) == Accessed(e, r.pc, false); }
  }

  /** Undisturbed, the other accesses do what lock_acquire does as a whole. */
  lemma AcquireSteps(e: Lock, t: Tid, single: bool, m: LockId, fast: bool)
    ensures var n := if e.acquired then 1 else 3;
            var r := Undisturbed(e, t, single, Tests(m, fast), n);
            && r.lock == Acquire(e, t, single).lock && r.got == Acquire(e, t, single).ok
            && r.pc == if r.got then Idle else Refused(m, fast)
  {
    if !e.acquired {
      var q := Access(e.(acquired := true), t, single, Counts(m, fast));
      assert Undisturbed(e.(acquired := true), t, single, Counts(m, fast), 1) == q;
      assert Undisturbed(e, t, single, Sets(m, fast), 2) == q;
    }
  }
}
