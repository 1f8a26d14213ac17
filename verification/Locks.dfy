/** The per-scope lock manager: one lock object per scope address, created on first use and kept. */
module Locks {
  import opened Common
  import opened Addresses

  class AsyncLock {
    var holder: Option<nat>

    constructor ()
      ensures holder == None
    {
      holder := None;
    }
  }

  /** The running-loop bookkeeping of the manager is left out. */
  class ScopeLockManager {
    var locks: map<Ip, AsyncLock>

    /** Distinct scopes never share a lock. */
    ghost predicate Valid()
      reads this
    {
      forall s, t :: s in locks && t in locks && s != t ==> locks[s] != locks[t]
    }

    /** Which job holds which scope. */
    ghost function Holders(): map<Ip, nat>
      reads this, locks.Values
    {
      map s | s in locks && locks[s].holder.Some? :: locks[s].holder.value
    }

    constructor ()
      ensures Valid() && locks == map[] && Holders() == map[]
    {
      locks := map[];
    }

    /** `_get_lock`: the same object on every call for a scope; looking one up changes no holder. */
    method GetLock(scope: Ip) returns (l: AsyncLock)
      requires Valid()
      modifies this
      ensures Valid() && scope in locks && locks[scope] == l
      ensures scope in old(locks) ==> l == old(locks)[scope] && locks == old(locks)
      ensures scope !in old(locks) ==> fresh(l) && locks == old(locks)[scope := l]
      ensures Holders() == old(Holders())
    {
      if scope in locks {
        l := locks[scope];
      } else {
        l := new AsyncLock();
        locks := locks[scope := l];
      }
    }

    /** Entering `async with lock` when the lock is free; a job that finds it held keeps waiting. */
    method Acquire(scope: Ip, job: nat) returns (entered: bool)
      requires Valid()
      modifies this, locks.Values
      ensures Valid() && scope in locks
      ensures old(locks.Keys) <= locks.Keys && forall s :: s in old(locks) ==> locks[s] == old(locks)[s]
      ensures entered == (scope !in old(Holders()))
      ensures Holders() == if entered then old(Holders())[scope := job] else old(Holders())
    {
      var l := GetLock(scope);
      entered := l.holder.None?;
      if entered {
        l.holder := Some(job);
      }
    }

    method Release(scope: Ip)
      requires Valid() && scope in Holders()
      modifies locks.Values
      ensures Valid() && Holders() == old(Holders()) - {scope}
    {
      locks[scope].holder := None;
    }
  }
}
