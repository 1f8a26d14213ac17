/** The lock manager at work in a world of concurrent requests: its locks are the world's. */
module Scheduler {
  import opened Common
  import opened Addresses
  import opened Locks
  import opened Serializability

  class Schedule {
    const manager: ScopeLockManager
    ghost var world: World

    /** Who holds which lock object is what the world says. */
    ghost predicate Tied()
      reads this, manager, manager.locks.Values
    {
      manager.Valid() && manager.Holders() == world.locks
    }

    constructor (ghost w: World)
      requires w.locks == map[]
      ensures Tied() && world == w && fresh(manager)
    {
      manager := new ScopeLockManager();
      world := w;
    }

    /** A request tries to enter `async with scope_locks.lock(scope)`. It gets in exactly when the
        world lets it acquire, and then the world has made that move. */
    method Enter(i: nat, scope: Ip) returns (entered: bool)
      requires Tied() && i < |world.jobs| && world.jobs[i].phase.Waiting? && world.jobs[i].Scope() == scope
      modifies this, manager, manager.locks.Values
      ensures Tied() && entered == Enabled(old(world), Acquire(i))
      ensures world == if entered then Next(old(world), Acquire(i)) else old(world)
    {
      entered := manager.Acquire(scope, i);
      if entered {
        world := Next(world, Acquire(i));
      }
    }

    /** Leaving the block frees the lock, whatever the request's answer. */
    method Leave(i: nat, scope: Ip)
      requires Tied() && Locked(world) && Enabled(world, Release(i)) && world.jobs[i].Scope() == scope
      modifies this, manager.locks.Values
      ensures Tied() && world == Next(old(world), Release(i))
    {
      manager.Release(scope);
      world := Next(world, Release(i));
    }
  }
}
