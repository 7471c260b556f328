/** Readiness and shutdown of a handler. */
module Lifecycle {
  import PoolModel
  import S = SecurityContextPool

  /** `connectionLifecycle`; a channel is modelled by how often it was closed. */
  class ConnectionLifecycle {
    var ready: bool
    var stopping: bool
    var stoppedOnce: bool
    var closedOnce: bool
    var stoppedCloses: nat
    var closedCloses: nat

    /** A stopping handler is not ready, and no channel is closed twice. */
    ghost predicate Valid()
      reads this
    {
      && (stopping ==> !ready) && (stoppedOnce ==> stopping)
      && stoppedCloses == (if stoppedOnce then 1 else 0) && closedCloses == (if closedOnce then 1 else 0)
    }

    constructor ()
      ensures Valid() && !ready && !stopping && stoppedCloses == 0 && closedCloses == 0
    {
      ready, stopping, stoppedOnce, closedOnce, stoppedCloses, closedCloses := false, false, false, false, 0, 0;
    }

    /** `setReady`: readiness comes and goes until stopping begins, and then never returns. */
    method SetReady(value: bool)
      requires Valid()
      modifies this`ready
      ensures Valid() && ready == (value && !stopping)
    {
      if value && stopping { return; }
      ready := value;
    }

    /** `beginStopping`: from here on nothing is ready; the stop signal is given once, however often this is called. */
    method BeginStopping()
      requires Valid()
      modifies this`ready, this`stopping, this`stoppedOnce, this`stoppedCloses
      ensures Valid() && stopping && !ready && stoppedCloses == 1
    {
      stopping := true;
      ready := false;
      if !stoppedOnce {
        stoppedOnce := true;
        stoppedCloses := stoppedCloses + 1;
      }
    }

    /** The closed handler of the connection. */
    method OnClosed()
      requires Valid()
      modifies this`ready, this`closedOnce, this`closedCloses
      ensures Valid() && !ready && closedCloses == 1
    {
      SetReady(false);
      if !closedOnce {
        closedOnce := true;
        closedCloses := closedCloses + 1;
      }
    }
  }

  /**
   The shutdown of `Cleanup` for one route: readiness ends before the pool is
   closed, and the pool is left stopping and empty.  The pools of different
   routes share nothing, so each is closed alike.
   */
  method Cleanup(lifecycle: ConnectionLifecycle, pool: S.Pool) returns (ghost order: seq<PoolModel.Key>)
    requires lifecycle.Valid() && pool.Ready()
    modifies lifecycle, pool, pool.entries.Values
    ensures lifecycle.Valid() && lifecycle.stopping && !lifecycle.ready
    ensures pool.Ready() && pool.view == PoolModel.ClosePool(old(pool.view), order) && pool.stopping
            && pool.entries == map[]
  {
    lifecycle.BeginStopping();
    order := pool.Close();
  }
}
