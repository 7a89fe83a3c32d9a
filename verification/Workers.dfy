/**
 * A pool of asynchronous workers that share one event loop. Between two `await` points a worker runs alone, so a
 * worker is described by the `await` point, or the loop head, at which it stands.
 */
module Workers {
  import opened Arith

  datatype Worker =
    | AtLoop          // about to test the loop condition
    | Busy(row: nat)  // a row is in flight
    | Reporting       // awaiting the progress callback
    | Exited

  type Pool = seq<Worker>

  /** `Array.from({ length: Math.min(5, rows) }, …)`. */
  function Hired(rows: nat): (pool: Pool)
    ensures |pool| <= 5 && |pool| <= rows && (rows > 0 ==> |pool| > 0)
    ensures forall w <- pool :: w.AtLoop?
  {
    seq(Min(5, rows), _ => AtLoop)
  }

  ghost predicate AllExited(pool: Pool) {
    forall w <- pool :: w.Exited?
  }

  function One(w: Worker): nat {
    if w.Busy? then 1 else 0
  }

  /** How many rows are in flight. */
  function InFlight(pool: Pool): nat {
    if pool == [] then 0 else InFlight(pool[..|pool| - 1]) + One(pool[|pool| - 1])
  }

  function Effort(w: Worker): nat {
    match w
    case AtLoop => 1
    case Busy(_) => 3
    case Reporting => 2
    case Exited => 0
  }

  /** A bound on what the workers can still do without taking another row. */
  function Efforts(pool: Pool): nat {
    if pool == [] then 0 else Efforts(pool[..|pool| - 1]) + Effort(pool[|pool| - 1])
  }

  lemma {:induction false} Updated(pool: Pool, i: nat, w: Worker)
    requires i < |pool|
    ensures InFlight(pool[i := w]) == InFlight(pool) - One(pool[i]) + One(w)
    ensures Efforts(pool[i := w]) == Efforts(pool) - Effort(pool[i]) + Effort(w)
  {
    var last := |pool| - 1;
    if i < last {
      Updated(pool[..last], i, w);
      assert pool[i := w][..last] == pool[..last][i := w];
    } else {
      assert pool[i := w][..last] == pool[..last];
    }
  }

  lemma {:induction false} PoolBounds(pool: Pool)
    ensures InFlight(pool) <= |pool|
    ensures AllExited(pool) ==> Efforts(pool) == 0
    ensures (forall w <- pool :: !w.Busy?) ==> InFlight(pool) == 0
    ensures (forall w <- pool :: w.AtLoop?) ==> Efforts(pool) == |pool|
  {
    if pool != [] {
      PoolBounds(pool[..|pool| - 1]);
      assert pool[|pool| - 1] in pool;
    }
  }
}
