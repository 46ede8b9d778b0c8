/** Kernel advisory locks (flock) on one lock file: any number of shared holders, or one exclusive holder. */
module Flock {

  datatype Mode = Shared | Exclusive

  /** Who holds the lock; a holder is an open file description, so it dies with its process. */
  type Holders = map<nat, Mode>

  predicate CanLock(h: Holders, mode: Mode) {
    forall c :: c in h ==> mode == Shared && h[c] == Shared
  }

  function Lock(h: Holders, c: nat, mode: Mode): Holders {
    h[c := mode]
  }

  function Unlock(h: Holders, c: nat): Holders {
    h - {c}
  }

  /** An exclusive holder is the only holder. */
  predicate Excludes(h: Holders) {
    forall c, d :: c in h && d in h && h[c] == Exclusive ==> c == d
  }

  lemma LockKeepsExclusion(h: Holders, c: nat, mode: Mode)
    requires Excludes(h) && c !in h && CanLock(h, mode)
    ensures Excludes(Lock(h, c, mode)) && Excludes(Unlock(h, c))
  {
  }
}
