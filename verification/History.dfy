/** "The last time something happened" over numbered events. */
module History {

  /** Event `k` is the last one before `n` at which `on` holds. */
  ghost predicate LastAt(on: nat -> bool, n: nat, k: nat) {
    k < n && on(k) && forall j: nat :: k < j < n ==> !on(j)
  }

  /** Before `n`, `on` held at some event and `off` at no later one. */
  ghost predicate LastOn(on: nat -> bool, off: nat -> bool, n: nat) {
    exists k: nat :: k < n && on(k) && forall j: nat :: k < j < n ==> !off(j)
  }

  /** An event that does not occur. */
  ghost function Never(): nat -> bool {
    (k: nat) => false
  }

  lemma LastAtStep(on: nat -> bool, n: nat, k: nat)
    ensures LastAt(on, n + 1, k) <==> if k == n then on(n) else LastAt(on, n, k) && !on(n)
  {}

  lemma LastOnStep(on: nat -> bool, off: nat -> bool, n: nat)
    ensures LastOn(on, off, n + 1) <==> on(n) || (LastOn(on, off, n) && !off(n))
  {}
}
