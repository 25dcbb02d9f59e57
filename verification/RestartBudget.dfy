/**
 The gate that keeps an installer from restarting containerd too often
 (internal/gvisor-installer/installer.go), and the account of what it let through for one
 pending record.
 */
module RestartBudget {
  import opened Options
  import opened ManagedBlock
  import opened Generation
  import opened Activation

  datatype Direction = Commit | RollBack
  datatype Signature =
    | Recovery(generation: GenPath, config: ConfigPath, block: string, direction: Direction)
    | Activating(block: string)

  /** restartGate: one signature, blocked until a moment. */
  datatype Gate = Gate(sig: Option<Signature>, notBefore: nat) {
    predicate Blocked(now: nat, s: Signature) {
      sig == Some(s) && now < notBefore
    }
  }

  const OPEN: Gate := Gate(None, 0)

  function RecoverySig(p: Pending, direction: Direction): Signature {
    Recovery(p.target.generation, p.target.config, p.target.block, direction)
  }

  /** A recovery restart that the gate let through, and when. */
  datatype Attempt = Attempt(time: nat, direction: Direction)

  predicate OnTarget(config: string, p: Pending) {
    Managed(config) == Found(p.target.block)
  }

  /** Target and predecessor are one block: the pending record of a convergence restart. */
  predicate OneBlock(p: Pending) {
    p.previousBlock == p.target.block
  }

  /** Of the two directions, the one that can only come first. */
  predicate Opening(p: Pending, direction: Direction) {
    direction.Commit? <==> !OneBlock(p)
  }

  /** Restarts in one direction are a cooldown apart, and the opening direction is never returned to. */
  predicate SpacedOut(p: Pending, cooldown: nat, attempts: seq<Attempt>) {
    forall i, j :: 0 <= i < j < |attempts| ==>
      && attempts[i].time <= attempts[j].time
      && (Opening(p, attempts[j].direction) ==> Opening(p, attempts[i].direction))
      && (attempts[i].direction == attempts[j].direction ==> attempts[i].time + cooldown <= attempts[j].time)
  }

  /**
   The gate remembers the last attempt; once the closing direction was tried, the file no longer asks for
   the opening one.
   */
  predicate Accounted(p: Pending, cooldown: nat, attempts: seq<Attempt>, gate: Gate, config: string, now: nat) {
    && SpacedOut(p, cooldown, attempts)
    && (attempts != [] ==>
          var last := attempts[|attempts| - 1];
          gate == Gate(Some(RecoverySig(p, last.direction)), last.time + cooldown) && last.time <= now)
    && (forall i :: 0 <= i < |attempts| && !Opening(p, attempts[i].direction) ==>
         (OneBlock(p) <==> OnTarget(config, p)))
  }

  /** A direction may be taken if it is the closing one and the file agrees, or nothing closing was tried yet. */
  predicate MayTake(p: Pending, attempts: seq<Attempt>, config: string, direction: Direction) {
    if Opening(p, direction) then forall i :: 0 <= i < |attempts| ==> Opening(p, attempts[i].direction)
    else OneBlock(p) <==> OnTarget(config, p)
  }

  lemma AttemptAccounted(
      p: Pending, cooldown: nat, attempts: seq<Attempt>, gate: Gate, config: string, now: nat, later: nat,
      direction: Direction)
    requires Accounted(p, cooldown, attempts, gate, config, now) && MayTake(p, attempts, config, direction)
    requires now <= later && !gate.Blocked(later, RecoverySig(p, direction))
    ensures Accounted(p, cooldown, attempts + [Attempt(later, direction)],
                      Gate(Some(RecoverySig(p, direction)), later + cooldown), config, later)
  {}

  /** In any window shorter than the cooldown there are at most two restarts for one pending record. */
  lemma AtMostTwoPerWindow(p: Pending, cooldown: nat, attempts: seq<Attempt>, i: nat, j: nat, k: nat)
    requires SpacedOut(p, cooldown, attempts) && i < j < k < |attempts|
    ensures attempts[i].time + cooldown <= attempts[k].time
  {
    assert attempts[i].direction == attempts[j].direction || attempts[j].direction == attempts[k].direction;
  }

  lemma ConfigAccounted(
      p: Pending, cooldown: nat, attempts: seq<Attempt>, gate: Gate, config: string, now: nat, next: string, later: nat)
    requires Accounted(p, cooldown, attempts, gate, config, now) && now <= later
    requires OnPredecessor(next, p) && p.target.block != ""
    ensures Accounted(p, cooldown, attempts, gate, next, later)
    ensures OneBlock(p) <==> OnTarget(next, p)
  {}

  /** Which direction the file on disk allows. */
  lemma DirectionAllowed(p: Pending, cooldown: nat, attempts: seq<Attempt>, gate: Gate, config: string, now: nat)
    requires Accounted(p, cooldown, attempts, gate, config, now)
    ensures OnTarget(config, p) ==> MayTake(p, attempts, config, Commit)
    ensures OneBlock(p) && !OnTarget(config, p) ==> forall next :: MayTake(p, attempts, next, RollBack)
  {}

  lemma ClockAccounted(
      p: Pending, cooldown: nat, attempts: seq<Attempt>, gate: Gate, config: string, now: nat, later: nat)
    requires Accounted(p, cooldown, attempts, gate, config, now) && now <= later
    ensures Accounted(p, cooldown, attempts, gate, config, later)
  {}

  lemma NothingAttempted(p: Pending, cooldown: nat, gate: Gate, config: string, now: nat)
    ensures Accounted(p, cooldown, [], gate, config, now)
    ensures MayTake(p, [], config, Commit) <==> (OneBlock(p) ==> OnTarget(config, p))
  {}

  // ----- Between failed passes --------------------------------------------------------------

  function Doubled(base: nat, times: nat): nat {
    if times == 0 then base else 2 * Doubled(base, times - 1)
  }

  lemma {:induction false} DoublingGrows(base: nat, few: nat, more: nat)
    requires few <= more
    ensures Doubled(base, few) <= Doubled(base, more)
  {
    if few < more { DoublingGrows(base, few, more - 1); }
  }

  /** backoffInterval: the base doubled with every failure behind the first, and never more than the maximum. */
  method BackoffInterval(base: nat, failures: nat, maxWait: nat) returns (d: nat)
    requires failures > 0
    ensures d == if Doubled(base, failures - 1) < maxWait then Doubled(base, failures - 1) else maxWait
  {
    d := base;
    var n := 1;
    while n < failures
      invariant 1 <= n <= failures && d == Doubled(base, n - 1)
    {
      d := d * 2;
      n := n + 1;
      if d >= maxWait {
        DoublingGrows(base, n - 1, failures - 1);
        return maxWait;
      }
    }
    if d > maxWait { return maxWait; }
  }
}
