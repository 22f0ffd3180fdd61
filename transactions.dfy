/**
 * The snapshot/rollback protocol that every mutable experience storage takes part in
 * (Fabric's SnapshotParticipant, which SimpleExperienceStorage and
 * SimpleSidedExperienceContainer extend and which the item slot of a ContainerItemContext
 * also follows).
 *
 * A participant keeps at most one snapshot per transaction nesting depth: the value of its
 * state just before its first mutation at that depth. Aborting a depth restores that
 * snapshot; committing a nested depth hands the snapshot to the enclosing depth unless that
 * depth already holds an older one; committing the outer transaction fires the participant's
 * final-commit hook once.
 */
module Transactions {

  /** A transaction as a participant sees it: its nesting depth, 0 for an outer transaction. */
  datatype TransactionContext = TransactionContext(depth: nat) {
    /** Opening a nested transaction inside this one: it sits one depth below. */
    function OpenNested(): TransactionContext {
      TransactionContext(depth + 1)
    }
  }

  datatype TransactionResult = Committed | Aborted

  /** The snapshots a participant holds, by nesting depth (an absent depth is Java's null entry). */
  type Journal<T> = map<nat, T>

  /** No snapshot is held for a depth deeper than `depth`: those transactions are closed. */
  predicate ClosedAbove<T>(j: Journal<T>, depth: nat) {
    forall k :: k in j ==> k <= depth
  }

  /** `updateSnapshots`: take a snapshot of `current` unless this depth already holds one. The
      depth is then recorded, no other depth is added or changed, and a snapshot taken earlier
      at this depth is kept. */
  function UpdateSnapshots<T>(j: Journal<T>, depth: nat, current: T): (r: Journal<T>)
    ensures r.Keys == j.Keys + {depth}
    ensures forall k :: k in j ==> r[k] == j[k]
    ensures depth !in j ==> r[depth] == current
  {
    if depth in j then j else j[depth := current]
  }

  /** What closing a depth leaves behind: the journal, the participant's state, and whether
      the final-commit hook fires. */
  datatype Closing<T> = Closing(journal: Journal<T>, current: T, finalCommit: bool)

  /** `onClose`: called back only for participants that hold a snapshot at `depth`. Closing
      removes the depth's snapshot; an abort restores it; a nested commit keeps the current
      state and moves the snapshot one depth up unless an older one is there; an outer commit
      keeps the current state and fires the final-commit hook. No other depth is touched. */
  function OnClose<T>(j: Journal<T>, depth: nat, result: TransactionResult, current: T): (r: Closing<T>)
    ensures depth !in j ==> r == Closing(j, current, false)
    ensures depth !in r.journal
    ensures r.current == if result == Aborted && depth in j then j[depth] else current
    ensures r.finalCommit <==> depth == 0 && depth in j && result == Committed
    ensures forall k :: k != depth && k != depth - 1 ==> (k in r.journal <==> k in j)
    ensures forall k :: k in r.journal && k != depth - 1 ==> k in j && r.journal[k] == j[k]
    ensures depth > 0 && depth - 1 in j ==> depth - 1 in r.journal && r.journal[depth - 1] == j[depth - 1]
    ensures depth > 0 && depth - 1 !in j ==>
      (depth - 1 in r.journal <==> depth in j && result == Committed)
      && (depth - 1 in r.journal ==> r.journal[depth - 1] == j[depth])
  {
    if depth !in j then
      Closing(j, current, false)
    else
      var snapshot := j[depth];
      var rest := j - {depth};
      if result == Aborted then
        Closing(rest, snapshot, false)
      else if depth > 0 then
        var parent := depth - 1;
        assert parent in rest <==> parent in j;
        assert result == Committed;
        Closing(if parent in rest then rest else rest[parent := snapshot], current, false)
      else
        assert result == Committed;
        Closing(rest, current, true)
  }

  lemma UpdateSnapshotsKeepsFirst<T>(j: Journal<T>, depth: nat, first: T, later: T)
    ensures UpdateSnapshots(UpdateSnapshots(j, depth, first), depth, later) == UpdateSnapshots(j, depth, first)
    ensures depth !in j ==> UpdateSnapshots(j, depth, first)[depth] == first
  {
  }

  /*
   * A run of a participant inside one transaction: mutations (each preceded by
   * updateSnapshots, as the storages do) and nested transactions, each closed by a commit or
   * an abort before the run goes on.
   */
  datatype Block<T> =
    | Done
    | Mutate(value: T, rest: Block<T>)
    | Nested(body: Block<T>, result: TransactionResult, rest: Block<T>)

  datatype Participant<T> = Participant(journal: Journal<T>, current: T)

  function Run<T>(j: Journal<T>, depth: nat, current: T, b: Block<T>): Participant<T>
    decreases b
  {
    match b
    case Done => Participant(j, current)
    case Mutate(v, rest) => Run(UpdateSnapshots(j, depth, current), depth, v, rest)
    case Nested(body, result, rest) =>
      var inner := Run(j, depth + 1, current, body);
      var closed := OnClose(inner.journal, depth + 1, result, inner.current);
      Run(closed.journal, depth, closed.current, rest)
  }

  /** True when `b` mutates the participant outside every aborted nested transaction. */
  predicate Mutates<T>(b: Block<T>) {
    match b
    case Done => false
    case Mutate(_, _) => true
    case Nested(body, result, rest) => (result == Committed && Mutates(body)) || Mutates(rest)
  }

  /** The state an abort of depth `k` would restore once the depths from `k + 1` up to the
      innermost open depth `top` are aborted too. */
  function RestoreValue<T>(j: Journal<T>, k: nat, top: nat, current: T): T
    decreases top - k
  {
    if k in j then j[k] else if k >= top then current else RestoreValue(j, k + 1, top, current)
  }

  /** The journal is in step with the open transactions: `entered[k]` is the participant's
      state when depth `k` was entered, and aborting depth `k` would give it back. */
  ghost predicate Consistent<T>(j: Journal<T>, entered: seq<T>, current: T) {
    && |entered| > 0
    && ClosedAbove(j, |entered| - 1)
    && forall k :: 0 <= k < |entered| ==> RestoreValue(j, k, |entered| - 1, current) == entered[k]
  }

  lemma {:induction false} RestoreAfterUpdate<T>(j: Journal<T>, k: nat, top: nat, current: T, v: T)
    requires k <= top
    ensures RestoreValue(UpdateSnapshots(j, top, current), k, top, v) == RestoreValue(j, k, top, current)
    decreases top - k
  {
    if k !in j && k < top {
      RestoreAfterUpdate(j, k + 1, top, current, v);
    }
  }

  lemma {:induction false} RestoreAfterOpen<T>(j: Journal<T>, k: nat, top: nat, current: T)
    requires k <= top && top + 1 !in j
    ensures RestoreValue(j, k, top + 1, current) == RestoreValue(j, k, top, current)
    decreases top - k
  {
    if k !in j && k < top {
      RestoreAfterOpen(j, k + 1, top, current);
    }
  }

  lemma {:induction false} RestoreAfterClose<T>(j: Journal<T>, k: nat, top: nat, result: TransactionResult, current: T)
    requires k <= top && top + 1 in j
    ensures var c := OnClose(j, top + 1, result, current);
      RestoreValue(c.journal, k, top, c.current) == RestoreValue(j, k, top + 1, current)
    decreases top - k
  {
    if k !in j && k < top {
      RestoreAfterClose(j, k + 1, top, result, current);
    }
  }

  /** Opening a nested transaction keeps the journal consistent. */
  lemma OpenKeepsConsistent<T>(j: Journal<T>, entered: seq<T>, current: T)
    requires Consistent(j, entered, current)
    ensures Consistent(j, entered + [current], current)
  {
    var top := |entered| - 1;
    forall k | 0 <= k < |entered| + 1
      ensures RestoreValue(j, k, top + 1, current) == (entered + [current])[k]
    {
      if k <= top {
        RestoreAfterOpen(j, k, top, current);
      }
    }
  }

  /** A mutation preceded by updateSnapshots keeps the journal consistent. */
  lemma MutateKeepsConsistent<T>(j: Journal<T>, entered: seq<T>, current: T, v: T)
    requires Consistent(j, entered, current)
    ensures Consistent(UpdateSnapshots(j, |entered| - 1, current), entered, v)
  {
    var top := |entered| - 1;
    forall k | 0 <= k < |entered|
      ensures RestoreValue(UpdateSnapshots(j, top, current), k, top, v) == entered[k]
    {
      RestoreAfterUpdate(j, k, top, current, v);
    }
  }

  /** Closing the innermost nested transaction: an abort gives back the state it was entered
      with, a commit keeps the current state, and the enclosing depths stay consistent. */
  lemma CloseKeepsConsistent<T>(j: Journal<T>, entered: seq<T>, result: TransactionResult, current: T)
    requires Consistent(j, entered, current) && |entered| >= 2
    ensures var c := OnClose(j, |entered| - 1, result, current);
      && Consistent(c.journal, entered[..|entered| - 1], c.current)
      && c.current == (if result == Aborted then entered[|entered| - 1] else current)
  {
    var top := |entered| - 2;
    var c := OnClose(j, top + 1, result, current);
    if top + 1 in j {
      forall k | 0 <= k <= top
        ensures RestoreValue(c.journal, k, top, c.current) == entered[k]
      {
        RestoreAfterClose(j, k, top, result, current);
      }
    } else {
      forall k | 0 <= k <= top
        ensures RestoreValue(c.journal, k, top, c.current) == entered[k]
      {
        RestoreAfterOpen(j, k, top, current);
      }
    }
  }

  /** Any run keeps the journal consistent with the open transactions. */
  lemma {:induction false} RunKeepsConsistent<T>(j: Journal<T>, entered: seq<T>, current: T, b: Block<T>)
    requires Consistent(j, entered, current)
    ensures var p := Run(j, |entered| - 1, current, b); Consistent(p.journal, entered, p.current)
    decreases b
  {
    var top := |entered| - 1;
    match b
    case Done =>
    case Mutate(v, rest) =>
      MutateKeepsConsistent(j, entered, current, v);
      RunKeepsConsistent(UpdateSnapshots(j, top, current), entered, v, rest);
    case Nested(body, result, rest) =>
      OpenKeepsConsistent(j, entered, current);
      RunKeepsConsistent(j, entered + [current], current, body);
      var inner := Run(j, top + 1, current, body);
      CloseKeepsConsistent(inner.journal, entered + [current], result, inner.current);
      assert (entered + [current])[..|entered|] == entered;
      var closed := OnClose(inner.journal, top + 1, result, inner.current);
      RunKeepsConsistent(closed.journal, entered, closed.current, rest);
  }

  /** Rollback law for a nested transaction: whatever runs inside it, aborting it gives the
      participant back the state it had when the transaction was entered, and the enclosing
      transaction stays open and consistent. */
  lemma AbortedNestedIsInvisible<T>(j: Journal<T>, entered: seq<T>, current: T, body: Block<T>)
    requires Consistent(j, entered, current)
    ensures var p := Run(j, |entered| - 1, current, Nested(body, Aborted, Done));
      p.current == current && Consistent(p.journal, entered, p.current)
  {
    var top := |entered| - 1;
    OpenKeepsConsistent(j, entered, current);
    RunKeepsConsistent(j, entered + [current], current, body);
    var inner := Run(j, top + 1, current, body);
    CloseKeepsConsistent(inner.journal, entered + [current], Aborted, inner.current);
    assert (entered + [current])[..|entered|] == entered;
  }

  /** Nested-commit law: what a committed nested transaction did stays visible to the
      enclosing one, which stays open and consistent. */
  lemma CommittedNestedIsVisible<T>(j: Journal<T>, entered: seq<T>, current: T, body: Block<T>)
    requires Consistent(j, entered, current)
    ensures var p := Run(j, |entered| - 1, current, Nested(body, Committed, Done));
      p.current == Run(j, |entered|, current, body).current && Consistent(p.journal, entered, p.current)
  {
    var top := |entered| - 1;
    OpenKeepsConsistent(j, entered, current);
    RunKeepsConsistent(j, entered + [current], current, body);
    var inner := Run(j, top + 1, current, body);
    CloseKeepsConsistent(inner.journal, entered + [current], Committed, inner.current);
    assert (entered + [current])[..|entered|] == entered;
  }

  /** Rollback law for an outer transaction: a participant that holds no snapshot when the
      transaction opens is given back its state when the transaction aborts. */
  lemma OuterAbortRestores<T>(initial: T, body: Block<T>)
    ensures var p := Run(map[], 0, initial, body);
      OnClose(p.journal, 0, Aborted, p.current).current == initial
  {
    assert Consistent(map[], [initial], initial);
    RunKeepsConsistent(map[], [initial], initial, body);
    var entered := [initial];
    assert |entered| - 1 == 0;
    var p := Run(map[], 0, initial, body);
    assert Consistent(p.journal, entered, p.current);
    assert RestoreValue(p.journal, 0, |entered| - 1, p.current) == entered[0];
  }

  /** The keys a run leaves in the journal: depths below stay as they were, nothing deeper is
      left open, and the run's own depth holds a snapshot exactly when it held one before or
      the run mutated the participant outside every aborted nested transaction. */
  lemma {:induction false} RunKeys<T>(j: Journal<T>, depth: nat, current: T, b: Block<T>)
    requires ClosedAbove(j, depth)
    ensures var p := Run(j, depth, current, b);
      && ClosedAbove(p.journal, depth)
      && (forall k :: k < depth ==> (k in p.journal <==> k in j))
      && (forall k :: k < depth && k in j ==> p.journal[k] == j[k])
      && (depth in p.journal <==> depth in j || Mutates(b))
    decreases b
  {
    match b
    case Done =>
    case Mutate(v, rest) =>
      RunKeys(UpdateSnapshots(j, depth, current), depth, v, rest);
    case Nested(body, result, rest) =>
      RunKeys(j, depth + 1, current, body);
      var inner := Run(j, depth + 1, current, body);
      var closed := OnClose(inner.journal, depth + 1, result, inner.current);
      assert depth in closed.journal <==> depth in j || (result == Committed && Mutates(body));
      RunKeys(closed.journal, depth, closed.current, rest);
  }

  /** The final-commit hook of a participant fires when the outer transaction commits exactly
      when the transaction mutated it outside every aborted nested transaction. */
  lemma FinalCommitIffMutated<T>(initial: T, body: Block<T>)
    ensures var p := Run(map[], 0, initial, body);
      OnClose(p.journal, 0, Committed, p.current).finalCommit <==> Mutates(body)
  {
    RunKeys(map[], 0, initial, body);
  }
}
