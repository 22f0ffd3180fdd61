/**
 * The ExperienceStorage interface over the storages that implement it directly: a closed sum
 * of the implementations, with one function or method per interface operation that
 * dispatches on the kind. The delegating wrapper, which forwards to one of these, is in its
 * own module.
 *
 * The contract every implementation meets is stated once here: `insert` and `extract` move a
 * non-negative amount no greater than the request, nothing when the matching `supports` hint
 * is false, never past the capacity or below zero, and the amount changes by exactly what was
 * reported.
 */
module ExperienceStorages {
  import opened StorageLimits
  import opened Transactions
  import opened ItemContext
  import opened StoredExperience
  import opened SimpleStorage
  import opened SidedContainer
  import opened ItemStorages

  datatype DirectStorage =
    | Empty
    | Simple(simple: SimpleExperienceStorage)
    | Side(facade: SideStorage)
    | SimpleItem(simpleItem: SimpleItemExperienceStorageImpl)
    | ExtractOnlyItem(extractOnlyItem: FixedExtractOnlyItemExperienceStorageImpl)

  /** `ExperienceStorage.EMPTY`. */
  const EMPTY: DirectStorage := Empty

  /** The objects an operation on `s` may read or change. */
  function Footprint(s: DirectStorage): set<object> {
    match s
    case Empty => {}
    case Simple(x) => {x}
    case Side(f) => {f.container}
    case SimpleItem(x) => {x.ctx}
    case ExtractOnlyItem(x) => {x.ctx}
  }

  ghost predicate Valid(s: DirectStorage)
    reads Footprint(s)
  {
    match s
    case Empty => true
    case Simple(x) => x.Valid()
    case Side(f) => f.container.AmountValid()
    case SimpleItem(x) => x.ctx.Valid()
    case ExtractOnlyItem(x) => x.ctx.Valid()
  }

  /** The item-backed storages divide by the stack count: only a non-empty slot may be used,
      which the delegating wrapper they are built behind ensures. */
  predicate Callable(s: DirectStorage)
    reads Footprint(s)
  {
    match s
    case SimpleItem(x) => x.ctx.count > 0
    case ExtractOnlyItem(x) => x.ctx.count > 0
    case _ => true
  }

  /** The slot holds no snapshot for a transaction deeper than `tx`: those have been closed. */
  predicate Ready(s: DirectStorage, tx: TransactionContext)
    reads Footprint(s)
  {
    match s
    case SimpleItem(x) => ClosedAbove(x.ctx.snapshots, tx.depth)
    case ExtractOnlyItem(x) => ClosedAbove(x.ctx.snapshots, tx.depth)
    case _ => true
  }

  predicate SupportsInsertion(s: DirectStorage)
    reads Footprint(s)
  {
    match s
    case Empty => false
    case Simple(x) => x.SupportsInsertion()
    case Side(f) => f.SupportsInsertion()
    case SimpleItem(x) => x.SupportsInsertion()
    case ExtractOnlyItem(x) => x.SupportsInsertion()
  }

  predicate SupportsExtraction(s: DirectStorage)
    reads Footprint(s)
  {
    match s
    case Empty => false
    case Simple(x) => x.SupportsExtraction()
    case Side(f) => f.SupportsExtraction()
    case SimpleItem(x) => x.SupportsExtraction()
    case ExtractOnlyItem(x) => x.SupportsExtraction()
  }

  function Amount(s: DirectStorage): int
    reads Footprint(s)
  {
    match s
    case Empty => 0
    case Simple(x) => x.GetAmount()
    case Side(f) => f.GetAmount()
    case SimpleItem(x) => x.GetAmount()
    case ExtractOnlyItem(x) => x.GetAmount()
  }

  function Capacity(s: DirectStorage): int
    reads Footprint(s)
  {
    match s
    case Empty => 0
    case Simple(x) => x.GetCapacity()
    case Side(f) => f.GetCapacity()
    case SimpleItem(x) => x.GetCapacity()
    case ExtractOnlyItem(x) => x.GetCapacity()
  }

  /** The interface contract of `insert`, met by every implementation: within the request,
      nothing when insertion is not supported, and never past the capacity. */
  function InsertResult(s: DirectStorage, maxAmount: int): (r: int)
    requires Valid(s) && Callable(s) && maxAmount >= 0
    reads Footprint(s)
    ensures WithinRequest(maxAmount, r)
    ensures !SupportsInsertion(s) ==> r == 0
    ensures r > 0 ==> Amount(s) + r <= Capacity(s)
  {
    match s
    case Empty => 0
    case Simple(x) => x.InsertResult(maxAmount)
    case Side(f) => f.InsertResult(maxAmount)
    case SimpleItem(x) =>
      var r := x.InsertResult(maxAmount);
      var perUnit := GetStoredExperienceUnchecked(x.ctx.variant);
      if r > 0 then
        SpreadWithin(r, x.capacity - perUnit, x.ctx.count);
        MulDistributes(x.capacity, perUnit, x.ctx.count);
        r
      else
        r
    case ExtractOnlyItem(x) => 0
  }

  /** The interface contract of `extract`, met by every implementation: within the request,
      nothing when extraction is not supported, and never more than is stored (a unit whose
      tag holds a negative amount gives nothing). */
  function ExtractResult(s: DirectStorage, maxAmount: int): (r: int)
    requires Valid(s) && Callable(s) && maxAmount >= 0
    reads Footprint(s)
    ensures WithinRequest(maxAmount, r)
    ensures !SupportsExtraction(s) ==> r == 0
    ensures r > 0 ==> r <= Amount(s)
  {
    match s
    case Empty => 0
    case Simple(x) => x.ExtractResult(maxAmount)
    case Side(f) => f.ExtractResult(maxAmount)
    case SimpleItem(x) =>
      var r := x.ExtractResult(maxAmount);
      if r > 0 then
        SpreadWithin(r, GetStoredExperienceUnchecked(x.ctx.variant), x.ctx.count);
        r
      else
        r
    case ExtractOnlyItem(x) =>
      var r := x.ExtractResult(maxAmount);
      if r > 0 then
        SpreadWithin(r, GetStoredExperienceUnchecked(x.ctx.variant), x.ctx.count);
        r
      else
        r
  }

  /** The slot's side of a call that changed the stack's amount by `delta`: its count and the
      inventory's limits stay, every unit carries its old amount plus `delta / count` when
      something moved, and the slot journals its old content exactly then. */
  twostate predicate SlotMoved(ctx: ContainerItemContext, tx: TransactionContext, delta: int)
    reads ctx
  {
    && ctx.count == old(ctx.count) > 0
    && ctx.releaseLimit == old(ctx.releaseLimit) && ctx.acceptLimit == old(ctx.acceptLimit)
    && ctx.variant == (if delta != 0 then
                         WithStoredExperience(old(ctx.variant), old(GetStoredExperienceUnchecked(ctx.variant)) + delta / ctx.count)
                       else old(ctx.variant))
    && ctx.snapshots == if delta != 0 then UpdateSnapshots(old(ctx.snapshots), tx.depth, old(ctx.State()))
                        else old(ctx.snapshots)
  }

  /** What a call that changed the amount of `s` by `delta` did to the rest of its state: the
      participant took a snapshot at the transaction's depth exactly when something moved, and
      nothing else it holds changed (a side container keeps its capacity and rate hooks). */
  twostate predicate Moved(s: DirectStorage, tx: TransactionContext, delta: int)
    reads Footprint(s)
  {
    match s
    case Empty => delta == 0
    case Simple(x) =>
      x.snapshots == if delta != 0 then UpdateSnapshots(old(x.snapshots), tx.depth, old(x.amount)) else old(x.snapshots)
    case Side(f) =>
      var c := f.container;
      && c.capacity == old(c.capacity) && c.maxInsertOf == old(c.maxInsertOf) && c.maxExtractOf == old(c.maxExtractOf)
      && c.snapshots == if delta != 0 then UpdateSnapshots(old(c.snapshots), tx.depth, old(c.amount)) else old(c.snapshots)
    case SimpleItem(x) => SlotMoved(x.ctx, tx, delta)
    case ExtractOnlyItem(x) => SlotMoved(x.ctx, tx, delta)
  }

  /** `insert` on any direct implementation: the amount grows by exactly the reported value and
      the capacity stays. */
  method Insert(s: DirectStorage, maxAmount: int, tx: TransactionContext) returns (inserted: int)
    requires Valid(s) && Callable(s) && Ready(s, tx) && maxAmount >= 0
    modifies Footprint(s)
    ensures Valid(s) && Callable(s) && Ready(s, tx)
    ensures inserted == old(InsertResult(s, maxAmount))
    ensures Amount(s) == old(Amount(s)) + inserted
    ensures Capacity(s) == old(Capacity(s))
    ensures Moved(s, tx, inserted)
  {
    match s
    case Empty =>
      inserted := 0;
    case Simple(x) =>
      inserted := x.Insert(maxAmount, tx);
    case Side(f) =>
      inserted := f.Insert(maxAmount, tx);
    case SimpleItem(x) =>
      inserted := x.Insert(maxAmount, tx);
    case ExtractOnlyItem(x) =>
      inserted := x.Insert(maxAmount, tx);
  }

  /** `extract` on any direct implementation: the amount shrinks by exactly the reported value
      and the capacity stays. */
  method Extract(s: DirectStorage, maxAmount: int, tx: TransactionContext) returns (extracted: int)
    requires Valid(s) && Callable(s) && Ready(s, tx) && maxAmount >= 0
    modifies Footprint(s)
    ensures Valid(s) && Callable(s) && Ready(s, tx)
    ensures extracted == old(ExtractResult(s, maxAmount))
    ensures Amount(s) == old(Amount(s)) - extracted
    ensures Capacity(s) == old(Capacity(s))
    ensures Moved(s, tx, -extracted)
  {
    match s
    case Empty =>
      extracted := 0;
    case Simple(x) =>
      extracted := x.Extract(maxAmount, tx);
    case Side(f) =>
      extracted := f.Extract(maxAmount, tx);
    case SimpleItem(x) =>
      extracted := x.Extract(maxAmount, tx);
      NegatedQuotient(extracted, x.ctx.count);
    case ExtractOnlyItem(x) =>
      extracted := x.Extract(maxAmount, tx);
      NegatedQuotient(extracted, x.ctx.count);
  }

  /** EMPTY supports nothing, moves nothing and reports nothing. */
  lemma EmptyIsInert(maxAmount: int)
    requires maxAmount >= 0
    ensures !SupportsInsertion(EMPTY) && !SupportsExtraction(EMPTY)
    ensures InsertResult(EMPTY, maxAmount) == 0 && ExtractResult(EMPTY, maxAmount) == 0
    ensures Amount(EMPTY) == 0 && Capacity(EMPTY) == 0
  {
  }
}
