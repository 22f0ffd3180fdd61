/**
 * The two experience storages backed by the stack in a ContainerItemContext: every unit of
 * the stack carries the same per-unit amount in its `stored_xp` tag, the storage reports
 * count × per-unit, and a change is made by converting the whole stack, inside a nested
 * transaction, into units carrying the new per-unit amount.
 */
module ItemStorages {
  import opened Wrappers
  import opened StorageLimits
  import opened Transactions
  import opened ItemContext
  import opened StoredExperience

  /** Whether the inventory around the slot lets all `count` units out and the same number back
      in during one call: the condition under which a whole-stack conversion goes through. */
  predicate CanReplaceAll(ctx: ContainerItemContext, count: int)
    reads ctx
  {
    count <= ctx.releaseLimit && count <= ctx.acceptLimit
  }

  /**
   * `trySetExperience`, shared by both item storages: in a transaction nested in `tx`, takes
   * all `count` units out and puts `count` units carrying `experienceAmountPerCount` back,
   * committing only when both moved exactly `count` units. Either the whole stack is rewritten
   * or, after the nested transaction is aborted, the slot is as it was.
   */
  method TrySetExperience(ctx: ContainerItemContext, experienceAmountPerCount: int, count: int, tx: TransactionContext)
    returns (success: bool)
    requires ctx.Valid() && count == ctx.count && count > 0
    requires ClosedAbove(ctx.snapshots, tx.depth)
    modifies ctx
    ensures ctx.Valid()
    ensures success == old(CanReplaceAll(ctx, count))
    ensures ctx.count == old(ctx.count)
    ensures ctx.variant == if success then WithStoredExperience(old(ctx.variant), experienceAmountPerCount)
                           else old(ctx.variant)
    ensures ctx.snapshots == if success then UpdateSnapshots(old(ctx.snapshots), tx.depth, old(ctx.State()))
                             else old(ctx.snapshots)
    ensures ctx.releaseLimit == old(ctx.releaseLimit) && ctx.acceptLimit == old(ctx.acceptLimit)
  {
    var newStack := new ItemStack(ctx.variant, 1);
    SetStoredExperienceUnchecked(newStack, experienceAmountPerCount);
    var newVariant := newStack.Variant();

    var nested := tx.OpenNested();
    var extracted := ctx.Extract(ctx.variant, count, nested);
    success := false;
    if extracted == count {
      var inserted := ctx.Insert(newVariant, count, nested);
      success := inserted == count;
    }
    // leaving the try block closes the nested transaction, committed only on success
    var _ := ctx.OnClose(nested, if success then Committed else Aborted);
  }

  /** The experience in a stack: count × the per-unit amount, which divides back to the
      per-unit amount; an empty slot holds none. */
  function StackAmount(ctx: ContainerItemContext): (r: int)
    reads ctx
    ensures ctx.count > 0 ==> TruncDiv(r, ctx.count) == GetStoredExperienceUnchecked(ctx.variant)
    ensures ctx.count == 0 ==> r == 0
  {
    var count, perUnit := ctx.count, GetStoredExperienceUnchecked(ctx.variant);
    if count > 0 then
      TruncDivCancel(perUnit, count);
      perUnit * count
    else
      count * perUnit
  }

  /** The capacity of a stack: count × the per-unit capacity, which divides back to the per-unit
      capacity and is never below the stack's amount while every unit is within its capacity;
      an empty slot has none. */
  function StackCapacity(ctx: ContainerItemContext, perUnitCapacity: int): (r: int)
    reads ctx
    ensures ctx.count > 0 ==> TruncDiv(r, ctx.count) == perUnitCapacity
    ensures ctx.count > 0 && GetStoredExperienceUnchecked(ctx.variant) <= perUnitCapacity ==> StackAmount(ctx) <= r
    ensures ctx.count == 0 ==> r == 0
  {
    var count, perUnit := ctx.count, GetStoredExperienceUnchecked(ctx.variant);
    if count > 0 then
      TruncDivCancel(perUnitCapacity, count);
      if perUnit <= perUnitCapacity then
        MulLe(perUnit, perUnitCapacity, count);
        perUnitCapacity * count
      else
        perUnitCapacity * count
    else
      count * perUnitCapacity
  }

  /**
   * SimpleItemExperienceStorageImpl: per-unit capacity and per-unit, per-operation limits.
   * It does not check that the slot still holds its item: the delegating wrapper does, and
   * only calls it while the slot holds at least one unit.
   */
  class SimpleItemExperienceStorageImpl {
    const ctx: ContainerItemContext
    const capacity: int
    const maxInsert: int
    const maxExtract: int

    constructor (ctx: ContainerItemContext, capacity: int, maxInsert: int, maxExtract: int)
      ensures this.ctx == ctx && this.capacity == capacity
      ensures this.maxInsert == maxInsert && this.maxExtract == maxExtract
    {
      this.ctx := ctx;
      this.capacity := capacity;
      this.maxInsert := maxInsert;
      this.maxExtract := maxExtract;
    }

    /** The insertion hint: false only when no `insert` can add anything, and true when a
        request of one per unit would add something to units below capacity. */
    function SupportsInsertion(): (r: bool)
      reads ctx
      ensures ctx.count > 0 && !r ==> forall maxAmount :: InsertResult(maxAmount) == 0
      ensures ctx.count > 0 && r && GetStoredExperienceUnchecked(ctx.variant) < capacity && CanReplaceAll(ctx, ctx.count) ==>
        InsertResult(ctx.count) > 0
    {
      maxInsert > 0
    }

    /** The extraction hint: false only when no `extract` can remove anything, and true when a
        request of one per unit would remove something from units holding experience. */
    function SupportsExtraction(): (r: bool)
      reads ctx
      ensures ctx.count > 0 && !r ==> forall maxAmount :: ExtractResult(maxAmount) == 0
      ensures ctx.count > 0 && r && GetStoredExperienceUnchecked(ctx.variant) > 0 && CanReplaceAll(ctx, ctx.count) ==>
        ExtractResult(ctx.count) > 0
    {
      maxExtract > 0
    }

    /** The stack's experience: what every unit carries, `count` times over. */
    function GetAmount(): (r: int)
      reads ctx
      ensures ctx.count > 0 ==> TruncDiv(r, ctx.count) == GetStoredExperienceUnchecked(ctx.variant)
      ensures ctx.count == 0 ==> r == 0
    {
      StackAmount(ctx)
    }

    /** The stack's capacity: the per-unit capacity `count` times over; units at or over it take
        nothing more. */
    function GetCapacity(): (r: int)
      reads ctx
      ensures ctx.count > 0 ==> TruncDiv(r, ctx.count) == capacity
      ensures ctx.count > 0 && GetStoredExperienceUnchecked(ctx.variant) <= capacity ==> GetAmount() <= r
      ensures ctx.count > 0 && GetStoredExperienceUnchecked(ctx.variant) >= capacity ==>
        forall maxAmount :: InsertResult(maxAmount) == 0
    {
      StackCapacity(ctx, capacity)
    }

    /**
     * What `insert(maxAmount)` adds from the current state. Something is added exactly when
     * the rate allows one more per unit, the request covers one per unit, the units are below
     * capacity and the inventory lets the whole stack be replaced; what is added is the same
     * for every unit, within the request, the rate and the per-unit capacity, and as much as
     * those allow.
     */
    function InsertResult(maxAmount: int): (r: int)
      requires ctx.count > 0
      reads ctx
      ensures 0 <= r && (r > 0 ==> r <= maxAmount)
      ensures r % ctx.count == 0
      ensures r / ctx.count <= maxInsert || r == 0
      ensures r > 0 ==> GetStoredExperienceUnchecked(ctx.variant) + r / ctx.count <= capacity
      ensures r > 0 <==>
        && maxInsert > 0 && maxAmount >= ctx.count
        && GetStoredExperienceUnchecked(ctx.variant) < capacity && CanReplaceAll(ctx, ctx.count)
      ensures r > 0 ==>
        || r / ctx.count == maxInsert
        || GetStoredExperienceUnchecked(ctx.variant) + r / ctx.count == capacity
        || r + ctx.count > maxAmount
    {
      var count := ctx.count;
      var maxAmountPerCount := TruncDiv(maxAmount, count);
      var currentAmountPerCount := TruncDiv(GetAmount(), count);
      var insertedPerCount := Min(maxInsert, Min(maxAmountPerCount, capacity - currentAmountPerCount));
      TruncDivPositive(maxAmount, count);
      MulDivCancel(insertedPerCount, count);
      if insertedPerCount > 0 && CanReplaceAll(ctx, count) then
        PerUnitWithinRequest(insertedPerCount, maxAmount, count);
        QuotientIsGreatest(maxAmount, count);
        insertedPerCount * count
      else
        0
    }

    /**
     * What `extract(maxAmount)` removes from the current state. Something is removed exactly
     * when the rate allows one per unit, the request covers one per unit, the units hold
     * experience and the inventory lets the whole stack be replaced; what is removed is the
     * same for every unit, within the request, the rate and what each unit holds, and as much
     * as those allow.
     */
    function ExtractResult(maxAmount: int): (r: int)
      requires ctx.count > 0
      reads ctx
      ensures 0 <= r && (r > 0 ==> r <= maxAmount)
      ensures r % ctx.count == 0
      ensures r / ctx.count <= maxExtract || r == 0
      ensures r / ctx.count <= GetStoredExperienceUnchecked(ctx.variant) || r == 0
      ensures r > 0 <==>
        && maxExtract > 0 && maxAmount >= ctx.count
        && GetStoredExperienceUnchecked(ctx.variant) > 0 && CanReplaceAll(ctx, ctx.count)
      ensures r > 0 ==>
        || r / ctx.count == maxExtract
        || r / ctx.count == GetStoredExperienceUnchecked(ctx.variant)
        || r + ctx.count > maxAmount
    {
      var count := ctx.count;
      var maxAmountPerCount := TruncDiv(maxAmount, count);
      var currentAmountPerCount := TruncDiv(GetAmount(), count);
      var extractedPerCount := Min(maxExtract, Min(maxAmountPerCount, currentAmountPerCount));
      TruncDivPositive(maxAmount, count);
      MulDivCancel(extractedPerCount, count);
      if extractedPerCount > 0 && CanReplaceAll(ctx, count) then
        PerUnitWithinRequest(extractedPerCount, maxAmount, count);
        QuotientIsGreatest(maxAmount, count);
        extractedPerCount * count
      else
        0
    }

    /** `insert`: every unit gains `inserted / count`, or nothing changes at all. */
    method Insert(maxAmount: int, tx: TransactionContext) returns (inserted: int)
      requires ctx.Valid() && ctx.count > 0 && ClosedAbove(ctx.snapshots, tx.depth)
      modifies ctx
      ensures ctx.Valid()
      ensures inserted == old(InsertResult(maxAmount))
      ensures GetAmount() == old(GetAmount()) + inserted
      ensures ctx.count == old(ctx.count)
      ensures ctx.variant == if inserted > 0 then
                WithStoredExperience(old(ctx.variant), old(GetStoredExperienceUnchecked(ctx.variant)) + inserted / ctx.count)
              else old(ctx.variant)
      ensures ctx.snapshots == if inserted > 0 then UpdateSnapshots(old(ctx.snapshots), tx.depth, old(ctx.State()))
                               else old(ctx.snapshots)
      ensures ctx.releaseLimit == old(ctx.releaseLimit) && ctx.acceptLimit == old(ctx.acceptLimit)
    {
      var count := ctx.count;
      var maxAmountPerCount := TruncDiv(maxAmount, count);
      var currentAmountPerCount := TruncDiv(GetAmount(), count);
      var insertedPerCount := Min(maxInsert, Min(maxAmountPerCount, capacity - currentAmountPerCount));
      MulDivCancel(insertedPerCount, count);
      assert InsertResult(maxAmount) == if insertedPerCount > 0 && CanReplaceAll(ctx, count) then insertedPerCount * count else 0;
      if insertedPerCount > 0 {
        ghost var before := GetAmount();
        var converted := TrySetExperience(ctx, currentAmountPerCount + insertedPerCount, count, tx);
        assert converted ==> GetAmount() == (currentAmountPerCount + insertedPerCount) * count;
        assert before == currentAmountPerCount * count;
        MulDistributes(currentAmountPerCount, insertedPerCount, count);
        if converted {
          return insertedPerCount * count;
        }
      }
      return 0;
    }

    /** `extract`: every unit loses `extracted / count`, or nothing changes at all. */
    method Extract(maxAmount: int, tx: TransactionContext) returns (extracted: int)
      requires ctx.Valid() && ctx.count > 0 && ClosedAbove(ctx.snapshots, tx.depth)
      modifies ctx
      ensures ctx.Valid()
      ensures extracted == old(ExtractResult(maxAmount))
      ensures GetAmount() == old(GetAmount()) - extracted
      ensures ctx.count == old(ctx.count)
      ensures ctx.variant == if extracted > 0 then
                WithStoredExperience(old(ctx.variant), old(GetStoredExperienceUnchecked(ctx.variant)) - extracted / ctx.count)
              else old(ctx.variant)
      ensures ctx.snapshots == if extracted > 0 then UpdateSnapshots(old(ctx.snapshots), tx.depth, old(ctx.State()))
                               else old(ctx.snapshots)
      ensures ctx.releaseLimit == old(ctx.releaseLimit) && ctx.acceptLimit == old(ctx.acceptLimit)
    {
      var count := ctx.count;
      var maxAmountPerCount := TruncDiv(maxAmount, count);
      var currentAmountPerCount := TruncDiv(GetAmount(), count);
      var extractedPerCount := Min(maxExtract, Min(maxAmountPerCount, currentAmountPerCount));
      MulDivCancel(extractedPerCount, count);
      assert ExtractResult(maxAmount) == if extractedPerCount > 0 && CanReplaceAll(ctx, count) then extractedPerCount * count else 0;
      if extractedPerCount > 0 {
        ghost var before := GetAmount();
        var converted := TrySetExperience(ctx, currentAmountPerCount - extractedPerCount, count, tx);
        assert converted ==> GetAmount() == (currentAmountPerCount - extractedPerCount) * count;
        assert before == currentAmountPerCount * count;
        MulDistributes(currentAmountPerCount, extractedPerCount, count);
        if converted {
          return extractedPerCount * count;
        }
      }
      return 0;
    }
  }

  /**
   * FixedExtractOnlyItemExperienceStorageImpl: a per-unit capacity, no insertion, and
   * extraction without a rate limit, refused outright when the request does not cover one
   * per unit. Like the simple one it leaves the slot check to the delegating wrapper.
   */
  class FixedExtractOnlyItemExperienceStorageImpl {
    const ctx: ContainerItemContext
    const capacity: int

    constructor (ctx: ContainerItemContext, capacity: int)
      ensures this.ctx == ctx && this.capacity == capacity
    {
      this.ctx := ctx;
      this.capacity := capacity;
    }

    /** Insertion is never supported: `insert` always returns 0. */
    function SupportsInsertion(): (r: bool)
      ensures !r
    {
      false
    }

    /** Extraction is always supported: units holding experience give some up to a request of
        one per unit. */
    function SupportsExtraction(): (r: bool)
      reads ctx
      ensures r
      ensures ctx.count > 0 && GetStoredExperienceUnchecked(ctx.variant) > 0 && CanReplaceAll(ctx, ctx.count) ==>
        ExtractResult(ctx.count) > 0
    {
      true
    }

    /** The stack's experience: what every unit carries, `count` times over. */
    function GetAmount(): (r: int)
      reads ctx
      ensures ctx.count > 0 ==> TruncDiv(r, ctx.count) == GetStoredExperienceUnchecked(ctx.variant)
      ensures ctx.count == 0 ==> r == 0
    {
      StackAmount(ctx)
    }

    /** The stack's capacity: the per-unit capacity `count` times over. */
    function GetCapacity(): (r: int)
      reads ctx
      ensures ctx.count > 0 ==> TruncDiv(r, ctx.count) == capacity
      ensures ctx.count > 0 && GetStoredExperienceUnchecked(ctx.variant) <= capacity ==> GetAmount() <= r
    {
      StackCapacity(ctx, capacity)
    }

    /** `insert` is refused. */
    method Insert(maxAmount: int, tx: TransactionContext) returns (inserted: int)
      ensures inserted == 0
    {
      return 0;
    }

    /**
     * What `extract(maxAmount)` removes from the current state: nothing when the request does
     * not cover one per unit; otherwise the same amount from every unit, as much as the request
     * and what each unit holds allow, provided the inventory lets the whole stack be replaced.
     */
    function ExtractResult(maxAmount: int): (r: int)
      requires ctx.count > 0
      reads ctx
      ensures 0 <= r && (r > 0 ==> r <= maxAmount)
      ensures r % ctx.count == 0
      ensures r / ctx.count <= GetStoredExperienceUnchecked(ctx.variant) || r == 0
      ensures ctx.count > maxAmount ==> r == 0
      ensures r > 0 <==>
        maxAmount >= ctx.count && GetStoredExperienceUnchecked(ctx.variant) > 0 && CanReplaceAll(ctx, ctx.count)
      ensures r > 0 ==>
        || r / ctx.count == GetStoredExperienceUnchecked(ctx.variant)
        || r + ctx.count > maxAmount
    {
      var count := ctx.count;
      if count > maxAmount then
        0
      else
        var maxAmountPerCount := TruncDiv(maxAmount, count);
        var currentAmountPerCount := TruncDiv(GetAmount(), count);
        var extractedCount := Min(maxAmountPerCount, currentAmountPerCount);
        TruncDivPositive(maxAmount, count);
        MulDivCancel(extractedCount, count);
        if extractedCount > 0 && CanReplaceAll(ctx, count) then
          PerUnitWithinRequest(extractedCount, maxAmount, count);
          QuotientIsGreatest(maxAmount, count);
          extractedCount * count
        else
          0
    }

    /** `extract`: every unit loses `extracted / count`, or nothing changes at all. */
    method Extract(maxAmount: int, tx: TransactionContext) returns (extracted: int)
      requires ctx.Valid() && ctx.count > 0 && ClosedAbove(ctx.snapshots, tx.depth)
      modifies ctx
      ensures ctx.Valid()
      ensures extracted == old(ExtractResult(maxAmount))
      ensures GetAmount() == old(GetAmount()) - extracted
      ensures ctx.count == old(ctx.count)
      ensures ctx.variant == if extracted > 0 then
                WithStoredExperience(old(ctx.variant), old(GetStoredExperienceUnchecked(ctx.variant)) - extracted / ctx.count)
              else old(ctx.variant)
      ensures ctx.snapshots == if extracted > 0 then UpdateSnapshots(old(ctx.snapshots), tx.depth, old(ctx.State()))
                               else old(ctx.snapshots)
      ensures ctx.releaseLimit == old(ctx.releaseLimit) && ctx.acceptLimit == old(ctx.acceptLimit)
    {
      var count := ctx.count;
      if count > maxAmount {
        return 0;
      }
      var maxAmountPerCount := TruncDiv(maxAmount, count);
      var currentAmountPerCount := TruncDiv(GetAmount(), count);
      var extractedCount := Min(maxAmountPerCount, currentAmountPerCount);
      MulDivCancel(extractedCount, count);
      assert ExtractResult(maxAmount) == if extractedCount > 0 && CanReplaceAll(ctx, count) then extractedCount * count else 0;
      if extractedCount > 0 {
        ghost var before := GetAmount();
        var converted := TrySetExperience(ctx, currentAmountPerCount - extractedCount, count, tx);
        assert converted ==> GetAmount() == (currentAmountPerCount - extractedCount) * count;
        assert before == currentAmountPerCount * count;
        MulDistributes(currentAmountPerCount, extractedCount, count);
        if converted {
          return extractedCount * count;
        }
      }
      return 0;
    }
  }
}
