/**
 * Concrete runs of the storages on small fixed inputs, each stating the values the source
 * produces for them.
 */
module Scenarios {
  import opened Wrappers
  import opened Transactions
  import opened ItemContext
  import opened StoredExperience
  import opened SimpleStorage
  import opened SidedContainer
  import opened ItemStorages
  import opened ExperienceStorages
  import opened Delegating
  import opened ExperienceImpl

  /** A tank of capacity 100 moving at most 10 per call takes 10 of a request for 30. */
  method RateLimitedInsert() returns (inserted: int, amount: int)
    ensures inserted == 10 && amount == 10
  {
    var tank := new SimpleExperienceStorage(100, 10, 10);
    inserted := tank.Insert(30, TransactionContext(0));
    amount := tank.amount;
  }

  /** Five inserts of 5 in one transaction fill the tank to 25, and aborting that transaction
      empties it again without firing the final-commit hook. */
  method AbortUndoesInserts() returns (inside: int, after: int, finalCommit: bool)
    ensures inside == 25 && after == 0 && !finalCommit
  {
    var tank := new SimpleExperienceStorage(100, 10, 10);
    var tx := TransactionContext(0);
    var _ := tank.Insert(5, tx);
    var _ := tank.Insert(5, tx);
    var _ := tank.Insert(5, tx);
    var _ := tank.Insert(5, tx);
    var _ := tank.Insert(5, tx);
    inside := tank.amount;
    finalCommit := tank.OnClose(tx, Aborted);
    after := tank.amount;
  }

  /** A container that takes nothing from below refuses an insert through its DOWN facade,
      although it has room, and accepts the same insert through the null side; the DOWN facade
      then reports what went in through the null side. */
  method SidedInsert() returns (throughDown: int, throughNull: int, seenFromDown: int)
    ensures throughDown == 0 && throughNull == 10 && seenFromDown == 10
  {
    var c := new SimpleSidedExperienceContainer(100, s => if s == Some(Down) then 0 else 50, s => 50);
    var tx := TransactionContext(0);
    var down := c.GetSideStorage(Some(Down));
    throughDown := down.Insert(10, tx);
    var unrestricted := c.GetSideStorage(None);
    throughNull := unrestricted.Insert(10, tx);
    seenFromDown := down.GetAmount();
  }

  /** An experience item of capacity 10 taking at most 3 per unit and call. */
  const Bottle: Item := Item(1, Some(ExperienceItemProperties(10, 3, 3)))

  /** Four units holding 2 each take 3 more each from a request for 40: 12 in all, and every
      unit then holds 5. */
  method StackInsert() returns (inserted: int, perUnit: int, count: int)
    ensures inserted == 12 && perUnit == 5 && count == 4
  {
    var ctx := new ContainerItemContext(ItemVariant(Bottle, Some(2)), 4, 64, 64);
    var storage := new SimpleItemExperienceStorageImpl(ctx, 10, 3, 3);
    inserted := storage.Insert(40, TransactionContext(0));
    perUnit := GetStoredExperienceUnchecked(ctx.variant);
    count := ctx.count;
  }

  /** The same insert through the storage `createStorage` builds, guarded by the item check:
      the guard still holds afterwards, the storage reports 20, and the slot has journaled its
      old content at the outer depth. */
  method GuardedStackInsert() returns (inserted: int, total: int, stillValid: bool, journal: Journal<SlotState>)
    ensures inserted == 12 && total == 20 && stillValid
    ensures journal == map[0 := SlotState(ItemVariant(Bottle, Some(2)), 4)]
  {
    var ctx := new ContainerItemContext(ItemVariant(Bottle, Some(2)), 4, 64, 64);
    var storage := CreateStorage(ctx, 10, 3, 3);
    inserted := storage.Insert(40, TransactionContext(0));
    total := storage.GetAmount();
    stillValid := storage.IsValid();
    journal := ctx.snapshots;
  }

  /** When the inventory lets only 2 of the 4 units out, the conversion is rolled back: the
      insert reports 0 and the stack is as it was. */
  method StackInsertRolledBack() returns (inserted: int, variant: ItemVariant, count: int, journal: Journal<SlotState>)
    ensures inserted == 0 && variant == ItemVariant(Bottle, Some(2)) && count == 4 && journal == map[]
  {
    var ctx := new ContainerItemContext(ItemVariant(Bottle, Some(2)), 4, 2, 64);
    var storage := new SimpleItemExperienceStorageImpl(ctx, 10, 3, 3);
    inserted := storage.Insert(40, TransactionContext(0));
    variant := ctx.variant;
    count := ctx.count;
    journal := ctx.snapshots;
  }

  /** An extract-only stack of 4 units holding 5 each gives nothing for a request below one per
      unit, and for a request of 10 drains 2 from every unit. */
  method ExtractOnlyStack() returns (small: int, large: int, perUnit: int)
    ensures small == 0 && large == 8 && perUnit == 3
  {
    var ctx := new ContainerItemContext(ItemVariant(Bottle, Some(5)), 4, 64, 64);
    var storage := new FixedExtractOnlyItemExperienceStorageImpl(ctx, 10);
    var tx := TransactionContext(0);
    small := storage.Extract(3, tx);
    large := storage.Extract(10, tx);
    perUnit := GetStoredExperienceUnchecked(ctx.variant);
  }

  /** A storage whose predicate is false reports no capacity and takes nothing. */
  method InvalidDelegate() returns (inserted: int, capacity: int, amount: int)
    ensures inserted == 0 && capacity == 0 && amount == 5
  {
    var tank := new SimpleExperienceStorage(100, 10, 10);
    var _ := tank.Insert(5, TransactionContext(0));
    var flag := new ValidityFlag(false);
    var guarded := new DelegatingExperienceStorage(Simple(tank), Some(Flag(flag)));
    inserted := guarded.Insert(100, TransactionContext(0));
    capacity := guarded.GetCapacity();
    amount := tank.amount;
  }

  /** A stack emptied out from under an item storage turns its guard off: nothing is reported
      and nothing is taken. */
  method EmptiedStack() returns (inserted: int, amount: int)
    ensures inserted == 0 && amount == 0
  {
    var ctx := new ContainerItemContext(ItemVariant(Bottle, Some(2)), 1, 64, 64);
    var storage := CreateSimpleItemStorage(ctx, 10, 3, 3);
    var _ := ctx.Extract(ctx.variant, 1, TransactionContext(0));
    inserted := storage.Insert(40, TransactionContext(0));
    amount := storage.GetAmount();
  }

  /** Using 3 of the 5 stored in a single bottle leaves 2; asking for more than is left is
      refused. */
  method UseFromBottle() returns (first: bool, second: bool, left: int)
    ensures first && !second && left == 2
  {
    var stack := new ItemStack(ItemVariant(Bottle, Some(5)), 1);
    first := TryUseExperience(stack, 3);
    second := TryUseExperience(stack, 3);
    left := GetStoredExperienceUnchecked(stack.Variant());
  }
}
