/**
 * How item-backed storages are built: the factories of the two item storages (each wraps its
 * storage behind the starting-item guard), `SimpleExperienceStorageItem.createStorage`, and the
 * fallback of the item lookup, which provides a storage for exactly the items implementing
 * SimpleExperienceStorageItem.
 */
module ExperienceImpl {
  import opened Wrappers
  import opened ItemContext
  import opened ItemStorages
  import opened ExperienceStorages
  import opened Delegating

  /** `storage` wraps a SimpleItemExperienceStorageImpl on `ctx` with these limits, guarded by
      the check that `ctx` still holds at least one `startingItem`. */
  predicate GuardsSimpleItem(storage: DelegatingExperienceStorage, ctx: ContainerItemContext, startingItem: Item,
                             capacity: int, maxInsert: int, maxExtract: int)
  {
    && storage.validPredicate == HoldsStartingItem(ctx, startingItem)
    && storage.backingStorage.Constant?
    && storage.backingStorage.storage.SimpleItem?
    && var x := storage.backingStorage.storage.simpleItem;
       x.ctx == ctx && x.capacity == capacity && x.maxInsert == maxInsert && x.maxExtract == maxExtract
  }

  /** `SimpleItemExperienceStorageImpl.createSimpleStorage`: a negative capacity or limit is an
      IllegalArgumentException in the source. */
  method CreateSimpleItemStorage(ctx: ContainerItemContext, capacity: int, maxInsert: int, maxExtract: int)
    returns (storage: DelegatingExperienceStorage)
    requires capacity >= 0 && maxInsert >= 0 && maxExtract >= 0
    ensures GuardsSimpleItem(storage, ctx, ctx.variant.item, capacity, maxInsert, maxExtract)
    ensures ctx.Valid() ==> storage.Valid()
    ensures storage.IsValid() <==> ctx.count > 0
  {
    var startingItem := ctx.variant.item;
    var impl := new SimpleItemExperienceStorageImpl(ctx, capacity, maxInsert, maxExtract);
    storage := new DelegatingExperienceStorage(SimpleItem(impl), Some(HoldsStartingItem(ctx, startingItem)));
  }

  /** `FixedExtractOnlyItemExperienceStorageImpl.createSimpleStorage`: a negative capacity is an
      IllegalArgumentException in the source. */
  method CreateFixedExtractOnlyItemStorage(ctx: ContainerItemContext, capacity: int)
    returns (storage: DelegatingExperienceStorage)
    requires capacity >= 0
    ensures storage.validPredicate == HoldsStartingItem(ctx, ctx.variant.item)
    ensures storage.backingStorage.Constant? && storage.backingStorage.storage.ExtractOnlyItem?
    ensures var x := storage.backingStorage.storage.extractOnlyItem; x.ctx == ctx && x.capacity == capacity
    ensures ctx.Valid() ==> storage.Valid()
    ensures storage.IsValid() <==> ctx.count > 0
  {
    var startingItem := ctx.variant.item;
    var impl := new FixedExtractOnlyItemExperienceStorageImpl(ctx, capacity);
    storage := new DelegatingExperienceStorage(ExtractOnlyItem(impl), Some(HoldsStartingItem(ctx, startingItem)));
  }

  /** `SimpleExperienceStorageItem.createStorage`: the simple item storage with the given limits. */
  method CreateStorage(ctx: ContainerItemContext, capacity: int, maxInsert: int, maxExtract: int)
    returns (storage: DelegatingExperienceStorage)
    requires capacity >= 0 && maxInsert >= 0 && maxExtract >= 0
    ensures GuardsSimpleItem(storage, ctx, ctx.variant.item, capacity, maxInsert, maxExtract)
  {
    storage := CreateSimpleItemStorage(ctx, capacity, maxInsert, maxExtract);
  }

  /** Whether an item's experience properties are acceptable limits for `createStorage`. */
  predicate NonNegativeProperties(p: ExperienceItemProperties) {
    p.capacity >= 0 && p.maxInput >= 0 && p.maxOutput >= 0
  }

  /** The fallback of the item lookup: a storage built from the item's own capacity, maximum
      input and maximum output when the slot's item implements SimpleExperienceStorageItem,
      and null otherwise. An item reporting a negative capacity, input or output makes
      `createSimpleStorage` throw an IllegalArgumentException in the source. */
  method ItemFallback(ctx: ContainerItemContext) returns (storage: Option<DelegatingExperienceStorage>)
    requires ctx.variant.item.experienceItem.Some? ==> NonNegativeProperties(ctx.variant.item.experienceItem.value)
    ensures storage.Some? <==> ctx.variant.item.experienceItem.Some?
    ensures storage.Some? ==>
      var p := ctx.variant.item.experienceItem.value;
      GuardsSimpleItem(storage.value, ctx, ctx.variant.item, p.capacity, p.maxInput, p.maxOutput)
  {
    match ctx.variant.item.experienceItem
    case Some(p) =>
      var s := CreateStorage(ctx, p.capacity, p.maxInput, p.maxOutput);
      storage := Some(s);
    case None =>
      storage := None;
  }
}
