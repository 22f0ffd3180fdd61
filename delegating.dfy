/**
 * DelegatingExperienceStorage: forwards every operation to a backing storage, resolved afresh
 * on each call, while a validity predicate holds, and behaves like EMPTY while it does not.
 * The Java supplier and boolean supplier are arbitrary lambdas; the model offers the kinds
 * the repository builds: a fixed backing storage or one read from a mutable cell, and a
 * predicate that is always true, that checks the slot still holds its starting item, or that
 * reads a flag the host sets.
 */
module Delegating {
  import opened Wrappers
  import opened StorageLimits
  import opened Transactions
  import opened ItemContext
  import opened ExperienceStorages

  /** A mutable reference to the storage a resolving supplier returns. */
  class StorageCell {
    var current: DirectStorage

    constructor (current: DirectStorage)
      ensures this.current == current
    {
      this.current := current;
    }
  }

  /** A `Supplier<ExperienceStorage>`. */
  datatype Supplier =
    | Constant(storage: DirectStorage)
    | Resolving(cell: StorageCell)
  {
    function Frame(): set<object> {
      if Resolving? then {cell} else {}
    }

    function Get(): DirectStorage
      reads Frame()
    {
      match this
      case Constant(s) => s
      case Resolving(c) => c.current
    }
  }

  /** A flag a host-defined predicate reads. */
  class ValidityFlag {
    var value: bool

    constructor (value: bool)
      ensures this.value == value
    {
      this.value := value;
    }
  }

  /** A `BooleanSupplier`. */
  datatype ValidPredicate =
    | AlwaysTrue
    | HoldsStartingItem(ctx: ContainerItemContext, startingItem: Item)
    | Flag(flag: ValidityFlag)
  {
    function Frame(): set<object> {
      match this
      case AlwaysTrue => {}
      case HoldsStartingItem(ctx, _) => {ctx}
      case Flag(f) => {f}
    }

    /** `getAsBoolean()`; the item guard is `ctx.getItemVariant().isOf(startingItem) &&
        ctx.getAmount() > 0`. */
    predicate GetAsBoolean()
      reads Frame()
    {
      match this
      case AlwaysTrue => true
      case HoldsStartingItem(ctx, item) => ctx.variant.item == item && ctx.count > 0
      case Flag(f) => f.value
    }
  }

  class DelegatingExperienceStorage {
    const backingStorage: Supplier
    const validPredicate: ValidPredicate

    /** `new DelegatingExperienceStorage(storage, predicate)`: a null predicate means always
        valid. A null storage cannot be expressed here. */
    constructor (backingStorage: DirectStorage, validPredicate: Option<ValidPredicate>)
      ensures this.backingStorage == Constant(backingStorage)
      ensures this.validPredicate == if validPredicate.None? then AlwaysTrue else validPredicate.value
    {
      this.backingStorage := Constant(backingStorage);
      this.validPredicate := if validPredicate.None? then AlwaysTrue else validPredicate.value;
    }

    /** `new DelegatingExperienceStorage(supplier, predicate)`. */
    constructor FromSupplier(backingStorage: Supplier, validPredicate: Option<ValidPredicate>)
      ensures this.backingStorage == backingStorage
      ensures this.validPredicate == if validPredicate.None? then AlwaysTrue else validPredicate.value
    {
      this.backingStorage := backingStorage;
      this.validPredicate := if validPredicate.None? then AlwaysTrue else validPredicate.value;
    }

    /** What a query may read: the supplier, the predicate and the current backing storage. */
    function Frame(): set<object>
      reads backingStorage.Frame()
    {
      backingStorage.Frame() + validPredicate.Frame() + Footprint(backingStorage.Get())
    }

    /** The backing storage is well formed, and an item-backed one is guarded by the item check
        on its own slot, so it is only reached while that slot is non-empty. */
    ghost predicate Valid()
      reads Frame()
    {
      var s := backingStorage.Get();
      && ExperienceStorages.Valid(s)
      && (s.SimpleItem? ==> validPredicate.HoldsStartingItem? && validPredicate.ctx == s.simpleItem.ctx)
      && (s.ExtractOnlyItem? ==> validPredicate.HoldsStartingItem? && validPredicate.ctx == s.extractOnlyItem.ctx)
    }

    predicate IsValid()
      reads validPredicate.Frame()
    {
      validPredicate.GetAsBoolean()
    }

    /** The insertion hint: never true while invalid, and false only when no `insert` can
        move anything. */
    function SupportsInsertion(): (r: bool)
      reads Frame()
      ensures r ==> IsValid()
      ensures Valid() && !r ==> forall maxAmount :: maxAmount >= 0 ==> InsertResult(maxAmount) == 0
    {
      IsValid() && ExperienceStorages.SupportsInsertion(backingStorage.Get())
    }

    /** The extraction hint: never true while invalid, and false only when no `extract` can
        move anything. */
    function SupportsExtraction(): (r: bool)
      reads Frame()
      ensures r ==> IsValid()
      ensures Valid() && !r ==> forall maxAmount :: maxAmount >= 0 ==> ExtractResult(maxAmount) == 0
    {
      IsValid() && ExperienceStorages.SupportsExtraction(backingStorage.Get())
    }

    /** The amount: what EMPTY reports while invalid, what the storage resolved now holds
        otherwise. */
    function GetAmount(): (r: int)
      reads Frame()
      ensures !IsValid() ==> r == Amount(EMPTY)
      ensures IsValid() ==> r == Amount(backingStorage.Get())
    {
      if IsValid() then Amount(backingStorage.Get()) else 0
    }

    /** The capacity: what EMPTY reports while invalid, the resolved storage's otherwise. */
    function GetCapacity(): (r: int)
      reads Frame()
      ensures !IsValid() ==> r == Capacity(EMPTY)
      ensures IsValid() ==> r == Capacity(backingStorage.Get())
    {
      if IsValid() then Capacity(backingStorage.Get()) else 0
    }

    /** What `insert(maxAmount)` moves: the wrapper keeps the interface contract, reporting
        nothing while invalid. */
    function InsertResult(maxAmount: int): (r: int)
      requires Valid() && maxAmount >= 0
      reads Frame()
      ensures WithinRequest(maxAmount, r)
      ensures !IsValid() || !ExperienceStorages.SupportsInsertion(backingStorage.Get()) ==> r == 0
      ensures r > 0 ==> GetAmount() + r <= GetCapacity()
    {
      if IsValid() then ExperienceStorages.InsertResult(backingStorage.Get(), maxAmount) else 0
    }

    /** What `extract(maxAmount)` moves: the wrapper keeps the interface contract, reporting
        nothing while invalid. */
    function ExtractResult(maxAmount: int): (r: int)
      requires Valid() && maxAmount >= 0
      reads Frame()
      ensures WithinRequest(maxAmount, r)
      ensures !IsValid() || !ExperienceStorages.SupportsExtraction(backingStorage.Get()) ==> r == 0
      ensures r > 0 ==> r <= GetAmount()
    {
      if IsValid() then ExperienceStorages.ExtractResult(backingStorage.Get(), maxAmount) else 0
    }

    /** `insert`: a negative `maxAmount` is refused even while invalid; while invalid the
        backing storage is not touched. */
    method Insert(maxAmount: int, tx: TransactionContext) returns (inserted: int)
      requires Valid() && maxAmount >= 0 && Ready(backingStorage.Get(), tx)
      modifies Footprint(backingStorage.Get())
      ensures Valid()
      ensures inserted == old(InsertResult(maxAmount))
      ensures backingStorage.Get() == old(backingStorage.Get())
      ensures IsValid() == old(IsValid()) && Ready(backingStorage.Get(), tx)
      ensures old(IsValid()) ==> Amount(backingStorage.Get()) == old(Amount(backingStorage.Get())) + inserted
      ensures old(IsValid()) ==> Moved(backingStorage.Get(), tx, inserted)
      ensures !old(IsValid()) ==> unchanged(Footprint(backingStorage.Get()))
    {
      if validPredicate.GetAsBoolean() {
        inserted := ExperienceStorages.Insert(backingStorage.Get(), maxAmount, tx);
      } else {
        inserted := 0;
      }
    }

    /** `extract`: a negative `maxAmount` is refused even while invalid; while invalid the
        backing storage is not touched. */
    method Extract(maxAmount: int, tx: TransactionContext) returns (extracted: int)
      requires Valid() && maxAmount >= 0 && Ready(backingStorage.Get(), tx)
      modifies Footprint(backingStorage.Get())
      ensures Valid()
      ensures extracted == old(ExtractResult(maxAmount))
      ensures backingStorage.Get() == old(backingStorage.Get())
      ensures IsValid() == old(IsValid()) && Ready(backingStorage.Get(), tx)
      ensures old(IsValid()) ==> Amount(backingStorage.Get()) == old(Amount(backingStorage.Get())) - extracted
      ensures old(IsValid()) ==> Moved(backingStorage.Get(), tx, -extracted)
      ensures !old(IsValid()) ==> unchanged(Footprint(backingStorage.Get()))
    {
      if validPredicate.GetAsBoolean() {
        extracted := ExperienceStorages.Extract(backingStorage.Get(), maxAmount, tx);
      } else {
        extracted := 0;
      }
    }
  }

  /** While its predicate is false a delegating storage answers every query as EMPTY does. */
  lemma InvalidActsAsEmpty(d: DelegatingExperienceStorage, maxAmount: int)
    requires d.Valid() && !d.IsValid() && maxAmount >= 0
    ensures d.SupportsInsertion() == SupportsInsertion(EMPTY)
    ensures d.SupportsExtraction() == SupportsExtraction(EMPTY)
    ensures d.InsertResult(maxAmount) == InsertResult(EMPTY, maxAmount)
    ensures d.ExtractResult(maxAmount) == ExtractResult(EMPTY, maxAmount)
    ensures d.GetAmount() == Amount(EMPTY) && d.GetCapacity() == Capacity(EMPTY)
  {
  }

  /** While its predicate holds a delegating storage answers every query as its backing
      storage does at that moment. */
  lemma ValidActsAsBacking(d: DelegatingExperienceStorage, maxAmount: int)
    requires d.Valid() && d.IsValid() && maxAmount >= 0
    ensures Callable(d.backingStorage.Get())
    ensures d.SupportsInsertion() == SupportsInsertion(d.backingStorage.Get())
    ensures d.SupportsExtraction() == SupportsExtraction(d.backingStorage.Get())
    ensures d.InsertResult(maxAmount) == InsertResult(d.backingStorage.Get(), maxAmount)
    ensures d.ExtractResult(maxAmount) == ExtractResult(d.backingStorage.Get(), maxAmount)
    ensures d.GetAmount() == Amount(d.backingStorage.Get())
    ensures d.GetCapacity() == Capacity(d.backingStorage.Get())
  {
  }
}
