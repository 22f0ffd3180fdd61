/**
 * The host types the item-backed storages work on: items, item variants (an item with its
 * NBT, of which only the `stored_xp` long is modelled), item stacks, and the
 * ContainerItemContext, a single slot of `count` identical units that takes part in
 * transactions like any other participant.
 */
module ItemContext {
  import opened Wrappers
  import opened StorageLimits
  import opened Transactions

  /** What an item implementing SimpleExperienceStorageItem answers to getExperienceCapacity,
      getMaxExperienceInput and getMaxExperienceOutput. */
  datatype ExperienceItemProperties = ExperienceItemProperties(capacity: int, maxInput: int, maxOutput: int)

  /** An item type; `experienceItem` is present when the item implements
      SimpleExperienceStorageItem. */
  datatype Item = Item(id: nat, experienceItem: Option<ExperienceItemProperties>)

  const Air: Item := Item(0, None)

  /** An item variant: the item and the `stored_xp` entry of its NBT (None: no such key). */
  datatype ItemVariant = ItemVariant(item: Item, storedXp: Option<int>)

  const Blank: ItemVariant := ItemVariant(Air, None)

  class ItemStack {
    var item: Item
    var storedXp: Option<int>
    var count: int

    /** `variant.toStack(count)`. */
    constructor (variant: ItemVariant, count: int)
      ensures Variant() == variant && this.count == count
    {
      item := variant.item;
      storedXp := variant.storedXp;
      this.count := count;
    }

    /** `ItemVariant.of(stack)`. */
    function Variant(): ItemVariant
      reads this
    {
      ItemVariant(item, storedXp)
    }
  }

  /** The content of a slot: its variant and how many units of it it holds. */
  datatype SlotState = SlotState(variant: ItemVariant, count: int)

  /** An empty slot holds the blank variant, a non-empty one a variant of a real item. */
  predicate ValidSlot(s: SlotState) {
    && s.count >= 0
    && (s.count == 0 <==> s.variant.item == Air)
    && (s.count == 0 ==> s.variant == Blank)
  }

  /**
   * A ContainerItemContext: the slot an item-backed storage reads and rewrites. The inventory
   * around the slot decides how many units it lets out or takes in per call: `releaseLimit`
   * and `acceptLimit` are its current answers, set by the host, and are how a call can move
   * fewer units than asked.
   */
  class ContainerItemContext {
    var variant: ItemVariant
    var count: int
    var releaseLimit: nat
    var acceptLimit: nat
    var snapshots: Journal<SlotState>

    function State(): SlotState
      reads this
    {
      SlotState(variant, count)
    }

    ghost predicate Valid()
      reads this
    {
      ValidSlot(State()) && forall k :: k in snapshots ==> ValidSlot(snapshots[k])
    }

    constructor (variant: ItemVariant, count: int, releaseLimit: nat, acceptLimit: nat)
      requires ValidSlot(SlotState(variant, count))
      ensures Valid()
      ensures State() == SlotState(variant, count) && snapshots == map[]
      ensures this.releaseLimit == releaseLimit && this.acceptLimit == acceptLimit
    {
      this.variant := variant;
      this.count := count;
      this.releaseLimit := releaseLimit;
      this.acceptLimit := acceptLimit;
      snapshots := map[];
    }

    method UpdateSnapshots(tx: TransactionContext)
      requires Valid()
      modifies this`snapshots
      ensures Valid()
      ensures snapshots == Transactions.UpdateSnapshots(old(snapshots), tx.depth, State())
    {
      snapshots := Transactions.UpdateSnapshots(snapshots, tx.depth, State());
    }

    /** `ctx.extract(v, maxCount, tx)`: removes up to `maxCount` units of exactly `v`. */
    method Extract(v: ItemVariant, maxCount: int, tx: TransactionContext) returns (moved: int)
      requires Valid() && v.item != Air && maxCount >= 0
      modifies this
      ensures Valid()
      ensures moved == (if v == old(variant) then Min(maxCount, Min(old(count), releaseLimit)) else 0)
      ensures count == old(count) - moved
      ensures variant == (if count == 0 then Blank else old(variant))
      ensures snapshots == if moved > 0 then Transactions.UpdateSnapshots(old(snapshots), tx.depth, old(State()))
                           else old(snapshots)
      ensures releaseLimit == old(releaseLimit) && acceptLimit == old(acceptLimit)
    {
      moved := 0;
      if v == variant {
        moved := Min(maxCount, Min(count, releaseLimit));
      }
      if moved > 0 {
        UpdateSnapshots(tx);
        count := count - moved;
        if count == 0 {
          variant := Blank;
        }
      }
    }

    /** `ctx.insert(v, maxCount, tx)`: adds up to `maxCount` units of `v` when the slot is
        empty or already holds `v`. */
    method Insert(v: ItemVariant, maxCount: int, tx: TransactionContext) returns (moved: int)
      requires Valid() && v.item != Air && maxCount >= 0
      modifies this
      ensures Valid()
      ensures moved == (if old(count) == 0 || v == old(variant) then Min(maxCount, acceptLimit) else 0)
      ensures count == old(count) + moved
      ensures variant == (if moved > 0 then v else old(variant))
      ensures snapshots == if moved > 0 then Transactions.UpdateSnapshots(old(snapshots), tx.depth, old(State()))
                           else old(snapshots)
      ensures releaseLimit == old(releaseLimit) && acceptLimit == old(acceptLimit)
    {
      moved := 0;
      if count == 0 || v == variant {
        moved := Min(maxCount, acceptLimit);
      }
      if moved > 0 {
        UpdateSnapshots(tx);
        count := count + moved;
        variant := v;
      }
    }

    /** The transaction's close callback for this slot. */
    method OnClose(tx: TransactionContext, result: TransactionResult) returns (finalCommit: bool)
      requires Valid()
      modifies this
      ensures Valid()
      ensures var c := Transactions.OnClose(old(snapshots), tx.depth, result, old(State()));
        snapshots == c.journal && State() == c.current && finalCommit == c.finalCommit
      ensures releaseLimit == old(releaseLimit) && acceptLimit == old(acceptLimit)
    {
      var c := Transactions.OnClose(snapshots, tx.depth, result, State());
      snapshots := c.journal;
      variant := c.current.variant;
      count := c.current.count;
      finalCommit := c.finalCommit;
    }
  }
}
