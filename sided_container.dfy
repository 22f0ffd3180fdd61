/**
 * SimpleSidedExperienceContainer: one experience amount shared by seven facades, one per
 * side of a block plus one for the null side. The capacity and the per-side rate limits are
 * hooks the concrete container answers at call time, so they are mutable fields here that the
 * host may set to anything, negative values included.
 */
module SidedContainer {
  import opened Wrappers
  import opened StorageLimits
  import opened Transactions

  /** Minecraft's Direction, in the order of its ids. */
  datatype Direction = Down | Up | North | South | West | East {
    function Id(): (i: nat)
      ensures i < 6
    {
      match this
      case Down => 0
      case Up => 1
      case North => 2
      case South => 3
      case West => 4
      case East => 5
    }
  }

  /** `Direction.byId`, for the ids the container uses. */
  function DirectionById(i: nat): (d: Direction)
    requires i < 6
    ensures d.Id() == i
  {
    if i == 0 then Down
    else if i == 1 then Up
    else if i == 2 then North
    else if i == 3 then South
    else if i == 4 then West
    else East
  }

  /** A `@Nullable Direction`: None is the null side. */
  type Side = Option<Direction>

  /** The side the facade at index `i` of the container's array serves. */
  function SideAt(i: nat): Side
    requires i < 7
  {
    if i == 6 then None else Some(DirectionById(i))
  }

  /** The array index `getSideStorage` looks a side up at. */
  function SideIndex(side: Side): (i: nat)
    ensures i < 7
    ensures i == 6 <==> side.None?
  {
    if side.None? then 6 else side.value.Id()
  }

  /** Looking a side up finds the facade built for that side, and every index is looked up by
      exactly one side. */
  lemma SideIndexRoundTrip(side: Side, i: nat)
    requires i < 7
    ensures SideAt(SideIndex(side)) == side
    ensures SideIndex(SideAt(i)) == i
  {
    match side
    case None =>
    case Some(d) =>
      assert DirectionById(d.Id()).Id() == d.Id();
      match d
      case Down => case Up => case North => case South => case West => case East =>
  }

  class SimpleSidedExperienceContainer {
    var amount: int
    var snapshots: Journal<int>
    /** The current answer of `getCapacity()`. */
    var capacity: int
    /** The current answers of `getMaxInsert(side)` and `getMaxExtract(side)`. */
    var maxInsertOf: Side -> int
    var maxExtractOf: Side -> int
    const sideStorages: array<SideStorage?>

    /** The stored amount is never negative, now or in any snapshot. (It may exceed a capacity
        that the host has since lowered.) */
    ghost predicate AmountValid()
      reads this
    {
      amount >= 0 && forall k :: k in snapshots ==> snapshots[k] >= 0
    }

    ghost predicate Valid()
      reads this, sideStorages
    {
      && AmountValid()
      && sideStorages.Length == 7
      && forall i :: 0 <= i < 7 ==>
           sideStorages[i] != null && sideStorages[i].container == this && sideStorages[i].side == SideAt(i)
    }

    /** Builds the seven facades once, one per side, in id order, the null side last. */
    constructor (capacity: int, maxInsertOf: Side -> int, maxExtractOf: Side -> int)
      ensures Valid()
      ensures amount == 0 && snapshots == map[]
      ensures this.capacity == capacity && this.maxInsertOf == maxInsertOf && this.maxExtractOf == maxExtractOf
    {
      amount := 0;
      snapshots := map[];
      this.capacity := capacity;
      this.maxInsertOf := maxInsertOf;
      this.maxExtractOf := maxExtractOf;
      sideStorages := new SideStorage?[7];
      new;
      for i := 0 to 7
        modifies sideStorages
        invariant forall k :: 0 <= k < i ==>
          sideStorages[k] != null && sideStorages[k].container == this && sideStorages[k].side == SideAt(k)
      {
        sideStorages[i] := new SideStorage(this, SideAt(i));
      }
    }

    /** `getSideStorage`: the facade for `side`, which shares this container's amount. */
    function GetSideStorage(side: Side): (r: SideStorage)
      requires Valid()
      reads this, sideStorages
      ensures r.container == this && r.side == side
    {
      SideIndexRoundTrip(side, 0);
      sideStorages[SideIndex(side)]
    }

    method UpdateSnapshots(tx: TransactionContext)
      requires AmountValid()
      modifies this`snapshots
      ensures AmountValid()
      ensures snapshots == Transactions.UpdateSnapshots(old(snapshots), tx.depth, amount)
    {
      snapshots := Transactions.UpdateSnapshots(snapshots, tx.depth, amount);
    }

    /** The transaction's close callback: on abort the amount goes back to its snapshot. */
    method OnClose(tx: TransactionContext, result: TransactionResult) returns (finalCommit: bool)
      requires AmountValid()
      modifies this`amount, this`snapshots
      ensures AmountValid()
      ensures var c := Transactions.OnClose(old(snapshots), tx.depth, result, old(amount));
        snapshots == c.journal && amount == c.current && finalCommit == c.finalCommit
    {
      var c := Transactions.OnClose(snapshots, tx.depth, result, amount);
      snapshots := c.journal;
      amount := c.current;
      finalCommit := c.finalCommit;
    }
  }

  /** Two sides share a facade only when they are the same side. */
  lemma FacadesAreDistinct(c: SimpleSidedExperienceContainer, s1: Side, s2: Side)
    requires c.Valid()
    ensures c.GetSideStorage(s1) == c.GetSideStorage(s2) <==> s1 == s2
  {
  }

  /** All seven facades of a container report the same amount and the same capacity. */
  lemma FacadesShareAmount(c: SimpleSidedExperienceContainer, s1: Side, s2: Side)
    requires c.Valid()
    ensures c.GetSideStorage(s1).GetAmount() == c.GetSideStorage(s2).GetAmount()
    ensures c.GetSideStorage(s1).GetCapacity() == c.GetSideStorage(s2).GetCapacity()
  {
  }

  /** The facade of one side of a SimpleSidedExperienceContainer. */
  class SideStorage {
    const container: SimpleSidedExperienceContainer
    const side: Side

    constructor (container: SimpleSidedExperienceContainer, side: Side)
      ensures this.container == container && this.side == side
    {
      this.container := container;
      this.side := side;
    }

    /** The insertion hint of this side: false only when no `insert` through it can move
        anything, and true when one unit of room would take one unit. */
    function SupportsInsertion(): (r: bool)
      reads container
      ensures container.AmountValid() && !r ==> forall maxAmount :: maxAmount >= 0 ==> InsertResult(maxAmount) == 0
      ensures container.AmountValid() && r && container.amount < container.capacity ==> InsertResult(1) == 1
    {
      container.maxInsertOf(side) > 0
    }

    /** The extraction hint of this side: false only when no `extract` through it can move
        anything, and true when one stored unit would come out. */
    function SupportsExtraction(): (r: bool)
      reads container
      ensures container.AmountValid() && !r ==> forall maxAmount :: maxAmount >= 0 ==> ExtractResult(maxAmount) == 0
      ensures container.AmountValid() && r && container.amount > 0 ==> ExtractResult(1) == 1
    {
      container.maxExtractOf(side) > 0
    }

    /** Every facade reports the container's one amount, which is never negative. */
    function GetAmount(): (r: int)
      reads container
      ensures container.AmountValid() ==> r >= 0
    {
      container.amount
    }

    /** The host's current capacity: once it is at or below the amount, no side takes
        anything. */
    function GetCapacity(): (r: int)
      reads container
      ensures container.AmountValid() && r <= GetAmount() ==>
        forall maxAmount :: maxAmount >= 0 ==> InsertResult(maxAmount) == 0
    {
      container.capacity
    }

    /** What `insert(maxAmount)` through this side moves from the current state: within the
        request, the side's rate and the room under the current capacity, and nothing at all
        once the capacity has dropped to or below the amount. */
    function InsertResult(maxAmount: int): (r: int)
      requires container.AmountValid() && maxAmount >= 0
      reads container
      ensures WithinRequest(maxAmount, r)
      ensures r > 0 ==> r <= container.maxInsertOf(side) && container.amount + r <= container.capacity
      ensures container.capacity <= container.amount ==> r == 0
      ensures r == 0 <==> maxAmount == 0 || container.maxInsertOf(side) <= 0 || container.capacity <= container.amount
    {
      Clamp(container.maxInsertOf(side), maxAmount, container.capacity - container.amount)
    }

    /** What `extract(maxAmount)` through this side moves from the current state: within the
        request, the side's rate and the amount stored. */
    function ExtractResult(maxAmount: int): (r: int)
      requires container.AmountValid() && maxAmount >= 0
      reads container
      ensures WithinRequest(maxAmount, r)
      ensures r > 0 ==> r <= container.maxExtractOf(side)
      ensures r <= container.amount
      ensures r == 0 <==> maxAmount == 0 || container.maxExtractOf(side) <= 0 || container.amount == 0
    {
      Clamp(container.maxExtractOf(side), maxAmount, container.amount)
    }

    /** `insert`: a negative `maxAmount` is an IllegalArgumentException in the source. */
    method Insert(maxAmount: int, tx: TransactionContext) returns (inserted: int)
      requires container.AmountValid() && maxAmount >= 0
      modifies container`amount, container`snapshots
      ensures container.AmountValid()
      ensures inserted == old(InsertResult(maxAmount))
      ensures container.amount == old(container.amount) + inserted
      ensures container.snapshots ==
        if inserted > 0 then Transactions.UpdateSnapshots(old(container.snapshots), tx.depth, old(container.amount))
        else old(container.snapshots)
    {
      inserted := Min(container.maxInsertOf(side), Min(maxAmount, container.capacity - container.amount));
      if inserted > 0 {
        container.UpdateSnapshots(tx);
        container.amount := container.amount + inserted;
        return inserted;
      }
      return 0;
    }

    /** `extract`: a negative `maxAmount` is an IllegalArgumentException in the source. */
    method Extract(maxAmount: int, tx: TransactionContext) returns (extracted: int)
      requires container.AmountValid() && maxAmount >= 0
      modifies container`amount, container`snapshots
      ensures container.AmountValid()
      ensures extracted == old(ExtractResult(maxAmount))
      ensures container.amount == old(container.amount) - extracted
      ensures container.snapshots ==
        if extracted > 0 then Transactions.UpdateSnapshots(old(container.snapshots), tx.depth, old(container.amount))
        else old(container.snapshots)
    {
      extracted := Min(container.maxExtractOf(side), Min(maxAmount, container.amount));
      if extracted > 0 {
        container.UpdateSnapshots(tx);
        container.amount := container.amount - extracted;
        return extracted;
      }
      return 0;
    }
  }
}
