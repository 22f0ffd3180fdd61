/**
 * SimpleExperienceStorage: a single experience tank with a fixed capacity and fixed
 * per-operation insertion and extraction limits, taking part in transactions through its own
 * snapshot journal (the amount is the snapshot).
 */
module SimpleStorage {
  import opened StorageLimits
  import opened Transactions

  class SimpleExperienceStorage {
    var amount: int
    const capacity: int
    const maxInsert: int
    const maxExtract: int
    var snapshots: Journal<int>

    /** The amount stays within the capacity, in the live state and in every snapshot. */
    ghost predicate Valid()
      reads this
    {
      && 0 <= capacity && 0 <= maxInsert && 0 <= maxExtract
      && 0 <= amount <= capacity
      && forall k :: k in snapshots ==> 0 <= snapshots[k] <= capacity
    }

    /** A negative capacity or limit is an IllegalArgumentException in the source. */
    constructor (capacity: int, maxInsert: int, maxExtract: int)
      requires capacity >= 0 && maxInsert >= 0 && maxExtract >= 0
      ensures Valid()
      ensures amount == 0 && snapshots == map[]
      ensures this.capacity == capacity && this.maxInsert == maxInsert && this.maxExtract == maxExtract
    {
      amount := 0;
      this.capacity := capacity;
      this.maxInsert := maxInsert;
      this.maxExtract := maxExtract;
      snapshots := map[];
    }

    /** The insertion hint: false only when no `insert` can move anything, and true when one
        unit of free room would take one unit. */
    function SupportsInsertion(): (r: bool)
      reads this
      ensures Valid() && !r ==> forall maxAmount :: maxAmount >= 0 ==> InsertResult(maxAmount) == 0
      ensures Valid() && r && amount < capacity ==> InsertResult(1) == 1
    {
      maxInsert > 0
    }

    /** The extraction hint: false only when no `extract` can move anything, and true when one
        stored unit would come out. */
    function SupportsExtraction(): (r: bool)
      reads this
      ensures Valid() && !r ==> forall maxAmount :: maxAmount >= 0 ==> ExtractResult(maxAmount) == 0
      ensures Valid() && r && amount > 0 ==> ExtractResult(1) == 1
    {
      maxExtract > 0
    }

    /** The stored amount, never negative and never above the capacity. */
    function GetAmount(): (r: int)
      reads this
      ensures Valid() ==> 0 <= r <= capacity
    {
      amount
    }

    /** The capacity: never below the amount, and a tank at its capacity takes nothing more. */
    function GetCapacity(): (r: int)
      reads this
      ensures Valid() ==> 0 <= GetAmount() <= r
      ensures Valid() && GetAmount() == r ==> forall maxAmount :: maxAmount >= 0 ==> InsertResult(maxAmount) == 0
    {
      capacity
    }

    /** What `insert(maxAmount)` moves from the current state: never more than asked, than the
        rate limit or than the free room; and something whenever all three allow it. */
    function InsertResult(maxAmount: int): (r: int)
      requires Valid() && maxAmount >= 0
      reads this
      ensures WithinRequest(maxAmount, r)
      ensures r <= maxInsert && amount + r <= capacity
      ensures r == 0 <==> maxAmount == 0 || maxInsert == 0 || amount == capacity
    {
      Clamp(maxInsert, maxAmount, capacity - amount)
    }

    /** What `extract(maxAmount)` moves from the current state: never more than asked, than the
        rate limit or than what is stored; and something whenever all three allow it. */
    function ExtractResult(maxAmount: int): (r: int)
      requires Valid() && maxAmount >= 0
      reads this
      ensures WithinRequest(maxAmount, r)
      ensures r <= maxExtract && r <= amount
      ensures r == 0 <==> maxAmount == 0 || maxExtract == 0 || amount == 0
    {
      Clamp(maxExtract, maxAmount, amount)
    }

    method UpdateSnapshots(tx: TransactionContext)
      requires Valid()
      modifies this`snapshots
      ensures Valid()
      ensures snapshots == Transactions.UpdateSnapshots(old(snapshots), tx.depth, amount)
    {
      snapshots := Transactions.UpdateSnapshots(snapshots, tx.depth, amount);
    }

    /** `insert`: a negative `maxAmount` is an IllegalArgumentException in the source. A call
        that moves nothing takes no snapshot. */
    method Insert(maxAmount: int, tx: TransactionContext) returns (inserted: int)
      requires Valid() && maxAmount >= 0
      modifies this`amount, this`snapshots
      ensures Valid()
      ensures inserted == old(InsertResult(maxAmount))
      ensures amount == old(amount) + inserted
      ensures snapshots == if inserted > 0 then Transactions.UpdateSnapshots(old(snapshots), tx.depth, old(amount))
                           else old(snapshots)
    {
      inserted := Min(maxInsert, Min(maxAmount, capacity - amount));
      if inserted > 0 {
        UpdateSnapshots(tx);
        amount := amount + inserted;
        return inserted;
      }
      return 0;
    }

    /** `extract`: a negative `maxAmount` is an IllegalArgumentException in the source. A call
        that moves nothing takes no snapshot. */
    method Extract(maxAmount: int, tx: TransactionContext) returns (extracted: int)
      requires Valid() && maxAmount >= 0
      modifies this`amount, this`snapshots
      ensures Valid()
      ensures extracted == old(ExtractResult(maxAmount))
      ensures amount == old(amount) - extracted
      ensures snapshots == if extracted > 0 then Transactions.UpdateSnapshots(old(snapshots), tx.depth, old(amount))
                           else old(snapshots)
    {
      extracted := Min(maxExtract, Min(maxAmount, amount));
      if extracted > 0 {
        UpdateSnapshots(tx);
        amount := amount - extracted;
        return extracted;
      }
      return 0;
    }

    /** The transaction's close callback: on abort the amount goes back to its snapshot. */
    method OnClose(tx: TransactionContext, result: TransactionResult) returns (finalCommit: bool)
      requires Valid()
      modifies this`amount, this`snapshots
      ensures Valid()
      ensures var c := Transactions.OnClose(old(snapshots), tx.depth, result, old(amount));
        snapshots == c.journal && amount == c.current && finalCommit == c.finalCommit
    {
      var c := Transactions.OnClose(snapshots, tx.depth, result, amount);
      snapshots := c.journal;
      amount := c.current;
      finalCommit := c.finalCommit;
    }
  }

  /** Inserting and then extracting the same amount within one transaction is undone exactly:
      an insert of `n` leaves room to extract those `n` again, when the rates allow it. */
  lemma InsertThenExtractRoundTrip(capacity: int, maxInsert: int, maxExtract: int, amount: int, n: int)
    requires 0 <= amount <= capacity && 0 <= maxInsert && 0 <= maxExtract
    requires 0 <= n <= maxInsert && amount + n <= capacity && n <= maxExtract
    ensures Clamp(maxInsert, n, capacity - amount) == n
    ensures Clamp(maxExtract, n, amount + n) == n
  {
    if n > 0 {
      ClampIsGreatest(maxInsert, n, capacity - amount, n);
      ClampIsGreatest(maxExtract, n, amount + n, n);
    }
  }
}
