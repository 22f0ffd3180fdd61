/**
 * The arithmetic every storage uses to limit one operation, and the result contract of the
 * ExperienceStorage interface.
 */
module StorageLimits {

  /** Java's `Math.min` on longs (without overflow). */
  function Min(a: int, b: int): (r: int)
    ensures r <= a && r <= b && (r == a || r == b)
  {
    if a <= b then a else b
  }

  /** The amount one operation moves: `Math.min(limit, Math.min(maxAmount, room))` when that is
      positive, and 0 otherwise. `limit` is the per-operation rate, `maxAmount` what the caller
      asked for, `room` what the storage can physically take or give. */
  function Clamp(limit: int, maxAmount: int, room: int): (r: int)
    ensures r >= 0
    ensures r > 0 <==> limit > 0 && maxAmount > 0 && room > 0
    ensures r > 0 ==> r <= limit && r <= maxAmount && r <= room
    ensures r > 0 ==> r == limit || r == maxAmount || r == room
  {
    var m := Min(limit, Min(maxAmount, room));
    if m > 0 then m else 0
  }

  /** `Clamp` moves as much as the three bounds allow: no smaller amount is chosen. */
  lemma ClampIsGreatest(limit: int, maxAmount: int, room: int, x: int)
    requires 0 <= x && x <= limit && x <= maxAmount && x <= room
    ensures x <= Clamp(limit, maxAmount, room)
  {
  }

  /** Multiplying by a non-negative factor keeps the order. */
  lemma MulLe(a: int, b: int, c: int)
    requires a <= b && c >= 0
    ensures a * c <= b * c
  {
    assert b * c - a * c == (b - a) * c;
  }

  /** Adding to or taking from every unit changes the total by `count` times the change. */
  lemma MulDistributes(a: int, b: int, count: int)
    ensures (a + b) * count == a * count + b * count
    ensures (a - b) * count == a * count - b * count
  {
  }

  /** Taking away a whole multiple of `count` takes away its quotient from every unit. */
  lemma NegatedQuotient(e: int, count: int)
    requires count > 0 && e % count == 0
    ensures (-e) / count == -(e / count) && (-e) % count == 0
  {
    var q := e / count;
    assert e == q * count;
    assert -e == (-q) * count;
    MulDivCancel(-q, count);
  }

  /** A per-unit amount spread over `count` units divides back exactly. */
  lemma MulDivCancel(d: int, count: int)
    requires count > 0
    ensures (d * count) / count == d && (d * count) % count == 0
  {
    var q, r := (d * count) / count, (d * count) % count;
    assert (d - q) * count == r;
    if d - q >= 1 {
      MulLe(1, d - q, count);
    } else if d - q <= -1 {
      MulLe(d - q, -1, count);
    }
  }

  /** A per-unit amount no greater than the floor quotient `maxAmount / count` adds up, over
      `count` units, to no more than `maxAmount`. */
  lemma PerUnitWithinRequest(d: int, maxAmount: int, count: int)
    requires count > 0 && d <= maxAmount / count
    ensures d * count <= maxAmount
  {
    MulLe(d, maxAmount / count, count);
  }

  /** Java's `/` on longs by a positive divisor: it truncates toward zero, where Dafny's `/`
      rounds down. */
  function TruncDiv(a: int, count: int): (q: int)
    requires count > 0
    ensures a >= 0 ==> q == a / count
    ensures a <= 0 ==> q <= 0
  {
    if a >= 0 then a / count else -((-a) / count)
  }

  /** Spreading `d` per unit over `count` units and dividing back gives `d`, whatever its sign. */
  lemma TruncDivCancel(d: int, count: int)
    requires count > 0
    ensures TruncDiv(d * count, count) == d
  {
    if d >= 0 {
      MulDivCancel(d, count);
      MulLe(0, d, count);
    } else {
      MulDivCancel(-d, count);
      MulLe(d, 0, count);
      assert -(d * count) == (-d) * count;
    }
  }

  /** The truncated quotient is positive exactly when the dividend covers the divisor once. */
  lemma TruncDivPositive(a: int, count: int)
    requires count > 0
    ensures TruncDiv(a, count) > 0 <==> a >= count
  {
    if a >= 0 {
      var q := a / count;
      if q <= 0 {
        MulLe(q, 0, count);
      } else {
        MulLe(1, q, count);
      }
    }
  }

  /** One more unit's worth on top of the floor quotient overshoots the dividend. */
  lemma QuotientIsGreatest(a: int, count: int)
    requires count > 0 && a >= 0
    ensures (a / count) * count <= a < (a / count) * count + count
  {
  }

  /** An amount spread evenly over `count` units, each unit's share within `bound`, is within
      `count` times `bound`. */
  lemma SpreadWithin(r: int, bound: int, count: int)
    requires count > 0 && r % count == 0 && r / count <= bound
    ensures r <= bound * count
  {
    assert r == (r / count) * count;
    MulLe(r / count, bound, count);
  }

  /** The contract of `insert` and `extract`: a non-negative amount not greater than the
      requested `maxAmount`. */
  predicate WithinRequest(maxAmount: int, moved: int) {
    0 <= moved <= maxAmount
  }
}
