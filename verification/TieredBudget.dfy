/**
 One memory budget for a primary and a secondary cache. The primary cache has the whole budget as its
 capacity; the secondary cache's part is taken away from it by a reservation. Placeholders reserve memory
 in the primary cache, and part of each is passed on: the secondary cache is deflated and the reservation
 on its behalf shrinks by the same amount.
 */
module TieredBudget {
  import opened Reservation

  const CHUNK: nat := 1048576

  /** The fraction of the budget that is the secondary cache's: numerator over denominator. */
  datatype Ratio = Ratio(num: nat, den: nat) {
    predicate Valid() { 0 < den && num <= den }
  }

  function Share(r: Ratio, x: nat): nat
    requires r.Valid()
  {
    x * r.num / r.den
  }

  lemma ShareMonotone(r: Ratio, x: nat, y: nat)
    requires r.Valid() && x <= y
    ensures Share(r, x) <= Share(r, y) <= y
  {
    MulLe(x, y, r.num);
    DivLe(x * r.num, y * r.num, r.den);
    MulLe(r.num, r.den, y);
    DivLe(y * r.num, y * r.den, r.den);
    DivOfProduct(y, r.den);
  }

  lemma MulLe(a: nat, b: nat, c: nat)
    requires a <= b
    ensures a * c <= b * c && c * a <= c * b
  {
  }

  lemma DivLe(a: nat, b: nat, d: nat)
    requires a <= b && d > 0
    ensures a / d <= b / d
  {
    var x, y := a / d, b / d;
    assert a == d * x + a % d && b == d * y + b % d;
    if x > y {
      MulLe(y + 1, x, d);
    }
  }

  lemma DivOfProduct(y: nat, d: nat)
    requires d > 0
    ensures y * d / d == y
  {
    var q := y * d / d;
    assert y * d == d * q + (y * d) % d;
    if q < y {
      MulLe(q + 1, y, d);
    } else if q > y {
      MulLe(y + 1, q, d);
    }
  }

  function RoundDown(x: nat): (r: nat)
    ensures r <= x < r + CHUNK && r % CHUNK == 0
  {
    x - x % CHUNK
  }

  /** The secondary cache, as far as its budget goes. */
  class SecondaryCache {
    var capacity: nat
    const reservation: ReservationManager

    constructor (capacity: nat)
      ensures this.capacity == capacity && fresh(reservation) && reservation.Valid() && reservation.used == 0
      ensures !reservation.delayedDecrease
    {
      this.capacity := capacity;
      var r := new ReservationManager(false);
      reservation := r;
    }

    /** Shrinks the usable part of the cache. */
    method Deflate(decrease: nat)
      requires reservation.Valid()
      modifies reservation`reservedSize, reservation`dummies, reservation`used, reservation`answers
      ensures reservation.Valid() && reservation.used == old(reservation.used) + decrease
    {
      var ok := reservation.UpdateByDelta(decrease, true);
    }

    method Inflate(increase: nat)
      requires reservation.Valid()
      modifies reservation`reservedSize, reservation`dummies, reservation`used, reservation`answers
      ensures reservation.Valid()
      ensures increase <= old(reservation.used) ==> reservation.used == old(reservation.used) - increase
    {
      var ok := reservation.UpdateByDelta(increase, false);
    }
  }

  class TieredCache {
    const ratio: Ratio
    const primary: ReservationManager
    const secondary: SecondaryCache
    var capacity: nat
    var placeholderUsage: nat
    var reservedUsage: nat
    var secReserved: nat

    ghost predicate Valid()
      reads this, primary, secondary, secondary.reservation
    {
      && ratio.Valid() && primary != secondary.reservation
      && primary.Valid() && secondary.reservation.Valid()
      // Both reservations shrink at once when less is used.
      && !primary.delayedDecrease && !secondary.reservation.delayedDecrease
      // The secondary cache has its share of the budget ...
      && secondary.capacity == Share(ratio, capacity)
      // ... of which part is reserved in the primary cache and the rest was passed on to placeholders.
      && primary.used + secReserved == secondary.capacity
      && secReserved == Share(ratio, reservedUsage)
      && secondary.reservation.used == secReserved
      // Placeholders are passed on in whole chunks, and never beyond the budget.
      && reservedUsage <= placeholderUsage && reservedUsage <= capacity && reservedUsage % CHUNK == 0
    }

    constructor (capacity: nat, secCapacity: nat)
      requires 0 < capacity && secCapacity <= capacity
      ensures Valid() && fresh(primary) && fresh(secondary) && fresh(secondary.reservation)
      ensures this.capacity == capacity && placeholderUsage == 0 && primary.used == secondary.capacity == secCapacity
      ensures ratio == Ratio(secCapacity, capacity)
    {
      var p := new ReservationManager(false);
      var s := new SecondaryCache(secCapacity);
      var ok := p.UpdateCacheReservation(secCapacity);
      ratio := Ratio(secCapacity, capacity);
      primary, secondary := p, s;
      this.capacity := capacity;
      placeholderUsage, reservedUsage, secReserved := 0, 0, 0;
      new;
      DivOfProduct(secCapacity, capacity);
      assert capacity * secCapacity == secCapacity * capacity;
      ShareOfNothing(ratio);
    }

    /** A placeholder of the given charge was inserted into the primary cache. */
    method InsertPlaceholder(charge: nat)
      requires Valid()
      modifies this`placeholderUsage, this`reservedUsage, this`secReserved
      modifies primary`reservedSize, primary`dummies, primary`used, primary`answers
      modifies secondary.reservation`reservedSize, secondary.reservation`dummies, secondary.reservation`used, secondary.reservation`answers
      ensures Valid() && placeholderUsage == old(placeholderUsage) + charge
      ensures reservedUsage >= old(reservedUsage)
      // All whole chunks are passed on, but nothing more once the placeholders exceed the budget.
      ensures placeholderUsage <= capacity ==> placeholderUsage - reservedUsage < CHUNK
      ensures placeholderUsage > capacity ==> reservedUsage == old(reservedUsage)
    {
      hide Share;
      placeholderUsage := placeholderUsage + charge;
      if placeholderUsage <= capacity && placeholderUsage - reservedUsage >= CHUNK {
        reservedUsage := RoundDown(placeholderUsage);
        ShareMonotone(ratio, old(reservedUsage), reservedUsage);
        ShareMonotone(ratio, reservedUsage, capacity);
        var secCharge := Share(ratio, reservedUsage) - secReserved;
        secondary.Deflate(secCharge);
        var ok := primary.UpdateByDelta(secCharge, false);
        secReserved := secReserved + secCharge;
      }
    }

    /** A placeholder of the given charge was released and erased. */
    method ReleasePlaceholder(charge: nat)
      requires Valid() && charge <= placeholderUsage
      modifies this`placeholderUsage, this`reservedUsage, this`secReserved
      modifies primary`reservedSize, primary`dummies, primary`used, primary`answers
      modifies secondary.reservation`reservedSize, secondary.reservation`dummies, secondary.reservation`used, secondary.reservation`answers
      ensures Valid() && placeholderUsage == old(placeholderUsage) - charge
      ensures reservedUsage <= old(reservedUsage)
      // What was passed on is left as it is if the remaining placeholders cover it, and is cut to their whole chunks if not.
      ensures placeholderUsage >= old(reservedUsage) ==> reservedUsage == old(reservedUsage)
      ensures placeholderUsage < old(reservedUsage) ==> placeholderUsage - reservedUsage < CHUNK
      // Without placeholders the split is the initial one.
      ensures placeholderUsage == 0 ==> reservedUsage == secReserved == 0 && primary.used == secondary.capacity
    {
      hide Share;
      placeholderUsage := placeholderUsage - charge;
      if placeholderUsage <= capacity && placeholderUsage < reservedUsage {
        reservedUsage := RoundDown(placeholderUsage);
        ShareMonotone(ratio, reservedUsage, old(reservedUsage));
        var secCharge := secReserved - Share(ratio, reservedUsage);
        secondary.Inflate(secCharge);
        var ok := primary.UpdateByDelta(secCharge, true);
        secReserved := secReserved - secCharge;
      }
      ShareOfNothing(ratio);
    }

    /**
     A new budget. The invariant survives exactly if the new budget is safe; for one that covers all
     placeholders it always does.
     */
    method SetCapacity(newCapacity: nat)
      requires Valid() && capacity < WORD && newCapacity < WORD
      modifies this`capacity, this`reservedUsage, this`secReserved, secondary`capacity
      modifies primary`reservedSize, primary`dummies, primary`used, primary`answers
      ensures capacity == newCapacity && placeholderUsage == old(placeholderUsage)
      ensures Valid() <==> old(Safe(newCapacity))
      ensures old(placeholderUsage) <= newCapacity ==> Valid() && reservedUsage == old(reservedUsage)
      ensures secondary.capacity == Share(ratio, newCapacity) && secReserved == Share(ratio, reservedUsage)
      // Placeholders beyond a smaller budget count up to its whole chunks.
      ensures if old(secondary.capacity) > secondary.capacity && placeholderUsage > newCapacity
              then reservedUsage <= newCapacity < reservedUsage + CHUNK && reservedUsage % CHUNK == 0
              else reservedUsage == old(reservedUsage)
      // The reservation follows the secondary cache's share, unless more is given back than the share shrinks by.
      ensures primary.used == if old(secReserved) - secReserved > old(secondary.capacity) - secondary.capacity > 0 then 0
                              else old(primary.used) + (old(secReserved) - secReserved) - (old(secondary.capacity) - secondary.capacity)
    {
      hide Share, RoundDown;
      var secCapacity, oldSecCapacity := Share(ratio, newCapacity), secondary.capacity;
      if reservedUsage <= newCapacity {
        ShareMonotone(ratio, reservedUsage, newCapacity);
      }
      ShareMonotone(ratio, RoundDown(newCapacity), newCapacity);
      ShareMonotone(ratio, reservedUsage, capacity);
      if oldSecCapacity > secCapacity {
        secondary.capacity := secCapacity;
        if placeholderUsage > newCapacity {
          reservedUsage := RoundDown(newCapacity);
        }
        var newSecReserved := Share(ratio, reservedUsage);
        var delta := (oldSecCapacity - secCapacity) - (secReserved - newSecReserved);
        // The subtraction wraps around if its true value is negative.
        var ok := primary.UpdateByDelta(if delta < 0 then delta + WORD else delta, false);
        secReserved := newSecReserved;
        capacity := newCapacity;
      } else {
        capacity := newCapacity;
        var ok := primary.UpdateByDelta(secCapacity - oldSecCapacity, true);
        secondary.capacity := secCapacity;
      }
    }

    /**
     A budget below the placeholders is safe if the secondary cache's share shrinks and what was passed on
     to it happens to be right already, or if its share does not shrink and the placeholders that were
     passed on still fit.
     */
    ghost predicate Safe(newCapacity: nat)
      requires ratio.Valid()
      reads this, secondary
    {
      if secondary.capacity > Share(ratio, newCapacity) && placeholderUsage > newCapacity then
        Share(ratio, RoundDown(newCapacity)) == secReserved
      else
        reservedUsage <= newCapacity
    }
  }

  const WORD: nat := 0x1_0000_0000_0000_0000

  /**
   Halving a budget of 4 MiB with 3 MiB of placeholders, at a ratio of one half, breaks the books: 1.5 MiB were
   passed on to the secondary cache, which is not told that only 1 MiB is still due.
   */
  method HalvingBreaks() returns (c: TieredCache)
    ensures fresh(c) && !c.Valid() && c.capacity == 2 * CHUNK && c.placeholderUsage == 3 * CHUNK
  {
    c := new TieredCache(4 * CHUNK, 2 * CHUNK);
    c.InsertPlaceholder(3 * CHUNK);
    WholeChunks(c.placeholderUsage, c.reservedUsage);
    assert RoundDown(2 * CHUNK) == 2 * CHUNK;
    assert !c.Safe(2 * CHUNK);
    c.SetCapacity(2 * CHUNK);
  }

  lemma WholeChunks(used: nat, reserved: nat)
    requires used == 3 * CHUNK && reserved <= used < reserved + CHUNK && reserved % CHUNK == 0
    ensures reserved == used
  {
  }

  lemma ShareOfNothing(r: Ratio)
    requires r.Valid()
    ensures Share(r, 0) == 0
  {
  }
}
