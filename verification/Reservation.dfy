/**
 Reserving cache space for memory used elsewhere: dummy entries of 256 KiB each stand for it in the cache.
 */
module Reservation {
  import opened Totals

  const DUMMY_ENTRY_SIZE: nat := 262144

  /** The least multiple of the dummy entry size that covers `used`. */
  function Covering(used: nat): (c: nat)
    ensures used <= c < used + DUMMY_ENTRY_SIZE && c % DUMMY_ENTRY_SIZE == 0
  {
    (used + DUMMY_ENTRY_SIZE - 1) / DUMMY_ENTRY_SIZE * DUMMY_ENTRY_SIZE
  }

  lemma CoveringIsLeast(used: nat, n: nat)
    requires used <= n && n % DUMMY_ENTRY_SIZE == 0
    ensures Covering(used) <= n
  {
  }

  /** Whether a reservation is as the manager promises: tight, or in delayed mode not too loose. */
  predicate Fits(delayed: bool, used: nat, reservedSize: nat)
  {
    used <= reservedSize && (reservedSize == Covering(used) || (delayed && 4 * used >= 3 * reservedSize))
  }

  /** Whether a reservation that is large enough is left as it is. */
  predicate Keeps(delayed: bool, used: nat, reservedSize: nat)
  {
    used == reservedSize || (delayed && 4 * used >= 3 * reservedSize)
  }

  /** The cache granted n entries and then, if the attempt failed, refused one. */
  ghost predicate Asked(was: seq<bool>, now: seq<bool>, n: nat, ok: bool)
  {
    && was <= now && |now| == |was| + n + (if ok then 0 else 1)
    && forall k :: |was| <= k < |now| ==> now[k] == (k < |was| + n)
  }

  ghost predicate Refused(was: seq<bool>, now: seq<bool>)
  {
    exists k :: |was| <= k < |now| && !now[k]
  }

  class ReservationManager {
    const delayedDecrease: bool
    var reservedSize: nat
    var used: nat
    // The dummy entries, as handles in the cache.
    var dummies: seq<nat>
    // The amounts of the reservation handles that were handed out and not destroyed.
    ghost var outstanding: seq<nat>
    // What the cache said to each request for a dummy entry.
    ghost var answers: seq<bool>

    /** Each dummy entry is accounted for. */
    ghost predicate Valid()
      reads this
    {
      reservedSize == DUMMY_ENTRY_SIZE * |dummies|
    }

    constructor (delayedDecrease: bool)
      ensures Valid() && this.delayedDecrease == delayedDecrease && reservedSize == used == 0
      ensures outstanding == [] && answers == []
    {
      this.delayedDecrease := delayedDecrease;
      reservedSize, used, dummies, outstanding, answers := 0, 0, [], [], [];
    }

    /** Asks the cache for a dummy entry; the cache may refuse. */
    method InsertDummy() returns (ok: bool, handle: nat)
      modifies this`answers
      ensures answers == old(answers) + [ok]
    {
      ok, handle := *, *;
      answers := answers + [ok];
    }

    method IncreaseCacheReservation(newUsed: nat) returns (ok: bool)
      requires Valid() && reservedSize <= newUsed
      modifies this`reservedSize, this`dummies, this`answers
      ensures Valid() && reservedSize >= old(reservedSize) && old(dummies) <= dummies
      // One request for each entry, and one more if the cache refused it, which ends the attempt.
      ensures Asked(old(answers), answers, |dummies| - |old(dummies)|, ok)
      ensures ok ==> reservedSize == Covering(newUsed)
      ensures !ok ==> reservedSize < newUsed
    {
      ok := true;
      while newUsed > reservedSize
        invariant Valid() && ok && old(reservedSize) <= reservedSize < newUsed + DUMMY_ENTRY_SIZE
        invariant old(dummies) <= dummies && Asked(old(answers), answers, |dummies| - |old(dummies)|, true)
        decreases newUsed + DUMMY_ENTRY_SIZE - reservedSize
      {
        var handle;
        ok, handle := InsertDummy();
        if !ok {
          return;
        }
        dummies := dummies + [handle];
        reservedSize := reservedSize + DUMMY_ENTRY_SIZE;
      }
      MultipleIsCovering(newUsed, |dummies|);
    }

    method DecreaseCacheReservation(newUsed: nat)
      requires Valid() && newUsed <= reservedSize
      modifies this`reservedSize, this`dummies
      ensures Valid() && reservedSize == Covering(newUsed) && dummies <= old(dummies)
    {
      while newUsed + DUMMY_ENTRY_SIZE <= reservedSize
        invariant Valid() && newUsed <= reservedSize && dummies <= old(dummies)
      {
        assert dummies != [];
        dummies := dummies[..|dummies| - 1];
        reservedSize := reservedSize - DUMMY_ENTRY_SIZE;
      }
      MultipleIsCovering(newUsed, |dummies|);
    }

    /** Makes the reservation follow the memory used. The new amount is remembered even if the cache refuses. */
    method UpdateCacheReservation(newUsed: nat) returns (ok: bool)
      requires Valid()
      modifies this`reservedSize, this`dummies, this`used, this`answers
      ensures Valid() && used == newUsed
      // It fails if and only if the cache refused an entry.
      ensures ok <==> !Refused(old(answers), answers)
      ensures newUsed > old(reservedSize) ==> old(dummies) <= dummies && Asked(old(answers), answers, |dummies| - |old(dummies)|, ok)
      ensures newUsed <= old(reservedSize) ==> dummies <= old(dummies) && answers == old(answers)
      ensures ok ==> Fits(delayedDecrease, newUsed, reservedSize)
      ensures ok && newUsed > old(reservedSize) ==> reservedSize == Covering(newUsed)
      // In delayed mode dummy entries are kept while at least three quarters of them are used.
      ensures newUsed <= old(reservedSize) ==> ok
      ensures newUsed <= old(reservedSize) && Keeps(delayedDecrease, newUsed, old(reservedSize)) ==> reservedSize == old(reservedSize)
      ensures newUsed <= old(reservedSize) && !Keeps(delayedDecrease, newUsed, old(reservedSize)) ==> reservedSize == Covering(newUsed)
      ensures !ok ==> old(reservedSize) <= reservedSize < newUsed
    {
      used := newUsed;
      if newUsed == reservedSize {
        MultipleIsCovering(newUsed, |dummies|);
        ok := true;
      } else if newUsed > reservedSize {
        ok := IncreaseCacheReservation(newUsed);
        assert !ok ==> !answers[|answers| - 1];
      } else if delayedDecrease && newUsed >= reservedSize / 4 * 3 {
        ok := true;
      } else {
        DecreaseCacheReservation(newUsed);
        ok := true;
      }
    }

    /** Changes the memory used by an amount, but not below zero. */
    method UpdateByDelta(delta: nat, increase: bool) returns (ok: bool)
      requires Valid()
      modifies this`reservedSize, this`dummies, this`used, this`answers
      ensures ok <==> !Refused(old(answers), answers)
      ensures Valid() && used == if increase then old(used) + delta else if old(used) > delta then old(used) - delta else 0
      ensures ok ==> Fits(delayedDecrease, used, reservedSize)
    {
      if increase {
        ok := UpdateCacheReservation(used + delta);
      } else {
        ok := UpdateCacheReservation(if used > delta then used - delta else 0);
      }
    }

    /** Memory used is the sum of the handles that are out. */
    ghost predicate Accounted()
      reads this
    {
      Valid() && used == Sum(outstanding)
    }

    /** Reserves an amount for as long as the handle lives. The handle is made even if the cache refuses. */
    method MakeCacheReservation(amount: nat) returns (ok: bool, ghost handle: nat)
      requires Accounted()
      modifies this
      ensures ok <==> !Refused(old(answers), answers)
      ensures Accounted() && outstanding == old(outstanding) + [amount] && handle == |old(outstanding)|
      ensures ok ==> Fits(delayedDecrease, used, reservedSize)
    {
      ok := UpdateCacheReservation(used + amount);
      SumAppend(outstanding, amount);
      handle := |outstanding|;
      outstanding := outstanding + [amount];
    }

    /** Destroys a handle, in any order. */
    method DestroyHandle(amount: nat, ghost handle: nat) returns (ok: bool)
      requires Accounted() && handle < |outstanding| && outstanding[handle] == amount
      modifies this
      ensures ok <==> !Refused(old(answers), answers)
      ensures Accounted() && outstanding == Without(old(outstanding), handle)
      ensures ok ==> Fits(delayedDecrease, used, reservedSize)
    {
      SumWithout(outstanding, handle);
      assert used >= amount;
      ok := UpdateCacheReservation(used - amount);
      outstanding := Without(outstanding, handle);
    }
  }

  /** A multiple of the dummy size that covers the memory used, and would not with one entry less, is the least. */
  lemma MultipleIsCovering(used: nat, n: nat)
    requires used <= DUMMY_ENTRY_SIZE * n < used + DUMMY_ENTRY_SIZE
    ensures DUMMY_ENTRY_SIZE * n == Covering(used)
  {
  }
}
