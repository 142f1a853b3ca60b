/** The driver pool (DriverPool.java): a priority queue of drivers, best
    average first. The queue is modelled by its contents, a multiset of driver
    references; which maximal driver a poll returns among equals is left open,
    as the heap leaves it. */
module DriverPools {
  import opened Common
  import opened Drivers

  /** `d` has an average at least as high as every driver in `m`. */
  predicate IsBestOf(d: Driver, m: multiset<Driver>)
    reads d, m
  {
    forall e :: e in m ==> e.avgRating <= d.avgRating
  }

  /** A non-empty pool has a best driver. */
  lemma {:induction false} BestExists(m: multiset<Driver>)
    requires m != multiset{}
    ensures exists d :: d in m && IsBestOf(d, m)
    decreases |m|
  {
    var x :| x in m;
    var rest := m - multiset{x};
    assert forall e :: e in m && e != x ==> e in rest by {
      forall e | e in m && e != x ensures e in rest {
        assert rest[e] == m[e];
      }
    }
    if rest == multiset{} {
      assert IsBestOf(x, m);
    } else {
      BestExists(rest);
      var d :| d in rest && IsBestOf(d, rest);
      if x.avgRating <= d.avgRating {
        assert IsBestOf(d, m);
      } else {
        assert IsBestOf(x, m);
      }
    }
  }

  class DriverPool {
    var drivers: multiset<Driver>

    constructor ()
      ensures drivers == multiset{}
    {
      drivers := multiset{};
    }

    /** `addDriver`: offers the driver when it is available, even if it is
        already pooled. */
    method AddDriver(driver: Driver)
      modifies this
      ensures drivers == if driver.available then old(drivers) + multiset{driver} else old(drivers)
    {
      if driver.available {
        drivers := drivers + multiset{driver};
      }
    }

    /** `removeDriver`: marks the driver unavailable and removes one pooled
        occurrence of it, if there is one. */
    method RemoveDriver(driver: Driver)
      modifies this, driver`available
      ensures !driver.available
      ensures drivers == old(drivers) - multiset{driver}
    {
      driver.SetAvailable(false);
      drivers := drivers - multiset{driver};
    }

    /** `getNextAvailableDriver`: polls a driver with the highest average,
        `None` on an empty pool. */
    method GetNextAvailableDriver() returns (r: Option<Driver>)
      modifies this
      ensures old(drivers) == multiset{} ==> r == None && drivers == old(drivers)
      ensures old(drivers) != multiset{} ==>
        && r.Some?
        && r.value in old(drivers)
        && IsBestOf(r.value, old(drivers))
        && drivers == old(drivers) - multiset{r.value}
    {
      if drivers == multiset{} {
        return None;
      }
      BestExists(drivers);
      var best :| best in drivers && IsBestOf(best, drivers);
      drivers := drivers - multiset{best};
      r := Some(best);
    }

    /** `completeDelivery`: records the rating (throwing, with the pool
        untouched, when it is out of range), then re-offers the driver. */
    method CompleteDelivery(driver: Driver, rating: int) returns (r: Outcome)
      requires driver.Valid()
      modifies this, driver`rateCounter, driver`avgRating, driver.ratings
      ensures driver.Valid()
      ensures !IsRating(rating) ==>
        && r.Failed?
        && drivers == old(drivers)
        && driver.ratings[..] == old(driver.ratings[..])
        && driver.rateCounter == old(driver.rateCounter)
        && driver.avgRating == old(driver.avgRating)
      ensures IsRating(rating) ==>
        && r == Done
        && driver.ratings[..] == old(driver.ratings[..])[old(driver.rateCounter) := rating]
        && driver.rateCounter == (old(driver.rateCounter) + 1) % Capacity
        && driver.avgRating == Average(driver.ratings[..])
        && drivers == if driver.available then old(drivers) + multiset{driver} else old(drivers)
    {
      r := driver.AddRating(rating);
      if r.Failed? {
        return;
      }
      AddDriver(driver);
    }

    /** `getPoolSize`: the number of pooled entries, a driver offered twice
        counting twice. */
    function GetPoolSize(): (n: nat)
      reads this
      ensures n == |drivers|
      ensures n == 0 <==> drivers == multiset{}
    {
      |drivers|
    }

    /** `isEmpty`. */
    function IsEmpty(): (b: bool)
      reads this
      ensures b <==> GetPoolSize() == 0
    {
      drivers == multiset{}
    }
  }
}
