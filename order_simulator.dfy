/** The dispatch simulation (OrderSimulator.java): the three steps a tick
    picks from (place an order, assign a driver, advance an order), the
    driver filters they use, and the counts and driver statuses the status
    display shows. Every `rand.nextInt(n)` is a `nat` parameter reduced
    modulo `n`; the pool refresh after a delivery is a parameter. */
module OrderSimulators {
  import opened Common
  import opened MenuItems
  import opened TextFiles
  import opened Orders
  import opened Drivers
  import opened DriverPools
  import opened FileManagers
  import opened Restaurants
  import opened RestaurantManagers
  import opened AppControllers

  function Min(a: int, b: int): int {
    if a <= b then a else b
  }

  /** `new ArrayList<>(map.values())`: the values of a map, in the map's
      iteration order, given as the ghost key sequence `ks`, so a value held
      under two keys appears twice. */
  method MapValues<K, V(==)>(m: map<K, V>) returns (vs: seq<V>, ghost ks: seq<K>)
    ensures |vs| == |ks| == |m|
    ensures forall i, j :: 0 <= i < j < |ks| ==> ks[i] != ks[j]
    ensures forall k :: k in ks <==> k in m
    ensures forall i :: 0 <= i < |ks| ==> ks[i] in m && vs[i] == m[ks[i]]
    ensures forall v :: v in vs <==> v in m.Values
  {
    vs, ks := [], [];
    var keys := m.Keys;
    ghost var done: set<K> := {};
    while keys != {}
      invariant keys + done == m.Keys && keys !! done
      invariant |vs| == |ks| == |done|
      invariant forall k :: k in ks <==> k in done
      invariant forall i, j :: 0 <= i < j < |ks| ==> ks[i] != ks[j]
      invariant forall i :: 0 <= i < |ks| ==> ks[i] in m && vs[i] == m[ks[i]]
      decreases keys
    {
      var k :| k in keys;
      vs, ks := vs + [m[k]], ks + [k];
      keys := keys - {k};
      done := done + {k};
    }
    ListedValues(m, vs, ks);
  }

  /** Listing every key lists every value. */
  lemma ListedValues<K, V>(m: map<K, V>, vs: seq<V>, ks: seq<K>)
    requires |vs| == |ks|
    requires forall k :: k in ks <==> k in m
    requires forall i :: 0 <= i < |ks| ==> ks[i] in m && vs[i] == m[ks[i]]
    ensures forall v :: v in vs <==> v in m.Values
  {
    forall v | v in m.Values ensures v in vs {
      var k :| k in m && m[k] == v;
      var i :| 0 <= i < |ks| && ks[i] == k;
    }
  }

  /** The swap loop of `Collections.shuffle` below position `i`: position
      i - 1 is swapped with position `draw(i) % i`, then the loop goes on
      below it. */
  function ShuffleBelow<T>(s: seq<T>, i: nat, draw: nat -> nat): (r: seq<T>)
    requires i <= |s|
    ensures |r| == |s|
    decreases i
  {
    if i <= 1 then s
    else
      var j := draw(i) % i;
      ShuffleBelow(s[i - 1 := s[j]][j := s[i - 1]], i - 1, draw)
  }

  /** Each swap keeps the elements, so the whole loop does. */
  lemma {:induction false} ShuffleBelowPermutes<T>(s: seq<T>, i: nat, draw: nat -> nat)
    requires i <= |s|
    ensures multiset(ShuffleBelow(s, i, draw)) == multiset(s)
    decreases i
  {
    if i > 1 {
      var j := draw(i) % i;
      SwapPermutes(s, i - 1, j);
      ShuffleBelowPermutes(s[i - 1 := s[j]][j := s[i - 1]], i - 1, draw);
    }
  }

  /** `Collections.shuffle(s)` with `draw` standing for `rnd.nextInt`. */
  function Shuffled<T>(s: seq<T>, draw: nat -> nat): (r: seq<T>)
    ensures |r| == |s| && multiset(r) == multiset(s)
  {
    ShuffleBelowPermutes(s, |s|, draw);
    ShuffleBelow(s, |s|, draw)
  }

  /** `Collections.shuffle`: for i from the size down to 2, swaps position
      i - 1 with position `nextInt(i)`. The result is a permutation. */
  method Shuffle<T>(s: seq<T>, draw: nat -> nat) returns (r: seq<T>)
    ensures r == Shuffled(s, draw)
    ensures multiset(r) == multiset(s)
  {
    r := s;
    var i := |r|;
    while i > 1
      invariant 0 <= i <= |r| == |s|
      invariant multiset(r) == multiset(s)
      invariant ShuffleBelow(r, i, draw) == ShuffleBelow(s, |s|, draw)
    {
      var j := draw(i) % i;
      SwapPermutes(r, i - 1, j);
      r := r[i - 1 := r[j]][j := r[i - 1]];
      i := i - 1;
    }
  }

  /** Swapping two positions keeps the multiset of elements. */
  lemma SwapPermutes<T>(s: seq<T>, a: nat, b: nat)
    requires a < |s| && b < |s|
    ensures multiset(s[a := s[b]][b := s[a]]) == multiset(s)
  {
    if a != b {
      calc {
        multiset(s[a := s[b]][b := s[a]]);
        multiset(s[a := s[b]]) - multiset{s[a := s[b]][b]} + multiset{s[a]};
        multiset(s) - multiset{s[a]} + multiset{s[b]} - multiset{s[b]} + multiset{s[a]};
      }
    }
  }

  /** A prefix holds no element more often than the whole sequence. */
  lemma PrefixSubMultiset<T>(s: seq<T>, n: nat)
    requires n <= |s|
    ensures multiset(s[..n]) <= multiset(s)
  {
    assert s == s[..n] + s[n..];
  }

  /** The items of the order: `1 + nextInt(min(3, menu size))` of them, taken
      from the front of the shuffled menu, so each menu entry at most once. */
  method PickItems(menu: seq<MenuItem>, countDraw: nat, shuffleDraw: nat -> nat) returns (chosen: seq<MenuItem>)
    requires menu != []
    ensures chosen == Shuffled(menu, shuffleDraw)[..1 + countDraw % Min(3, |menu|)]
    ensures |chosen| == 1 + countDraw % Min(3, |menu|)
    ensures 1 <= |chosen| <= 3 && |chosen| <= |menu|
    ensures multiset(chosen) <= multiset(menu)
  {
    var shuffled := Shuffle(menu, shuffleDraw);
    var count := 1 + countDraw % Min(3, |menu|);
    PrefixSubMultiset(shuffled, count);
    chosen := shuffled[..count];
  }

  /** The ids written into the order: each chosen item's own id. */
  function ItemIds(items: seq<MenuItem>): (ids: seq<Uuid>)
    ensures |ids| == |items|
    ensures forall k :: 0 <= k < |items| ==> ids[k] == items[k].itemId
  {
    if items == [] then [] else ItemIds(items[..|items| - 1]) + [items[|items| - 1].itemId]
  }

  /** The menu of the restaurant that `createOrder` draws with `draw`, in
      the order of the menu list. */
  function DrawnMenu(restaurants: seq<Restaurant>, menuItems: seq<MenuItem>, draw: nat): (menu: seq<MenuItem>)
    requires restaurants != []
    ensures forall item :: item in menu <==>
      item in menuItems && item.restaurantId == restaurants[draw % |restaurants|].restaurantId
  {
    ItemsOfExactly(menuItems, restaurants[draw % |restaurants|].restaurantId);
    ItemsOf(menuItems, restaurants[draw % |restaurants|].restaurantId)
  }

  /** The order `createOrder` builds from its draws: the fresh id, PLACED,
      no driver, the creation time, a registered customer, and the ids of
      `chosen`, the first `1 + countDraw % min(3, n)` items of the drawn
      restaurant's shuffled menu of `n` items. */
  ghost predicate DrawnOrder(o: Order, chosen: seq<MenuItem>, customers: map<Uuid, Account>,
                             restaurants: seq<Restaurant>, menuItems: seq<MenuItem>,
                             restaurantDraw: nat, countDraw: nat, shuffleDraw: nat -> nat,
                             freshOrderId: Uuid, now: string)
  {
    && restaurants != []
    && var menu := DrawnMenu(restaurants, menuItems, restaurantDraw);
    && menu != []
    && o.id == freshOrderId && o.status == Placed && o.assignedDriverId == None && o.createdAt == now
    && (exists c :: c in customers.Values && c.id == o.customerId)
    && chosen == Shuffled(menu, shuffleDraw)[..1 + countDraw % Min(3, |menu|)]
    && o.items == ItemIds(chosen)
  }

  /** Some menu item belongs to the restaurant drawn with `draw`. */
  ghost predicate DrawnHasItems(restaurants: seq<Restaurant>, menuItems: seq<MenuItem>, draw: nat)
    requires restaurants != []
  {
    exists item :: item in menuItems && item.restaurantId == restaurants[draw % |restaurants|].restaurantId
  }

  /** The drawn restaurant has items exactly when its drawn menu is not empty. */
  lemma DrawnHasItemsIffMenu(restaurants: seq<Restaurant>, menuItems: seq<MenuItem>, draw: nat)
    requires restaurants != []
    ensures DrawnHasItems(restaurants, menuItems, draw) <==> DrawnMenu(restaurants, menuItems, draw) != []
  {
    var menu := DrawnMenu(restaurants, menuItems, draw);
    if menu != [] {
      assert menu[0] in menu;
    }
  }

  /** How many of `os` have status `s`. */
  function StatusCount(os: seq<Order>, s: Status): nat {
    if os == [] then 0
    else StatusCount(os[..|os| - 1], s) + (if os[|os| - 1].status == s then 1 else 0)
  }

  /** Every order has one of the four statuses, so the counts add up. */
  lemma {:induction false} StatusCountsSum(os: seq<Order>)
    ensures StatusCount(os, Placed) + StatusCount(os, Accepted) + StatusCount(os, InProgress)
            + StatusCount(os, Delivered) == |os|
  {
    if os != [] {
      StatusCountsSum(os[..|os| - 1]);
    }
  }

  /** No order of a given status, no count. */
  lemma {:induction false} StatusCountZero(os: seq<Order>, s: Status)
    requires forall k :: 0 <= k < |os| ==> os[k].status != s
    ensures StatusCount(os, s) == 0
  {
    if os != [] {
      StatusCountZero(os[..|os| - 1], s);
    }
  }

  /** Every order in the map agrees with the lifecycle invariant. */
  predicate AllMatch(byId: map<Uuid, Order>) {
    forall k :: k in byId ==> DriverMatchesStatus(byId[k])
  }

  /** A fact about the invariant, which Dafny proves unaided: accepting an
      order for a driver keeps every order matching. `Dispatch` relies on it. */
  lemma AcceptKeepsMatch(byId: map<Uuid, Order>, head: Uuid, driverId: Uuid)
    requires AllMatch(byId) && head in byId
    ensures AllMatch(byId[head := byId[head].(assignedDriverId := Some(driverId), status := Accepted)])
  {
  }

  /** A fact about the invariant, which Dafny proves unaided: moving an order
      that has a driver to a later status keeps every order matching.
      `AdvanceOrder` relies on it. */
  lemma AdvanceKeepsMatch(byId: map<Uuid, Order>, id: Uuid, status: Status)
    requires AllMatch(byId) && id in byId && byId[id].status != Placed && status != Placed
    ensures AllMatch(byId[id := byId[id].(status := status)])
  {
  }

  /** A registered driver that holds an order is unavailable. */
  ghost predicate BusyUnavailable(drivers: map<Uuid, Driver>)
    reads drivers.Values
  {
    forall k :: k in drivers && drivers[k].currentOrder.Some? ==> !drivers[k].available
  }

  /** The driver half of a delivery: the rating goes into the driver's
      buffer and the driver is free again. */
  method RateAndRelease(fm: FileManager, driver: Driver, rating: int)
    requires fm.Valid() && driver in fm.drivers.Values && IsRating(rating)
    modifies driver, driver.ratings
    ensures fm.Valid()
    ensures driver.ratings[..] == old(driver.ratings[..])[old(driver.rateCounter) := rating]
    ensures driver.rateCounter == (old(driver.rateCounter) + 1) % Capacity
    ensures driver.avgRating == Average(driver.ratings[..])
    ensures driver.currentOrder == None && driver.available
    ensures old(BusyUnavailable(fm.drivers)) ==> BusyUnavailable(fm.drivers)
  {
    var rated := driver.AddRating(rating);
    driver.SetCurrentOrder(None);
    driver.SetAvailable(true);
  }

  /** Rates and frees a registered driver, then writes the driver's line
      back with the new availability and average. */
  method Settle(fm: FileManager, driver: Driver, rating: int, io: bool)
    requires fm.Valid() && driver in fm.drivers.Values && IsRating(rating)
    modifies fm`driversFile, driver, driver.ratings
    ensures fm.Valid()
    ensures driver.ratings[..] == old(driver.ratings[..])[old(driver.rateCounter) := rating]
    ensures driver.rateCounter == (old(driver.rateCounter) + 1) % Capacity
    ensures driver.avgRating == Average(driver.ratings[..])
    ensures driver.currentOrder == None && driver.available
    ensures fm.driversFile == Rewritten(old(fm.driversFile),
      Updater(driver.id, fm.DriverLine(driver, true, driver.avgRating)), io)
    ensures old(BusyUnavailable(fm.drivers)) ==> BusyUnavailable(fm.drivers)
  {
    var k :| k in fm.drivers && fm.drivers[k] == driver;
    RateAndRelease(fm, driver, rating);
    var ok := fm.UpdateDriver(driver.id, true, driver.avgRating, io);
  }

  /** `acceptNext` handed the head of `queue` to `d`: the queue lost its
      head, that order is assigned to `d` and accepted, and `d` holds it and
      is unavailable. `stored` is the store before. */
  ghost predicate TookHead(om: OrderManager, queue: seq<Uuid>, stored: map<Uuid, Order>, d: Driver)
    reads om, d
  {
    && queue != [] && queue[0] in stored
    && om.intake == queue[1..]
    && om.byId == stored[queue[0] := stored[queue[0]].(assignedDriverId := Some(d.id), status := Accepted)]
    && d.currentOrder == Some(queue[0]) && !d.available
  }

  /** `updateDriver(d.getId(), false, avg)`: the driver registered under
      d's id, if any, is unavailable with average `avg` and its line in the
      drivers file (`file` before) is rewritten. */
  ghost predicate WroteBackBusy(fm: FileManager, d: Driver, avg: real, file: seq<string>, io: bool)
    reads fm, fm.drivers.Values
  {
    && (d.id !in fm.drivers ==> fm.driversFile == file)
    && (d.id in fm.drivers ==>
          var e := fm.drivers[d.id];
          && !e.available && e.avgRating == avg
          && fm.driversFile == Rewritten(file, Updater(d.id, fm.DriverLine(e, false, avg)), io))
  }

  /** The driver registered under `id`, as a set: empty when there is none. */
  function RegisteredAs(drivers: map<Uuid, Driver>, id: Uuid): (r: set<Driver>)
    ensures r <= drivers.Values && |r| <= 1
    ensures r == {} <==> id !in drivers
  {
    if id in drivers then {drivers[id]} else {}
  }

  class OrderSimulator {
    const appController: AppController
    const orderManager: OrderManager
    const fileManager: FileManager
    const restaurantManager: RestaurantManager
    const driverPool: DriverPool

    /** The simulator over a controller's managers and an order manager. */
    constructor (appController: AppController, orderManager: OrderManager)
      ensures this.appController == appController && this.orderManager == orderManager
      ensures fileManager == appController.fileManager
      ensures restaurantManager == appController.restaurantManager
      ensures driverPool == appController.driverPool
    {
      this.appController := appController;
      this.orderManager := orderManager;
      fileManager := appController.fileManager;
      restaurantManager := appController.restaurantManager;
      driverPool := appController.driverPool;
    }

    /** `getAllDrivers`: every registered driver. */
    method GetAllDrivers() returns (all: seq<Driver>)
      ensures |all| == |fileManager.drivers|
      ensures forall d :: d in all <==> d in fileManager.drivers.Values
    {
      ghost var ids;
      all, ids := MapValues(fileManager.drivers);
    }

    /** `getAvailableDrivers`: exactly the registered drivers that are
        available and hold no order. */
    method GetAvailableDrivers() returns (available: seq<Driver>)
      ensures forall d :: d in available <==>
        d in fileManager.drivers.Values && d.available && d.currentOrder.None?
    {
      var all := GetAllDrivers();
      available := [];
      for i := 0 to |all|
        invariant forall d :: d in available <==> d in all[..i] && d.available && d.currentOrder.None?
      {
        assert all[..i + 1] == all[..i] + [all[i]];
        if all[i].available && all[i].currentOrder.None? {
          available := available + [all[i]];
        }
      }
      assert all[..|all|] == all;
    }

    /** `getActiveDrivers`: exactly the registered drivers that hold an order. */
    method GetActiveDrivers() returns (active: seq<Driver>)
      ensures forall d :: d in active <==> d in fileManager.drivers.Values && d.currentOrder.Some?
    {
      var all := GetAllDrivers();
      active := [];
      for i := 0 to |all|
        invariant forall d :: d in active <==> d in all[..i] && d.currentOrder.Some?
      {
        assert all[..i + 1] == all[..i] + [all[i]];
        if all[i].currentOrder.Some? {
          active := active + [all[i]];
        }
      }
      assert all[..|all|] == all;
    }

    /** `getDriverStatus`: "Picking up" while the driver's order is accepted,
        "Delivering" while it is in progress, and "Idle" otherwise, also
        when the driver has no order or the order is unknown. */
    function GetDriverStatus(driver: Driver): (status: string)
      reads driver, orderManager
      ensures status == "Picking up" <==>
        driver.currentOrder.Some? && driver.currentOrder.value in orderManager.byId
        && orderManager.byId[driver.currentOrder.value].status == Accepted
      ensures status == "Delivering" <==>
        driver.currentOrder.Some? && driver.currentOrder.value in orderManager.byId
        && orderManager.byId[driver.currentOrder.value].status == InProgress
      ensures status in {"Idle", "Picking up", "Delivering"}
    {
      if driver.currentOrder.None? || driver.currentOrder.value !in orderManager.byId then "Idle"
      else
        match orderManager.byId[driver.currentOrder.value].status
        case Accepted => "Picking up"
        case InProgress => "Delivering"
        case _ => "Idle"
    }

    /** The four counters of `displayStatus`, over the stored orders
        enumerated as `orders`; they add up to the number of orders. */
    method CountStatuses() returns (placed: nat, accepted: nat, inProgress: nat, delivered: nat,
                                    ghost orders: seq<Order>)
      ensures |orders| == |orderManager.byId|
      ensures forall o :: o in orders <==> o in orderManager.byId.Values
      ensures placed == StatusCount(orders, Placed) && accepted == StatusCount(orders, Accepted)
      ensures inProgress == StatusCount(orders, InProgress) && delivered == StatusCount(orders, Delivered)
      ensures placed + accepted + inProgress + delivered == |orderManager.byId|
    {
      var os;
      ghost var ids;
      os, ids := MapValues(orderManager.byId);
      orders := os;
      placed, accepted, inProgress, delivered := 0, 0, 0, 0;
      for i := 0 to |os|
        invariant placed == StatusCount(os[..i], Placed) && accepted == StatusCount(os[..i], Accepted)
        invariant inProgress == StatusCount(os[..i], InProgress) && delivered == StatusCount(os[..i], Delivered)
      {
        assert os[..i + 1][..i] == os[..i];
        match os[i].status
        case Placed => placed := placed + 1;
        case Accepted => accepted := accepted + 1;
        case InProgress => inProgress := inProgress + 1;
        case Delivered => delivered := delivered + 1;
      }
      assert os[..|os|] == os;
      StatusCountsSum(os);
    }

    /** The registered driver object with a given id, found from the object. */
    lemma RegisteredUnderOwnId(d: Driver)
      requires fileManager.Valid() && d in fileManager.drivers.Values
      ensures d.id in fileManager.drivers && fileManager.drivers[d.id] == d
    {
      var k :| k in fileManager.drivers && fileManager.drivers[k] == d;
    }

    /** What both dispatch steps do once an order is accepted: the driver
        holds it and is unavailable, and the registered driver under its id
        is written back unavailable with the driver's average. */
    method TakeOrder(driver: Driver, orderId: Uuid, io: bool)
      requires fileManager.Valid()
      modifies driver`currentOrder, driver`available, fileManager`driversFile, fileManager.drivers.Values
      ensures fileManager.Valid()
      ensures driver.currentOrder == Some(orderId) && !driver.available
      ensures driver.avgRating == old(driver.avgRating) && driver.rateCounter == old(driver.rateCounter)
      ensures WroteBackBusy(fileManager, driver, old(driver.avgRating), old(fileManager.driversFile), io)
      ensures unchanged(fileManager.drivers.Values - {driver} - RegisteredAs(fileManager.drivers, driver.id))
      ensures driver.id in fileManager.drivers && fileManager.drivers[driver.id] != driver ==>
        var e := fileManager.drivers[driver.id];
        e.currentOrder == old(e.currentOrder) && e.rateCounter == old(e.rateCounter)
      ensures old(BusyUnavailable(fileManager.drivers)) ==> BusyUnavailable(fileManager.drivers)
    {
      driver.SetCurrentOrder(Some(orderId));
      driver.SetAvailable(false);
      var ok := fileManager.UpdateDriver(driver.id, false, driver.avgRating, io);
    }

    /** `acceptNext(driver.getId())` and, when an order comes back, the
        driver takes it: the step shared by `createOrder` and `assignDriver`. */
    method Dispatch(driver: Driver, io: bool)
      requires fileManager.Valid() && orderManager.Valid()
      modifies orderManager, driver`currentOrder, driver`available, fileManager`driversFile,
        fileManager.drivers.Values
      ensures fileManager.Valid() && orderManager.Valid()
      ensures old(orderManager.intake) == [] ==>
        && orderManager.byId == old(orderManager.byId) && orderManager.intake == old(orderManager.intake)
        && fileManager.driversFile == old(fileManager.driversFile)
        && unchanged(driver) && unchanged(fileManager.drivers.Values)
      ensures old(orderManager.intake) != [] ==>
        && TookHead(orderManager, old(orderManager.intake), old(orderManager.byId), driver)
        && driver.avgRating == old(driver.avgRating) && driver.rateCounter == old(driver.rateCounter)
        && WroteBackBusy(fileManager, driver, old(driver.avgRating), old(fileManager.driversFile), io)
        && unchanged(fileManager.drivers.Values - {driver} - RegisteredAs(fileManager.drivers, driver.id))
        && (driver.id in fileManager.drivers && fileManager.drivers[driver.id] != driver ==>
              var e := fileManager.drivers[driver.id];
              e.currentOrder == old(e.currentOrder) && e.rateCounter == old(e.rateCounter))
      ensures old(BusyUnavailable(fileManager.drivers)) ==> BusyUnavailable(fileManager.drivers)
      ensures AllMatch(old(orderManager.byId)) ==> AllMatch(orderManager.byId)
    {
      ghost var before := orderManager.byId;
      var r := orderManager.AcceptNext(Some(driver.id));
      assert unchanged(fileManager.drivers.Values);
      if r.Ok? && r.value.Some? {
        if AllMatch(before) {
          AcceptKeepsMatch(before, r.value.value.id, driver.id);
        }
        TakeOrder(driver, r.value.value.id, io);
      }
    }

    /** `assignDriver`: picks one of the available drivers and hands it the
        head of the intake queue; with no available driver, or an empty
        queue, nothing changes. The pool is not touched. */
    method AssignDriver(pick: nat, io: bool) returns (ghost chosen: Option<Driver>)
      requires fileManager.Valid() && orderManager.Valid()
      modifies orderManager, fileManager`driversFile, fileManager.drivers.Values
      ensures fileManager.Valid() && orderManager.Valid()
      ensures chosen.None? ==>
        && (forall d :: d in fileManager.drivers.Values ==> !(old(d.available) && old(d.currentOrder).None?))
        && orderManager.byId == old(orderManager.byId) && orderManager.intake == old(orderManager.intake)
        && fileManager.driversFile == old(fileManager.driversFile)
        && unchanged(fileManager.drivers.Values)
      ensures chosen.Some? ==>
        var d := chosen.value;
        && d in fileManager.drivers.Values && old(d.available) && old(d.currentOrder).None?
        && d.avgRating == old(d.avgRating) && d.rateCounter == old(d.rateCounter)
        && unchanged(fileManager.drivers.Values - {d})
        && (old(orderManager.intake) == [] ==>
              && orderManager.byId == old(orderManager.byId) && orderManager.intake == old(orderManager.intake)
              && fileManager.driversFile == old(fileManager.driversFile)
              && unchanged(d))
        && (old(orderManager.intake) != [] ==>
              var head := old(orderManager.intake)[0];
              && orderManager.intake == old(orderManager.intake)[1..]
              && orderManager.byId == old(orderManager.byId)[head :=
                   old(orderManager.byId)[head].(assignedDriverId := Some(d.id), status := Accepted)]
              && d.currentOrder == Some(head) && !d.available
              && fileManager.driversFile == Rewritten(old(fileManager.driversFile),
                   Updater(d.id, fileManager.DriverLine(d, false, d.avgRating)), io))
      ensures old(BusyUnavailable(fileManager.drivers)) ==> BusyUnavailable(fileManager.drivers)
      ensures AllMatch(old(orderManager.byId)) ==> AllMatch(orderManager.byId)
    {
      var available := GetAvailableDrivers();
      if available == [] {
        chosen := None;
        return;
      }
      var driver := available[pick % |available|];
      chosen := Some(driver);
      RegisteredUnderOwnId(driver);
      Dispatch(driver, io);
    }

    /** The part of `createOrder` that places the order: nothing happens
        without customers, without restaurants or when the drawn restaurant
        has no menu items; otherwise a drawn customer orders the first items
        of the shuffled menu, and the order is stored and written to the
        orders file. */
    method PlaceOrder(customerDraw: nat, restaurantDraw: nat, countDraw: nat, shuffleDraw: nat -> nat,
                      freshOrderId: Uuid, now: string, total: Decimal, io: bool)
      returns (placed: Option<Order>, ghost chosen: seq<MenuItem>)
      requires fileManager.Valid() && orderManager.Valid()
      modifies orderManager, fileManager`orders, fileManager`ordersFile
      ensures fileManager.Valid() && orderManager.Valid()
      ensures placed.Some? <==>
        && old(fileManager.customers) != map[] && old(restaurantManager.restaurants) != []
        && DrawnHasItems(old(restaurantManager.restaurants), old(fileManager.menuItemsList), restaurantDraw)
      ensures placed.None? ==>
        && orderManager.byId == old(orderManager.byId) && orderManager.intake == old(orderManager.intake)
        && fileManager.orders == old(fileManager.orders) && fileManager.ordersFile == old(fileManager.ordersFile)
      ensures placed.Some? ==>
        var o := placed.value;
        var rs := old(restaurantManager.restaurants);
        var restaurantId := rs[restaurantDraw % |rs|].restaurantId;
        && DrawnOrder(o, chosen, old(fileManager.customers), rs, old(fileManager.menuItemsList),
             restaurantDraw, countDraw, shuffleDraw, freshOrderId, now)
        && orderManager.byId == old(orderManager.byId)[freshOrderId := o]
        && orderManager.intake == old(orderManager.intake) + [freshOrderId]
        && fileManager.orders == old(fileManager.orders)[freshOrderId :=
             OrderData(freshOrderId, o.customerId, restaurantId, o.items, "PLACED", None, now, total)]
        && fileManager.ordersFile == Appended(old(fileManager.ordersFile),
             FormatOrderLine(freshOrderId, o.customerId, restaurantId, o.items, "PLACED", None, now, total), io)
      ensures AllMatch(old(orderManager.byId)) ==> AllMatch(orderManager.byId)
    {
      placed, chosen := None, [];
      var found, customerId, restaurantId, menu := Draw(customerDraw, restaurantDraw);
      if !found {
        return;
      }
      var items := PickItems(menu, countDraw, shuffleDraw);
      var order := PlaceAndAppend(customerId, restaurantId, items, freshOrderId, now, total, io);
      placed, chosen := Some(order), items;
    }

    /** The draws of `createOrder`: a customer, a restaurant and that
        restaurant's menu; `found` is false when there is no customer, no
        restaurant or no item on the drawn menu. */
    method Draw(customerDraw: nat, restaurantDraw: nat)
      returns (found: bool, customerId: Uuid, restaurantId: Uuid, menu: seq<MenuItem>)
      ensures found <==>
        && fileManager.customers != map[] && restaurantManager.restaurants != []
        && DrawnHasItems(restaurantManager.restaurants, fileManager.menuItemsList, restaurantDraw)
      ensures found ==>
        var rs := restaurantManager.restaurants;
        && (exists c :: c in fileManager.customers.Values && c.id == customerId)
        && restaurantId == rs[restaurantDraw % |rs|].restaurantId
        && menu == DrawnMenu(rs, fileManager.menuItemsList, restaurantDraw)
    {
      found, customerId, restaurantId, menu := false, "", "", [];
      var customers;
      ghost var customerIds;
      customers, customerIds := MapValues(fileManager.customers);
      if customers == [] {
        return;
      }
      var restaurants := restaurantManager.GetRestaurants();
      if restaurants == [] {
        return;
      }
      var customer := customers[customerDraw % |customers|];
      var restaurant := restaurants[restaurantDraw % |restaurants|];
      menu := fileManager.GetMenuItemsForRestaurant(restaurant.restaurantId);
      assert restaurants == restaurantManager.restaurants;
      assert menu == DrawnMenu(restaurants, fileManager.menuItemsList, restaurantDraw);
      found, customerId, restaurantId := menu != [], customer.id, restaurant.restaurantId;
      assert menu != [] ==> menu[0] in menu;
    }

    /** `place` followed by `appendOrder`, for a customer, a restaurant and a
        non-empty choice of items. */
    method PlaceAndAppend(customerId: Uuid, restaurantId: Uuid, items: seq<MenuItem>, freshOrderId: Uuid, now: string,
                          total: Decimal, io: bool) returns (o: Order)
      requires fileManager.Valid() && orderManager.Valid() && items != []
      modifies orderManager, fileManager`orders, fileManager`ordersFile
      ensures fileManager.Valid() && orderManager.Valid()
      ensures o == Order(freshOrderId, customerId, ItemIds(items), Placed, None, now)
      ensures orderManager.byId == old(orderManager.byId)[freshOrderId := o]
      ensures orderManager.intake == old(orderManager.intake) + [freshOrderId]
      ensures fileManager.orders == old(fileManager.orders)[freshOrderId :=
        OrderData(freshOrderId, customerId, restaurantId, o.items, "PLACED", None, now, total)]
      ensures fileManager.ordersFile == Appended(old(fileManager.ordersFile),
        FormatOrderLine(freshOrderId, customerId, restaurantId, o.items, "PLACED", None, now, total), io)
      ensures AllMatch(old(orderManager.byId)) ==> AllMatch(orderManager.byId)
    {
      var ids := ItemIds(items);
      var r := orderManager.Place(Some(customerId), Some(ids), freshOrderId, now);
      o := r.value;
      var ok := fileManager.AppendOrder(o.id, o.customerId, restaurantId, ids, "PLACED",
                                        None, o.createdAt, total, io);
    }

    /** The part of `createOrder` after placing: on a non-empty pool, the best
        driver is polled and dispatched, so it takes the head of the intake
        queue, whichever order that is. */
    method AutoAssign(io: bool) returns (ghost polled: Option<Driver>)
      requires fileManager.Valid() && orderManager.Valid()
      modifies driverPool, orderManager, fileManager`driversFile, fileManager.drivers.Values,
        set d | d in driverPool.drivers
      ensures fileManager.Valid() && orderManager.Valid()
      ensures polled.None? <==> old(driverPool.drivers) == multiset{}
      ensures polled.None? ==>
        && driverPool.drivers == old(driverPool.drivers)
        && orderManager.byId == old(orderManager.byId) && orderManager.intake == old(orderManager.intake)
        && fileManager.driversFile == old(fileManager.driversFile) && unchanged(fileManager.drivers.Values)
      ensures polled.Some? ==>
        var d := polled.value;
        && d in old(driverPool.drivers)
        && old(IsBestOf(d, driverPool.drivers))
        && driverPool.drivers == old(driverPool.drivers) - multiset{d}
        && (old(orderManager.intake) == [] ==>
              && orderManager.byId == old(orderManager.byId) && orderManager.intake == old(orderManager.intake)
              && fileManager.driversFile == old(fileManager.driversFile)
              && unchanged(d) && unchanged(fileManager.drivers.Values))
        && (old(orderManager.intake) != [] ==>
              && TookHead(orderManager, old(orderManager.intake), old(orderManager.byId), d)
              && d.avgRating == old(d.avgRating) && d.rateCounter == old(d.rateCounter)
              && WroteBackBusy(fileManager, d, old(d.avgRating), old(fileManager.driversFile), io)
              && unchanged(fileManager.drivers.Values - {d} - RegisteredAs(fileManager.drivers, d.id))
              && (d.id in fileManager.drivers && fileManager.drivers[d.id] != d ==>
                    var e := fileManager.drivers[d.id];
                    e.currentOrder == old(e.currentOrder) && e.rateCounter == old(e.rateCounter)))
      ensures polled.Some? ==>
        unchanged(set x | x in old(driverPool.drivers) && x != polled.value && x !in fileManager.drivers.Values)
      ensures old(BusyUnavailable(fileManager.drivers)) ==> BusyUnavailable(fileManager.drivers)
      ensures AllMatch(old(orderManager.byId)) ==> AllMatch(orderManager.byId)
    {
      if driverPool.IsEmpty() {
        return None;
      }
      var next := driverPool.GetNextAvailableDriver();
      assert unchanged(fileManager, orderManager) && unchanged(fileManager.drivers.Values);
      assert forall e :: e in fileManager.drivers.Values ==>
        e.currentOrder == old(e.currentOrder) && e.rateCounter == old(e.rateCounter);
      var driver := next.value;
      polled := next;
      Dispatch(driver, io);
    }

    /** `createOrder`: places an order as `PlaceOrder` describes, then, on a
        non-empty pool, the best pooled driver takes the head of the intake
        queue, which is an older order whenever one was still waiting.
        `queue` and `stored` are the intake queue and the store right after
        placing. `ordersIo` is the outcome of `appendOrder`'s write and
        `driversIo` that of `updateDriver`'s, which succeed or fail apart. */
    method CreateOrder(customerDraw: nat, restaurantDraw: nat, countDraw: nat, shuffleDraw: nat -> nat,
                       freshOrderId: Uuid, now: string, total: Decimal, ordersIo: bool, driversIo: bool)
      returns (placed: Option<Order>, ghost chosen: seq<MenuItem>, ghost polled: Option<Driver>,
               ghost queue: seq<Uuid>, ghost stored: map<Uuid, Order>)
      requires fileManager.Valid() && orderManager.Valid()
      modifies orderManager, fileManager`orders, fileManager`ordersFile, driverPool, fileManager`driversFile,
        fileManager.drivers.Values, set d | d in driverPool.drivers
      ensures fileManager.Valid() && orderManager.Valid()
      ensures placed.Some? <==>
        && old(fileManager.customers) != map[] && old(restaurantManager.restaurants) != []
        && DrawnHasItems(old(restaurantManager.restaurants), old(fileManager.menuItemsList), restaurantDraw)
      ensures placed.None? ==>
        && polled.None?
        && orderManager.byId == old(orderManager.byId) && orderManager.intake == old(orderManager.intake)
        && fileManager.orders == old(fileManager.orders) && fileManager.ordersFile == old(fileManager.ordersFile)
        && driverPool.drivers == old(driverPool.drivers) && fileManager.driversFile == old(fileManager.driversFile)
        && unchanged(fileManager.drivers.Values)
      ensures placed.Some? ==>
        var o := placed.value;
        var rs := old(restaurantManager.restaurants);
        var restaurantId := rs[restaurantDraw % |rs|].restaurantId;
        && DrawnOrder(o, chosen, old(fileManager.customers), rs, old(fileManager.menuItemsList),
             restaurantDraw, countDraw, shuffleDraw, freshOrderId, now)
        && queue == old(orderManager.intake) + [freshOrderId]
        && stored == old(orderManager.byId)[freshOrderId := o]
        && fileManager.orders == old(fileManager.orders)[freshOrderId :=
             OrderData(freshOrderId, o.customerId, restaurantId, o.items, "PLACED", None, now, total)]
        && (polled.None? <==> old(driverPool.drivers) == multiset{})
      ensures placed.Some? && polled.None? ==>
        && orderManager.byId == stored && orderManager.intake == queue
        && fileManager.driversFile == old(fileManager.driversFile)
      ensures placed.Some? && polled.Some? ==>
        var d := polled.value;
        && d in old(driverPool.drivers)
        && old(IsBestOf(d, driverPool.drivers))
        && driverPool.drivers == old(driverPool.drivers) - multiset{d}
        && TookHead(orderManager, queue, stored, d)
        && d.avgRating == old(d.avgRating) && d.rateCounter == old(d.rateCounter)
        && WroteBackBusy(fileManager, d, old(d.avgRating), old(fileManager.driversFile), driversIo)
      ensures AllMatch(old(orderManager.byId)) ==> AllMatch(orderManager.byId)
    {
      placed, chosen := PlaceOrder(customerDraw, restaurantDraw, countDraw, shuffleDraw, freshOrderId, now, total, ordersIo);
      queue, stored := orderManager.intake, orderManager.byId;
      if placed.None? {
        polled := None;
        return;
      }
      assert forall e :: e in driverPool.drivers ==>
        e.avgRating == old(e.avgRating) && e.rateCounter == old(e.rateCounter);
      polled := AutoAssign(driversIo);
    }

    /** `updateOrder`: picks one of the drivers holding an order. An
        accepted order goes in progress; an order in progress is delivered,
        the driver is rated `1 + nextInt(5)`, drops the order, becomes
        available and is written back, and the pool is refreshed (to
        `refreshed`). An unknown order or any other status changes nothing. */
    method UpdateOrder(pick: nat, ratingDraw: nat, refreshed: multiset<Driver>, io: bool)
      returns (ghost chosen: Option<Driver>)
      requires fileManager.Valid() && orderManager.Valid()
      modifies orderManager, fileManager`driversFile, fileManager.drivers.Values, fileManager.Buffers, driverPool
      ensures fileManager.Valid() && orderManager.Valid()
      ensures orderManager.intake == old(orderManager.intake)
      ensures chosen.None? ==>
        && (forall d :: d in fileManager.drivers.Values ==> old(d.currentOrder).None?)
        && orderManager.byId == old(orderManager.byId) && driverPool.drivers == old(driverPool.drivers)
        && fileManager.driversFile == old(fileManager.driversFile) && unchanged(fileManager.drivers.Values, fileManager.Buffers)
      ensures chosen.Some? ==>
        var d := chosen.value;
        && d in fileManager.drivers.Values && old(d.currentOrder).Some?
        && var id := old(d.currentOrder).value;
        && (id !in old(orderManager.byId) || old(orderManager.byId)[id].status in {Placed, Delivered} ==>
              && orderManager.byId == old(orderManager.byId) && driverPool.drivers == old(driverPool.drivers)
              && fileManager.driversFile == old(fileManager.driversFile) && unchanged(fileManager.drivers.Values, fileManager.Buffers))
        && (id in old(orderManager.byId) && old(orderManager.byId)[id].status == Accepted ==>
              && orderManager.byId == old(orderManager.byId)[id := old(orderManager.byId)[id].(status := InProgress)]
              && driverPool.drivers == old(driverPool.drivers)
              && fileManager.driversFile == old(fileManager.driversFile) && unchanged(fileManager.drivers.Values, fileManager.Buffers))
        && (id in old(orderManager.byId) && old(orderManager.byId)[id].status == InProgress ==>
              && orderManager.byId == old(orderManager.byId)[id := old(orderManager.byId)[id].(status := Delivered)]
              && d.ratings[..] == old(d.ratings[..])[old(d.rateCounter) := 1 + ratingDraw % 5]
              && d.rateCounter == (old(d.rateCounter) + 1) % Capacity
              && d.avgRating == Average(d.ratings[..])
              && d.currentOrder == None && d.available
              && fileManager.driversFile == Rewritten(old(fileManager.driversFile),
                   Updater(d.id, fileManager.DriverLine(d, true, d.avgRating)), io)
              && driverPool.drivers == refreshed
              && unchanged(fileManager.drivers.Values - {d}, fileManager.Buffers - {d.ratings}))
      ensures old(BusyUnavailable(fileManager.drivers)) ==> BusyUnavailable(fileManager.drivers)
      ensures AllMatch(old(orderManager.byId)) ==> AllMatch(orderManager.byId)
    {
      var active := GetActiveDrivers();
      assert unchanged(orderManager, driverPool, fileManager);
      if active == [] {
        chosen := None;
        return;
      }
      var driver := active[pick % |active|];
      chosen := Some(driver);
      AdvanceOrder(driver, ratingDraw, refreshed, io);
    }

    /** The part of `updateOrder` after the pick: the picked driver's order
        moves on according to its status. */
    method AdvanceOrder(d: Driver, ratingDraw: nat, refreshed: multiset<Driver>, io: bool)
      requires fileManager.Valid() && orderManager.Valid()
      requires d in fileManager.drivers.Values && d.currentOrder.Some?
      modifies orderManager, fileManager`driversFile, fileManager.drivers.Values, fileManager.Buffers, driverPool
      ensures fileManager.Valid() && orderManager.Valid()
      ensures orderManager.intake == old(orderManager.intake)
      ensures var id := old(d.currentOrder).value;
        && (id !in old(orderManager.byId) || old(orderManager.byId)[id].status in {Placed, Delivered} ==>
              && orderManager.byId == old(orderManager.byId) && driverPool.drivers == old(driverPool.drivers)
              && fileManager.driversFile == old(fileManager.driversFile) && unchanged(fileManager.drivers.Values, fileManager.Buffers))
        && (id in old(orderManager.byId) && old(orderManager.byId)[id].status == Accepted ==>
              && orderManager.byId == old(orderManager.byId)[id := old(orderManager.byId)[id].(status := InProgress)]
              && driverPool.drivers == old(driverPool.drivers)
              && fileManager.driversFile == old(fileManager.driversFile) && unchanged(fileManager.drivers.Values, fileManager.Buffers))
        && (id in old(orderManager.byId) && old(orderManager.byId)[id].status == InProgress ==>
              && orderManager.byId == old(orderManager.byId)[id := old(orderManager.byId)[id].(status := Delivered)]
              && d.ratings[..] == old(d.ratings[..])[old(d.rateCounter) := 1 + ratingDraw % 5]
              && d.rateCounter == (old(d.rateCounter) + 1) % Capacity
              && d.avgRating == Average(d.ratings[..])
              && d.currentOrder == None && d.available
              && fileManager.driversFile == Rewritten(old(fileManager.driversFile),
                   Updater(d.id, fileManager.DriverLine(d, true, d.avgRating)), io)
              && driverPool.drivers == refreshed
              && unchanged(fileManager.drivers.Values - {d}, fileManager.Buffers - {d.ratings}))
      ensures old(BusyUnavailable(fileManager.drivers)) ==> BusyUnavailable(fileManager.drivers)
      ensures AllMatch(old(orderManager.byId)) ==> AllMatch(orderManager.byId)
    {
      RegisteredUnderOwnId(d);
      var r := orderManager.Get(d.currentOrder);
      if r.Ok? && r.value.Some? {
        var order := r.value.value;
        if order.status == Accepted {
          if AllMatch(orderManager.byId) {
            AdvanceKeepsMatch(orderManager.byId, order.id, InProgress);
          }
          var marked := d.UpdateOrderStatus(orderManager, InProgress);
        } else if order.status == InProgress {
          if AllMatch(orderManager.byId) {
            AdvanceKeepsMatch(orderManager.byId, order.id, Delivered);
          }
          CompleteOrder(d, 1 + ratingDraw % 5, refreshed, io);
        }
      }
    }

    /** The delivered branch of `updateOrder`. */
    method CompleteOrder(driver: Driver, rating: int, refreshed: multiset<Driver>, io: bool)
      requires fileManager.Valid() && orderManager.Valid()
      requires driver in fileManager.drivers.Values && driver.currentOrder.Some? && IsRating(rating)
      modifies orderManager, fileManager`driversFile, fileManager.drivers.Values, fileManager.Buffers, driverPool
      ensures fileManager.Valid() && orderManager.Valid()
      ensures orderManager.intake == old(orderManager.intake)
      ensures var id := old(driver.currentOrder).value;
        orderManager.byId == if id in old(orderManager.byId)
                             then old(orderManager.byId)[id := old(orderManager.byId)[id].(status := Delivered)]
                             else old(orderManager.byId)
      ensures driver.ratings[..] == old(driver.ratings[..])[old(driver.rateCounter) := rating]
      ensures driver.rateCounter == (old(driver.rateCounter) + 1) % Capacity
      ensures driver.avgRating == Average(driver.ratings[..])
      ensures driver.currentOrder == None && driver.available
      ensures fileManager.driversFile == Rewritten(old(fileManager.driversFile),
        Updater(driver.id, fileManager.DriverLine(driver, true, driver.avgRating)), io)
      ensures driverPool.drivers == refreshed
      ensures unchanged(fileManager.drivers.Values - {driver}, fileManager.Buffers - {driver.ratings})
      ensures old(BusyUnavailable(fileManager.drivers)) ==> BusyUnavailable(fileManager.drivers)
    {
      RegisteredUnderOwnId(driver);
      var marked := driver.UpdateOrderStatus(orderManager, Delivered);
      Settle(fileManager, driver, rating, io);
      driverPool.drivers := refreshed;
    }
  }
}
