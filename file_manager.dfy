/** The in-memory store behind the six data files (FileManager.java). The
    maps and lists are fields the methods update; each data file is its
    sequence of lines in its own field. Whether a file write succeeds is the `io`
    parameter of the method that writes, and `formatDouble` renders a
    `double` the way `Double.toString` does. */
module FileManagers {
  import opened Common
  import opened JavaText
  import opened TextFiles
  import opened MenuItems
  import opened Restaurants
  import opened Drivers

  datatype DataFile = MenuFile | RestaurantsFile | CustomersFile | DriversFile | AdminsFile | OrdersFile

  /** The header `createFiles` writes into a file that does not exist yet. */
  const RestaurantsHeader := "# Format: RestaurantId, Name, Category"
  const MenuHeader := "# Format: ItemId, Name, Category, Price, RestaurantId"
  const CustomersHeader := "# Format: CustomerId, Username, Name, Email"
  const DriversHeader := "# Format: DriverId, Username, Name, Email, Available, AvgRating"
  const AdminsHeader := "# Format: AdminId, Username, Name, Email"
  const OrdersHeader := "# Format: OrderId, CustomerId, RestaurantId, ItemIds, Status, DriverId, CreatedAt, TotalPrice"

  function HeaderOf(f: DataFile): string {
    match f
    case RestaurantsFile => RestaurantsHeader
    case MenuFile => MenuHeader
    case CustomersFile => CustomersHeader
    case DriversFile => DriversHeader
    case AdminsFile => AdminsHeader
    case OrdersFile => OrdersHeader
  }

  /** A `Customer` or an `Administrator`: the user fields they are built with. */
  datatype Account = Account(id: Uuid, name: string, username: string, email: string)

  /** `FileManager.OrderData`; the total is kept as the text `formatOrderLine` prints. */
  datatype OrderData = OrderData(
    orderId: Uuid,
    customerId: Uuid,
    restaurantId: Uuid,
    itemIds: seq<Uuid>,
    status: string,
    driverId: Option<Uuid>,
    createdAt: string,
    totalPrice: Decimal)

  /** How string concatenation prints a `boolean`. */
  function BoolText(b: bool): string {
    if b then "true" else "false"
  }

  /** `formatOrderLine`: the eight fields separated by ", ", the item ids
      joined by "," inside the fourth, and "null" for an absent driver. */
  function FormatOrderLine(orderId: Uuid, customerId: Uuid, restaurantId: Uuid, itemIds: seq<Uuid>,
                           status: string, driverId: Option<Uuid>, createdAt: string, totalPrice: Decimal): (r: string)
    ensures StartsWith(r, orderId + ", " + customerId + ", " + restaurantId + ", ")
    ensures |totalPrice| <= |r| && r[|r| - |totalPrice| ..] == totalPrice
  {
    var itemIdsText := Join(itemIds, ",");
    var driverIdText := if driverId.None? then "null" else driverId.value;
    orderId + ", " + customerId + ", " + restaurantId + ", " + itemIdsText + ", " + status + ", "
      + driverIdText + ", " + createdAt + ", " + totalPrice
  }

  function OrderLine(o: OrderData): string {
    FormatOrderLine(o.orderId, o.customerId, o.restaurantId, o.itemIds, o.status, o.driverId, o.createdAt, o.totalPrice)
  }

  /** `List.remove(Object)`: drops the first occurrence, if there is one. */
  function RemoveFirst<T(==)>(s: seq<T>, x: T): (r: seq<T>)
    ensures x !in s ==> r == s
    ensures x in s ==> |r| == |s| - 1
    ensures multiset(r) == multiset(s) - multiset{x}
  {
    if s == [] then s
    else
      assert s == [s[0]] + s[1..];
      if s[0] == x then s[1..] else [s[0]] + RemoveFirst(s[1..], x)
  }

  /** What is left keeps its order: the first `x`, at `i`, is cut out. */
  lemma {:induction false} RemoveFirstAt<T>(s: seq<T>, x: T, i: nat)
    requires i < |s| && s[i] == x && x !in s[..i]
    ensures RemoveFirst(s, x) == s[..i] + s[i + 1..]
  {
    if i > 0 {
      assert s[0] in s[..i];
      assert s[1..][..i - 1] == s[1..i];
      RemoveFirstAt(s[1..], x, i - 1);
      assert s[..i] == [s[0]] + s[1..i];
    }
  }

  /** Every element equal to `x` becomes `y`. */
  function ReplaceAll<T(==)>(s: seq<T>, x: T, y: T): (r: seq<T>)
    ensures |r| == |s|
    ensures forall k :: 0 <= k < |s| ==> r[k] == if s[k] == x then y else s[k]
  {
    seq(|s|, k requires 0 <= k < |s| => if s[k] == x then y else s[k])
  }

  /** `getMenuItemsForRestaurant`: the listed items of one restaurant, in list order. */
  function ItemsOf(items: seq<MenuItem>, restaurantId: Uuid): (r: seq<MenuItem>)
    ensures |r| <= |items|
  {
    if items == [] then []
    else
      var last := items[|items| - 1];
      ItemsOf(items[..|items| - 1], restaurantId) + (if last.restaurantId == restaurantId then [last] else [])
  }

  /** The items of a restaurant are exactly the listed items with its id. */
  lemma {:induction false} ItemsOfExactly(items: seq<MenuItem>, restaurantId: Uuid)
    ensures forall item :: item in ItemsOf(items, restaurantId) <==> item in items && item.restaurantId == restaurantId
    decreases |items|
  {
    if items != [] {
      ItemsOfExactly(items[..|items| - 1], restaurantId);
      assert items == items[..|items| - 1] + [items[|items| - 1]];
    }
  }

  /** The ids `removeRestaurant` collects: each listed item's own random id. */
  function ItemIdsOf(items: seq<MenuItem>, restaurantId: Uuid): (r: seq<Uuid>)
    ensures |r| == |ItemsOf(items, restaurantId)|
    ensures forall k :: 0 <= k < |r| ==> r[k] == ItemsOf(items, restaurantId)[k].itemId
  {
    var own := ItemsOf(items, restaurantId);
    seq(|own|, k requires 0 <= k < |own| => own[k].itemId)
  }

  /** The state `removeMenuItem` works on. */
  datatype MenuState = MenuState(items: map<Uuid, MenuItem>, list: seq<MenuItem>, file: seq<string>)

  /** `removeMenuItem` on that state: nothing for an unknown id; otherwise
      the entry, its first listed occurrence and, when the write succeeds,
      its file lines go. */
  function DropItem(st: MenuState, itemId: Uuid, io: bool): (r: MenuState)
    ensures itemId !in r.items
    ensures r.items == st.items - {itemId}
    ensures itemId !in st.items ==> r == st
  {
    if itemId !in st.items then st
    else
      MenuState(st.items - {itemId}, RemoveFirst(st.list, st.items[itemId]),
                if io then Processed(st.file, Remover(itemId)) else st.file)
  }

  /** `removeMenuItem` applied to each id in turn; `io(i)` is the outcome
      of the i-th call's file write. */
  function DropItems(st: MenuState, ids: seq<Uuid>, io: nat -> bool): MenuState {
    if ids == [] then st else DropItem(DropItems(st, ids[..|ids| - 1], io), ids[|ids| - 1], io(|ids| - 1))
  }

  lemma DropItemsStep(st: MenuState, ids: seq<Uuid>, i: nat, io: nat -> bool)
    requires i < |ids|
    ensures DropItems(st, ids[..i + 1], io) == DropItem(DropItems(st, ids[..i], io), ids[i], io(i))
  {
    assert ids[..i + 1][..i] == ids[..i];
  }

  /** When none of the ids is a key of the item map, dropping them changes
      nothing: `removeRestaurant` removes no menu item unless an item's own
      random id happens to be a map key. */
  lemma {:induction false} DropItemsNoKey(st: MenuState, ids: seq<Uuid>, io: nat -> bool)
    requires forall k :: 0 <= k < |ids| ==> ids[k] !in st.items
    ensures DropItems(st, ids, io) == st
    decreases |ids|
  {
    if ids != [] {
      DropItemsNoKey(st, ids[..|ids| - 1], io);
    }
  }

  /** Dropping ids removes exactly those keys. */
  lemma {:induction false} DropItemsKeys(st: MenuState, ids: seq<Uuid>, io: nat -> bool)
    ensures forall id :: id in DropItems(st, ids, io).items <==> id in st.items && id !in ids
    ensures forall id :: id in DropItems(st, ids, io).items ==> DropItems(st, ids, io).items[id] == st.items[id]
    decreases |ids|
  {
    if ids != [] {
      var init := ids[..|ids| - 1];
      DropItemsKeys(st, init, io);
      assert ids == init + [ids[|ids| - 1]];
    }
  }

  /** What `createFiles` leaves in a file: its contents, or just its header
      when it did not exist. */
  function Created(disk: map<DataFile, seq<string>>, f: DataFile): seq<string> {
    if f in disk then disk[f] else [HeaderOf(f)]
  }

  /** A file after a write of `line` at its end, when the write succeeds. */
  function Appended(file: seq<string>, line: string, io: bool): seq<string> {
    if io then file + [line] else file
  }

  /** A file after `processFileLines`, when the write succeeds. */
  function Rewritten(file: seq<string>, processor: string -> Option<string>, io: bool): seq<string> {
    if io then Processed(file, processor) else file
  }

  /** The state `addDriver` gives a driver: the given user fields and
      availability, a 0.0 average, no rating yet and no order. */
  ghost predicate IsNewDriver(d: Driver, id: Uuid, name: string, username: string, email: string, available: bool)
    reads d, d.ratings
  {
    && d.Valid()
    && d.id == id && d.name == name && d.username == username && d.email == email
    && d.available == available && d.avgRating == 0.0 && d.currentOrder == None
    && d.rateCounter == 0 && d.ratings[..] == Replay([])
  }

  /** The driver `addDriver` builds. */
  method NewDriver(id: Uuid, name: string, username: string, email: string, available: bool) returns (d: Driver)
    ensures fresh(d) && fresh(d.ratings)
    ensures IsNewDriver(d, id, name, username, email, available)
  {
    d := new Driver(id, name, username, email);
    d.SetAvailable(available);
    d.SetAvgRating(0.0);
  }

  class FileManager {
    const formatDouble: real -> string
    var menuItems: map<Uuid, MenuItem>
    var menuItemsList: seq<MenuItem>
    var restaurants: map<Uuid, Restaurant>
    var restaurantsList: seq<Restaurant>
    var customers: map<Uuid, Account>
    var drivers: map<Uuid, Driver>
    var admins: map<Uuid, Account>
    var orders: map<Uuid, OrderData>
    var restaurantsFile: seq<string>
    var menuFile: seq<string>
    var customersFile: seq<string>
    var driversFile: seq<string>
    var adminsFile: seq<string>
    var ordersFile: seq<string>

    /** The registered drivers' rating buffers. */
    ghost var Buffers: set<array<int>>

    /** Every driver is registered under its own id and is valid, distinct
        registrations hold distinct buffers. */
    ghost predicate Valid()
      reads this, drivers.Values, Buffers
    {
      && (forall k :: k in restaurants ==> restaurants[k].restaurantId == k)
      && (forall k :: k in drivers ==>
            drivers[k].ratings in Buffers && drivers[k].id == k && drivers[k].Valid())
      && (forall k1, k2 :: k1 in drivers && k2 in drivers && k1 != k2 ==>
            drivers[k1].ratings != drivers[k2].ratings)
    }

    /** Creates each missing file with its header; the stores start empty
        (loading the files back is not modelled). */
    constructor (disk: map<DataFile, seq<string>>, formatDouble: real -> string)
      ensures Valid()
      ensures this.formatDouble == formatDouble
      ensures menuItems == map[] && menuItemsList == [] && restaurants == map[] && restaurantsList == []
      ensures customers == map[] && drivers == map[] && admins == map[] && orders == map[]
      ensures restaurantsFile == Created(disk, RestaurantsFile)
      ensures menuFile == Created(disk, MenuFile)
      ensures customersFile == Created(disk, CustomersFile)
      ensures driversFile == Created(disk, DriversFile)
      ensures adminsFile == Created(disk, AdminsFile)
      ensures ordersFile == Created(disk, OrdersFile)
    {
      this.formatDouble := formatDouble;
      menuItems, menuItemsList := map[], [];
      restaurants, restaurantsList := map[], [];
      customers, drivers, admins, orders := map[], map[], map[], map[];
      Buffers := {};
      restaurantsFile := Created(disk, RestaurantsFile);
      menuFile := Created(disk, MenuFile);
      customersFile := Created(disk, CustomersFile);
      driversFile := Created(disk, DriversFile);
      adminsFile := Created(disk, AdminsFile);
      ordersFile := Created(disk, OrdersFile);
    }

    function Menu(): MenuState
      reads this
    {
      MenuState(menuItems, menuItemsList, menuFile)
    }

    // ---- restaurants ----

    /** `addRestaurant`: false and no change for a known id; otherwise the
        new restaurant goes into the map and at the end of the list, and its
        line is appended to the file. */
    method AddRestaurant(restaurantId: Uuid, name: string, category: string, io: bool) returns (ok: bool)
      requires Valid()
      modifies this`restaurants, this`restaurantsList, this`restaurantsFile
      ensures Valid()
      ensures restaurantId in old(restaurants) ==>
        !ok && restaurants == old(restaurants) && restaurantsList == old(restaurantsList)
        && restaurantsFile == old(restaurantsFile)
      ensures restaurantId !in old(restaurants) ==>
        && ok == io
        && restaurantId in restaurants
        && fresh(restaurants[restaurantId])
        && restaurants[restaurantId].Record() == RestaurantRecord(restaurantId, name, category)
        && restaurants == old(restaurants)[restaurantId := restaurants[restaurantId]]
        && restaurantsList == old(restaurantsList) + [restaurants[restaurantId]]
        && restaurantsFile == Appended(old(restaurantsFile), FileLine(RestaurantRecord(restaurantId, name, category)), io)
    {
      if restaurantId in restaurants {
        return false;
      }
      var restaurant := new Restaurant(restaurantId, name, category);
      restaurants := restaurants[restaurantId := restaurant];
      restaurantsList := restaurantsList + [restaurant];
      restaurantsFile := Appended(restaurantsFile, restaurantId + ", " + name + ", " + category, io);
      return io;
    }

    /** `removeMenuItem`: false and no change for an unknown id; otherwise the
        entry, its first listed occurrence and its file lines go. */
    method RemoveMenuItem(itemId: Uuid, io: bool) returns (ok: bool)
      requires Valid()
      modifies this`menuItems, this`menuItemsList, this`menuFile
      ensures Valid()
      ensures ok <==> itemId in old(menuItems) && io
      ensures Menu() == DropItem(old(Menu()), itemId, io)
    {
      if itemId !in menuItems {
        return false;
      }
      var item := menuItems[itemId];
      menuItems := menuItems - {itemId};
      menuItemsList := RemoveFirst(menuItemsList, item);
      menuFile := Rewritten(menuFile, Remover(itemId), io);
      return io;
    }

    /** Calls `removeMenuItem` with each id in turn. */
    method RemoveMenuItems(ids: seq<Uuid>, io: nat -> bool)
      requires Valid()
      modifies this`menuItems, this`menuItemsList, this`menuFile
      ensures Valid()
      ensures Menu() == DropItems(old(Menu()), ids, io)
    {
      ghost var start := Menu();
      for i := 0 to |ids|
        invariant Valid()
        invariant Menu() == DropItems(start, ids[..i], io)
      {
        DropItemsStep(start, ids, i, io);
        var removed := RemoveMenuItem(ids[i], io(i));
      }
      assert ids[..|ids|] == ids;
    }

    /** `removeRestaurant`: false and no change for an unknown id. Otherwise
        it calls `removeMenuItem` with the random id of each listed item of
        the restaurant (ids that are not the map's keys), then drops the
        restaurant from the map, its first occurrence from the list and its
        lines from the file. `menuIo(i)` is the outcome of the i-th
        `removeMenuItem` write and `io` that of the restaurants file. */
    method RemoveRestaurant(restaurantId: Uuid, menuIo: nat -> bool, io: bool) returns (ok: bool)
      requires Valid()
      modifies this`restaurants, this`restaurantsList, this`menuItems, this`menuItemsList, this`menuFile,
        this`restaurantsFile
      ensures Valid()
      ensures restaurantId !in old(restaurants) ==>
        && !ok
        && restaurants == old(restaurants) && restaurantsList == old(restaurantsList)
        && menuItems == old(menuItems) && menuItemsList == old(menuItemsList)
        && menuFile == old(menuFile) && restaurantsFile == old(restaurantsFile)
      ensures restaurantId in old(restaurants) ==>
        && ok == io
        && Menu() == DropItems(old(Menu()), ItemIdsOf(old(menuItemsList), restaurantId), menuIo)
        && restaurants == old(restaurants) - {restaurantId}
        && restaurantsList == RemoveFirst(old(restaurantsList), old(restaurants)[restaurantId])
        && restaurantsFile == Rewritten(old(restaurantsFile), Remover(restaurantId), io)
    {
      if restaurantId !in restaurants {
        return false;
      }
      var ids := ItemIdsOf(menuItemsList, restaurantId);
      RemoveMenuItems(ids, menuIo);
      DropRestaurant(restaurantId, io);
      return io;
    }

    /** The last steps of `removeRestaurant`: the map entry, the first listed
        occurrence and the file lines of a known restaurant go. */
    method DropRestaurant(restaurantId: Uuid, io: bool)
      requires Valid() && restaurantId in restaurants
      modifies this`restaurants, this`restaurantsList, this`restaurantsFile
      ensures Valid()
      ensures restaurants == old(restaurants) - {restaurantId}
      ensures restaurantsList == RemoveFirst(old(restaurantsList), old(restaurants)[restaurantId])
      ensures restaurantsFile == Rewritten(old(restaurantsFile), Remover(restaurantId), io)
    {
      var restaurant := restaurants[restaurantId];
      restaurants := restaurants - {restaurantId};
      restaurantsList := RemoveFirst(restaurantsList, restaurant);
      restaurantsFile := Rewritten(restaurantsFile, Remover(restaurantId), io);
    }

    /** `updateRestaurant`: false for an unknown id; otherwise renames and
        recategorises that restaurant and rewrites its file lines. */
    method UpdateRestaurant(restaurantId: Uuid, newName: string, newCategory: string, io: bool) returns (ok: bool)
      requires Valid()
      modifies this`restaurantsFile, if restaurantId in restaurants then {restaurants[restaurantId]} else {}
      ensures Valid()
      ensures restaurantId !in restaurants ==> !ok && restaurantsFile == old(restaurantsFile)
      ensures restaurantId in restaurants ==>
        && ok == io
        && restaurants[restaurantId].Record() == RestaurantRecord(restaurantId, newName, newCategory)
        && restaurantsFile == Rewritten(old(restaurantsFile),
             Updater(restaurantId, FileLine(RestaurantRecord(restaurantId, newName, newCategory))), io)
    {
      if restaurantId !in restaurants {
        return false;
      }
      var restaurant := restaurants[restaurantId];
      restaurant.SetName(newName);
      restaurant.SetCategory(newCategory);
      restaurantsFile := Rewritten(restaurantsFile,
        Updater(restaurantId, restaurantId + ", " + newName + ", " + newCategory), io);
      return io;
    }

    function GetRestaurant(restaurantId: Uuid): (r: Option<Restaurant>)
      reads this
      ensures r.Some? <==> restaurantId in restaurants
      ensures r.Some? ==> r.value == restaurants[restaurantId]
    {
      if restaurantId in restaurants then Some(restaurants[restaurantId]) else None
    }

    /** `getAllRestaurants`: a copy of the list. */
    function GetAllRestaurants(): (r: seq<Restaurant>)
      reads this
      ensures |r| == |restaurantsList| && forall k :: 0 <= k < |r| ==> r[k] == restaurantsList[k]
    {
      restaurantsList
    }

    // ---- menu items ----

    /** `addMenuItem`: false and no change for an unknown restaurant or a
        known item id; otherwise the item goes into the map under the given
        id and at the end of the list, and its line is appended to the file.
        The item object draws its own random id, `objectId`. */
    method AddMenuItem(itemId: Uuid, name: string, category: string, price: Decimal, restaurantId: Uuid,
                       objectId: Uuid, io: bool) returns (ok: bool)
      requires Valid()
      modifies this`menuItems, this`menuItemsList, this`menuFile
      ensures Valid()
      ensures restaurantId !in restaurants || itemId in old(menuItems) ==>
        !ok && menuItems == old(menuItems) && menuItemsList == old(menuItemsList) && menuFile == old(menuFile)
      ensures restaurantId in restaurants && itemId !in old(menuItems) ==>
        var item := MenuItem(objectId, name, category, price, restaurantId);
        && ok == io
        && menuItems == old(menuItems)[itemId := item]
        && menuItemsList == old(menuItemsList) + [item]
        && menuFile == Appended(old(menuFile),
             itemId + ", " + name + ", " + category + ", " + price + ", " + restaurantId, io)
    {
      if restaurantId !in restaurants {
        return false;
      }
      if itemId in menuItems {
        return false;
      }
      var item := MenuItem(objectId, name, category, price, restaurantId);
      menuItems := menuItems[itemId := item];
      menuItemsList := menuItemsList + [item];
      menuFile := Appended(menuFile, itemId + ", " + name + ", " + category + ", " + price + ", " + restaurantId, io);
      return io;
    }

    /** `updateMenuItem`: false and no change for an unknown item or an
        unknown new restaurant; otherwise the item takes the new fields
        wherever it is held, and its file lines are rewritten. */
    method UpdateMenuItem(itemId: Uuid, newName: string, newCategory: string, newPrice: Decimal,
                          newRestaurantId: Uuid, io: bool) returns (ok: bool)
      requires Valid()
      modifies this`menuItems, this`menuItemsList, this`menuFile
      ensures Valid()
      ensures itemId !in old(menuItems) || newRestaurantId !in restaurants ==>
        !ok && menuItems == old(menuItems) && menuItemsList == old(menuItemsList) && menuFile == old(menuFile)
      ensures itemId in old(menuItems) && newRestaurantId in restaurants ==>
        var item := old(menuItems)[itemId];
        var updated := item.(name := newName, category := newCategory, price := newPrice, restaurantId := newRestaurantId);
        && ok == io
        && menuItems == old(menuItems)[itemId := updated]
        && menuItemsList == ReplaceAll(old(menuItemsList), item, updated)
        && menuFile == Rewritten(old(menuFile),
             Updater(itemId, itemId + ", " + newName + ", " + newCategory + ", " + newPrice + ", " + newRestaurantId), io)
    {
      if itemId !in menuItems {
        return false;
      }
      if newRestaurantId !in restaurants {
        return false;
      }
      var item := menuItems[itemId];
      var updated := item.(name := newName, category := newCategory, price := newPrice, restaurantId := newRestaurantId);
      menuItems := menuItems[itemId := updated];
      menuItemsList := ReplaceAll(menuItemsList, item, updated);
      menuFile := Rewritten(menuFile,
        Updater(itemId, itemId + ", " + newName + ", " + newCategory + ", " + newPrice + ", " + newRestaurantId), io);
      return io;
    }

    function GetMenuItem(itemId: Uuid): (r: Option<MenuItem>)
      reads this
      ensures r.Some? <==> itemId in menuItems
      ensures r.Some? ==> r.value == menuItems[itemId]
    {
      if itemId in menuItems then Some(menuItems[itemId]) else None
    }

    /** `getMenuItemsForRestaurant`: exactly the listed items of that restaurant. */
    function GetMenuItemsForRestaurant(restaurantId: Uuid): (r: seq<MenuItem>)
      reads this
      ensures forall item :: item in r <==> item in menuItemsList && item.restaurantId == restaurantId
    {
      ItemsOfExactly(menuItemsList, restaurantId);
      ItemsOf(menuItemsList, restaurantId)
    }

    function GetAllMenuItems(): (r: seq<MenuItem>)
      reads this
      ensures |r| == |menuItemsList| && forall k :: 0 <= k < |r| ==> r[k] == menuItemsList[k]
    {
      menuItemsList
    }

    // ---- customers ----

    /** `addCustomer`: false and no change for a known id; otherwise stores
        the customer and appends its line. */
    method AddCustomer(customerId: Uuid, username: string, name: string, email: string, io: bool) returns (ok: bool)
      requires Valid()
      modifies this`customers, this`customersFile
      ensures Valid()
      ensures customerId in old(customers) ==> !ok && customers == old(customers) && customersFile == old(customersFile)
      ensures customerId !in old(customers) ==>
        && ok == io
        && customers == old(customers)[customerId := Account(customerId, name, username, email)]
        && customersFile == Appended(old(customersFile),
             customerId + ", " + username + ", " + name + ", " + email, io)
    {
      if customerId in customers {
        return false;
      }
      customers := customers[customerId := Account(customerId, name, username, email)];
      customersFile := Appended(customersFile, customerId + ", " + username + ", " + name + ", " + email, io);
      return io;
    }

    /** `removeCustomer`: false and no change for an unknown id; otherwise
        drops the customer and its file lines. */
    method RemoveCustomer(customerId: Uuid, io: bool) returns (ok: bool)
      requires Valid()
      modifies this`customers, this`customersFile
      ensures Valid()
      ensures customerId !in old(customers) ==> !ok && customers == old(customers) && customersFile == old(customersFile)
      ensures customerId in old(customers) ==>
        && ok == io
        && customers == old(customers) - {customerId}
        && customersFile == Rewritten(old(customersFile), Remover(customerId), io)
    {
      if customerId !in customers {
        return false;
      }
      customers := customers - {customerId};
      customersFile := Rewritten(customersFile, Remover(customerId), io);
      return io;
    }

    function GetCustomer(customerId: Uuid): (r: Option<Account>)
      reads this
      ensures r.Some? <==> customerId in customers
      ensures r.Some? ==> r.value == customers[customerId]
    {
      if customerId in customers then Some(customers[customerId]) else None
    }

    /** `getAllCustomers`: a copy of the map. */
    function GetAllCustomers(): (r: map<Uuid, Account>)
      reads this
      ensures r.Keys == customers.Keys && forall k :: k in r ==> r[k] == customers[k]
    {
      customers
    }

    // ---- drivers ----

    /** `addDriver`: false and no change for a known id; otherwise registers a
        new driver with the given availability and a 0.0 average, and appends
        its line. */
    method AddDriver(driverId: Uuid, username: string, name: string, email: string, available: bool, io: bool)
      returns (ok: bool)
      requires Valid()
      modifies this`drivers, this`driversFile, this`Buffers
      ensures Valid()
      ensures driverId in old(drivers) ==> !ok && drivers == old(drivers) && driversFile == old(driversFile)
      ensures driverId !in old(drivers) ==>
        && ok == io
        && driverId in drivers
        && drivers == old(drivers)[driverId := drivers[driverId]]
        && fresh(drivers[driverId]) && fresh(drivers[driverId].ratings)
        && IsNewDriver(drivers[driverId], driverId, name, username, email, available)
        && driversFile == Appended(old(driversFile),
             driverId + ", " + username + ", " + name + ", " + email + ", " + BoolText(available) + ", 0.0", io)
    {
      if driverId in drivers {
        return false;
      }
      var driver := NewDriver(driverId, name, username, email, available);
      drivers := drivers[driverId := driver];
      Buffers := Buffers + {driver.ratings};
      driversFile := Appended(driversFile,
        driverId + ", " + username + ", " + name + ", " + email + ", " + BoolText(available) + ", 0.0", io);
      return io;
    }

    /** `removeDriver`: false and no change for an unknown id; otherwise
        unregisters the driver and drops its file lines. */
    method RemoveDriver(driverId: Uuid, io: bool) returns (ok: bool)
      requires Valid()
      modifies this`drivers, this`driversFile
      ensures Valid()
      ensures driverId !in old(drivers) ==> !ok && drivers == old(drivers) && driversFile == old(driversFile)
      ensures driverId in old(drivers) ==>
        && ok == io
        && drivers == old(drivers) - {driverId}
        && driversFile == Rewritten(old(driversFile), Remover(driverId), io)
    {
      if driverId !in drivers {
        return false;
      }
      drivers := drivers - {driverId};
      driversFile := Rewritten(driversFile, Remover(driverId), io);
      return io;
    }

    /** The line `updateDriverInFile` writes. */
    function DriverLine(d: Driver, available: bool, avgRating: real): (r: string)
      ensures StartsWith(r, d.id + ", " + d.username + ", ")
    {
      d.id + ", " + d.username + ", " + d.name + ", " + d.email + ", " + BoolText(available) + ", "
        + formatDouble(avgRating)
    }

    /** `updateDriver`: false for an unknown id; otherwise sets exactly that
        driver's availability and average and rewrites its file lines. */
    method UpdateDriver(driverId: Uuid, available: bool, avgRating: real, io: bool) returns (ok: bool)
      requires Valid()
      modifies this`driversFile, if driverId in drivers then {drivers[driverId]} else {}
      ensures Valid()
      ensures driverId !in drivers ==> !ok && driversFile == old(driversFile)
      ensures driverId in drivers ==>
        var d := drivers[driverId];
        && ok == io
        && d.available == available && d.avgRating == avgRating
        && d.currentOrder == old(d.currentOrder) && d.rateCounter == old(d.rateCounter)
        && driversFile == Rewritten(old(driversFile), Updater(driverId, DriverLine(d, available, avgRating)), io)
    {
      if driverId !in drivers {
        return false;
      }
      var driver := drivers[driverId];
      driver.SetAvailable(available);
      driver.SetAvgRating(avgRating);
      driversFile := Rewritten(driversFile, Updater(driverId, DriverLine(driver, available, avgRating)), io);
      return io;
    }

    function GetDriver(driverId: Uuid): (r: Option<Driver>)
      reads this
      ensures r.Some? <==> driverId in drivers
      ensures r.Some? ==> r.value == drivers[driverId]
    {
      if driverId in drivers then Some(drivers[driverId]) else None
    }

    /** `getAllDrivers`: a copy of the map. */
    function GetAllDrivers(): (r: map<Uuid, Driver>)
      reads this
      ensures r.Keys == drivers.Keys && forall k :: k in r ==> r[k] == drivers[k]
    {
      drivers
    }

    // ---- administrators ----

    /** `addAdmin`: false and no change for a known id; otherwise stores the
        administrator and appends its line. */
    method AddAdmin(adminId: Uuid, username: string, name: string, email: string, io: bool) returns (ok: bool)
      requires Valid()
      modifies this`admins, this`adminsFile
      ensures Valid()
      ensures adminId in old(admins) ==> !ok && admins == old(admins) && adminsFile == old(adminsFile)
      ensures adminId !in old(admins) ==>
        && ok == io
        && admins == old(admins)[adminId := Account(adminId, name, username, email)]
        && adminsFile == Appended(old(adminsFile), adminId + ", " + username + ", " + name + ", " + email, io)
    {
      if adminId in admins {
        return false;
      }
      admins := admins[adminId := Account(adminId, name, username, email)];
      adminsFile := Appended(adminsFile, adminId + ", " + username + ", " + name + ", " + email, io);
      return io;
    }

    /** `removeAdmin`: false and no change for an unknown id; otherwise drops
        the administrator and its file lines. */
    method RemoveAdmin(adminId: Uuid, io: bool) returns (ok: bool)
      requires Valid()
      modifies this`admins, this`adminsFile
      ensures Valid()
      ensures adminId !in old(admins) ==> !ok && admins == old(admins) && adminsFile == old(adminsFile)
      ensures adminId in old(admins) ==>
        && ok == io
        && admins == old(admins) - {adminId}
        && adminsFile == Rewritten(old(adminsFile), Remover(adminId), io)
    {
      if adminId !in admins {
        return false;
      }
      admins := admins - {adminId};
      adminsFile := Rewritten(adminsFile, Remover(adminId), io);
      return io;
    }

    function GetAdmin(adminId: Uuid): (r: Option<Account>)
      reads this
      ensures r.Some? <==> adminId in admins
      ensures r.Some? ==> r.value == admins[adminId]
    {
      if adminId in admins then Some(admins[adminId]) else None
    }

    /** `getAllAdmins`: a copy of the map. */
    function GetAllAdmins(): (r: map<Uuid, Account>)
      reads this
      ensures r.Keys == admins.Keys && forall k :: k in r ==> r[k] == admins[k]
    {
      admins
    }

    // ---- orders ----

    /** `appendOrder`: stores the order under its id, replacing any order
        with that id, and appends its line. */
    method AppendOrder(orderId: Uuid, customerId: Uuid, restaurantId: Uuid, itemIds: seq<Uuid>, status: string,
                       driverId: Option<Uuid>, createdAt: string, totalPrice: Decimal, io: bool) returns (ok: bool)
      requires Valid()
      modifies this`orders, this`ordersFile
      ensures Valid()
      ensures ok == io
      ensures orders == old(orders)[orderId :=
        OrderData(orderId, customerId, restaurantId, itemIds, status, driverId, createdAt, totalPrice)]
      ensures ordersFile == Appended(old(ordersFile),
        FormatOrderLine(orderId, customerId, restaurantId, itemIds, status, driverId, createdAt, totalPrice), io)
    {
      var order := OrderData(orderId, customerId, restaurantId, itemIds, status, driverId, createdAt, totalPrice);
      orders := orders[orderId := order];
      var line := FormatOrderLine(orderId, customerId, restaurantId, itemIds, status, driverId, createdAt, totalPrice);
      ordersFile := Appended(ordersFile, line, io);
      return io;
    }

    /** `updateOrder`: false for an unknown id; otherwise sets exactly the
        status and the driver id, keeping the other fields, and rewrites the
        order's file lines. */
    method UpdateOrder(orderId: Uuid, newStatus: string, driverId: Option<Uuid>, io: bool) returns (ok: bool)
      requires Valid()
      modifies this`orders, this`ordersFile
      ensures Valid()
      ensures orderId !in old(orders) ==> !ok && orders == old(orders) && ordersFile == old(ordersFile)
      ensures orderId in old(orders) ==>
        var updated := old(orders)[orderId].(status := newStatus, driverId := driverId);
        && ok == io
        && orders == old(orders)[orderId := updated]
        && ordersFile == Rewritten(old(ordersFile), Updater(orderId, OrderLine(updated)), io)
    {
      if orderId !in orders {
        return false;
      }
      var order := orders[orderId].(status := newStatus, driverId := driverId);
      orders := orders[orderId := order];
      ordersFile := Rewritten(ordersFile, Updater(orderId, OrderLine(order)), io);
      return io;
    }

    function GetOrder(orderId: Uuid): (r: Option<OrderData>)
      reads this
      ensures r.Some? <==> orderId in orders
      ensures r.Some? ==> r.value == orders[orderId]
    {
      if orderId in orders then Some(orders[orderId]) else None
    }

    /** `getAllOrders`: a copy of the map. */
    function GetAllOrders(): (r: map<Uuid, OrderData>)
      reads this
      ensures r.Keys == orders.Keys && forall k :: k in r ==> r[k] == orders[k]
    {
      orders
    }
  }
}
