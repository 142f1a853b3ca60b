# PasoEats dispatch core, modelled in Dafny

PasoEats is a food-delivery system. This project models the engine that
dispatches orders to drivers, and the bookkeeping around it:

- **`OrderManager`** keeps every order by id and a FIFO intake queue of the
  orders that wait for a driver.
  - `place` queues a new PLACED order.
  - `acceptNext` hands the head of the queue to a driver.
  - `markStatus` overwrites a status without checking the transition.
- **`Driver`** keeps a 10-slot circular buffer of its latest ratings. Its
  average covers the written slots only, so after ten ratings it covers the
  most recent ten alone.
- **`DriverPool`** is the priority queue of drivers, best average first.
- **`OrderSimulator`** makes the three moves of a simulation tick:
  - create an order and give the head of the queue to the best pooled
    driver;
  - assign the head of the queue to a random available driver;
  - advance a random active driver's order, rating the driver on delivery.
- **`FileManager`** keeps the in-memory stores (restaurants, menu items,
  customers, drivers, administrators, orders) and their text files. A
  file is a sequence of lines; appends and line rewrites are written out
  explicitly.
- **`Restaurant`** and **`RestaurantManager`**: the one-line restaurant
  format and the restaurant list.
- **`AppController`**: the login session and the operations gated by role.
- **`Menu`** and **`User`**: a name-keyed item store and a user's order list.

Random draws (`rand.nextInt(n)`) are `nat` parameters reduced modulo `n`.
Whether a file write succeeds is an `io: bool` parameter. Fresh ids and
clock readings are parameters too.

The model keeps the behaviours the code really has:

- Auto-assignment after `createOrder` gives the popped driver the head of
  the intake queue. That can be an older order than the one just placed.
- `assignDriver` never takes the chosen driver out of the pool. A later
  `createOrder` can therefore pop a driver that is already busy and
  overwrite its current order.
- `markStatus` accepts any status.
- The pool accepts duplicates.

A driver's average is the exact rational sum/count of its written slots.
`Drivers.RolloverAverage` proves that this is the mean of the last ten
ratings.

Each Java class is one Dafny module:

| module | file | Java class |
|---|---|---|
| `Orders` | order_manager.dfy | `OrderManager` |
| `Drivers` | driver.dfy | `Driver` |
| `DriverPools` | driver_pool.dfy | `DriverPool` |
| `OrderSimulators` | order_simulator.dfy | `OrderSimulator` |
| `FileManagers` | file_manager.dfy | `FileManager` |
| `TextFiles` | text_files.dfy | `FileManager`'s line helpers |
| `OrderLines` | order_lines.dfy | `FileManager.loadOrders` |
| `Restaurants` | restaurant.dfy | `Restaurant` |
| `RestaurantManagers` | restaurant_manager.dfy | `RestaurantManager` |
| `AppControllers` | app_controller.dfy | `AppController` |
| `Menus` | menu.dfy | `Menu` |
| `MenuItems` | menu_item.dfy | `MenuItem` |
| `Users` | user.dfy | `User` |

Two modules are shared by the others:

- `Common` holds `Option`, `Result` and the exceptions.
- `JavaText` holds `String.trim`, `split` and `String.join`.

Java `null` is `Option`. A thrown `IllegalArgumentException` is an `Err`
or `Failed` value that carries the source's message.

Some call sites and their callees disagree in the source. Where they do,
the model follows the callee:

- `place` takes a customer and items (OrderManager.java:62), not the three
  arguments at OrderSimulator.java:103.
- `DriverPool` has only its no-argument constructor.
- `Restaurant` takes its id as text.
- The order manager the simulator uses is a parameter of its
  constructor, since `AppController` has no `getOrderManager`.
- Restaurant menus come from `FileManager.getMenuItemsForRestaurant`.

## Model

| member | source | states |
|---|---|---|
| Orders.OrderManager.constructor | OrderManager.java:57-58 | the order map and the intake queue start empty |
| Orders.OrderManager.Place | OrderManager.java:62-73 | a missing customer, or missing or empty items, gives the matching IllegalArgument and changes nothing; otherwise the new order is PLACED with no driver, stored under the fresh id, and that id joins the tail of the intake queue; no key is lost and every queued id stays stored |
| Orders.OrderManager.AcceptNext | OrderManager.java:75-87 | a missing driver id gives IllegalArgument; an empty queue gives no order and changes nothing; otherwise the head leaves the queue (FIFO) and only that order changes, to ACCEPTED with the given driver; the key set is unchanged |
| Orders.OrderManager.MarkStatus | OrderManager.java:89-100 | missing arguments give IllegalArgument; an unknown id changes nothing; a known order gets any status at all and nothing else changes; the queue never changes |
| Orders.OrderManager.Get | OrderManager.java:102-107 | a missing id gives IllegalArgument; otherwise the stored order under that id, or none exactly when the id is unknown |
| Orders.OrderManager.GetAllOrders | OrderManager.java:109-111 | the store itself: every stored order, keyed by its own id, queued ones included |
| Drivers.Driver.constructor | Driver.java:12-21 | all ten slots empty, write index 0, average 0, unavailable, no current order |
| Drivers.Driver.SetAvailable | Driver.java:26-28 | sets availability and nothing else |
| Drivers.Driver.SetAvgRating | Driver.java:32-34 | sets the average and leaves the buffer alone |
| Drivers.Driver.SetCurrentOrder | Driver.java:38-40 | sets the current order and nothing else |
| Drivers.Driver.UpdateOrderStatus | Driver.java:43-47 | with no current order the call fails and no order changes; otherwise the current order takes the status, as `markStatus` does |
| Drivers.Driver.CalcAvgRating | Driver.java:49-63 | the average becomes the sum of the written slots over their count, 0 when none is written |
| Drivers.Driver.AddRating | Driver.java:65-73 | a value outside 1..5 fails, leaving buffer, index and average as they were; otherwise it is written at the index, the index advances modulo 10, the average is recomputed, and every slot stays empty or a rating |
| Drivers.Driver.CompareTo | Driver.java:75-77 | negative exactly when this driver's average is higher, positive exactly when it is lower |
| Drivers.CompareToAntisymmetric | Driver.java:75-77 | swapping the drivers negates the comparison |
| Drivers.ReplayStep | Driver.java:69-70 | adding a rating to the buffer of a history gives the buffer of the longer history, and the index keeps pace with the history length |
| Drivers.ReplaySlots | Driver.java:65-73 | every slot of a buffer built by ratings is empty or holds a rating in 1..5 |
| Drivers.ReplayMatchesWindow | Driver.java:49-73 | the written slots' sum and count equal the sum and length of the last ten ratings |
| Drivers.RolloverAverage | Driver.java:49-73 | the average is the mean of the most recent ten ratings only; after ten ratings all ten slots are written |
| DriverPools.DriverPool.constructor | DriverPool.java:9-11 | the pool starts empty |
| DriverPools.DriverPool.AddDriver | DriverPool.java:17-22 | an available driver is added once more, duplicates included; an unavailable one changes nothing |
| DriverPools.DriverPool.RemoveDriver | DriverPool.java:28-31 | the driver becomes unavailable and one occurrence, if any, leaves the pool |
| DriverPools.DriverPool.GetNextAvailableDriver | DriverPool.java:37-39 | an empty pool gives no driver; otherwise one occurrence of a driver whose average is at least every pooled driver's is removed and returned |
| DriverPools.BestExists | DriverPool.java:37-39 | a non-empty pool always has a best driver |
| DriverPools.DriverPool.CompleteDelivery | DriverPool.java:46-49 | a rating outside 1..5 fails and leaves the pool, buffer, write index and average as they were; otherwise the rating is written at the write index, the index advances modulo 10, the average is recomputed, and the driver rejoins the pool exactly when still available |
| DriverPools.DriverPool.GetPoolSize | DriverPool.java:55-57 | the number of pooled entries, a driver pooled twice counting twice; zero exactly when the pool is empty |
| DriverPools.DriverPool.IsEmpty | DriverPool.java:63-65 | true exactly when the size is zero |
| OrderSimulators.OrderSimulator.constructor | OrderSimulator.java:11-13 | the simulator works on the controller's file manager, restaurant manager and pool |
| OrderSimulators.OrderSimulator.GetAllDrivers | OrderSimulator.java:139-145 | exactly the registered drivers, one entry per registration |
| OrderSimulators.MapValues | OrderSimulator.java:144 | one value per key: alongside a list of the map's keys, each exactly once, the i-th value is the map's value at the i-th key; so exactly the map's values, with multiplicity |
| OrderSimulators.OrderSimulator.GetAvailableDrivers | OrderSimulator.java:151-160 | exactly the registered drivers that are available and hold no order |
| OrderSimulators.OrderSimulator.GetActiveDrivers | OrderSimulator.java:166-175 | exactly the registered drivers that hold an order |
| OrderSimulators.OrderSimulator.GetDriverStatus | OrderSimulator.java:271-285 | "Picking up" exactly when the driver's order is ACCEPTED, "Delivering" exactly when it is IN_PROGRESS, "Idle" otherwise |
| OrderSimulators.StatusCountsSum | OrderSimulator.java:224-230 | the four status counts add up to the number of orders |
| OrderSimulators.OrderSimulator.CountStatuses | OrderSimulator.java:221-230 | each count is the number of stored orders with that status, and together they count every order |
| OrderSimulators.Shuffle | OrderSimulator.java:95 | the loop of `Collections.shuffle` (for i from the size down to 2, swap i - 1 with `nextInt(i)`) gives `Shuffled` of the menu, a permutation of it |
| OrderSimulators.Shuffled | OrderSimulator.java:95 | the shuffled sequence has the same elements, with the same multiplicities |
| OrderSimulators.ShuffleBelowPermutes | OrderSimulator.java:95 | each round of swaps keeps the multiset of elements |
| OrderSimulators.PickItems | OrderSimulator.java:93-101 | exactly the first `1 + countDraw mod min(3, n)` items of the shuffled menu of n items: 1 to 3 of them, drawn from the menu without repetition |
| OrderSimulators.DrawnMenu | OrderSimulator.java:87-89 | exactly the listed items of the restaurant at the drawn index |
| OrderSimulators.DrawnHasItemsIffMenu | OrderSimulator.java:89-91 | some listed item belongs to the drawn restaurant exactly when its drawn menu is not empty |
| OrderSimulators.ItemIds | OrderSimulator.java:97-99 | the chosen items' ids, in order |
| OrderSimulators.OrderSimulator.PlaceOrder | OrderSimulator.java:80-118 | an order is placed exactly when there are customers and restaurants and the drawn restaurant has items; otherwise nothing changes. The order has the fresh id, PLACED, no driver, the clock reading, a registered customer and the ids of `PickItems`' choice from the drawn restaurant's menu; it is stored and queued, and its record and line, with the drawn restaurant's id, are written to the orders store and file |
| OrderSimulators.OrderSimulator.Draw | OrderSimulator.java:80-91 | found exactly when there are customers and restaurants and the drawn restaurant has items; then a registered customer, the restaurant at `restaurantDraw mod n` and its menu |
| OrderSimulators.OrderSimulator.PlaceAndAppend | OrderSimulator.java:103-118 | the PLACED order with no driver and the items' ids is stored and queued, and its record and line are written |
| OrderSimulators.OrderSimulator.AutoAssign | OrderSimulator.java:120-130 | an empty pool changes nothing; otherwise one occurrence of a best pooled driver is popped; with an empty queue nothing else changes; otherwise the driver takes the queue's head (not necessarily the new order), which becomes ACCEPTED for it, and becomes unavailable with its average and rating index unchanged; the driver registered under its id is written back unavailable with that average and its file line rewritten, keeping its own order and rating index when it is another object; no other registered driver and no other pooled driver changes; busy drivers stay unavailable |
| OrderSimulators.OrderSimulator.Dispatch | OrderSimulator.java:123-128 | an empty queue changes nothing; otherwise the head is ACCEPTED for the driver, who holds it and is unavailable with its average and rating index unchanged; the driver registered under its id is written back with that average, keeping its own order and rating index when it is another object; no other registered driver changes |
| OrderSimulators.OrderSimulator.TakeOrder | OrderSimulator.java:125-127 | the driver holds the order and is unavailable, with its average and rating index unchanged; the driver registered under its id is unavailable with that average and its file line rewritten, and keeps its own order and rating index when it is another object; no other driver changes |
| OrderSimulators.OrderSimulator.CreateOrder | OrderSimulator.java:78-133 | an order is placed exactly when there are customers and restaurants and the drawn restaurant has items, and otherwise nothing changes; the placed order is the one `PlaceOrder` describes, recorded in the orders store; an empty pool leaves it queued; otherwise one occurrence of a best pooled driver is popped and takes the head of the queue with its average and rating index unchanged, and the driver registered under its id is written back unavailable; the orders-file and drivers-file writes succeed or fail independently; the lifecycle invariant is kept |
| OrderSimulators.OrderSimulator.AssignDriver | OrderSimulator.java:177-191 | with no available driver nothing changes; otherwise the chosen driver was available and idle, keeps its average and rating index, and when an order waits it holds the head and becomes unavailable with its file line rewritten; no other driver changes and the pool is untouched |
| OrderSimulators.OrderSimulator.UpdateOrder | OrderSimulator.java:193-217 | with no active driver nothing changes; ACCEPTED becomes IN_PROGRESS; IN_PROGRESS becomes DELIVERED, the rating `1 + ratingDraw mod 5` is written at the write index, the index advances modulo 10, the average is recomputed, the driver is released and available, its file line is rewritten, the pool is refreshed, and no other registered driver changes; any other status changes nothing |
| OrderSimulators.OrderSimulator.AdvanceOrder | OrderSimulator.java:199-216 | the three status cases of one active driver's order, as for `updateOrder`, including the advanced write index and the other drivers left unchanged on delivery |
| OrderSimulators.OrderSimulator.CompleteOrder | OrderSimulator.java:205-213 | the order becomes DELIVERED, the rating is written at the write index, the index advances modulo 10, the average is recomputed, the driver is released and available, its file line is rewritten, and no other driver changes |
| OrderSimulators.RateAndRelease | OrderSimulator.java:207-211 | the rating is written at the write index, the index advances modulo 10, the average is recomputed, the order is cleared and the driver made available |
| OrderSimulators.Settle | OrderSimulator.java:207-212 | as `RateAndRelease`, and the driver's file line is rewritten as available with the new average |
| OrderSimulators.AcceptKeepsMatch | OrderManager.java:79-86 | a fact about the invariant: accepting an order keeps "a driver is assigned exactly when the order left PLACED" |
| OrderSimulators.AdvanceKeepsMatch | OrderManager.java:96-99 | a fact about the invariant: moving an order between statuses other than PLACED keeps it |
| FileManagers.FileManager.constructor | FileManager.java:65-97 | every store starts empty; each file is the one on disk, or just its header when missing |
| FileManagers.FileManager.AddRestaurant | FileManager.java:256-265 | an existing id gives false and changes nothing; otherwise a new restaurant is stored under the id, appended to the list and its line to the file |
| FileManagers.FileManager.RemoveRestaurant | FileManager.java:270-290 | an unknown id gives false and changes nothing; otherwise each listed item's own random id is passed to `removeMenuItem`, each call with its own write outcome (those ids are normally not map keys, so the items stay); then the restaurant leaves the map, its first occurrence leaves the list, its file lines are dropped, and the result is the restaurants-file write's outcome |
| FileManagers.DropItemsNoKey | FileManager.java:274-281 | when none of the listed items' own ids is a key of the item map, the `removeMenuItem` calls leave the map, the list and the menu file unchanged |
| FileManagers.RemoveFirst | FileManager.java:286 | the list without one occurrence of the value, unchanged when absent |
| FileManagers.FileManager.RemoveMenuItem | FileManager.java:334-341 | false for an unknown id; otherwise the item leaves the map, its first occurrence leaves the list, and its file lines are dropped |
| FileManagers.FileManager.UpdateRestaurant | FileManager.java:295-303 | false for an unknown id; otherwise the restaurant takes the new name and category and its file lines are replaced |
| FileManagers.FileManager.GetRestaurant | FileManager.java:305-307 | the restaurant stored under the id, none exactly when unknown |
| FileManagers.FileManager.GetAllRestaurants | FileManager.java:309-311 | the restaurant list, in order |
| FileManagers.FileManager.AddMenuItem | FileManager.java:316-329 | an unknown restaurant or an existing item id gives false and changes nothing; otherwise the item is stored under the id, appended to the list, and its line to the file |
| FileManagers.FileManager.UpdateMenuItem | FileManager.java:346-360 | false with no change for an unknown item or restaurant; otherwise exactly the four fields change, in the map and in every list entry, and the item's file lines are replaced |
| FileManagers.ReplaceAll | FileManager.java:354-358 | every entry equal to the old item is the updated item; the others stay |
| FileManagers.FileManager.GetMenuItem | FileManager.java:362-364 | the item stored under the id, none exactly when unknown |
| FileManagers.FileManager.GetMenuItemsForRestaurant | FileManager.java:366-370 | exactly the listed items of that restaurant |
| FileManagers.ItemsOfExactly | FileManager.java:366-370 | the filter keeps exactly the items of the restaurant |
| FileManagers.FileManager.GetAllMenuItems | FileManager.java:372-374 | the item list, in order |
| FileManagers.FileManager.AddCustomer | FileManager.java:379-386 | an existing id gives false and changes nothing; otherwise the customer is stored and its line appended |
| FileManagers.FileManager.RemoveCustomer | FileManager.java:388-394 | false for an unknown id; otherwise the customer is removed and its file lines dropped |
| FileManagers.FileManager.GetCustomer | FileManager.java:396-398 | the customer stored under the id, none exactly when unknown |
| FileManagers.FileManager.GetAllCustomers | FileManager.java:400-402 | a copy with the same keys and values |
| FileManagers.NewDriver | FileManager.java:408-410 | a fresh driver with the given fields and availability, average 0, no rating and no order |
| FileManagers.FileManager.AddDriver | FileManager.java:404-413 | an existing id gives false and changes nothing; otherwise a fresh driver is registered and its line, with average 0.0, appended |
| FileManagers.FileManager.RemoveDriver | FileManager.java:415-421 | false for an unknown id; otherwise the driver is removed and its file lines dropped |
| FileManagers.FileManager.UpdateDriver | FileManager.java:423-431 | false for an unknown id; otherwise exactly availability and average change and the driver's file lines are replaced |
| FileManagers.FileManager.DriverLine | FileManager.java:560-561 | the line starts with the driver's id and username, each followed by ", " |
| FileManagers.FileManager.GetDriver | FileManager.java:433-435 | the driver registered under the id, none exactly when unknown |
| FileManagers.FileManager.GetAllDrivers | FileManager.java:437-439 | a copy with the same keys and values |
| FileManagers.FileManager.AddAdmin | FileManager.java:441-448 | an existing id gives false and changes nothing; otherwise the administrator is stored and its line appended |
| FileManagers.FileManager.RemoveAdmin | FileManager.java:450-456 | false for an unknown id; otherwise the administrator is removed and its file lines dropped |
| FileManagers.FileManager.GetAdmin | FileManager.java:458-460 | the administrator stored under the id, none exactly when unknown |
| FileManagers.FileManager.GetAllAdmins | FileManager.java:462-464 | a copy with the same keys and values |
| FileManagers.FileManager.AppendOrder | FileManager.java:466-471 | the order record is stored under its id and its formatted line appended |
| FileManagers.FormatOrderLine | FileManager.java:473-479 | the line starts with the three ids, each followed by ", ", and ends with the total; how it splits is `OrderLines.FormatOrderLineParts` |
| FileManagers.FileManager.UpdateOrder | FileManager.java:481-489 | false for an unknown id; otherwise exactly status and driver change and the order's file lines are replaced |
| FileManagers.FileManager.GetOrder | FileManager.java:491-493 | the record stored under the id, none exactly when unknown |
| FileManagers.FileManager.GetAllOrders | FileManager.java:495-497 | a copy with the same keys and values |
| OrderLines.FormatOrderLineParts | FileManager.java:473-479 | splitting a written order line on "," gives the three ids, each item id, then status, driver ("null" for none), creation time and total |
| OrderLines.MultiItemOrderLost | FileManager.java:231-251 | an order of two or more items never reads back as written; the parser keeps at most one item id |
| OrderLines.SingleItemOrderKept | FileManager.java:231-251 | a one-item order with clean fields does read back as written |
| OrderLines.OrderLineRoundTrip | FileManager.java:231-251 | the corrected parser reads back every order written with clean fields |
| OrderLines.LoadOrderLine | FileManager.java:234-246 | the parser as written: an order only from a line of at least eight parts, and then with exactly one item id |
| OrderLines.LoadOrderLineFixed | FileManager.java:234-246 | the corrected parser: an order only from a line of at least eight parts, with one item id per part between the first three and the last four |
| OrderLines.Assemble | FileManager.java:235-244 | an assembled order carries the parsed item ids and the trimmed status and creation time |
| OrderLines.ParseIds | FileManager.java:238-240 | the ids parse exactly when every trimmed text does, one id per text, in order |
| TextFiles.LoadFromFile | FileManager.java:112-128 | the parser is handed exactly the trimmed non-blank, non-comment lines, in file order |
| TextFiles.ParserInputClean | FileManager.java:115-120 | every line handed on is trimmed, non-empty and not led by '#' |
| TextFiles.ProcessFileLines | FileManager.java:509-523 | comment and blank lines are kept verbatim; other lines are replaced by the processor's result or dropped when it gives none, in order |
| TextFiles.ProcessedFilters | FileManager.java:509-523 | with a keep-or-drop processor the result is the kept lines, in order |
| TextFiles.ProcessedReplaces | FileManager.java:509-523 | with a processor that always answers, every line stays in place, data lines replaced |
| TextFiles.RemoveFromFileFilters | FileManager.java:532-540 | exactly the data lines whose trimmed text starts with id+"," or id+" " are dropped; all others stay, in order |
| TextFiles.UpdateInFileReplaces | FileManager.java:542-557 | exactly the matching data lines are replaced by the new line; all others stay in place |
| Restaurants.Restaurant.constructor | Restaurant.java:9-15 | the restaurant holds the given id, name and category |
| Restaurants.Restaurant.SetName | Restaurant.java:29-31 | sets the name only |
| Restaurants.Restaurant.SetCategory | Restaurant.java:33-35 | sets the category only |
| Restaurants.Restaurant.ToFileFormat | Restaurant.java:38-40 | the line parses back to the same restaurant when the fields are clean |
| Restaurants.ParseFileLineAccepts | Restaurant.java:43-51 | a line yields a restaurant exactly when present, not blank, not led by '#', and split into three parts |
| Restaurants.ParseFileLine | Restaurant.java:43-58 | a parsed record's three fields are trimmed |
| Restaurants.ParsedFieldsClean | Restaurant.java:48-57 | the parsed fields are free of commas |
| Restaurants.SplitFileLine | Restaurant.java:38-48 | the written line splits into the id and the blank-led name and category |
| Restaurants.FileLineRoundTrip | Restaurant.java:38-57 | parsing the written line of clean fields gives the same id, name and category |
| Restaurants.Details | Restaurant.java:60-62 | "id - name (category)": led by the id and " - ", closed by ')', six characters longer than the fields |
| Restaurants.DetailsPlacesFields | Restaurant.java:60-62 | the id, " - ", the name, " (" and the category each at its own position |
| Restaurants.Restaurant.DetailsToString | Restaurant.java:60-62 | the details of the restaurant's own id, name and category |
| Restaurants.Restaurant.CreateFromFileLine | Restaurant.java:43-58 | a new restaurant exactly when the line parses, holding the parsed id, name and category |
| RestaurantManagers.RestaurantManager.constructor | RestaurantManager.java:10-32 | the list holds the records of the file's lines that parse, in file order, or is empty when there is no file; the file's lines are kept |
| RestaurantManagers.RestaurantManager.SaveRestaurantsToFile | RestaurantManager.java:37-48 | a successful save makes the file the header followed by each restaurant's line in list order, which `LoadAfterSave` reads back; a failed one leaves the file |
| RestaurantManagers.LoadAfterSave | RestaurantManager.java:18-48 | loading a saved file gives back the saved restaurants, the header skipped |
| RestaurantManagers.RestaurantManager.GetRestaurants | RestaurantManager.java:57-59 | a copy equal to the list |
| RestaurantManagers.RestaurantManager.AddRestaurant | RestaurantManager.java:61-71 | a missing or blank name or category gives false and changes nothing; otherwise one new restaurant with trimmed fields is appended, and stays even when saving fails; the file is the saved list, or unchanged when saving fails |
| RestaurantManagers.RestaurantManager.RemoveRestaurant | RestaurantManager.java:73-87 | the first restaurant with the id is removed and the file is the saved list, or unchanged when saving fails; none gives false and no change |
| RestaurantManagers.RestaurantManager.FindRestaurantById | RestaurantManager.java:90-97 | the first restaurant with the id, none exactly when no restaurant has it |
| RestaurantManagers.RestaurantManager.GetAllRestaurantsString | RestaurantManager.java:107-118 | "No restaurants available." for none, else the title and one details line per restaurant, in order |
| RestaurantManagers.ListingEmptyIff | RestaurantManager.java:107-118 | the listing is the "no restaurants" message exactly when the list is empty |
| AppControllers.AppController.constructor | AppController.java:33-41 | fresh managers and an empty pool; nobody is logged in |
| AppControllers.AppController.LoginCustomer | AppController.java:50-67 | a customer is returned exactly when the id is a registered one, and then the session holds that id with the customer role; otherwise the session is unchanged |
| AppControllers.AppController.LoginDriver | AppController.java:69-86 | the same for drivers and the driver role |
| AppControllers.AppController.LoginAdministrator | AppController.java:88-100 | the same for administrators and the administrator role |
| AppControllers.AppController.Logout | AppController.java:105-108 | no id and no role |
| AppControllers.AppController.IsLoggedIn | AppController.java:114-116 | true exactly when a user id is held, that is when a role is held |
| AppControllers.AppController.AddRestaurant | AppController.java:164-169 | false with no change unless an administrator is logged in; otherwise the restaurant manager's `addRestaurant` |
| AppControllers.AppController.RemoveRestaurant | AppController.java:176-181 | false with no change unless an administrator is logged in; otherwise the restaurant manager's `removeRestaurant` |
| AppControllers.AppController.CurrentDriver | AppController.java:191-195 | the logged-in driver's registration, none unless a registered driver is logged in |
| AppControllers.AppController.UpdateDriverAvailability | AppController.java:190-199 | false with no change unless a registered driver is logged in; otherwise that driver's availability is set with its average passed through unchanged, and its order and rating index are kept |
| AppControllers.AppController.GetCurrentDriverRating | AppController.java:205-211 | -1 unless a registered driver is logged in, else that driver's average |
| Menus.Menu.constructor | Menu.java:6 | the menu starts empty |
| Menus.Menu.Add | Menu.java:8-10 | the item is stored under its name, replacing any other of that name |
| Menus.Menu.Remove | Menu.java:12-14 | true exactly when an item of that name existed; afterwards none does and the rest stay |
| Menus.Menu.Get | Menu.java:16-18 | the item of that name, none exactly when there is none |
| Menus.Menu.All | Menu.java:20-22 | exactly the stored items |
| Menus.Menu.Save | Menu.java:24-26 | the menu is left as it is |
| Users.User.Blank | User.java:13-15 | every field unset and no orders |
| Users.User.constructor | User.java:16-24 | the given fields and no orders |
| Users.User.SetId | User.java:29-31 | sets the id only |
| Users.User.SetName | User.java:35-37 | sets the name only |
| Users.User.SetUsername | User.java:41-43 | sets the username only |
| Users.User.SetEmail | User.java:47-49 | sets the email only |
| Users.User.GetOrders | User.java:54-56 | a copy equal to the order list |
| Users.User.SetOrders | User.java:62-64 | the list becomes the given list |
| Users.User.AddOrder | User.java:65-67 | the id is appended; earlier entries stay |

## Left out

- Loading the files at start-up: `FileManager`'s six loaders, and `UUID.fromString` and `Double.parseDouble`. Only the line filter of `loadFromFile` and the order parser are modelled.
- FileManagers.FileManager.constructor: starts with empty stores instead of the loaded ones, because the six loaders are not modelled; it does create each missing file with its header.
- File I/O itself: a file is a sequence of lines, and a failed write is an `io` flag that leaves the lines as they were. Each write has its own flag: `RemoveRestaurant` takes one per `removeMenuItem` call and one for the restaurants file, and `CreateOrder` one for the orders file and one for the drivers file.
- The simulator's thread, `start`/`stop`/`loop`, `initData` and the ANSI rendering of `displayStatus`.
- `updatePoolDrivers` and `fm.reset` are not part of this model. After a delivery, the refreshed pool is a parameter.
- `Restaurant.loadMenuItemsFromFile`, `RestaurantManager.modifyRestaurantMenuItem`, `CLI`, `UserManager`, `Customer`, `Administrator`, `Order` and `Orders` are not part of this model.
- Prices and totals are opaque decimal text, and `formatDouble` is a parameter of the file manager. Floating-point arithmetic is not modelled.
- `MenuItem` objects are values. An update writes the new value to the map and to every equal list entry, where Java mutates the one shared object.
- The pool is a multiset. The priority queue's heap order, and what it does when a pooled driver's average changes, are not modelled. `getNextAvailableDriver` returns some best driver.
- A login given `null` text throws `NullPointerException` in Java. The model takes the parsed id, `None` for any text that is not a UUID.
- `java.util.UUID` values are their canonical text.
- OrderSimulators.OrderSimulator.CreateOrder: does not restate the appended orders-file line, that no other registered or pooled driver changes, that a distinct driver registered under the dispatched driver's id keeps its order and rating index, or the busy-driver invariant, to keep its proof small. `PlaceOrder` and `AutoAssign`, which it runs in turn, state all four.
- `AppControllers.AppController.constructor` states the fresh managers and the empty session, but not the restaurant records it loaded. `RestaurantManagers.RestaurantManager.constructor` states those.

## Findings

| source | as written | input that shows it | evidently intended | confidence | as-written member | corrected member |
|---|---|---|---|---|---|---|
| FileManager.java:234-246 | `loadOrders` splits the whole line on ",". It reads the item ids from `parts[3]` alone and status, driver, time and total from `parts[4..7]`. But `formatOrderLine` (FileManager.java:473-479) also joins the item ids with ",". | any order with two items: the second item id is read as the status and "PLACED" as the driver id, which does not parse, so the line is skipped | the item ids are every part between the first three and the last four, so every written order reads back | not executed | OrderLines.MultiItemOrderLost | OrderLines.OrderLineRoundTrip |
