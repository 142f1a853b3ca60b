/** The session and the role-gated operations every user interface builds
    on (AppController.java). Parsing the id text into a UUID is left to the
    caller: the login methods take the parsed id, `None` when the text is
    not a UUID. */
module AppControllers {
  import opened Common
  import opened JavaText
  import opened TextFiles
  import opened FileManagers
  import opened Restaurants
  import opened RestaurantManagers
  import opened DriverPools
  import Drivers

  datatype UserRole = CustomerRole | DriverRole | AdministratorRole | NoRole

  class AppController {
    const fileManager: FileManager
    const restaurantManager: RestaurantManager
    const driverPool: DriverPool
    var currentUserID: Option<Uuid>
    var currentUserRole: UserRole

    /** Someone is logged in exactly when they have a role. */
    predicate SessionConsistent()
      reads this
    {
      currentUserID.Some? <==> currentUserRole != NoRole
    }

    /** The managers over the files on disk (the restaurant manager reads
        its own restaurants file); nobody is logged in. */
    constructor (disk: map<DataFile, seq<string>>, formatDouble: real -> string, restaurantsFile: Option<seq<string>>)
      ensures fresh(fileManager) && fresh(restaurantManager) && fresh(driverPool)
      ensures fileManager.Valid() && fileManager.drivers == map[] && fileManager.formatDouble == formatDouble
      ensures driverPool.drivers == multiset{}
      ensures currentUserID == None && currentUserRole == NoRole
      ensures SessionConsistent()
    {
      fileManager := new FileManager(disk, formatDouble);
      restaurantManager := new RestaurantManager(restaurantsFile);
      driverPool := new DriverPool();
      currentUserID := None;
      currentUserRole := NoRole;
    }

    /** `loginCustomer`: logs in a registered customer and returns it;
        otherwise returns nothing and leaves the session as it was. */
    method LoginCustomer(customerId: Option<Uuid>) returns (customer: Option<Account>)
      requires SessionConsistent()
      modifies this`currentUserID, this`currentUserRole
      ensures SessionConsistent()
      ensures customer.Some? <==> customerId.Some? && customerId.value in fileManager.customers
      ensures customer.Some? ==>
        && customer.value == fileManager.customers[customerId.value]
        && currentUserID == customerId && currentUserRole == CustomerRole
      ensures customer.None? ==> currentUserID == old(currentUserID) && currentUserRole == old(currentUserRole)
    {
      if customerId.None? {
        return None;
      }
      customer := fileManager.GetCustomer(customerId.value);
      if customer.Some? {
        currentUserID := customerId;
        currentUserRole := CustomerRole;
      }
    }

    /** `loginDriver`: logs in a registered driver and returns it; otherwise
        returns nothing and leaves the session as it was. */
    method LoginDriver(driverId: Option<Uuid>) returns (driver: Option<Drivers.Driver>)
      requires SessionConsistent()
      modifies this`currentUserID, this`currentUserRole
      ensures SessionConsistent()
      ensures driver.Some? <==> driverId.Some? && driverId.value in fileManager.drivers
      ensures driver.Some? ==>
        && driver.value == fileManager.drivers[driverId.value]
        && currentUserID == driverId && currentUserRole == DriverRole
      ensures driver.None? ==> currentUserID == old(currentUserID) && currentUserRole == old(currentUserRole)
    {
      if driverId.None? {
        return None;
      }
      driver := fileManager.GetDriver(driverId.value);
      if driver.Some? {
        currentUserID := driverId;
        currentUserRole := DriverRole;
      }
    }

    /** `loginAdministrator`: logs in a registered administrator and returns
        it; otherwise returns nothing and leaves the session as it was. */
    method LoginAdministrator(adminId: Option<Uuid>) returns (admin: Option<Account>)
      requires SessionConsistent()
      modifies this`currentUserID, this`currentUserRole
      ensures SessionConsistent()
      ensures admin.Some? <==> adminId.Some? && adminId.value in fileManager.admins
      ensures admin.Some? ==>
        && admin.value == fileManager.admins[adminId.value]
        && currentUserID == adminId && currentUserRole == AdministratorRole
      ensures admin.None? ==> currentUserID == old(currentUserID) && currentUserRole == old(currentUserRole)
    {
      if adminId.None? {
        return None;
      }
      admin := fileManager.GetAdmin(adminId.value);
      if admin.Some? {
        currentUserID := adminId;
        currentUserRole := AdministratorRole;
      }
    }

    /** `logout`: back to the state of a new controller. */
    method Logout()
      modifies this`currentUserID, this`currentUserRole
      ensures currentUserID == None && currentUserRole == NoRole
      ensures SessionConsistent()
    {
      currentUserID := None;
      currentUserRole := NoRole;
    }

    /** `isLoggedIn`: in a consistent session, someone is logged in exactly
        when there is a role. */
    function IsLoggedIn(): (b: bool)
      reads this
      ensures SessionConsistent() ==> (b <==> currentUserRole != NoRole)
      ensures !b ==> currentUserID == None
    {
      currentUserID.Some?
    }

    /** `addRestaurant`: refused unless an administrator is logged in;
        otherwise the restaurant manager adds the restaurant. */
    method AddRestaurant(name: Option<string>, category: Option<string>, freshId: Uuid, saved: bool)
      returns (ok: bool)
      modifies restaurantManager
      ensures currentUserRole != AdministratorRole ==>
        !ok && restaurantManager.restaurants == old(restaurantManager.restaurants)
        && restaurantManager.file == old(restaurantManager.file)
      ensures currentUserRole == AdministratorRole ==>
        var accepted := name.Some? && Trim(name.value) != "" && category.Some? && Trim(category.value) != "";
        var before := old(restaurantManager.restaurants);
        && (!accepted ==>
              && !ok && restaurantManager.restaurants == before
              && restaurantManager.file == old(restaurantManager.file))
        && (accepted ==>
              && ok == saved
              && restaurantManager.file == (if saved then SavedLines(Records(restaurantManager.restaurants))
                                             else old(restaurantManager.file))
              && |restaurantManager.restaurants| == |before| + 1
              && restaurantManager.restaurants[..|before|] == before
              && restaurantManager.restaurants[|before|].Record()
                 == RestaurantRecord(freshId, Trim(name.value), Trim(category.value)))
    {
      if currentUserRole != AdministratorRole {
        return false;
      }
      ok := restaurantManager.AddRestaurant(name, category, freshId, saved);
    }

    /** `removeRestaurant`: refused unless an administrator is logged in;
        otherwise the restaurant manager removes the restaurant. */
    method RemoveRestaurant(restaurantId: Uuid, saved: bool) returns (ok: bool)
      modifies restaurantManager
      ensures currentUserRole != AdministratorRole ==>
        !ok && restaurantManager.restaurants == old(restaurantManager.restaurants)
        && restaurantManager.file == old(restaurantManager.file)
      ensures currentUserRole == AdministratorRole ==>
        var before := old(restaurantManager.restaurants);
        var i := IndexOfId(before, restaurantId);
        if i < |before| then
          && ok == saved && restaurantManager.restaurants == before[..i] + before[i + 1..]
          && restaurantManager.file == (if saved then SavedLines(Records(restaurantManager.restaurants))
                                         else old(restaurantManager.file))
        else !ok && restaurantManager.restaurants == before && restaurantManager.file == old(restaurantManager.file)
    {
      if currentUserRole != AdministratorRole {
        return false;
      }
      ok := restaurantManager.RemoveRestaurant(restaurantId, saved);
    }

    /** The registered driver who is logged in, if a driver is. */
    function CurrentDriver(): (r: Option<Drivers.Driver>)
      reads this, fileManager
      ensures r.Some? <==>
        currentUserRole == DriverRole && currentUserID.Some? && currentUserID.value in fileManager.drivers
      ensures r.Some? ==> r.value == fileManager.drivers[currentUserID.value]
    {
      if currentUserRole != DriverRole || currentUserID.None? then None
      else fileManager.GetDriver(currentUserID.value)
    }

    /** `updateDriverAvailability`: refused unless a registered driver is
        logged in; otherwise that driver's availability is set and its
        average written back unchanged. */
    method UpdateDriverAvailability(available: bool, io: bool) returns (ok: bool)
      requires fileManager.Valid()
      modifies fileManager`driversFile, if CurrentDriver().Some? then {CurrentDriver().value} else {}
      ensures fileManager.Valid()
      ensures CurrentDriver().None? ==> !ok && fileManager.driversFile == old(fileManager.driversFile)
      ensures CurrentDriver().Some? ==>
        var d := CurrentDriver().value;
        && ok == io
        && d.available == available && d.avgRating == old(d.avgRating)
        && d.currentOrder == old(d.currentOrder) && d.rateCounter == old(d.rateCounter)
        && fileManager.driversFile == Rewritten(old(fileManager.driversFile),
             Updater(d.id, fileManager.DriverLine(d, available, old(d.avgRating))), io)
    {
      var driver := CurrentDriver();
      if driver.None? {
        return false;
      }
      ok := fileManager.UpdateDriver(currentUserID.value, available, driver.value.avgRating, io);
    }

    /** `getCurrentDriverRating`: the logged-in driver's average, or -1 when
        no registered driver is logged in. */
    function GetCurrentDriverRating(): (r: real)
      reads this, fileManager, fileManager.drivers.Values
      ensures CurrentDriver().None? ==> r == -1.0
      ensures CurrentDriver().Some? ==> r == CurrentDriver().value.avgRating
    {
      var driver := CurrentDriver();
      if driver.Some? then driver.value.avgRating else -1.0
    }
  }
}
