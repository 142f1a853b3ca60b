/** The order store: every order by id, and a FIFO intake queue of the ids of
    orders waiting for a driver (OrderManager.java). */
module Orders {
  import opened Common

  datatype Status = Placed | Accepted | InProgress | Delivered

  /** `OrderManager.Order`. Its two setters, `setStatus` and
      `setAssignedDriverId`, are the datatype updates `o.(status := s)` and
      `o.(assignedDriverId := d)`; `createdAt` is the formatted creation time. */
  datatype Order = Order(
    id: Uuid,
    customerId: Uuid,
    items: seq<string>,
    status: Status,
    assignedDriverId: Option<Uuid>,
    createdAt: string)

  /** The lifecycle invariant: a driver is assigned exactly when the order
      has left PLACED. The store does not enforce it; the simulator keeps it. */
  predicate DriverMatchesStatus(o: Order) {
    o.assignedDriverId.Some? <==> o.status != Placed
  }

  class OrderManager {
    var byId: map<Uuid, Order>
    var intake: seq<Uuid>

    /** Every order is stored under its own id and every queued id is stored. */
    ghost predicate Valid()
      reads this
    {
      && (forall k :: k in byId ==> byId[k].id == k)
      && (forall i :: 0 <= i < |intake| ==> intake[i] in byId)
    }

    constructor ()
      ensures Valid()
      ensures byId == map[] && intake == []
    {
      byId := map[];
      intake := [];
    }

    /** `place`: `freshId` is the value `UUID.randomUUID()` returns and `now`
        the formatted clock reading. A colliding id replaces the stored order,
        as `HashMap.put` does. */
    method Place(customerId: Option<Uuid>, items: Option<seq<string>>, freshId: Uuid, now: string)
      returns (r: Result<Order>)
      requires Valid()
      modifies this
      ensures Valid()
      ensures customerId.None? ==>
        r == Err(IllegalArgument("Customer ID can't be null"))
        && byId == old(byId) && intake == old(intake)
      ensures customerId.Some? && (items.None? || items.value == []) ==>
        r == Err(IllegalArgument("Items list can't be null or empty"))
        && byId == old(byId) && intake == old(intake)
      ensures customerId.Some? && items.Some? && items.value != [] ==>
        && r.Ok?
        && r.value.id == freshId
        && r.value.customerId == customerId.value
        && r.value.items == items.value
        && r.value.status == Placed
        && r.value.assignedDriverId == None
        && r.value.createdAt == now
        && byId == old(byId)[freshId := r.value]
        && intake == old(intake) + [freshId]
      ensures r.Ok? ==> DriverMatchesStatus(r.value)
      ensures old(byId).Keys <= byId.Keys
    {
      if customerId.None? {
        return Err(IllegalArgument("Customer ID can't be null"));
      }
      if items.None? || items.value == [] {
        return Err(IllegalArgument("Items list can't be null or empty"));
      }
      var order := Order(freshId, customerId.value, items.value, Placed, None, now);
      byId := byId[order.id := order];
      intake := intake + [order.id];
      r := Ok(order);
    }

    /** `acceptNext`: polls the head of the intake queue and hands that order
        to `driverId`, whatever the driver's own state is. */
    method AcceptNext(driverId: Option<Uuid>) returns (r: Result<Option<Order>>)
      requires Valid()
      modifies this
      ensures Valid()
      ensures driverId.None? ==>
        r == Err(IllegalArgument("Driver ID can't be null"))
        && byId == old(byId) && intake == old(intake)
      ensures driverId.Some? && old(intake) == [] ==>
        r == Ok(None) && byId == old(byId) && intake == old(intake)
      ensures driverId.Some? && old(intake) != [] ==>
        var head := old(intake)[0];
        var accepted := old(byId)[head].(assignedDriverId := driverId, status := Accepted);
        && r == Ok(Some(accepted))
        && accepted.id == head
        && intake == old(intake)[1..]
        && byId == old(byId)[head := accepted]
      ensures old(byId).Keys == byId.Keys
    {
      if driverId.None? {
        return Err(IllegalArgument("Driver ID can't be null"));
      }
      if intake == [] {
        return Ok(None);
      }
      var nextOrderId := intake[0];
      intake := intake[1..];
      var order := byId[nextOrderId];
      order := order.(assignedDriverId := driverId);
      order := order.(status := Accepted);
      byId := byId[nextOrderId := order];
      r := Ok(Some(order));
    }

    /** `markStatus`: overwrites the status of a known order with any status
        at all; no transition is checked. */
    method MarkStatus(orderId: Option<Uuid>, newStatus: Option<Status>) returns (r: Outcome)
      requires Valid()
      modifies this
      ensures Valid()
      ensures intake == old(intake)
      ensures orderId.None? ==>
        r == Failed(IllegalArgument("Order ID can't be null")) && byId == old(byId)
      ensures orderId.Some? && newStatus.None? ==>
        r == Failed(IllegalArgument("Status can't be null")) && byId == old(byId)
      ensures orderId.Some? && newStatus.Some? ==>
        && r == Done
        && byId == if orderId.value in old(byId)
                   then old(byId)[orderId.value := old(byId)[orderId.value].(status := newStatus.value)]
                   else old(byId)
    {
      if orderId.None? {
        return Failed(IllegalArgument("Order ID can't be null"));
      }
      if newStatus.None? {
        return Failed(IllegalArgument("Status can't be null"));
      }
      if orderId.value in byId {
        var order := byId[orderId.value];
        byId := byId[orderId.value := order.(status := newStatus.value)];
      }
      r := Done;
    }

    /** `get`: the stored order, `None` for an unknown id. */
    function Get(orderId: Option<Uuid>): (r: Result<Option<Order>>)
      requires Valid()
      reads this
      ensures orderId.None? <==> r == Err(IllegalArgument("Order ID can't be null"))
      ensures orderId.Some? ==> r.Ok? && (r.value.Some? <==> orderId.value in byId)
      ensures r.Ok? && r.value.Some? ==>
        r.value.value == byId[orderId.value] && r.value.value.id == orderId.value
    {
      if orderId.None? then Err(IllegalArgument("Order ID can't be null"))
      else if orderId.value in byId then Ok(Some(byId[orderId.value]))
      else Ok(None)
    }

    /** `getAllOrders`: the store itself, so every stored order keyed by its
        own id, the queued ones included. */
    function GetAllOrders(): (r: map<Uuid, Order>)
      requires Valid()
      reads this
      ensures r == byId
      ensures forall k :: k in r ==> r[k].id == k
      ensures forall i :: 0 <= i < |intake| ==> intake[i] in r
    {
      byId
    }
  }
}
