/** The user record shared by customers, drivers and administrators
    (User.java). Fields the no-argument constructor leaves `null` are `Option`s. */
module Users {
  import opened Common

  class User {
    var id: Option<Uuid>
    var name: Option<string>
    var username: Option<string>
    var email: Option<string>
    var orders: seq<Uuid>

    /** `User()`: every field unset and no orders. */
    constructor Blank()
      ensures id == None && name == None && username == None && email == None
      ensures orders == []
    {
      id, name, username, email := None, None, None, None;
      orders := [];
    }

    constructor (id: Uuid, name: string, username: string, email: string)
      ensures this.id == Some(id) && this.name == Some(name)
      ensures this.username == Some(username) && this.email == Some(email)
      ensures orders == []
    {
      this.id := Some(id);
      this.name := Some(name);
      this.username := Some(username);
      this.email := Some(email);
      orders := [];
    }

    method SetId(id: Option<Uuid>)
      modifies this`id
      ensures this.id == id
    {
      this.id := id;
    }

    method SetName(name: Option<string>)
      modifies this`name
      ensures this.name == name
    {
      this.name := name;
    }

    method SetUsername(username: Option<string>)
      modifies this`username
      ensures this.username == username
    {
      this.username := username;
    }

    method SetEmail(email: Option<string>)
      modifies this`email
      ensures this.email == email
    {
      this.email := email;
    }

    /** `getOrders`: a copy of the order ids. A sequence is a value, so
        nothing done to the copy reaches the user. */
    function GetOrders(): (r: seq<Uuid>)
      reads this
      ensures |r| == |orders| && forall i :: 0 <= i < |r| ==> r[i] == orders[i]
    {
      orders
    }

    /** `setOrders`: replaces the list by a copy of the argument. */
    method SetOrders(orders: seq<Uuid>)
      modifies this`orders
      ensures this.orders == orders
    {
      this.orders := orders;
    }

    /** `addOrder`: appends at the end, keeping the earlier ids. */
    method AddOrder(orderId: Uuid)
      modifies this`orders
      ensures orders == old(orders) + [orderId]
      ensures |orders| == |old(orders)| + 1 && orders[..|old(orders)|] == old(orders)
    {
      orders := orders + [orderId];
    }
  }
}
