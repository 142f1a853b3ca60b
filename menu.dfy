/** A restaurant menu (Menu.java): items keyed by their name. */
module Menus {
  import opened Common
  import opened MenuItems

  class Menu {
    var items: map<string, MenuItem>

    /** Every item is stored under its own name. */
    ghost predicate Valid()
      reads this
    {
      forall name :: name in items ==> items[name].name == name
    }

    constructor ()
      ensures Valid() && items == map[]
    {
      items := map[];
    }

    /** `add`: stores the item under its name, replacing an item of that name. */
    method Add(item: MenuItem)
      requires Valid()
      modifies this
      ensures Valid()
      ensures items == old(items)[item.name := item]
    {
      items := items[item.name := item];
    }

    /** `remove`: true exactly when an item of that name was stored. */
    method Remove(name: string) returns (removed: bool)
      requires Valid()
      modifies this
      ensures Valid()
      ensures removed <==> name in old(items)
      ensures name !in items && items == old(items) - {name}
    {
      removed := name in items;
      items := items - {name};
    }

    /** `get`: the item of that name, or `None`. */
    function Get(name: string): (r: Option<MenuItem>)
      requires Valid()
      reads this
      ensures r.Some? <==> name in items
      ensures r.Some? ==> r.value == items[name] && r.value.name == name
    {
      if name in items then Some(items[name]) else None
    }

    /** `all`: the stored items; each one is found again by its name. */
    function All(): (r: set<MenuItem>)
      requires Valid()
      reads this
      ensures forall item :: item in r ==> Get(item.name) == Some(item)
      ensures forall name :: name in items ==> items[name] in r
    {
      items.Values
    }

    /** `save`: copies the items into a list it never uses and writes
        nothing, so it changes nothing. */
    method Save(path: string)
      ensures unchanged(this)
    {
    }
  }
}
