/** Reading an order line back (the parser `loadOrders` hands to
    `loadFromFile`), against the line `formatOrderLine` writes. The parser
    splits the whole line on ',', but the writer also joins the item ids with
    ',' inside the fourth field, so an order of two or more items does not
    come back. `LoadOrderLine` is the parser as written; `LoadOrderLineFixed`
    reads the item ids from every part between the first three and the last
    four, and gives back every order it could have written. */
module OrderLines {
  import opened Common
  import opened JavaText
  import opened FileManagers

  /** The item ids of `texts`, each trimmed and parsed, or nothing when one
      does not parse (`UUID.fromString` throws, and the whole line is
      skipped). */
  function ParseIds(texts: seq<string>, uuid: string -> Option<Uuid>): (r: Option<seq<Uuid>>)
    ensures r.Some? <==> forall k :: 0 <= k < |texts| ==> uuid(Trim(texts[k])).Some?
    ensures r.Some? ==> (|r.value| == |texts|
      && forall k :: 0 <= k < |texts| ==> r.value[k] == uuid(Trim(texts[k])).value)
    decreases |texts|
  {
    if texts == [] then Some([])
    else
      var init := ParseIds(texts[..|texts| - 1], uuid);
      var last := uuid(Trim(texts[|texts| - 1]));
      if init.Some? && last.Some? then Some(init.value + [last.value]) else None
  }

  /** An order from its parts: the three ids in front, the item-id texts, and
      status, driver, creation time and total at the back. A driver text of
      "null" is no driver. `uuid` and `number` stand for `UUID.fromString` and
      `Double.parseDouble`, `None` where those throw. */
  function Assemble(head: seq<string>, items: seq<string>, tail: seq<string>,
                    uuid: string -> Option<Uuid>, number: string -> Option<Decimal>): (r: Option<OrderData>)
    requires |head| == 3 && |tail| == 4
    ensures r.Some? ==> ParseIds(items, uuid) == Some(r.value.itemIds)
    ensures r.Some? ==> r.value.status == Trim(tail[0]) && r.value.createdAt == Trim(tail[2])
  {
    var orderId := uuid(Trim(head[0]));
    var customerId := uuid(Trim(head[1]));
    var restaurantId := uuid(Trim(head[2]));
    var itemIds := ParseIds(items, uuid);
    var driverText := Trim(tail[1]);
    var driverId: Option<Option<Uuid>> :=
      if driverText == "null" then Some(None)
      else if uuid(driverText).Some? then Some(Some(uuid(driverText).value))
      else None;
    var totalPrice := number(Trim(tail[3]));
    if orderId.None? || customerId.None? || restaurantId.None? || itemIds.None? || driverId.None?
       || totalPrice.None?
    then None
    else Some(OrderData(orderId.value, customerId.value, restaurantId.value, itemIds.value, Trim(tail[0]),
                        driverId.value, Trim(tail[2]), totalPrice.value))
  }

  /** `loadOrders`' parser as written: split on ',', at least eight parts,
      the item ids from splitting the fourth part again on ',', and the next
      four parts for status, driver, creation time and total. */
  function LoadOrderLine(line: string, uuid: string -> Option<Uuid>, number: string -> Option<Decimal>)
    : (r: Option<OrderData>)
    ensures r.Some? ==> |Split(line, ',')| >= 8 && |r.value.itemIds| == 1
  {
    var parts := Split(line, ',');
    if |parts| < 8 then None
    else
      SplitFreeOfSep(line, ',');
      TrimSubsequence(parts[3]);
      Assemble(parts[..3], Split(Trim(parts[3]), ','), parts[4..8], uuid, number)
  }

  /** The parser as intended: the item ids are all the parts between the
      first three and the last four. */
  function LoadOrderLineFixed(line: string, uuid: string -> Option<Uuid>, number: string -> Option<Decimal>)
    : (r: Option<OrderData>)
    ensures r.Some? ==> |Split(line, ',')| >= 8 && |r.value.itemIds| == |Split(line, ',')| - 7
  {
    var parts := Split(line, ',');
    if |parts| < 8 then None
    else Assemble(parts[..3], parts[3..|parts| - 4], parts[|parts| - 4..], uuid, number)
  }

  /** "null" for no driver, the id otherwise. */
  function DriverText(driverId: Option<Uuid>): string {
    if driverId.None? then "null" else driverId.value
  }

  /** The parts of a written order line when no field holds a ',': the
      three ids, the item ids (the first one led by the blank of ", "),
      then status, driver, creation time and total. */
  function LineParts(o: OrderData): seq<string>
    requires o.itemIds != []
  {
    [o.orderId, " " + o.customerId, " " + o.restaurantId, " " + o.itemIds[0]] + o.itemIds[1..]
      + [" " + o.status, " " + DriverText(o.driverId), " " + o.createdAt, " " + o.totalPrice]
  }

  /** No text of the order holds a ','. */
  predicate CommaFree(o: OrderData) {
    && ',' !in o.orderId && ',' !in o.customerId && ',' !in o.restaurantId
    && (forall k :: 0 <= k < |o.itemIds| ==> ',' !in o.itemIds[k])
    && ',' !in o.status && ',' !in DriverText(o.driverId) && ',' !in o.createdAt && ',' !in o.totalPrice
  }

  /** Joining with a separator distributes over concatenation. */
  lemma {:induction false} JoinAppend(a: seq<string>, b: seq<string>, sep: string)
    requires a != [] && b != []
    ensures Join(a + b, sep) == Join(a, sep) + sep + Join(b, sep)
    decreases |a|
  {
    if |a| == 1 {
      assert (a + b)[1..] == b;
    } else {
      assert (a + b)[1..] == a[1..] + b;
      JoinAppend(a[1..], b, sep);
    }
  }

  /** A prefix on the first part is a prefix on the joined text. */
  lemma JoinLed(x: string, parts: seq<string>, sep: string)
    requires parts != []
    ensures Join([x + parts[0]] + parts[1..], sep) == x + Join(parts, sep)
  {
    var led := [x + parts[0]] + parts[1..];
    if |parts| > 1 {
      assert led[1..] == parts[1..];
    }
  }

  /** Three parts, the last two led by a blank, joined by ','. */
  lemma JoinFront(a: string, b: string, c: string)
    ensures Join([a, " " + b, " " + c], ",") == a + ", " + b + ", " + c
  {
    var parts := [a, " " + b, " " + c];
    assert parts[1..] == [" " + b, " " + c] && parts[1..][1..] == [" " + c];
    assert Join(parts[1..], ",") == " " + b + "," + " " + c;
  }

  /** Four parts, each led by a blank, joined by ','. */
  lemma JoinBack(a: string, b: string, c: string, d: string)
    ensures Join([" " + a, " " + b, " " + c, " " + d], ",") == " " + a + ", " + b + ", " + c + ", " + d
  {
    var parts := [" " + a, " " + b, " " + c, " " + d];
    assert parts[1..] == [" " + b, " " + c, " " + d];
    JoinFront(" " + b, c, d);
  }

  /** The parts of an order line joined by ',' in three groups: the front
      ids, the item ids (the first led by a blank), the back fields. */
  lemma JoinGroups(front: seq<string>, ids: seq<string>, back: seq<string>)
    requires front != [] && ids != [] && back != []
    ensures Join(front + ([" " + ids[0]] + ids[1..]) + back, ",")
      == Join(front, ",") + "," + (" " + Join(ids, ",")) + "," + Join(back, ",")
  {
    var items := [" " + ids[0]] + ids[1..];
    JoinAppend(front + items, back, ",");
    JoinAppend(front, items, ",");
    JoinLed(" ", ids, ",");
  }

  /** The eight printed fields put back together from the three groups. */
  lemma Regroup(o: string, c: string, r: string, ids: string, s: string, d: string, t: string, p: string)
    ensures (o + ", " + c + ", " + r) + "," + (" " + ids) + "," + (" " + s + ", " + d + ", " + t + ", " + p)
      == o + ", " + c + ", " + r + ", " + ids + ", " + s + ", " + d + ", " + t + ", " + p
  {
    assert "," + " " == ", ";
  }

  /** `formatOrderLine` is the order's parts joined by ','. */
  lemma FormatOrderLineJoins(o: OrderData)
    requires o.itemIds != []
    ensures OrderLine(o) == Join(LineParts(o), ",")
  {
    var front := [o.orderId, " " + o.customerId, " " + o.restaurantId];
    var back := [" " + o.status, " " + DriverText(o.driverId), " " + o.createdAt, " " + o.totalPrice];
    assert LineParts(o) == front + ([" " + o.itemIds[0]] + o.itemIds[1..]) + back;
    JoinGroups(front, o.itemIds, back);
    JoinFront(o.orderId, o.customerId, o.restaurantId);
    JoinBack(o.status, DriverText(o.driverId), o.createdAt, o.totalPrice);
    Regroup(o.orderId, o.customerId, o.restaurantId, Join(o.itemIds, ","), o.status, DriverText(o.driverId),
            o.createdAt, o.totalPrice);
  }

  /** Splitting a written order line on ',' gives exactly its parts. */
  lemma FormatOrderLineParts(o: OrderData)
    requires o.itemIds != [] && CommaFree(o)
    ensures Split(OrderLine(o), ',') == LineParts(o)
  {
    var parts := LineParts(o);
    FormatOrderLineJoins(o);
    forall k | 0 <= k < |parts|
      ensures ',' !in parts[k]
    {
      if 4 <= k < |parts| - 4 {
        assert parts[k] == o.itemIds[k - 3];
      }
    }
    PiecesOfJoin(parts, ',');
    assert OrderLine(o)[|o.orderId|] == ',';
  }

  /** A blank and a trimmed text trim to the text. */
  lemma TrimLed(s: string)
    requires IsTrimmed(s)
    ensures Trim(" " + s) == s
  {
    TrimAfterBlank(s);
    TrimTrimmed(s);
  }

  /** The discrepancy: a written order of two or more items is never read
      back as written. Whatever the id parser does, the parser keeps at most
      one item id. */
  lemma MultiItemOrderLost(o: OrderData, uuid: string -> Option<Uuid>, number: string -> Option<Decimal>)
    requires |o.itemIds| >= 2
    ensures LoadOrderLine(OrderLine(o), uuid, number) != Some(o)
    ensures LoadOrderLine(OrderLine(o), uuid, number).Some? ==>
      |LoadOrderLine(OrderLine(o), uuid, number).value.itemIds| == 1
  {
  }

  /** The item-id parts of a written order line parse back to its item ids. */
  lemma ItemPartsRoundTrip(o: OrderData, uuid: string -> Option<Uuid>)
    requires o.itemIds != []
    requires forall k :: 0 <= k < |o.itemIds| ==> IsTrimmed(o.itemIds[k]) && uuid(o.itemIds[k]) == Some(o.itemIds[k])
    ensures ParseIds(LineParts(o)[3..|LineParts(o)| - 4], uuid) == Some(o.itemIds)
  {
    var parts := LineParts(o);
    var items := parts[3..|parts| - 4];
    assert |items| == |o.itemIds|;
    forall k | 0 <= k < |items|
      ensures Trim(items[k]) == o.itemIds[k]
    {
      if k == 0 {
        TrimLed(o.itemIds[0]);
      } else {
        assert items[k] == o.itemIds[k];
        TrimTrimmed(o.itemIds[k]);
      }
    }
    var ids := ParseIds(items, uuid);
    assert ids.Some? && ids.value == o.itemIds;
  }

  /** The texts of an order the parser can read back: free of ',', trimmed,
      a driver id other than "null", and ids and total that parse to
      themselves. */
  predicate Readable(o: OrderData, uuid: string -> Option<Uuid>, number: string -> Option<Decimal>) {
    && o.itemIds != [] && CommaFree(o)
    && IsTrimmed(o.orderId) && IsTrimmed(o.customerId) && IsTrimmed(o.restaurantId)
    && (forall k :: 0 <= k < |o.itemIds| ==> IsTrimmed(o.itemIds[k]) && uuid(o.itemIds[k]) == Some(o.itemIds[k]))
    && IsTrimmed(o.status) && IsTrimmed(DriverText(o.driverId)) && IsTrimmed(o.createdAt)
    && IsTrimmed(o.totalPrice) && number(o.totalPrice) == Some(o.totalPrice)
    && uuid(o.orderId) == Some(o.orderId) && uuid(o.customerId) == Some(o.customerId)
    && uuid(o.restaurantId) == Some(o.restaurantId)
    && (o.driverId.Some? ==> o.driverId.value != "null" && uuid(o.driverId.value) == o.driverId)
  }

  /** The parts of a readable order's line assemble back into the order. */
  lemma LinePartsAssemble(o: OrderData, uuid: string -> Option<Uuid>, number: string -> Option<Decimal>)
    requires Readable(o, uuid, number)
    ensures var parts := LineParts(o);
      Assemble(parts[..3], parts[3..|parts| - 4], parts[|parts| - 4..], uuid, number) == Some(o)
  {
    ItemPartsRoundTrip(o, uuid);
    var parts := LineParts(o);
    var n := |parts|;
    assert parts[..3] == [o.orderId, " " + o.customerId, " " + o.restaurantId];
    assert parts[n - 4..] == [" " + o.status, " " + DriverText(o.driverId), " " + o.createdAt, " " + o.totalPrice];
    TrimTrimmed(o.orderId);
    TrimLed(o.customerId);
    TrimLed(o.restaurantId);
    TrimLed(o.status);
    TrimLed(DriverText(o.driverId));
    TrimLed(o.createdAt);
    TrimLed(o.totalPrice);
  }

  /** The corrected parser reads back every readable order from the line
      `formatOrderLine` writes for it. */
  lemma OrderLineRoundTrip(o: OrderData, uuid: string -> Option<Uuid>, number: string -> Option<Decimal>)
    requires Readable(o, uuid, number)
    ensures LoadOrderLineFixed(OrderLine(o), uuid, number) == Some(o)
  {
    FormatOrderLineParts(o);
    LinePartsAssemble(o, uuid, number);
  }

  /** With a single item the parser as written does read the order back:
      the discrepancy is confined to orders of two or more items. */
  lemma SingleItemOrderKept(o: OrderData, uuid: string -> Option<Uuid>, number: string -> Option<Decimal>)
    requires Readable(o, uuid, number) && |o.itemIds| == 1
    ensures LoadOrderLine(OrderLine(o), uuid, number) == Some(o)
  {
    FormatOrderLineParts(o);
    LinePartsAssemble(o, uuid, number);
    var parts := LineParts(o);
    TrimLed(o.itemIds[0]);
    assert Split(Trim(parts[3]), ',') == [o.itemIds[0]];
    assert ParseIds([o.itemIds[0]], uuid) == ParseIds(parts[3..4], uuid);
  }
}
