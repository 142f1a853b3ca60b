/** A driver and its rolling rating (Driver.java): a 10-slot circular buffer
    of the most recent ratings, `-1` marking a slot never written, and the
    average of the written slots. */
module Drivers {
  import opened Common
  import opened Orders

  /** Length of the rating buffer. */
  const Capacity: nat := 10

  /** Marker of a slot that holds no rating. */
  const EmptySlot: int := -1

  predicate IsRating(v: int) { 1 <= v <= 5 }

  predicate IsSlot(v: int) { v == EmptySlot || IsRating(v) }

  // ---------------------------------------------------------------------
  // The buffer as a value

  /** The buffer after the ratings `h` were added, in order, to a new driver. */
  function Replay(h: seq<int>): (b: seq<int>)
    ensures |b| == Capacity
  {
    if h == [] then seq(Capacity, _ => EmptySlot)
    else Replay(h[..|h| - 1])[(|h| - 1) % 10 := h[|h| - 1]]
  }

  /** Sum of the written slots. */
  function FilledSum(b: seq<int>): int
  {
    if b == [] then 0
    else FilledSum(b[..|b| - 1]) + (if b[|b| - 1] != EmptySlot then b[|b| - 1] else 0)
  }

  /** Number of written slots. */
  function FilledCount(b: seq<int>): nat
  {
    if b == [] then 0
    else FilledCount(b[..|b| - 1]) + (if b[|b| - 1] != EmptySlot then 1 else 0)
  }

  /** The average `calcAvgRating` computes, as an exact rational. */
  function Average(b: seq<int>): real
  {
    if FilledCount(b) > 0 then FilledSum(b) as real / FilledCount(b) as real else 0.0
  }

  function Sum(s: seq<int>): int
  {
    if s == [] then 0 else Sum(s[..|s| - 1]) + s[|s| - 1]
  }

  /** The most recent `Capacity` ratings of the history `h`. */
  function Window(h: seq<int>): (w: seq<int>)
    ensures |w| <= Capacity
  {
    if |h| <= Capacity then h else h[|h| - Capacity..]
  }

  function Mean(s: seq<int>): real
  {
    if |s| > 0 then Sum(s) as real / |s| as real else 0.0
  }

  lemma {:induction false} SumCons(a: int, s: seq<int>)
    ensures Sum([a] + s) == a + Sum(s)
    decreases |s|
  {
    if s != [] {
      assert ([a] + s)[..|s|] == [a] + s[..|s| - 1];
      SumCons(a, s[..|s| - 1]);
    }
  }

  /** Which rating a slot of the replayed buffer holds: the latest rating
      whose position in the history is congruent to the slot modulo 10. */
  lemma {:induction false} SlotHolds(h: seq<int>, k: nat)
    requires k < Capacity
    ensures Replay(h)[k] == if k < |h| then h[|h| - 1 - (|h| - 1 - k) % 10] else EmptySlot
    decreases |h|
  {
    if h != [] {
      var n0 := |h| - 1;
      var h0 := h[..n0];
      assert Replay(h) == Replay(h0)[n0 % 10 := h[n0]];
      SlotHolds(h0, k);
      if k == n0 % 10 {
        SameSlot(n0, k);
      } else if k < n0 {
        NextSlot(n0, k);
        assert h0[n0 - 1 - (n0 - 1 - k) % 10] == h[n0 - 1 - (n0 - 1 - k) % 10];
      }
    }
  }

  /** The newest rating's slot is `n % 10`, at distance 0 from it. */
  lemma SameSlot(n: nat, k: nat)
    requires k < 10 && k == n % 10
    ensures k <= n && (n - k) % 10 == 0
  {
  }

  /** Any other slot below `n` is one step further back than it was. */
  lemma NextSlot(n: nat, k: nat)
    requires k < 10 && k != n % 10 && k < n
    ensures (n - k) % 10 == (n - 1 - k) % 10 + 1
  {
  }

  /** Writing a rating over a slot replaces that slot's share of the sum and count. */
  lemma {:induction false} FilledUpdate(b: seq<int>, i: nat, x: int)
    requires i < |b| && x != EmptySlot
    ensures FilledSum(b[i := x]) == FilledSum(b) - (if b[i] != EmptySlot then b[i] else 0) + x
    ensures FilledCount(b[i := x]) == FilledCount(b) - (if b[i] != EmptySlot then 1 else 0) + 1
    decreases |b|
  {
    var n := |b| - 1;
    if i == n {
      assert b[i := x][..n] == b[..n];
    } else {
      assert b[i := x][..n] == b[..n][i := x];
      FilledUpdate(b[..n], i, x);
    }
  }

  lemma {:induction false} EmptyBufferFilled(n: nat)
    ensures FilledSum(seq(n, _ => EmptySlot)) == 0 && FilledCount(seq(n, _ => EmptySlot)) == 0
  {
    if n > 0 {
      assert seq(n, _ => EmptySlot)[..n - 1] == seq(n - 1, _ => EmptySlot);
      EmptyBufferFilled(n - 1);
    }
  }

  /** The slot the next rating goes to holds the rating ten places back, if any. */
  lemma OldestSlot(h: seq<int>)
    ensures Replay(h)[|h| % 10] == if |h| >= Capacity then h[|h| - Capacity] else EmptySlot
  {
    var b, k := Replay(h), |h| % 10;
    SlotHolds(h, k);
    NextSlotAge(b, h, k);
  }

  /** Slot `|h| % 10` is unwritten after fewer than ten ratings and was last
      written ten ratings back otherwise. */
  lemma NextSlotAge(b: seq<int>, h: seq<int>, k: nat)
    requires |b| == Capacity && k == |h| % 10
    requires b[k] == if k < |h| then h[|h| - 1 - (|h| - 1 - k) % 10] else EmptySlot
    ensures b[k] == if |h| >= Capacity then h[|h| - Capacity] else EmptySlot
  {
    var n := |h|;
    if n >= 10 {
      var q := n / 10;
      assert n - 1 - k == 10 * (q - 1) + 9;
      assert (10 * (q - 1) + 9) % 10 == 9;
    }
  }

  /** Written slots of the replayed buffer hold exactly the rating window. */
  lemma {:induction false} ReplayMatchesWindow(h: seq<int>)
    requires forall i :: 0 <= i < |h| ==> IsRating(h[i])
    ensures FilledSum(Replay(h)) == Sum(Window(h))
    ensures FilledCount(Replay(h)) == |Window(h)|
    decreases |h|
  {
    if h == [] {
      EmptyBufferFilled(Capacity);
    } else {
      var h0, x := h[..|h| - 1], h[|h| - 1];
      assert h == h0 + [x];
      ReplayMatchesWindow(h0);
      ReplayShift(h0, x);
      WindowShift(h0, x);
    }
  }

  /** One more rating overwrites the slot of the rating ten places back. */
  lemma ReplayShift(h0: seq<int>, x: int)
    requires forall i :: 0 <= i < |h0| ==> IsRating(h0[i])
    requires IsRating(x)
    ensures var dropped := if |h0| >= Capacity then h0[|h0| - Capacity] else 0;
      && FilledSum(Replay(h0 + [x])) == FilledSum(Replay(h0)) - dropped + x
      && FilledCount(Replay(h0 + [x])) == FilledCount(Replay(h0)) - (if |h0| >= Capacity then 1 else 0) + 1
  {
    var n0 := |h0|;
    assert (h0 + [x])[..n0] == h0;
    assert Replay(h0 + [x]) == Replay(h0)[n0 % 10 := x];
    OldestSlot(h0);
    FilledUpdate(Replay(h0), n0 % 10, x);
  }

  /** One more rating pushes the oldest out of a full window. */
  lemma WindowShift(h0: seq<int>, x: int)
    ensures var dropped := if |h0| >= Capacity then h0[|h0| - Capacity] else 0;
      && Sum(Window(h0 + [x])) == Sum(Window(h0)) - dropped + x
      && |Window(h0 + [x])| == |Window(h0)| - (if |h0| >= Capacity then 1 else 0) + 1
  {
    var n0, h := |h0|, h0 + [x];
    if n0 < Capacity {
      assert Window(h) == h && Window(h0) == h0;
      assert h[..|h| - 1] == h0;
    } else {
      var w0 := h0[n0 - Capacity..];
      var w := h[n0 + 1 - Capacity..];
      assert Window(h0) == w0 && Window(h) == w;
      assert w0 == [h0[n0 - Capacity]] + w0[1..];
      SumCons(h0[n0 - Capacity], w0[1..]);
      assert w[..|w| - 1] == w0[1..];
    }
  }

  /** Rating rollover: the buffer's average is the mean of the most recent
      ten ratings only, however many were added before them. */
  lemma RolloverAverage(h: seq<int>)
    requires forall i :: 0 <= i < |h| ==> IsRating(h[i])
    ensures Average(Replay(h)) == Mean(Window(h))
    ensures |h| >= Capacity ==> FilledCount(Replay(h)) == Capacity
  {
    ReplayMatchesWindow(h);
  }

  /** Every slot of a replayed buffer is empty or holds a rating. */
  lemma {:induction false} ReplaySlots(h: seq<int>)
    requires forall i :: 0 <= i < |h| ==> IsRating(h[i])
    ensures forall k :: 0 <= k < Capacity ==> IsSlot(Replay(h)[k])
    decreases |h|
  {
    if h != [] {
      ReplaySlots(h[..|h| - 1]);
    }
  }

  // ---------------------------------------------------------------------
  // The driver object

  /** `Driver`. Of the inherited `User` fields the model keeps the
      identifying ones, fixed at construction. */
  class Driver {
    const id: Uuid
    const name: string
    const username: string
    const email: string
    var available: bool
    var avgRating: real
    var rateCounter: int
    const ratings: array<int>
    var currentOrder: Option<Uuid>

    /** The buffer has 10 slots, the write index is one of them and every
        slot is empty or a rating in 1..5. */
    ghost predicate Valid()
      reads this, ratings
    {
      && ratings.Length == Capacity
      && 0 <= rateCounter < Capacity
      && forall i :: 0 <= i < Capacity ==> IsSlot(ratings[i])
    }

    constructor (id: Uuid, name: string, username: string, email: string)
      ensures Valid() && fresh(ratings)
      ensures this.id == id && this.name == name && this.username == username && this.email == email
      ensures ratings[..] == Replay([]) && rateCounter == 0 && avgRating == 0.0
      ensures !available && currentOrder == None
    {
      this.id := id;
      this.name := name;
      this.username := username;
      this.email := email;
      var slots := new int[Capacity];
      var i := 0;
      while i < slots.Length
        invariant 0 <= i <= slots.Length
        invariant forall k :: 0 <= k < i ==> slots[k] == EmptySlot
      {
        slots[i] := EmptySlot;
        i := i + 1;
      }
      ratings := slots;
      rateCounter := 0;
      avgRating := 0.0;
      available := false;
      currentOrder := None;
    }

    method SetAvailable(available: bool)
      modifies this`available
      ensures this.available == available
    {
      this.available := available;
    }

    /** Overwrites the average; the buffer is left as it is. */
    method SetAvgRating(avgRating: real)
      modifies this`avgRating
      ensures this.avgRating == avgRating
    {
      this.avgRating := avgRating;
    }

    method SetCurrentOrder(currentOrder: Option<Uuid>)
      modifies this`currentOrder
      ensures this.currentOrder == currentOrder
    {
      this.currentOrder := currentOrder;
    }

    /** `updateOrderStatus`: marks the driver's current order, which fails
        when the driver has none. */
    method UpdateOrderStatus(orderManager: OrderManager, status: Status) returns (r: Outcome)
      requires orderManager.Valid()
      modifies orderManager
      ensures orderManager.Valid()
      ensures orderManager.intake == old(orderManager.intake)
      ensures currentOrder.None? ==>
        r.Failed? && orderManager.byId == old(orderManager.byId)
      ensures currentOrder.Some? ==>
        && r == Done
        && orderManager.byId ==
             if currentOrder.value in old(orderManager.byId)
             then old(orderManager.byId)[currentOrder.value := old(orderManager.byId)[currentOrder.value].(status := status)]
             else old(orderManager.byId)
    {
      r := orderManager.MarkStatus(currentOrder, Some(status));
    }

    /** `calcAvgRating`. */
    method CalcAvgRating()
      requires Valid()
      modifies this`avgRating
      ensures avgRating == Average(ratings[..])
    {
      var sum := 0;
      var count := 0;
      var i := 0;
      while i < ratings.Length
        invariant 0 <= i <= ratings.Length
        invariant sum == FilledSum(ratings[..i]) && count == FilledCount(ratings[..i])
      {
        assert ratings[..i + 1][..i] == ratings[..i];
        if ratings[i] != EmptySlot {
          sum := sum + ratings[i];
          count := count + 1;
        }
        i := i + 1;
      }
      assert ratings[..i] == ratings[..];
      avgRating := if count > 0 then sum as real / count as real else 0.0;
    }

    /** `addRating`: rejects values outside 1..5; otherwise writes at the
        index, advances it modulo 10 and recomputes the average. */
    method AddRating(newRating: int) returns (r: Outcome)
      requires Valid()
      modifies this`rateCounter, this`avgRating, ratings
      ensures Valid()
      ensures !IsRating(newRating) ==>
        && r == Failed(IllegalArgument("Rating must be between 1 and 5"))
        && ratings[..] == old(ratings[..])
        && rateCounter == old(rateCounter)
        && avgRating == old(avgRating)
      ensures IsRating(newRating) ==>
        && r == Done
        && ratings[..] == old(ratings[..])[old(rateCounter) := newRating]
        && rateCounter == (old(rateCounter) + 1) % 10
        && avgRating == Average(ratings[..])
    {
      if newRating < 1 || newRating > 5 {
        return Failed(IllegalArgument("Rating must be between 1 and 5"));
      }
      ratings[rateCounter] := newRating;
      rateCounter := (rateCounter + 1) % ratings.Length;
      CalcAvgRating();
      r := Done;
    }

    /** `compareTo`: `Double.compare(other.avgRating, avgRating)`, so the
        driver with the higher average is the smaller one. */
    function CompareTo(other: Driver): (r: int)
      reads this, other
      ensures -1 <= r <= 1
      ensures r < 0 <==> avgRating > other.avgRating
      ensures r > 0 <==> avgRating < other.avgRating
    {
      if other.avgRating < avgRating then -1
      else if other.avgRating > avgRating then 1
      else 0
    }
  }

  /** Adding a rating to a buffer that holds the history `h` gives the buffer
      of `h` extended by that rating, and the index keeps pace. */
  lemma ReplayStep(h: seq<int>, b: seq<int>, counter: int, x: int)
    requires b == Replay(h) && counter == |h| % 10
    ensures b[counter := x] == Replay(h + [x])
    ensures (counter + 1) % 10 == |h + [x]| % 10
  {
    assert (h + [x])[..|h|] == h;
    assert Replay(h + [x]) == Replay(h)[|h| % 10 := x];
    NextIndex(|h|);
  }

  /** The write index advances modulo 10 with the history length. */
  lemma NextIndex(n: nat)
    ensures (n % 10 + 1) % 10 == (n + 1) % 10
  {
    var q := n / 10;
    assert n == 10 * q + n % 10;
  }

  /** `compareTo` is antisymmetric, so the pool's order is a total preorder. */
  lemma CompareToAntisymmetric(a: Driver, b: Driver)
    ensures a.CompareTo(b) == -b.CompareTo(a)
  {
  }
}
