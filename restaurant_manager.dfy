/** The restaurant list and its file (RestaurantManager.java). The file is
    seen as its lines: the constructor is handed them (`None` when the file
    cannot be read), and each save is told whether the write succeeds; a
    failed save leaves the lines as they were. */
module RestaurantManagers {
  import opened Common
  import opened JavaText
  import opened Restaurants
  import opened TextFiles

  /** The header line `saveRestaurantsToFile` writes first. */
  const Header: string := "# Format: RestaurantId, Name, Category"

  /** The fields of each restaurant, in list order. */
  function Records(rs: seq<Restaurant>): (recs: seq<RestaurantRecord>)
    reads set r | r in rs
    ensures |recs| == |rs|
    ensures forall k :: 0 <= k < |rs| ==> recs[k] == rs[k].Record()
  {
    if rs == [] then [] else Records(rs[..|rs| - 1]) + [rs[|rs| - 1].Record()]
  }

  /** `createFromFileLine` as a parser of present lines. */
  function ParseLine(line: string): Option<RestaurantRecord> {
    ParseFileLine(Some(line))
  }

  /** What loading keeps of a file: the records of the lines that parse, in
      file order. */
  function LoadedRecords(lines: seq<string>): seq<RestaurantRecord> {
    Collect(lines, ParseLine)
  }

  /** One line per record, in order. */
  function FileLines(recs: seq<RestaurantRecord>): seq<string> {
    if recs == [] then [] else FileLines(recs[..|recs| - 1]) + [FileLine(recs[|recs| - 1])]
  }

  /** The k-th written line is the k-th record's line. */
  lemma {:induction false} FileLinesAt(recs: seq<RestaurantRecord>)
    ensures |FileLines(recs)| == |recs|
    ensures forall k :: 0 <= k < |recs| ==> FileLines(recs)[k] == FileLine(recs[k])
    decreases |recs|
  {
    if recs != [] {
      FileLinesAt(recs[..|recs| - 1]);
    }
  }

  /** What `saveRestaurantsToFile` writes: the header, then one line per restaurant. */
  function SavedLines(recs: seq<RestaurantRecord>): seq<string> {
    [Header] + FileLines(recs)
  }

  /** The written lines give back the records, as long as each of them
      survives the one-line round trip. */
  lemma LoadFileLines(recs: seq<RestaurantRecord>)
    requires forall k :: 0 <= k < |recs| ==> RoundTrips(recs[k])
    ensures LoadedRecords(FileLines(recs)) == recs
  {
    var lines := FileLines(recs);
    FileLinesAt(recs);
    forall k | 0 <= k < |lines|
      ensures ParseLine(lines[k]) == Some(recs[k])
    {
      FileLineRoundTrip(recs[k]);
    }
    CollectAll(lines, ParseLine, recs);
  }

  lemma HeaderSkipped()
    ensures LoadedRecords([Header]) == []
  {
    assert StartsWith(Header, "#") by {
      assert Header[0] == '#';
      assert Header[..1] == [Header[0]];
    }
    CollectRejected(Header, ParseLine);
  }

  /** Loading a saved file gives back the saved records, as long as each of
      them survives the one-line round trip. */
  lemma LoadAfterSave(recs: seq<RestaurantRecord>)
    requires forall k :: 0 <= k < |recs| ==> RoundTrips(recs[k])
    ensures LoadedRecords(SavedLines(recs)) == recs
  {
    CollectAppend([Header], FileLines(recs), ParseLine);
    HeaderSkipped();
    LoadFileLines(recs);
  }

  /** Position of the first restaurant with that id, or the length when none has it. */
  function IndexOfId(rs: seq<Restaurant>, id: string): (i: nat)
    ensures i <= |rs|
    ensures i < |rs| ==> rs[i].restaurantId == id
    ensures forall k :: 0 <= k < i ==> rs[k].restaurantId != id
  {
    if rs == [] then 0
    else if rs[0].restaurantId == id then 0
    else 1 + IndexOfId(rs[1..], id)
  }

  /** `getAllRestaurantsString`'s lines: one details line per restaurant. */
  function DetailLines(recs: seq<RestaurantRecord>): string {
    if recs == [] then "" else DetailLines(recs[..|recs| - 1]) + Details(recs[|recs| - 1]) + "\n"
  }

  const NoRestaurants: string := "No restaurants available."
  const ListingTitle: string := "=== All Restaurants ===\n"

  /** `getAllRestaurantsString`: a fixed message for no restaurants, otherwise
      a title and the details lines. */
  function Listing(recs: seq<RestaurantRecord>): string {
    if recs == [] then NoRestaurants else ListingTitle + DetailLines(recs)
  }

  /** The listing is the "no restaurants" message exactly when the list is empty. */
  lemma ListingEmptyIff(recs: seq<RestaurantRecord>)
    ensures Listing(recs) == NoRestaurants <==> recs == []
  {
    if recs != [] {
      assert Listing(recs)[0] == '=' != NoRestaurants[0];
    }
  }

  class RestaurantManager {
    var restaurants: seq<Restaurant>
    /** The lines of the restaurants file; empty when there is none. */
    var file: seq<string>

    /** Loads the lines of the restaurants file; with no file the list is empty. */
    constructor (file: Option<seq<string>>)
      ensures forall r :: r in restaurants ==> fresh(r)
      ensures Records(restaurants) == if file.Some? then LoadedRecords(file.value) else []
      ensures this.file == if file.Some? then file.value else []
    {
      var loaded: seq<Restaurant> := [];
      if file.Some? {
        var lines := file.value;
        ghost var recs: seq<RestaurantRecord> := [];
        var i := 0;
        while i < |lines|
          invariant 0 <= i <= |lines|
          invariant forall r :: r in loaded ==> fresh(r)
          invariant |loaded| == |recs| && forall k :: 0 <= k < |loaded| ==> loaded[k].Record() == recs[k]
          invariant recs == LoadedRecords(lines[..i])
        {
          var r := Restaurant.CreateFromFileLine(Some(lines[i]));
          assert lines[..i + 1] == lines[..i] + [lines[i]];
          CollectSnoc(lines[..i], lines[i], ParseLine);
          if r.Some? {
            loaded := loaded + [r.value];
            recs := recs + [r.value.Record()];
          }
          i := i + 1;
        }
        assert lines[..i] == lines;
      }
      restaurants := loaded;
      this.file := if file.Some? then file.value else [];
    }

    /** `saveRestaurantsToFile`: the header, then each restaurant's file line
        in list order; `saved` is whether the write succeeds. */
    method SaveRestaurantsToFile(saved: bool) returns (ok: bool)
      modifies this`file
      ensures ok == saved
      ensures file == if saved then SavedLines(Records(restaurants)) else old(file)
    {
      if !saved {
        return false;
      }
      ghost var recs := Records(restaurants);
      var body := [];
      for i := 0 to |restaurants|
        invariant body == FileLines(recs[..i])
      {
        assert recs[..i + 1][..i] == recs[..i];
        var line := restaurants[i].ToFileFormat();
        assert line == FileLine(recs[i]);
        body := body + [line];
      }
      assert recs[..|recs|] == recs;
      var lines := [Header] + body;
      file := lines;
      return true;
    }

    /** `getRestaurants`: a copy holding the same restaurants in the same order. */
    function GetRestaurants(): (r: seq<Restaurant>)
      reads this
      ensures |r| == |restaurants| && forall k :: 0 <= k < |r| ==> r[k] == restaurants[k]
    {
      restaurants
    }

    /** `addRestaurant`: refuses a missing or blank name or category; otherwise
        appends a new restaurant with the trimmed fields under a fresh id, and
        reports whether the save succeeded. */
    method AddRestaurant(name: Option<string>, category: Option<string>, freshId: Uuid, saved: bool)
      returns (ok: bool)
      modifies this
      ensures name.None? || Trim(name.value) == "" || category.None? || Trim(category.value) == "" ==>
        !ok && restaurants == old(restaurants) && file == old(file)
      ensures name.Some? && Trim(name.value) != "" && category.Some? && Trim(category.value) != "" ==>
        ok == saved
        && file == (if saved then SavedLines(Records(restaurants)) else old(file))
        && |restaurants| == |old(restaurants)| + 1
        && restaurants[..|old(restaurants)|] == old(restaurants)
        && fresh(restaurants[|old(restaurants)|])
        && restaurants[|old(restaurants)|].Record()
           == RestaurantRecord(freshId, Trim(name.value), Trim(category.value))
    {
      if name.None? || Trim(name.value) == "" || category.None? || Trim(category.value) == "" {
        return false;
      }
      var restaurant := new Restaurant(freshId, Trim(name.value), Trim(category.value));
      restaurants := restaurants + [restaurant];
      ok := SaveRestaurantsToFile(saved);
    }

    /** `removeRestaurant`: drops the first restaurant with the id and reports
        whether the save succeeded; false and no change when none has it. */
    method RemoveRestaurant(restaurantId: string, saved: bool) returns (ok: bool)
      modifies this
      ensures var i := IndexOfId(old(restaurants), restaurantId);
        if i < |old(restaurants)| then
          && ok == saved && restaurants == old(restaurants)[..i] + old(restaurants)[i + 1..]
          && file == (if saved then SavedLines(Records(restaurants)) else old(file))
        else
          !ok && restaurants == old(restaurants) && file == old(file)
    {
      var i := 0;
      while i < |restaurants| && restaurants[i].restaurantId != restaurantId
        invariant i <= |restaurants|
        invariant forall k :: 0 <= k < i ==> restaurants[k].restaurantId != restaurantId
      {
        i := i + 1;
      }
      assert i == IndexOfId(restaurants, restaurantId) by { IndexOfIdUnique(restaurants, restaurantId, i); }
      if i < |restaurants| {
        restaurants := restaurants[..i] + restaurants[i + 1..];
        ok := SaveRestaurantsToFile(saved);
        return;
      }
      return false;
    }

    /** `findRestaurantById`: the first restaurant with the id, or `None` when none has it. */
    method FindRestaurantById(restaurantId: string) returns (r: Option<Restaurant>)
      ensures r.Some? ==> r.value in restaurants && r.value.restaurantId == restaurantId
      ensures r.Some? ==> r.value == restaurants[IndexOfId(restaurants, restaurantId)]
      ensures r.None? <==> forall k :: 0 <= k < |restaurants| ==> restaurants[k].restaurantId != restaurantId
    {
      for i := 0 to |restaurants|
        invariant forall k :: 0 <= k < i ==> restaurants[k].restaurantId != restaurantId
      {
        if restaurants[i].restaurantId == restaurantId {
          IndexOfIdUnique(restaurants, restaurantId, i);
          return Some(restaurants[i]);
        }
      }
      return None;
    }

    /** `getAllRestaurantsString`, built line by line. */
    method GetAllRestaurantsString() returns (s: string)
      ensures s == Listing(Records(restaurants))
    {
      if |restaurants| == 0 {
        return NoRestaurants;
      }
      ghost var recs := Records(restaurants);
      s := ListingTitle;
      for i := 0 to |restaurants|
        invariant s == ListingTitle + DetailLines(recs[..i])
      {
        assert recs[..i + 1][..i] == recs[..i];
        var line := restaurants[i].DetailsToString();
        assert line == Details(recs[i]);
        s := s + line + "\n";
      }
      assert recs[..|recs|] == recs;
    }
  }

  /** The first match is the only index meeting `IndexOfId`'s description. */
  lemma IndexOfIdUnique(rs: seq<Restaurant>, id: string, i: nat)
    requires i <= |rs|
    requires i < |rs| ==> rs[i].restaurantId == id
    requires forall k :: 0 <= k < i ==> rs[k].restaurantId != id
    ensures IndexOfId(rs, id) == i
  {
  }
}
