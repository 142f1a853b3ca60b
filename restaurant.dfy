/** A restaurant and its one-line text form (Restaurant.java). */
module Restaurants {
  import opened Common
  import opened JavaText

  /** The three fields a restaurant line carries. */
  datatype RestaurantRecord = RestaurantRecord(id: string, name: string, category: string)

  /** `toFileFormat`: the fields separated by ", ". */
  function FileLine(rec: RestaurantRecord): string {
    rec.id + ", " + rec.name + ", " + rec.category
  }

  /** `detailsToString`: "id - name (category)". */
  function Details(rec: RestaurantRecord): (s: string)
    ensures StartsWith(s, rec.id + " - ") && s[|s| - 1] == ')'
    ensures |s| == |rec.id| + |rec.name| + |rec.category| + 6
  {
    rec.id + " - " + rec.name + " (" + rec.category + ")"
  }

  /** Where each field sits in the details: the name right after the id and
      " - ", then " (", the category and the closing ')'. */
  lemma DetailsPlacesFields(rec: RestaurantRecord)
    ensures var s := Details(rec);
      && s[..|rec.id|] == rec.id
      && s[|rec.id| .. |rec.id| + 3] == " - "
      && s[|rec.id| + 3 .. |rec.id| + 3 + |rec.name|] == rec.name
      && s[|rec.id| + 3 + |rec.name| .. |rec.id| + 5 + |rec.name|] == " ("
      && s[|rec.id| + 5 + |rec.name| .. |s| - 1] == rec.category
  {
  }

  /** `createFromFileLine` without the allocation: no record for a missing,
      blank or '#'-led line, nor for one that does not split on ',' into exactly
      three parts; otherwise the three parts, trimmed. */
  function ParseFileLine(line: Option<string>): (r: Option<RestaurantRecord>)
    ensures r.Some? ==> IsTrimmed(r.value.id) && IsTrimmed(r.value.name) && IsTrimmed(r.value.category)
  {
    if line.None? || Trim(line.value) == "" || StartsWith(line.value, "#") then None
    else
      var parts := Split(line.value, ',');
      if |parts| != 3 then None
      else
        TrimIsTrimmed(parts[0]);
        TrimIsTrimmed(parts[1]);
        TrimIsTrimmed(parts[2]);
        Some(RestaurantRecord(Trim(parts[0]), Trim(parts[1]), Trim(parts[2])))
  }

  /** A line yields a record exactly when it is present, not blank, not led
      by '#', and splits into three parts. */
  lemma ParseFileLineAccepts(line: Option<string>)
    ensures ParseFileLine(line).Some? <==>
      line.Some? && Trim(line.value) != "" && !StartsWith(line.value, "#")
      && |Split(line.value, ',')| == 3
  {
  }

  /** A parsed record's fields hold no comma. */
  lemma ParsedFieldsClean(line: Option<string>)
    requires ParseFileLine(line).Some?
    ensures var rec := ParseFileLine(line).value;
      ',' !in rec.id && ',' !in rec.name && ',' !in rec.category
  {
    var parts := Split(line.value, ',');
    SplitFreeOfSep(line.value, ',');
    TrimSubsequence(parts[0]);
    TrimSubsequence(parts[1]);
    TrimSubsequence(parts[2]);
  }

  /** The records that survive a save and a load unchanged: no field holds a
      comma or has blanks at either end, and the id does not start with '#'. */
  predicate RoundTrips(rec: RestaurantRecord) {
    ',' !in rec.id && ',' !in rec.name && ',' !in rec.category
    && IsTrimmed(rec.id) && IsTrimmed(rec.name) && IsTrimmed(rec.category)
    && !StartsWith(rec.id, "#")
  }

  /** The written line splits on ',' into the three fields, the last two
      still led by the blank of the ", " separator. */
  lemma SplitFileLine(rec: RestaurantRecord)
    requires ',' !in rec.id && ',' !in rec.name && ',' !in rec.category
    ensures Split(FileLine(rec), ',') == [rec.id, " " + rec.name, " " + rec.category]
  {
    var line := FileLine(rec);
    var b := " " + rec.category;
    var a := " " + rec.name;
    assert line == rec.id + [','] + (a + [','] + b);
    PiecesAtFirstSep(rec.id, ',', a + [','] + b);
    PiecesAtFirstSep(a, ',', b);
    PiecesWithoutSep(b, ',');
    assert line[|rec.id|] == ',';
  }

  /** The written line is kept by the blank and comment filter. */
  lemma FileLineKept(rec: RestaurantRecord)
    requires !StartsWith(rec.id, "#")
    ensures Trim(FileLine(rec)) != "" && !StartsWith(FileLine(rec), "#")
  {
    var line := FileLine(rec);
    assert line[|rec.id|] == ',';
    TrimEmptyIffAllTrimmable(line);
    if rec.id != [] {
      assert line[0] == rec.id[0];
    }
  }

  /** Parsing the written line gives back the record. */
  lemma FileLineRoundTrip(rec: RestaurantRecord)
    requires RoundTrips(rec)
    ensures ParseFileLine(Some(FileLine(rec))) == Some(rec)
  {
    var line := FileLine(rec);
    var parts := [rec.id, " " + rec.name, " " + rec.category];
    assert Split(line, ',') == parts by { SplitFileLine(rec); }
    assert Trim(line) != "" && !StartsWith(line, "#") by { FileLineKept(rec); }
    assert Trim(parts[0]) == rec.id by { TrimTrimmed(rec.id); }
    assert Trim(parts[1]) == rec.name by { TrimAfterBlank(rec.name); TrimTrimmed(rec.name); }
    assert Trim(parts[2]) == rec.category by { TrimAfterBlank(rec.category); TrimTrimmed(rec.category); }
  }

  class Restaurant {
    const restaurantId: string
    var name: string
    var category: string

    constructor (restaurantId: string, name: string, category: string)
      ensures Record() == RestaurantRecord(restaurantId, name, category)
    {
      this.restaurantId := restaurantId;
      this.name := name;
      this.category := category;
    }

    function Record(): RestaurantRecord
      reads this
    {
      RestaurantRecord(restaurantId, name, category)
    }

    method SetName(name: string)
      modifies this`name
      ensures this.name == name
    {
      this.name := name;
    }

    method SetCategory(category: string)
      modifies this`category
      ensures this.category == category
    {
      this.category := category;
    }

    /** `toFileFormat`: a line that `createFromFileLine` reads back as this
        restaurant, when its fields allow it. */
    function ToFileFormat(): (s: string)
      reads this
      ensures RoundTrips(Record()) ==> ParseFileLine(Some(s)) == Some(Record())
    {
      if RoundTrips(Record()) then FileLineRoundTrip(Record()); FileLine(Record())
      else FileLine(Record())
    }

    /** `detailsToString`: the details of this restaurant's own fields. */
    function DetailsToString(): (s: string)
      reads this
      ensures s == Details(RestaurantRecord(restaurantId, name, category))
      ensures StartsWith(s, restaurantId + " - ")
    {
      Details(Record())
    }

    /** `createFromFileLine`: a new restaurant exactly when the line parses. */
    static method CreateFromFileLine(line: Option<string>) returns (r: Option<Restaurant>)
      ensures r.None? <==> ParseFileLine(line).None?
      ensures r.Some? ==> fresh(r.value) && r.value.Record() == ParseFileLine(line).value
    {
      var rec := ParseFileLine(line);
      if rec.None? {
        return None;
      }
      var restaurant := new Restaurant(rec.value.id, rec.value.name, rec.value.category);
      return Some(restaurant);
    }
  }
}
