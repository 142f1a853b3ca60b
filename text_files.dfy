/** Line-level helpers shared by the text files the system keeps
    (FileManager.java's `loadFromFile`, `processFileLines`, `removeFromFile`,
    `updateInFile`, and the line-by-line loading in RestaurantManager.java).
    A file is the sequence of its lines. */
module TextFiles {
  import opened Common
  import opened JavaText

  /** The values a line parser yields over the lines, in file order; lines
      it rejects contribute nothing. */
  function Collect<T>(lines: seq<string>, parse: string -> Option<T>): seq<T> {
    if lines == [] then []
    else
      var last := parse(lines[|lines| - 1]);
      Collect(lines[..|lines| - 1], parse) + (if last.Some? then [last.value] else [])
  }

  lemma CollectSnoc<T>(lines: seq<string>, line: string, parse: string -> Option<T>)
    ensures Collect(lines + [line], parse)
      == Collect(lines, parse) + (if parse(line).Some? then [parse(line).value] else [])
  {
    assert (lines + [line])[..|lines|] == lines;
  }

  lemma {:induction false} CollectAppend<T>(a: seq<string>, b: seq<string>, parse: string -> Option<T>)
    ensures Collect(a + b, parse) == Collect(a, parse) + Collect(b, parse)
    decreases |b|
  {
    if b == [] {
      assert a + b == a;
    } else {
      CollectAppend(a, b[..|b| - 1], parse);
      assert (a + b)[..|a + b| - 1] == a + b[..|b| - 1];
      assert (a + b)[|a + b| - 1] == b[|b| - 1];
    }
  }

  /** When the parser accepts every line, it yields one value per line. */
  lemma {:induction false} CollectAll<T>(lines: seq<string>, parse: string -> Option<T>, vs: seq<T>)
    requires |lines| == |vs|
    requires forall k :: 0 <= k < |lines| ==> parse(lines[k]) == Some(vs[k])
    ensures Collect(lines, parse) == vs
    decreases |lines|
  {
    if lines != [] {
      CollectAll(lines[..|lines| - 1], parse, vs[..|vs| - 1]);
      assert vs[..|vs| - 1] + [vs[|vs| - 1]] == vs;
    }
  }

  /** A parser that rejects a line makes it contribute nothing. */
  lemma CollectRejected<T>(line: string, parse: string -> Option<T>)
    requires parse(line).None?
    ensures Collect([line], parse) == []
  {
    assert [line][..0] == [];
  }

  /** A line `processFileLines` hands to its processor and `loadFromFile` to
      its parser: neither blank nor a '#' comment once trimmed. */
  predicate IsDataLine(line: string) {
    Trim(line) != "" && !StartsWith(Trim(line), "#")
  }

  /** The lines `loadFromFile` hands to the parser: the data lines, trimmed. */
  function ParserInput(lines: seq<string>): seq<string> {
    Collect(lines, (line: string) => if IsDataLine(line) then Some(Trim(line)) else None)
  }

  /** Every line the parser sees is trimmed, not empty and not a comment. */
  lemma {:induction false} ParserInputClean(lines: seq<string>)
    ensures forall k :: 0 <= k < |ParserInput(lines)| ==>
      var line := ParserInput(lines)[k];
      line != "" && IsTrimmed(line) && line[0] != '#'
    decreases |lines|
  {
    if lines != [] {
      var init := lines[..|lines| - 1];
      var last := lines[|lines| - 1];
      ParserInputClean(init);
      assert lines == init + [last];
      CollectSnoc(init, last, (line: string) => if IsDataLine(line) then Some(Trim(line)) else None);
      TrimIsTrimmed(last);
      if IsDataLine(last) {
        var t := Trim(last);
        assert ParserInput(lines) == ParserInput(init) + [t];
        assert t[..1] == [t[0]];
      } else {
        assert ParserInput(lines) == ParserInput(init);
      }
    }
  }

  /** `loadFromFile`'s loop: trims each line, skips blanks and comments, and
      hands the rest to the parser in order. */
  method LoadFromFile(lines: seq<string>) returns (handed: seq<string>)
    ensures handed == ParserInput(lines)
  {
    handed := [];
    for i := 0 to |lines|
      invariant handed == ParserInput(lines[..i])
    {
      var line := Trim(lines[i]);
      assert lines[..i + 1] == lines[..i] + [lines[i]];
      CollectSnoc(lines[..i], lines[i], (line: string) => if IsDataLine(line) then Some(Trim(line)) else None);
      if line == "" || StartsWith(line, "#") {
        continue;
      }
      handed := handed + [line];
    }
    assert lines[..|lines|] == lines;
  }

  /** What `processFileLines` writes back: blank and comment lines verbatim,
      each data line replaced by the processor's result, or dropped when that
      is `null`. */
  function Processed(lines: seq<string>, processor: string -> Option<string>): seq<string> {
    Collect(lines, (line: string) => if IsDataLine(line) then processor(line) else Some(line))
  }

  /** `processFileLines`'s loop over the lines read from the file. */
  method ProcessFileLines(lines: seq<string>, processor: string -> Option<string>)
    returns (newLines: seq<string>)
    ensures newLines == Processed(lines, processor)
  {
    newLines := [];
    for i := 0 to |lines|
      invariant newLines == Processed(lines[..i], processor)
    {
      var line := lines[i];
      assert lines[..i + 1] == lines[..i] + [line];
      CollectSnoc(lines[..i], line, (line: string) => if IsDataLine(line) then processor(line) else Some(line));
      var trimmed := Trim(line);
      if StartsWith(trimmed, "#") || trimmed == "" {
        newLines := newLines + [line];
        continue;
      }
      var processed := processor(line);
      if processed.Some? {
        newLines := newLines + [processed.value];
      }
    }
    assert lines[..|lines|] == lines;
  }

  /** The lines a predicate keeps, in order. */
  function Keep(lines: seq<string>, keep: string -> bool): (r: seq<string>)
    ensures |r| <= |lines|
  {
    if lines == [] then []
    else Keep(lines[..|lines| - 1], keep) + (if keep(lines[|lines| - 1]) then [lines[|lines| - 1]] else [])
  }

  /** A processor that either keeps a line as it is or drops it filters the
      file: blank and comment lines stay, and so does every data line the
      processor keeps, in their original order. */
  lemma {:induction false} ProcessedFilters(lines: seq<string>, processor: string -> Option<string>, keep: string -> bool)
    requires forall line :: IsDataLine(line) ==> processor(line) == if keep(line) then Some(line) else None
    requires forall line :: !IsDataLine(line) ==> keep(line)
    ensures Processed(lines, processor) == Keep(lines, keep)
    decreases |lines|
  {
    if lines != [] {
      var init := lines[..|lines| - 1];
      var last := lines[|lines| - 1];
      ProcessedFilters(init, processor, keep);
      assert lines == init + [last];
      CollectSnoc(init, last, (line: string) => if IsDataLine(line) then processor(line) else Some(line));
    }
  }

  /** A processor that maps every data line to some line keeps the file's
      length, replacing each data line in place. */
  lemma {:induction false} ProcessedReplaces(lines: seq<string>, processor: string -> Option<string>)
    requires forall line :: IsDataLine(line) ==> processor(line).Some?
    ensures |Processed(lines, processor)| == |lines|
    ensures forall k :: 0 <= k < |lines| ==>
      Processed(lines, processor)[k] == if IsDataLine(lines[k]) then processor(lines[k]).value else lines[k]
    decreases |lines|
  {
    if lines != [] {
      var init := lines[..|lines| - 1];
      var last := lines[|lines| - 1];
      ProcessedReplaces(init, processor);
      assert lines == init + [last];
      CollectSnoc(init, last, (line: string) => if IsDataLine(line) then processor(line) else Some(line));
    }
  }

  /** The test `removeFromFile` and `updateInFile` apply to a data line: its
      trimmed text starts with the id followed by a comma or a blank. */
  predicate MatchesId(line: string, id: string) {
    StartsWith(Trim(line), id + ",") || StartsWith(Trim(line), id + " ")
  }

  /** `removeFromFile`'s processor. */
  function Remover(id: string): string -> Option<string> {
    (line: string) => if MatchesId(line, id) then None else Some(line)
  }

  /** `updateInFile`'s processor with a fixed replacement line. */
  function Updater(id: string, newLine: string): string -> Option<string> {
    (line: string) => if MatchesId(line, id) then Some(newLine) else Some(line)
  }

  /** The lines `removeFromFile` keeps: all but the data lines matching the id. */
  function Survives(id: string): string -> bool {
    (line: string) => !IsDataLine(line) || !MatchesId(line, id)
  }

  /** `removeFromFile` drops exactly the data lines that match the id and
      keeps every other line, in order. */
  lemma RemoveFromFileFilters(lines: seq<string>, id: string)
    ensures Processed(lines, Remover(id)) == Keep(lines, Survives(id))
  {
    ProcessedFilters(lines, Remover(id), Survives(id));
  }

  /** `updateInFile` replaces exactly the data lines that match the id, in
      place, and leaves every other line as it was. */
  lemma UpdateInFileReplaces(lines: seq<string>, id: string, newLine: string)
    ensures |Processed(lines, Updater(id, newLine))| == |lines|
    ensures forall k :: 0 <= k < |lines| ==>
      Processed(lines, Updater(id, newLine))[k]
        == if IsDataLine(lines[k]) && MatchesId(lines[k], id) then newLine else lines[k]
  {
    ProcessedReplaces(lines, Updater(id, newLine));
  }
}
