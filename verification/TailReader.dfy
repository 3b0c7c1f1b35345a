/**
 The backward block reader of internal/audit/logger.go: it finds the last entry of a
 file from its end, 4096 bytes at a time, and returns what a forward scan would.
 */
module TailReader {
  import opened Wrappers

  type Byte = b: int | 0 <= b < 256 witness 0

  const NEWLINE: Byte := 10
  const BLOCK := 4096
  const MAX_LINE := 10 * 1024 * 1024

  // ---------- A forward scan ----------

  predicate OneLine(text: seq<Byte>) {
    forall i :: 0 <= i < |text| ==> text[i] != NEWLINE
  }

  // Where the first newline is.
  function Index(text: seq<Byte>): (i: nat)
    requires !OneLine(text)
    ensures i < |text| && text[i] == NEWLINE && forall j :: 0 <= j < i ==> text[j] != NEWLINE
  {
    if text[0] == NEWLINE then 0 else 1 + Index(text[1..])
  }

  // The lines of a file, from the first on; a final newline ends an empty last line.
  function Lines(text: seq<Byte>): (lines: seq<seq<Byte>>)
    ensures |lines| >= 1
    decreases |text|
  {
    if OneLine(text) then [text] else [text[..Index(text)]] + Lines(text[Index(text) + 1..])
  }

  /** A line the reader may return: one that parses, and is neither blank nor, unless it is the file's first, too long.
      `parse` trims the line and decodes it. */
  predicate Acceptable<E>(line: seq<Byte>, first: bool, parse: seq<Byte> -> Option<E>) {
    line != [] && (first || |line| <= MAX_LINE) && parse(line).Some?
  }

  // The last acceptable line of a list of lines, decoded.
  function LastAcceptable<E>(lines: seq<seq<Byte>>, parse: seq<Byte> -> Option<E>): Option<E> {
    if lines == [] then None
    else
      var n := |lines| - 1;
      if Acceptable(lines[n], n == 0, parse) then parse(lines[n]) else LastAcceptable(lines[..n], parse)
  }

  /** It is the last one: it stands on an acceptable line after which no line is acceptable, and there is none only if
      no line is. */
  lemma {:induction false} LastAcceptableIsLast<E>(lines: seq<seq<Byte>>, parse: seq<Byte> -> Option<E>)
    ensures LastAcceptable(lines, parse).Some? <==> exists i :: 0 <= i < |lines| && Acceptable(lines[i], i == 0, parse)
    ensures LastAcceptable(lines, parse).Some? ==>
              exists i :: 0 <= i < |lines| && Acceptable(lines[i], i == 0, parse)
                  && LastAcceptable(lines, parse) == parse(lines[i])
                          && forall j :: i < j < |lines| ==> !Acceptable(lines[j], j == 0, parse)
  {
    if lines != [] {
      LastAcceptableIsLast(lines[..|lines| - 1], parse);
    }
  }

  // ---------- Lines from the end ----------

  lemma SplitAt(text: seq<Byte>, i: nat)
    requires i < |text| && text[i] == NEWLINE && OneLine(text[..i])
    ensures Lines(text) == [text[..i]] + Lines(text[i + 1..])
  {
    assert forall j :: 0 <= j < i ==> text[..i][j] == text[j];
    assert !OneLine(text) && Index(text) == i;
  }

  lemma {:induction false} LinesSnoc(before: seq<Byte>, line: seq<Byte>)
    requires OneLine(line)
    ensures Lines(before + [NEWLINE] + line) == Lines(before) + [line]
    decreases |before|
  {
    hide Lines;
    var text := before + [NEWLINE] + line;
    if OneLine(before) {
      SplitAt(text, |before|);
      assert text[..|before|] == before && text[|before| + 1..] == line;
      SingleLine(before);
      SingleLine(line);
    } else {
      var i := Index(before);
      assert text[..i] == before[..i];
      assert text[i + 1..] == before[i + 1..] + [NEWLINE] + line;
      SplitAt(text, i);
      SplitAt(before, i);
      LinesSnoc(before[i + 1..], line);
    }
  }

  lemma SingleLine(line: seq<Byte>)
    requires OneLine(line)
    ensures Lines(line) == [line]
  {
  }

  // The entry found when everything from `end` on is known to hold none.
  function Found<E>(data: seq<Byte>, end: nat, parse: seq<Byte> -> Option<E>): Option<E>
    requires end <= |data|
  {
    LastAcceptable(Lines(data[..end]), parse)
  }

  // Looking at the line that ends at `end` and starts just after the newline at `at`.
  lemma FoundStep<E>(data: seq<Byte>, at: nat, end: nat, parse: seq<Byte> -> Option<E>)
    requires at < end <= |data| && data[at] == NEWLINE && OneLine(data[at + 1..end])
    ensures Found(data, end, parse) == if Acceptable(data[at + 1..end], false, parse) then parse(data[at + 1..end])
              else Found(data, at, parse)
  {
    assert data[..end] == data[..at] + [NEWLINE] + data[at + 1..end];
    LinesSnoc(data[..at], data[at + 1..end]);
    var lines := Lines(data[..end]);
    assert lines[..|lines| - 1] == Lines(data[..at]);
  }

  // ---------- The reader ----------

  /** One block, scanned from its end. `currentEnd` is where the line being looked for ends. */
  method ScanBlock<E>(data: seq<Byte>, offset: nat, size: nat, end: nat, parse: seq<Byte> -> Option<E>)
    returns (entry: Option<E>, currentEnd: nat)
    requires offset + size <= |data| && size <= BLOCK && offset + size <= end <= |data|
    requires OneLine(data[offset + size..end])
    requires Found(data, end, parse) == Found(data, |data|, parse)
    ensures entry.Some? ==> entry == Found(data, |data|, parse)
    ensures entry.None? ==> offset <= currentEnd <= |data| && OneLine(data[offset..currentEnd])
                            && Found(data, currentEnd, parse) == Found(data, |data|, parse)
  {
    hide Found, Acceptable;
    var buf := data[offset..offset + size];
    currentEnd := end;
    var i := size;
    while i > 0
      invariant 0 <= i <= size && offset + i <= currentEnd <= |data|
      invariant OneLine(data[offset + i..currentEnd])
      invariant Found(data, currentEnd, parse) == Found(data, |data|, parse)
    {
      i := i - 1;
      var at := offset + i;
      assert data[at..currentEnd] == [buf[i]] + data[at + 1..currentEnd];
      if buf[i] == NEWLINE {
        FoundStep(data, at, currentEnd, parse);
        var line := data[at + 1..currentEnd];
        if at == |data| - 1 {
          BlankIsUnacceptable(line, false, parse);
          currentEnd := |data| - 1;
          continue;
        }
        if |line| > MAX_LINE || |line| <= 0 {
          BlankIsUnacceptable(line, false, parse);
          currentEnd := at;
          continue;
        }
        ParsedIsAcceptable(line, parse);
        if parse(line).Some? {
          return parse(line), currentEnd;
        }
        currentEnd := at;
      }
    }
    entry := None;
  }

  lemma BlankIsUnacceptable<E>(line: seq<Byte>, first: bool, parse: seq<Byte> -> Option<E>)
    ensures line == [] || (!first && |line| > MAX_LINE) ==> !Acceptable(line, first, parse)
  {
  }

  lemma ParsedIsAcceptable<E>(line: seq<Byte>, parse: seq<Byte> -> Option<E>)
    requires 0 < |line| <= MAX_LINE
    ensures Acceptable(line, false, parse) <==> parse(line).Some?
  {
  }

  /** readLastEntry: for every file, whatever its lines and wherever the blocks fall, it returns the entry a forward
      scan finds on the last acceptable line. */
  method ReadLastEntry<E>(data: seq<Byte>, parse: seq<Byte> -> Option<E>) returns (entry: Option<E>)
    ensures entry == LastAcceptable(Lines(data), parse)
  {
    hide Acceptable;
    assert data[..|data|] == data;
    var offset, currentEnd := |data|, |data|;
    while offset > 0
      invariant 0 <= offset <= currentEnd <= |data|
      invariant OneLine(data[offset..currentEnd])
      invariant Found(data, currentEnd, parse) == Found(data, |data|, parse)
    {
      hide Found;
      var size := if offset < BLOCK then offset else BLOCK;
      offset := offset - size;
      entry, currentEnd := ScanBlock(data, offset, size, currentEnd, parse);
      if entry.Some? {
        return;
      }
    }
    assert Lines(data[..currentEnd]) == [data[..currentEnd]];
    FirstLine(data[..currentEnd], parse);
    entry := if currentEnd > 0 then parse(data[..currentEnd]) else None;
  }

  lemma FirstLine<E>(line: seq<Byte>, parse: seq<Byte> -> Option<E>)
    ensures LastAcceptable([line], parse) == if line != [] then parse(line) else None
  {
    assert LastAcceptable([line][..0], parse) == None;
  }

  // ---------- Reopening a log ----------

  // A file of whole lines, each ended by a newline.
  function FileOf(lines: seq<seq<Byte>>): seq<Byte> {
    if lines == [] then [] else FileOf(lines[..|lines| - 1]) + lines[|lines| - 1] + [NEWLINE]
  }

  /** A file of whole lines, with or without an unterminated rest, splits back into just those. */
  lemma {:induction false} LinesOfFile(lines: seq<seq<Byte>>, rest: seq<Byte>)
    requires OneLine(rest) && forall i :: 0 <= i < |lines| ==> OneLine(lines[i])
    ensures Lines(FileOf(lines) + rest) == lines + [rest]
    decreases |lines|
  {
    hide Lines, OneLine;
    if lines == [] {
      assert FileOf(lines) + rest == rest;
      SingleLine(rest);
    } else {
      var shorter, last := lines[..|lines| - 1], lines[|lines| - 1];
      var before := FileOf(shorter) + last;
      LinesOfFile(shorter, last);
      LinesSnoc(before, rest);
      assert FileOf(lines) + rest == before + [NEWLINE] + rest;
      assert shorter + [last] == lines;
    }
  }

  /** What opening a log finds: the last line that fits the limit, or else the first; so the last one of all exactly when
      that fits or is alone. */
  lemma ReopenFindsLast<E>(lines: seq<seq<Byte>>, parse: seq<Byte> -> Option<E>)
    requires lines != [] && forall i :: 0 <= i < |lines| ==> OneLine(lines[i]) && lines[i] != [] && parse(lines[i]).Some?
    requires forall i, j :: 0 <= i < j < |lines| ==> parse(lines[i]) != parse(lines[j])
    ensures LastAcceptable(Lines(FileOf(lines)), parse) == LastAcceptable(lines, parse)
    ensures LastAcceptable(lines, parse).Some?
    ensures LastAcceptable(lines, parse) == parse(lines[|lines| - 1]) <==>
              |lines[|lines| - 1]| <= MAX_LINE || |lines| == 1
  {
    assert FileOf(lines) + [] == FileOf(lines);
    LinesOfFile(lines, []);
    BlankEndIsIgnored(lines, parse);
    assert Acceptable(lines[0], true, parse);
    LastAcceptableIsLast(lines, parse);
  }

  lemma BlankEndIsIgnored<E>(lines: seq<seq<Byte>>, parse: seq<Byte> -> Option<E>)
    ensures LastAcceptable(lines + [[]], parse) == LastAcceptable(lines, parse)
  {
    var all := lines + [[]];
    assert all[|all| - 1] == [] && all[..|all| - 1] == lines;
  }
}
