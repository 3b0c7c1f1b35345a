/**
 The hash-chained audit log of internal/audit/logger.go: one writer appends entries
 as lines, each naming the checksum of the one before it, a reopened log resumes from
 what the tail reader finds, and a verifier walks the chain. SHA-256 is an injective
 constructor; JSON is any faithful codec.
 */
module Audit {
  import opened Wrappers
  import opened TailReader

  datatype Hash = NoHash | Sha256(sequenceNum: nat, prevHash: Hash, payload: string)

  datatype Entry = Entry(sequenceNum: nat, prevHash: Hash, payload: string, checksum: Hash)

  type Line = seq<Byte>

  // How an entry becomes a line, and which lines are entries.
  datatype Codec = Codec(encode: Entry -> Line, decode: Line -> Option<Entry>)

  /** An encoded entry is one non-blank line and decodes to the entry; a part of one decodes to nothing, and neither does an
      entry that follows all or part of another on one line. */
  ghost predicate Faithful(c: Codec) {
    && (forall e :: OneLine(c.encode(e)) && c.encode(e) != [] && c.decode(c.encode(e)) == Some(e))
    && (forall e, n :: 0 < n < |c.encode(e)| ==> c.decode(c.encode(e)[..n]) == None)
    && (forall e, n, f :: 0 < n <= |c.encode(e)| ==> c.decode(c.encode(e)[..n] + c.encode(f)) == None)
  }

  function ChecksumOf(sequenceNum: nat, prevHash: Hash, payload: string): Hash {
    Sha256(sequenceNum, prevHash, payload)
  }

  function LastHash(log: seq<Entry>): Hash {
    if log == [] then NoHash else log[|log| - 1].checksum
  }

  // Each entry carries the next number, its predecessor's checksum and its own.
  predicate ValidChain(log: seq<Entry>) {
    forall i :: 0 <= i < |log| ==>
      && log[i].sequenceNum == i + 1
      && log[i].prevHash == LastHash(log[..i])
      && log[i].checksum == ChecksumOf(log[i].sequenceNum, log[i].prevHash, log[i].payload)
  }

  // ---------- VerifyIntegrity ----------

  datatype VerifyError = SequenceMismatch | ChainBroken | ChecksumMismatch | InvalidJSON | LineTooLong

  // The entries on a list of lines.
  function Decoded(lines: seq<Line>, decode: Line -> Option<Entry>): seq<Entry> {
    if lines == [] then []
    else
      var last := lines[|lines| - 1];
      Decoded(lines[..|lines| - 1], decode)
      + if last != [] && decode(last).Some? then [decode(last).value] else []
  }

  // What the scanner takes of a line; unlike the tail reader it refuses one of exactly the limit.
  predicate Scannable(line: Line, decode: Line -> Option<Entry>) {
    line != [] ==> |line| < MAX_LINE && decode(line).Some?
  }

  predicate Accepted(lines: seq<Line>, decode: Line -> Option<Entry>) {
    (forall i :: 0 <= i < |lines| ==> Scannable(lines[i], decode)) && ValidChain(Decoded(lines, decode))
  }

  lemma DecodedStep(lines: seq<Line>, line: Line, decode: Line -> Option<Entry>)
    ensures Decoded(lines + [line], decode)
            == Decoded(lines, decode) + if line != [] && decode(line).Some? then [decode(line).value] else []
  {
    assert (lines + [line])[..|lines|] == lines;
  }

  lemma {:induction false} DecodedPrefix(lines: seq<Line>, n: nat, decode: Line -> Option<Entry>)
    requires n <= |lines|
    ensures Decoded(lines[..n], decode) <= Decoded(lines, decode)
    decreases |lines|
  {
    if n < |lines| {
      assert lines[..|lines| - 1][..n] == lines[..n];
      DecodedPrefix(lines[..|lines| - 1], n, decode);
    } else {
      assert lines[..n] == lines;
    }
  }

  // A line that is refused, or that breaks the chain, is never made good by what follows.
  lemma PrefixAccepted(lines: seq<Line>, n: nat, decode: Line -> Option<Entry>)
    requires n <= |lines| && Accepted(lines, decode)
    ensures Accepted(lines[..n], decode)
  {
    hide ValidChain, Scannable;
    var first, all := Decoded(lines[..n], decode), Decoded(lines, decode);
    DecodedPrefix(lines, n, decode);
    PrefixOfValid(all, |first|);
    assert all[..|first|] == first;
    assert forall i :: 0 <= i < n ==> lines[..n][i] == lines[i];
  }

  lemma RefusedByPrefix(lines: seq<Line>, n: nat, decode: Line -> Option<Entry>)
    requires n <= |lines|
    ensures Accepted(lines, decode) ==> Accepted(lines[..n], decode)
  {
    hide Accepted;
    if Accepted(lines, decode) {
      PrefixAccepted(lines, n, decode);
    }
  }

  lemma AcceptedStep(lines: seq<Line>, line: Line, decode: Line -> Option<Entry>)
    ensures Accepted(lines + [line], decode) <==>
              && Accepted(lines, decode) && Scannable(line, decode)
              && (line != [] ==>
                    var e, seen := decode(line).value, Decoded(lines, decode);
                    && e.sequenceNum == |seen| + 1 && e.prevHash == LastHash(seen)
                    && e.checksum == ChecksumOf(e.sequenceNum, e.prevHash, e.payload))
  {
    hide ValidChain;
    var longer := lines + [line];
    DecodedStep(lines, line, decode);
    if line != [] && decode(line).Some? {
      ChainStep(Decoded(lines, decode), decode(line).value);
    }
    assert Decoded(lines, decode) + [] == Decoded(lines, decode);
    assert forall i :: 0 <= i < |lines| ==> longer[i] == lines[i];
    assert longer[|lines|] == line;
    if Accepted(longer, decode) {
      PrefixAccepted(longer, |lines|, decode);
      assert longer[..|lines|] == lines && Scannable(longer[|lines|], decode);
    }
  }

  /** VerifyIntegrity accepts the lines of a log exactly when every line is short enough and one entry, blank ones apart,
      and the entries form a valid chain. */
  method VerifyIntegrity(lines: seq<Line>, decode: Line -> Option<Entry>) returns (error: Option<VerifyError>)
    ensures error.None? <==> Accepted(lines, decode)
  {
    hide ValidChain, Accepted;
    NothingIsAccepted(decode);
    var prevHash, sequenceNum := NoHash, 0;
    for i := 0 to |lines|
      invariant sequenceNum == |Decoded(lines[..i], decode)| && prevHash == LastHash(Decoded(lines[..i], decode))
      invariant Accepted(lines[..i], decode)
    {
      var line := lines[i];
      assert lines[..i + 1] == lines[..i] + [line];
      DecodedStep(lines[..i], line, decode);
      AcceptedStep(lines[..i], line, decode);
      if line == [] {
        continue;
      }
      if |line| >= MAX_LINE {
        RefusedByPrefix(lines, i + 1, decode);
        return Some(LineTooLong);
      }
      if decode(line).None? {
        RefusedByPrefix(lines, i + 1, decode);
        return Some(InvalidJSON);
      }
      var entry := decode(line).value;
      sequenceNum := sequenceNum + 1;
      if entry.sequenceNum != sequenceNum {
        RefusedByPrefix(lines, i + 1, decode);
        return Some(SequenceMismatch);
      }
      if entry.prevHash != prevHash {
        RefusedByPrefix(lines, i + 1, decode);
        return Some(ChainBroken);
      }
      if entry.checksum != ChecksumOf(entry.sequenceNum, entry.prevHash, entry.payload) {
        RefusedByPrefix(lines, i + 1, decode);
        return Some(ChecksumMismatch);
      }
      prevHash := entry.checksum;
    }
    assert lines[..|lines|] == lines;
    return None;
  }

  lemma NothingIsAccepted(decode: Line -> Option<Entry>)
    ensures Accepted([], decode)
  {
  }

  lemma EmptyChain()
    ensures ValidChain([])
  {
  }

  lemma ChainStep(log: seq<Entry>, e: Entry)
    ensures ValidChain(log + [e]) <==>
              && ValidChain(log) && e.sequenceNum == |log| + 1 && e.prevHash == LastHash(log)
              && e.checksum == ChecksumOf(e.sequenceNum, e.prevHash, e.payload)
  {
    var longer := log + [e];
    assert longer[..|log|] == log;
    forall i | 0 <= i < |log|
      ensures longer[i] == log[i] && longer[..i] == log[..i]
    {
    }
  }

  lemma PrefixOfValid(log: seq<Entry>, n: nat)
    requires n <= |log|
    ensures ValidChain(log) ==> ValidChain(log[..n])
  {
    if ValidChain(log) {
      forall i | 0 <= i < n
        ensures log[..n][i] == log[i] && log[..n][..i] == log[..i]
      {
      }
    }
  }

  /** Tamper evidence: two accepted logs that end in the same checksum are the same log, entry for entry. */
  lemma {:induction false} SameFinalChecksum(one: seq<Entry>, two: seq<Entry>)
    requires ValidChain(one) && ValidChain(two) && LastHash(one) == LastHash(two)
    ensures one == two
    decreases |one|
  {
    if one != [] && two != [] {
      var a, b := one[..|one| - 1], two[..|two| - 1];
      assert one == a + [one[|one| - 1]] && two == b + [two[|two| - 1]];
      ChainStep(a, one[|one| - 1]);
      ChainStep(b, two[|two| - 1]);
      SameFinalChecksum(a, b);
    }
  }

  /** So any change to a log that keeps its final checksum is rejected. */
  lemma TamperingIsRejected(original: seq<Entry>, tampered: seq<Entry>)
    requires ValidChain(original) && tampered != original && LastHash(tampered) == LastHash(original)
    ensures !ValidChain(tampered)
  {
    if ValidChain(tampered) {
      SameFinalChecksum(original, tampered);
    }
  }

  // ---------- The writer ----------

  /** `lines` are the terminated lines written so far, of which a crash may lose those after the first `durable`; `rest`
      is what a crash left unterminated after them. */
  datatype Log = Log(lines: seq<Line>, rest: Line, durable: nat, lastHash: Hash, sequenceNum: nat, unflushed: nat)

  function Text(l: Log): seq<Byte> {
    FileOf(l.lines) + l.rest
  }

  // loadLastHash: the writer resumes from the entry the tail reader returns.
  function Opened(lines: seq<Line>, rest: Line, c: Codec): Log {
    var last := LastAcceptable(Lines(FileOf(lines) + rest), c.decode);
    if last.Some? && last.value.checksum != NoHash then
      Log(lines, rest, |lines|, last.value.checksum, last.value.sequenceNum, 0)
    else Log(lines, rest, |lines|, NoHash, 0, 0)
  }

  function NextEntry(l: Log, payload: string): Entry {
    Entry(l.sequenceNum + 1, l.lastHash, payload, ChecksumOf(l.sequenceNum + 1, l.lastHash, payload))
  }

  // The number is taken before the entry is encoded, and not given back if that fails. When the disk does not sync, the
  // call fails too, but the entry stays written.
  function Logged(l: Log, payload: string, encodes: bool, syncs: bool, bufferSize: int, c: Codec): Log {
    var n := l.sequenceNum + 1;
    if !encodes then l.(sequenceNum := n)
    else
      var e := NextEntry(l, payload);
      var written := Log(l.lines + [l.rest + c.encode(e)], [], l.durable, e.checksum, n, l.unflushed + 1);
      if written.unflushed >= bufferSize then Flushed(written, syncs) else written
  }

  function Flushed(l: Log, syncs: bool): Log {
    if syncs then l.(durable := |l.lines|, unflushed := 0) else l
  }

  // A crash keeps every durable line, some of the others, and part of the first it loses.
  function Crashed(l: Log, keptLines: nat, keptBytes: nat): (seq<Line>, Line) {
    var n := if keptLines < l.durable then l.durable else keptLines;
    if n >= |l.lines| then (l.lines, l.rest)
    else (l.lines[..n], l.lines[n][..if keptBytes < |l.lines[n]| then keptBytes else |l.lines[n]|])
  }

  datatype Op =
    | LogEntry(payload: string, encodes: bool, syncs: bool)
    | Flush(syncs: bool)
    | CloseAndReopen
    | CrashAndReopen(keptLines: nat, keptBytes: nat)

  function Apply(l: Log, op: Op, bufferSize: int, c: Codec): Log {
    match op
    case LogEntry(payload, encodes, syncs) => Logged(l, payload, encodes, syncs, bufferSize, c)
    case Flush(syncs) => Flushed(l, syncs)
    case CloseAndReopen => Opened(l.lines, l.rest, c)
    case CrashAndReopen(keptLines, keptBytes) =>
      var (lines, rest) := Crashed(l, keptLines, keptBytes);
      Opened(lines, rest, c)
  }

  function After(ops: seq<Op>, bufferSize: int, c: Codec): Log {
    if ops == [] then Opened([], [], c) else Apply(After(ops[..|ops| - 1], bufferSize, c), ops[|ops| - 1], bufferSize, c)
  }

  // The verifier's view: what the scanner makes of the text.
  predicate Verifies(l: Log, c: Codec) {
    Accepted(Lines(Text(l)), c.decode)
  }

  // ---------- Whole logs ----------

  // Every line is one entry's, and nothing is left over.
  predicate Whole(l: Log, c: Codec) {
    && l.rest == [] && l.durable <= |l.lines|
    && forall i :: 0 <= i < |l.lines| ==> IsEntry(l.lines[i], c)
  }

  predicate IsEntry(line: Line, c: Codec) {
    OneLine(line) && line != [] && c.decode(line).Some? && c.encode(c.decode(line).value) == line
  }

  function Entries(l: Log, c: Codec): seq<Entry> {
    Decoded(l.lines, c.decode)
  }

  // No line reaches the scanner's limit.
  predicate Short(l: Log) {
    forall i :: 0 <= i < |l.lines| ==> |l.lines[i]| < MAX_LINE
  }

  lemma {:induction false} EntriesAt(lines: seq<Line>, c: Codec)
    requires forall i :: 0 <= i < |lines| ==> IsEntry(lines[i], c)
    ensures |Decoded(lines, c.decode)| == |lines|
    ensures forall i :: 0 <= i < |lines| ==> Some(Decoded(lines, c.decode)[i]) == c.decode(lines[i])
  {
    if lines != [] {
      EntriesAt(lines[..|lines| - 1], c);
    }
  }

  // A whole log verifies when its chain is valid and its lines are short.
  lemma WholeVerifies(l: Log, c: Codec)
    requires Whole(l, c)
    ensures Verifies(l, c) <==> ValidChain(Entries(l, c)) && Short(l)
  {
    hide ValidChain;
    LinesOfFile(l.lines, []);
    assert Lines(Text(l)) == l.lines + [[]];
    DecodedStep(l.lines, [], c.decode);
    AcceptedStep(l.lines, [], c.decode);
    forall i | 0 <= i < |l.lines|
      ensures Scannable(l.lines[i], c.decode) <==> |l.lines[i]| < MAX_LINE
    {
      assert IsEntry(l.lines[i], c);
    }
  }

  // Chain entries are distinct, having distinct numbers and therefore distinct checksums.
  lemma ChainIsDistinct(log: seq<Entry>, i: nat, j: nat)
    requires ValidChain(log) && i < j < |log|
    ensures log[i].checksum != log[j].checksum && log[i].checksum != NoHash
  {
  }

  /** Where the writer stands in its own chain. `dirty`: it has used up numbers beyond the last entry's. `stale`: it
      resumed from an earlier entry than the last. */
  predicate OnTrack(l: Log, c: Codec, dirty: bool, stale: bool) {
    var log := Entries(l, c);
    && Whole(l, c) && ValidChain(log)
    && (if stale then l.lastHash != LastHash(log)
        else l.lastHash == LastHash(log) && if dirty then l.sequenceNum > |log| else l.sequenceNum == |log|)
  }

  // The tail reader does not find the last line.
  predicate LastIsSkipped(lines: seq<Line>) {
    |lines| > 1 && |lines[|lines| - 1]| > MAX_LINE
  }

  lemma EntryOfChain(log: seq<Entry>, k: nat)
    requires ValidChain(log) && k < |log|
    ensures log[k].sequenceNum == k + 1 && log[k].checksum != NoHash
  {
  }

  // The entry the tail reader finds in a valid log, and when that is the last.
  lemma FoundEntry(lines: seq<Line>, c: Codec) returns (k: nat)
    requires lines != [] && forall i :: 0 <= i < |lines| ==> IsEntry(lines[i], c)
    requires ValidChain(Decoded(lines, c.decode))
    ensures k < |lines| == |Decoded(lines, c.decode)|
    ensures LastAcceptable(Lines(FileOf(lines)), c.decode) == Some(Decoded(lines, c.decode)[k])
    ensures k == |lines| - 1 <==> !LastIsSkipped(lines)
  {
    hide ValidChain, LastAcceptable, Lines, FileOf;
    var log := Decoded(lines, c.decode);
    EntriesAt(lines, c);
    forall i, j | 0 <= i < j < |lines|
      ensures c.decode(lines[i]) != c.decode(lines[j])
    {
      ChainIsDistinct(log, i, j);
    }
    ReopenFindsLast(lines, c.decode);
    LastAcceptableIsLast(lines, c.decode);
    k :| 0 <= k < |lines| && LastAcceptable(lines, c.decode) == c.decode(lines[k]);
  }

  // So the writer resumes from the k-th entry.
  lemma OpenedAt(lines: seq<Line>, c: Codec) returns (k: nat)
    requires lines != [] && forall i :: 0 <= i < |lines| ==> IsEntry(lines[i], c)
    requires ValidChain(Decoded(lines, c.decode))
    ensures k < |lines| == |Decoded(lines, c.decode)| && (k == |lines| - 1 <==> !LastIsSkipped(lines))
    ensures Opened(lines, [], c) == Log(lines, [], |lines|, Decoded(lines, c.decode)[k].checksum, k + 1, 0)
  {
    hide ValidChain, Lines, LastIsSkipped, IsEntry, LastAcceptable, FileOf, Decoded;
    WholeFile(lines);
    k := FoundEntry(lines, c);
    EntryOfChain(Decoded(lines, c.decode), k);
  }

  lemma OpenedEmpty(c: Codec)
    ensures Opened([], [], c) == Log([], [], 0, NoHash, 0, 0)
  {
    hide Lines, LastAcceptable, FileOf;
    WholeFile([]);
    NothingToFind(c.decode);
  }

  /** Reopening a valid log puts the writer in step, unless the last line is over the tail reader's limit and not the
      first. */
  lemma OpenedOnTrack(lines: seq<Line>, c: Codec)
    requires forall i :: 0 <= i < |lines| ==> IsEntry(lines[i], c)
    requires ValidChain(Decoded(lines, c.decode))
    ensures OnTrack(Opened(lines, [], c), c, false, LastIsSkipped(lines))
  {
    hide ValidChain, Opened, LastIsSkipped, IsEntry, Decoded;
    if lines == [] {
      OpenedEmpty(c);
      NothingSkipped(lines);
      EntriesAt(lines, c);
    } else {
      var k := OpenedAt(lines, c);
      if k < |lines| - 1 {
        ChainIsDistinct(Decoded(lines, c.decode), k, |lines| - 1);
      }
    }
  }

  lemma WholeFile(lines: seq<Line>)
    ensures FileOf(lines) + [] == FileOf(lines) && (lines == [] ==> FileOf(lines) == [])
  {
  }

  lemma NothingToFind(decode: Line -> Option<Entry>)
    ensures LastAcceptable(Lines([]), decode) == None
  {
    SingleLine([]);
    FirstLine([], decode);
  }

  lemma NothingSkipped(lines: seq<Line>)
    ensures lines == [] ==> !LastIsSkipped(lines)
  {
  }

  // A written entry is one more line, and one more entry.
  lemma LoggedEntries(l: Log, payload: string, syncs: bool, bufferSize: int, c: Codec)
    requires Whole(l, c) && Faithful(c)
    ensures var t := Logged(l, payload, true, syncs, bufferSize, c); var e := NextEntry(l, payload);
            && Whole(t, c) && t.lines == l.lines + [c.encode(e)] && Entries(t, c) == Entries(l, c) + [e]
            && t.lastHash == LastHash(Entries(t, c)) && t.sequenceNum == l.sequenceNum + 1
  {
    hide ValidChain;
    var e := NextEntry(l, payload);
    assert l.rest + c.encode(e) == c.encode(e);
    DecodedStep(l.lines, c.encode(e), c.decode);
  }

  // ---------- Failed calls and long entries ----------

  predicate Writes(op: Op) {
    op.LogEntry? && op.encodes
  }

  predicate Fails(op: Op) {
    op.LogEntry? && !op.encodes
  }

  // A call that could not encode its entry, since the log was last reopened.
  predicate Dirty(ops: seq<Op>) {
    exists i :: 0 <= i < |ops| && Fails(ops[i]) && NoReopening(ops, i)
  }

  // The log was last reopened over a last line the tail reader skips.
  predicate Stale(ops: seq<Op>, bufferSize: int, c: Codec) {
    exists i :: 0 <= i < |ops| && ops[i].CloseAndReopen? && LastIsSkipped(After(ops[..i], bufferSize, c).lines)
                && NoReopening(ops, i)
  }

  predicate NoReopening(ops: seq<Op>, i: nat) {
    forall k :: i < k < |ops| ==> !ops[k].CloseAndReopen?
  }

  // An entry written after either, before the log was reopened in step.
  predicate Spoiled(ops: seq<Op>, bufferSize: int, c: Codec) {
    exists j :: 0 <= j < |ops| && Writes(ops[j]) && (Dirty(ops[..j]) || Stale(ops[..j], bufferSize, c))
  }

  lemma DirtyStep(ops: seq<Op>, op: Op)
    ensures Dirty(ops + [op]) <==> Fails(op) || (Dirty(ops) && !op.CloseAndReopen?)
  {
    var longer := ops + [op];
    if Fails(op) {
      assert Fails(longer[|ops|]) && NoReopening(longer, |ops|);
    }
    if Dirty(ops) && !op.CloseAndReopen? {
      var i :| 0 <= i < |ops| && Fails(ops[i]) && NoReopening(ops, i);
      assert Fails(longer[i]) && NoReopening(longer, i);
    }
    if Dirty(longer) && !Fails(op) {
      var i :| 0 <= i < |longer| && Fails(longer[i]) && NoReopening(longer, i);
      assert Fails(ops[i]) && !longer[|ops|].CloseAndReopen?;
      assert forall k :: i < k < |ops| ==> longer[k] == ops[k];
      assert NoReopening(ops, i);
    }
  }

  lemma StaleStep(ops: seq<Op>, op: Op, bufferSize: int, c: Codec)
    ensures Stale(ops + [op], bufferSize, c) <==>
              if op.CloseAndReopen? then LastIsSkipped(After(ops, bufferSize, c).lines) else Stale(ops, bufferSize, c)
  {
    hide LastIsSkipped, After;
    var longer := ops + [op];
    assert longer[..|ops|] == ops;
    assert forall i :: 0 <= i < |ops| ==> longer[..i] == ops[..i] && longer[i] == ops[i];
    if op.CloseAndReopen? && LastIsSkipped(After(ops, bufferSize, c).lines) {
      assert longer[|ops|].CloseAndReopen? && NoReopening(longer, |ops|);
    }
    if Stale(ops, bufferSize, c) && !op.CloseAndReopen? {
      var i :| 0 <= i < |ops| && ops[i].CloseAndReopen? && LastIsSkipped(After(ops[..i], bufferSize, c).lines)
          && NoReopening(ops, i);
      assert longer[i].CloseAndReopen? && NoReopening(longer, i);
    }
    if Stale(longer, bufferSize, c) {
      var i :| 0 <= i < |longer| && longer[i].CloseAndReopen? && LastIsSkipped(After(longer[..i], bufferSize, c).lines)
          && NoReopening(longer, i);
      if op.CloseAndReopen? {
        assert i == |ops|;
      } else {
        assert ops[i].CloseAndReopen? && forall k :: i < k < |ops| ==> longer[k] == ops[k];
        assert NoReopening(ops, i);
      }
    }
  }

  lemma SpoiledStep(ops: seq<Op>, op: Op, bufferSize: int, c: Codec)
    ensures Spoiled(ops + [op], bufferSize, c) <==>
              Spoiled(ops, bufferSize, c) || (Writes(op) && (Dirty(ops) || Stale(ops, bufferSize, c)))
  {
    hide Dirty, Stale, After;
    var longer := ops + [op];
    assert longer[..|ops|] == ops;
    assert forall j :: 0 <= j < |ops| ==> longer[..j] == ops[..j] && longer[j] == ops[j];
    if Writes(op) && (Dirty(ops) || Stale(ops, bufferSize, c)) {
      assert Writes(longer[|ops|]);
    }
    if Spoiled(ops, bufferSize, c) {
      var j :| 0 <= j < |ops| && Writes(ops[j]) && (Dirty(ops[..j]) || Stale(ops[..j], bufferSize, c));
      assert Writes(longer[j]);
    }
    if Spoiled(longer, bufferSize, c) {
      var j :| 0 <= j < |longer| && Writes(longer[j]) && (Dirty(longer[..j]) || Stale(longer[..j], bufferSize, c));
      assert j < |ops| ==> Writes(ops[j]);
    }
  }

  // One step of an unspoiled log: an entry out of step breaks the chain, anything else keeps it on track.
  lemma StepOnTrack(l: Log, op: Op, bufferSize: int, c: Codec, dirty: bool, stale: bool)
    requires Faithful(c) && OnTrack(l, c, dirty, stale) && !op.CrashAndReopen?
    ensures Whole(Apply(l, op, bufferSize, c), c)
    ensures Writes(op) && (dirty || stale) ==> !ValidChain(Entries(Apply(l, op, bufferSize, c), c))
    ensures !(Writes(op) && (dirty || stale)) ==>
              OnTrack(Apply(l, op, bufferSize, c), c, Fails(op) || (dirty && !op.CloseAndReopen?),
                      if op.CloseAndReopen? then LastIsSkipped(l.lines) else stale)
  {
    hide ValidChain, Faithful, LastIsSkipped, NextEntry, Opened;
    if Writes(op) {
      EntriesAt(l.lines, c);
      LoggedEntries(l, op.payload, op.syncs, bufferSize, c);
      ChainStep(Entries(l, c), NextEntry(l, op.payload));
      NextEntryIs(l, op.payload);
    } else if op.CloseAndReopen? {
      OpenedOnTrack(l.lines, c);
    }
  }

  lemma NextEntryIs(l: Log, payload: string)
    ensures var e := NextEntry(l, payload);
            e.sequenceNum == l.sequenceNum + 1 && e.prevHash == l.lastHash
                && e.checksum == ChecksumOf(e.sequenceNum, e.prevHash, e.payload)
  {
  }

  // Entries are only ever appended, so a broken chain stays broken.
  lemma StepAppends(l: Log, op: Op, bufferSize: int, c: Codec)
    requires Faithful(c) && !op.CrashAndReopen? && Whole(l, c) && !ValidChain(Entries(l, c))
    ensures Whole(Apply(l, op, bufferSize, c), c) && !ValidChain(Entries(Apply(l, op, bufferSize, c), c))
  {
    hide ValidChain, Faithful;
    if Writes(op) {
      LoggedEntries(l, op.payload, op.syncs, bufferSize, c);
      var t := Apply(l, op, bufferSize, c);
      assert Entries(t, c)[..|Entries(l, c)|] == Entries(l, c);
      PrefixOfValid(Entries(t, c), |Entries(l, c)|);
    }
  }

  /** Without crashes, the chain stays valid if and only if no entry was written after a call that could not encode its own
      within the session, nor after reopening over a last line the tail reader skips. */
  lemma {:induction false} WhatSpoilsTheChain(ops: seq<Op>, bufferSize: int, c: Codec)
    requires Faithful(c) && forall i :: 0 <= i < |ops| ==> !ops[i].CrashAndReopen?
    ensures Whole(After(ops, bufferSize, c), c)
    ensures ValidChain(Entries(After(ops, bufferSize, c), c)) <==> !Spoiled(ops, bufferSize, c)
    ensures !Spoiled(ops, bufferSize, c) ==>
              OnTrack(After(ops, bufferSize, c), c, Dirty(ops), Stale(ops, bufferSize, c))
  {
    hide ValidChain, Faithful;
    if ops == [] {
      EmptyChain();
      OpenedOnTrack([], c);
    } else {
      hide Dirty, Stale, Spoiled, OnTrack, Apply, Whole;
      var shorter, op := ops[..|ops| - 1], ops[|ops| - 1];
      assert ops == shorter + [op];
      WhatSpoilsTheChain(shorter, bufferSize, c);
      DirtyStep(shorter, op);
      StaleStep(shorter, op, bufferSize, c);
      SpoiledStep(shorter, op, bufferSize, c);
      var before := After(shorter, bufferSize, c);
      if Spoiled(shorter, bufferSize, c) {
        StepAppends(before, op, bufferSize, c);
      } else {
        StepOnTrack(before, op, bufferSize, c, Dirty(shorter), Stale(shorter, bufferSize, c));
        TrackIsValid(After(ops, bufferSize, c), c, Dirty(ops), Stale(ops, bufferSize, c));
      }
    }
  }

  lemma TrackIsValid(l: Log, c: Codec, dirty: bool, stale: bool)
    ensures OnTrack(l, c, dirty, stale) ==> ValidChain(Entries(l, c))
  {
  }

  /** So VerifyIntegrity accepts the log of a run without crashes if and only if nothing of the kind happened and no line
      is too long for its scanner. */
  lemma AcceptedUnlessSpoiled(ops: seq<Op>, bufferSize: int, c: Codec)
    requires Faithful(c) && forall i :: 0 <= i < |ops| ==> !ops[i].CrashAndReopen?
    ensures Verifies(After(ops, bufferSize, c), c) <==> !Spoiled(ops, bufferSize, c) && Short(After(ops, bufferSize, c))
  {
    hide ValidChain, Faithful, Verifies, Whole, Short, Spoiled, After;
    WhatSpoilsTheChain(ops, bufferSize, c);
    WholeVerifies(After(ops, bufferSize, c), c);
  }

  // ---------- What is in the log ----------

  function Payloads(entries: seq<Entry>): seq<string> {
    seq(|entries|, i requires 0 <= i < |entries| => entries[i].payload)
  }

  // What the calls that encoded their entry were given, in order.
  function Calls(ops: seq<Op>): seq<string> {
    if ops == [] then []
    else
      var last := ops[|ops| - 1];
      Calls(ops[..|ops| - 1]) + if last.LogEntry? && last.encodes then [last.payload] else []
  }

  lemma StepLogsItsCall(l: Log, op: Op, bufferSize: int, c: Codec)
    requires Faithful(c) && Whole(l, c) && !op.CrashAndReopen?
    ensures var t := Apply(l, op, bufferSize, c);
            && Whole(t, c)
            && Payloads(Entries(t, c))
               == Payloads(Entries(l, c)) + if op.LogEntry? && op.encodes then [op.payload] else []
  {
    hide Faithful, Opened, IsEntry;
    if op.LogEntry? && op.encodes {
      LoggedEntries(l, op.payload, op.syncs, bufferSize, c);
    } else if op.CloseAndReopen? {
      OpenedLines(l.lines, l.rest, c);
      OpenedDurable(l.lines, l.rest, c);
    }
  }

  lemma OpenedDurable(lines: seq<Line>, rest: Line, c: Codec)
    ensures Opened(lines, rest, c).durable == |lines|
  {
  }

  /** Without crashes, the entries a reader finds in the text of the log are those of the calls that encoded theirs, every
      one of them and nothing else, in the order of the calls. */
  lemma {:induction false} LogHoldsTheCalls(ops: seq<Op>, bufferSize: int, c: Codec)
    requires Faithful(c) && forall i :: 0 <= i < |ops| ==> !ops[i].CrashAndReopen?
    ensures Whole(After(ops, bufferSize, c), c)
    ensures Payloads(Decoded(Lines(Text(After(ops, bufferSize, c))), c.decode)) == Calls(ops)
  {
    hide Faithful, Apply, Opened;
    var l := After(ops, bufferSize, c);
    if ops == [] {
      OpenedEmpty(c);
    } else {
      var shorter := ops[..|ops| - 1];
      LogHoldsTheCalls(shorter, bufferSize, c);
      TextHoldsEntries(After(shorter, bufferSize, c), c);
      StepLogsItsCall(After(shorter, bufferSize, c), ops[|ops| - 1], bufferSize, c);
    }
    TextHoldsEntries(l, c);
  }

  lemma TextHoldsEntries(l: Log, c: Codec)
    requires Whole(l, c)
    ensures Decoded(Lines(Text(l)), c.decode) == Entries(l, c)
  {
    LinesOfFile(l.lines, []);
    DecodedStep(l.lines, [], c.decode);
  }

  // What the disk has synced stays in the log,
  lemma StepKeepsDurable(l: Log, op: Op, bufferSize: int, c: Codec)
    requires l.durable <= |l.lines|
    ensures var t := Apply(l, op, bufferSize, c);
            && t.durable <= |t.lines| && l.durable <= t.durable && t.lines[..l.durable] == l.lines[..l.durable]
  {
    hide LastAcceptable, Lines, FileOf;
  }

  lemma {:induction false} DurableIsWritten(ops: seq<Op>, bufferSize: int, c: Codec)
    ensures After(ops, bufferSize, c).durable <= |After(ops, bufferSize, c).lines|
  {
    hide Apply, Opened;
    if ops == [] {
      OpenedEmpty(c);
    } else {
      DurableIsWritten(ops[..|ops| - 1], bufferSize, c);
      StepKeepsDurable(After(ops[..|ops| - 1], bufferSize, c), ops[|ops| - 1], bufferSize, c);
    }
  }

  /** over every run, through any number of crashes. */
  lemma {:induction false} SyncedLinesSurvive(ops: seq<Op>, n: nat, bufferSize: int, c: Codec)
    requires n <= |ops|
    ensures var earlier, now := After(ops[..n], bufferSize, c), After(ops, bufferSize, c);
            earlier.durable <= now.durable <= |now.lines| && earlier.durable <= |earlier.lines|
                && now.lines[..earlier.durable] == earlier.lines[..earlier.durable]
    decreases |ops|
  {
    hide Apply, Opened;
    DurableIsWritten(ops[..n], bufferSize, c);
    DurableIsWritten(ops, bufferSize, c);
    if n < |ops| {
      var shorter := ops[..|ops| - 1];
      assert shorter[..n] == ops[..n];
      SyncedLinesSurvive(shorter, n, bufferSize, c);
      StepKeepsDurable(After(shorter, bufferSize, c), ops[|ops| - 1], bufferSize, c);
    } else {
      assert ops[..n] == ops;
    }
  }

  // ---------- Runs that spoil the chain ----------

  /** For one, a single call that could not encode its entry makes the very next entry unverifiable. */
  lemma FailedCallBreaksNext(a: string, b: string, bufferSize: int, c: Codec)
    requires Faithful(c)
    ensures !Verifies(After([LogEntry(a, false, true), LogEntry(b, true, true)], bufferSize, c), c)
  {
    hide After, Faithful, Stale;
    var ops := [LogEntry(a, false, true), LogEntry(b, true, true)];
    assert Fails(ops[..1][0]) && Writes(ops[1]) && NoReopening(ops[..1], 0) && Dirty(ops[..1]);
    AcceptedUnlessSpoiled(ops, bufferSize, c);
  }

  // What a writer has logged when its second entry came out over the tail reader's limit, and it logs a third.
  function LongEntryRun(x: string, y: string, z: string): seq<Op> {
    [LogEntry(x, true, true), LogEntry(y, true, true), CloseAndReopen, LogEntry(z, true, true)]
  }

  /** And no call at all need fail: reopened over an entry the tail reader skips, the writer takes up the one before it, and
      the chain is broken although every call succeeded. */
  lemma LongEntryIsForgotten(x: string, y: string, z: string, bufferSize: int, c: Codec)
    requires Faithful(c)
    requires var l := After(LongEntryRun(x, y, z)[..1], bufferSize, c); |c.encode(NextEntry(l, y))| > MAX_LINE
    ensures !ValidChain(Entries(After(LongEntryRun(x, y, z), bufferSize, c), c))
  {
    hide Faithful, ValidChain, After, Opened, NextEntry, Logged;
    var ops := LongEntryRun(x, y, z);
    var one, two := After(ops[..1], bufferSize, c), After(ops[..2], bufferSize, c);
    AfterStep(ops, 1, bufferSize, c);
    AfterStep(ops, 0, bufferSize, c);
    WhatSpoilsTheChain(ops[..0], bufferSize, c);
    WhatSpoilsTheChain(ops[..1], bufferSize, c);
    LoggedEntries(After(ops[..0], bufferSize, c), x, true, bufferSize, c);
    LoggedEntries(one, y, true, bufferSize, c);
    assert |one.lines| >= 1 && two.lines[|two.lines| - 1] == c.encode(NextEntry(one, y));
    assert LastIsSkipped(two.lines);
    var first := ops[..3];
    assert first[..2] == ops[..2] && first[2].CloseAndReopen? && NoReopening(first, 2);
    assert Stale(first, bufferSize, c) && Writes(ops[3]);
    assert Spoiled(ops, bufferSize, c);
    WhatSpoilsTheChain(ops, bufferSize, c);
  }

  lemma AfterStep(ops: seq<Op>, n: nat, bufferSize: int, c: Codec)
    requires n < |ops|
    ensures After(ops[..n + 1], bufferSize, c) == Apply(After(ops[..n], bufferSize, c), ops[n], bufferSize, c)
  {
    assert ops[..n + 1][..n] == ops[..n];
  }

  // ---------- Crashes ----------

  // A crash in mid-line: what is left of the line is neither nothing nor all of it.
  predicate Tears(l: Log, keptLines: nat, keptBytes: nat) {
    var (lines, rest) := Crashed(l, keptLines, keptBytes);
    rest != [] && |lines| < |l.lines| && rest != l.lines[|lines|]
  }

  lemma ShortIsNotSkipped(lines: seq<Line>)
    requires forall i :: 0 <= i < |lines| ==> |lines[i]| < MAX_LINE
    ensures !LastIsSkipped(lines)
  {
  }

  // What is on disk after a crash of a whole log: whole lines, and a part of the next.
  lemma CrashKeeps(l: Log, keptLines: nat, keptBytes: nat, c: Codec)
    requires Whole(l, c)
    ensures var (lines, rest) := Crashed(l, keptLines, keptBytes);
            && lines <= l.lines && |rest| <= |if |lines| < |l.lines| then l.lines[|lines|] else []|
            && (rest != [] ==> |lines| < |l.lines| && rest == l.lines[|lines|][..|rest|])
  {
  }

  lemma PartIsOneLine(line: Line, n: nat)
    requires OneLine(line) && n <= |line|
    ensures OneLine(line[..n])
  {
  }

  lemma JoinIsOneLine(one: Line, two: Line)
    requires OneLine(one) && OneLine(two)
    ensures OneLine(one + two)
  {
  }

  // Lines of which one, not blank, decodes to nothing are refused.
  lemma UndecodableIsRefused(lines: seq<Line>, i: nat, decode: Line -> Option<Entry>)
    requires i < |lines| && lines[i] != [] && decode(lines[i]).None?
    ensures !Accepted(lines, decode)
  {
    assert !Scannable(lines[i], decode);
  }

  // Reopened after a clean crash, the writer is in step.
  lemma CleanCrash(l: Log, keptLines: nat, keptBytes: nat, c: Codec)
    requires OnTrack(l, c, false, false) && Short(l) && Crashed(l, keptLines, keptBytes).1 == []
    ensures var t := Opened(Crashed(l, keptLines, keptBytes).0, [], c); OnTrack(t, c, false, false) && Short(t)
  {
    hide ValidChain, IsEntry, LastIsSkipped, Opened;
    var lines := Crashed(l, keptLines, keptBytes).0;
    CrashKeeps(l, keptLines, keptBytes, c);
    assert lines == l.lines[..|lines|];
    DecodedPrefix(l.lines, |lines|, c.decode);
    var kept, all := Decoded(lines, c.decode), Entries(l, c);
    PrefixOfValid(all, |kept|);
    assert all[..|kept|] == kept;
    assert forall i :: 0 <= i < |lines| ==> lines[i] == l.lines[i];
    ShortIsNotSkipped(lines);
    OpenedOnTrack(lines, c);
    OpenedLines(lines, [], c);
  }

  lemma OpenedLines(lines: seq<Line>, rest: Line, c: Codec)
    ensures Opened(lines, rest, c).lines == lines && Opened(lines, rest, c).rest == rest
  {
  }

  // With part of an entry left over, the verifier refuses the log unless the part is the whole entry, and refuses it
  // anyway once the next entry has been written after it.
  lemma UncleanCrash(l: Log, keptLines: nat, keptBytes: nat, payload: string, syncs: bool, bufferSize: int, c: Codec)
    requires Faithful(c) && OnTrack(l, c, false, false) && Short(l) && Crashed(l, keptLines, keptBytes).1 != []
    ensures var (lines, rest) := Crashed(l, keptLines, keptBytes); var t := Opened(lines, rest, c);
            && (Verifies(t, c) <==> !Tears(l, keptLines, keptBytes))
            && !Verifies(Logged(t, payload, true, syncs, bufferSize, c), c)
  {
    hide ValidChain, Opened, Lines, FileOf, NextEntry, Decoded;
    var (lines, rest) := Crashed(l, keptLines, keptBytes);
    var n, t := |lines|, Opened(lines, rest, c);
    CrashKeeps(l, keptLines, keptBytes, c);
    OpenedLines(lines, rest, c);
    assert IsEntry(l.lines[n], c) && forall i :: 0 <= i < n ==> IsEntry(l.lines[i], c) && lines[i] == l.lines[i];
    PartIsOneLine(l.lines[n], |rest|);
    LinesOfFile(lines, rest);
    if Tears(l, keptLines, keptBytes) {
      UndecodableIsRefused(lines + [rest], n, c.decode);
    } else {
      assert l.lines[n][..|l.lines[n]|] == l.lines[n];
      assert lines + [rest] == l.lines[..n + 1];
      LinesOfFile(l.lines, []);
      WholeVerifies(l, c);
      assert (l.lines + [[]])[..n + 1] == l.lines[..n + 1];
      PrefixAccepted(l.lines + [[]], n + 1, c.decode);
    }
    var e := NextEntry(t, payload);
    var glued := rest + c.encode(e);
    JoinIsOneLine(rest, c.encode(e));
    var after := Logged(t, payload, true, syncs, bufferSize, c);
    assert after.lines == lines + [glued] && after.rest == [];
    LinesOfFile(after.lines, []);
    UndecodableIsRefused(after.lines + [[]], n, c.decode);
  }

  /** Exactly what a crash does to a log that was in order: it is still accepted unless a line was torn, and it still will
      be with its next entry, if that is not too long, unless anything but whole lines was left. */
  lemma CrashOutcome(l: Log, keptLines: nat, keptBytes: nat, payload: string, syncs: bool, bufferSize: int, c: Codec)
    requires Faithful(c) && OnTrack(l, c, false, false) && Short(l)
    ensures var t := Apply(l, CrashAndReopen(keptLines, keptBytes), bufferSize, c);
            var next := Logged(t, payload, true, syncs, bufferSize, c);
            && (Verifies(t, c) <==> !Tears(l, keptLines, keptBytes))
            && (Verifies(next, c) <==> Crashed(l, keptLines, keptBytes).1 == [] && |c.encode(NextEntry(t, payload))| < MAX_LINE)
  {
    hide ValidChain, Faithful, Opened, Verifies, IsEntry, NextEntry, Short, OneLine;
    if Crashed(l, keptLines, keptBytes).1 != [] {
      UncleanCrash(l, keptLines, keptBytes, payload, syncs, bufferSize, c);
    } else {
      CleanCrash(l, keptLines, keptBytes, c);
      var t := Opened(Crashed(l, keptLines, keptBytes).0, [], c);
      var next := Logged(t, payload, true, syncs, bufferSize, c);
      WholeVerifies(t, c);
      LoggedEntries(t, payload, syncs, bufferSize, c);
      WholeVerifies(next, c);
      EntriesAt(t.lines, c);
      ChainStep(Entries(t, c), NextEntry(t, payload));
      NextEntryIs(t, payload);
      ShortStep(t, next, c.encode(NextEntry(t, payload)));
    }
  }

  lemma ShortStep(l: Log, after: Log, line: Line)
    requires after.lines == l.lines + [line]
    ensures Short(after) <==> Short(l) && |line| < MAX_LINE
  {
    assert forall i :: 0 <= i < |l.lines| ==> after.lines[i] == l.lines[i];
    assert after.lines[|l.lines|] == line;
  }

  /** So any run of calls that encode their entries, flushes, closes, crashes that tear no line, and reopenings leaves a log
      the verifier accepts, as long as no line reaches its limit. */
  lemma {:induction false} SuccessfulLogsAreAccepted(ops: seq<Op>, bufferSize: int, c: Codec)
    requires Faithful(c)
    requires forall i :: 0 <= i < |ops| ==>
               !Fails(ops[i]) && (ops[i].CrashAndReopen? ==> ops[i].keptBytes == 0)
    requires forall n :: 0 <= n <= |ops| ==> Short(After(ops[..n], bufferSize, c))
    ensures OnTrack(After(ops, bufferSize, c), c, false, false) && Verifies(After(ops, bufferSize, c), c)
  {
    hide ValidChain, Faithful, Opened, Whole, Short, Apply, OnTrack;
    assert ops[..|ops|] == ops;
    if ops == [] {
      EmptyChain();
      NothingSkipped([]);
      OpenedOnTrack([], c);
    } else {
      var shorter, op := ops[..|ops| - 1], ops[|ops| - 1];
      assert forall n :: 0 <= n <= |shorter| ==> shorter[..n] == ops[..n];
      SuccessfulLogsAreAccepted(shorter, bufferSize, c);
      var l := After(shorter, bufferSize, c);
      assert Short(After(ops[..|ops| - 1], bufferSize, c));
      StepKeepsOrder(l, op, bufferSize, c);
    }
    OrderedVerifies(After(ops, bufferSize, c), c);
  }

  lemma StepKeepsOrder(l: Log, op: Op, bufferSize: int, c: Codec)
    requires Faithful(c) && OnTrack(l, c, false, false) && Short(l)
    requires !Fails(op) && (op.CrashAndReopen? ==> op.keptBytes == 0)
    ensures OnTrack(Apply(l, op, bufferSize, c), c, false, false)
  {
    hide ValidChain, Faithful, Opened, Logged, Flushed, LastIsSkipped;
    if op.CrashAndReopen? {
      CleanCrash(l, op.keptLines, 0, c);
    } else {
      ShortIsNotSkipped(l.lines);
      StepOnTrack(l, op, bufferSize, c, false, false);
    }
  }

  lemma OrderedVerifies(l: Log, c: Codec)
    requires OnTrack(l, c, false, false) && Short(l)
    ensures Verifies(l, c)
  {
    hide ValidChain, Verifies, Short;
    WholeVerifies(l, c);
  }

  // ---------- The code ----------

  class AuditLogger {
    const codec: Codec
    const bufferSize: int
    var file: seq<Byte>
    var buffered: seq<Byte>
    var lastHash: Hash
    var sequenceNum: nat
    var entriesWritten: nat
    var closed: bool
    ghost var log: Log

    // The file and the buffer hold the log's text, its durable lines in the file.
    ghost predicate Valid()
      reads this
    {
      && file + buffered == Text(log) && log.durable <= |log.lines| && FileOf(log.lines[..log.durable]) <= file
      && lastHash == log.lastHash && sequenceNum == log.sequenceNum && entriesWritten == log.unflushed
    }

    // NewAuditLogger on a file of these lines.
    constructor (file: seq<Byte>, bufferSize: int, codec: Codec, ghost lines: seq<Line>, ghost rest: Line)
      requires file == FileOf(lines) + rest
      ensures Valid() && log == Opened(lines, rest, codec) && buffered == [] && !closed
      ensures this.bufferSize == bufferSize && this.codec == codec && this.file == file
    {
      this.file, this.buffered, this.bufferSize, this.codec := file, [], bufferSize, codec;
      lastHash, sequenceNum, entriesWritten, closed := NoHash, 0, 0, false;
      log := Opened(lines, rest, codec);
      new;
      LoadLastHash();
      assert lines[..|lines|] == lines;
    }

    method LoadLastHash()
      requires lastHash == NoHash && sequenceNum == 0
      modifies this`lastHash, this`sequenceNum
      ensures var last := LastAcceptable(Lines(file), codec.decode);
              if last.Some? && last.value.checksum != NoHash then
                lastHash == last.value.checksum && sequenceNum == last.value.sequenceNum
              else lastHash == NoHash && sequenceNum == 0
    {
      if file == [] {
        NothingToFind(codec.decode);
        return;
      }
      var lastEntry := ReadLastEntry(file, codec.decode);
      if lastEntry.Some? && lastEntry.value.checksum != NoHash {
        lastHash := lastEntry.value.checksum;
        sequenceNum := lastEntry.value.sequenceNum;
      }
    }

    // The line of an entry with this payload that follows the given one.
    function EncodedCall(sequenceNum: nat, lastHash: Hash, payload: string): Line {
      codec.encode(Entry(sequenceNum + 1, lastHash, payload, Sha256(sequenceNum + 1, lastHash, payload)))
    }

    /** `encodes` is whether the entry can be encoded, `syncs` whether the disk syncs if it comes to that. */
    method LogEntry(payload: string, encodes: bool, syncs: bool) returns (ok: bool)
      requires Valid()
      modifies this
      ensures Valid() && closed == old(closed)
      ensures log == if old(closed) then old(log) else Logged(old(log), payload, encodes, syncs, bufferSize, codec)
      ensures ok <==> !old(closed) && encodes && (syncs || old(entriesWritten) + 1 < bufferSize)
      ensures old(closed) || !encodes ==> file + buffered == old(file + buffered)
      ensures !old(closed) && encodes ==>
                && log.lines == old(log).lines + [old(log).rest + EncodedCall(old(sequenceNum), old(lastHash), payload)]
                && file + buffered
                   == old(file + buffered) + EncodedCall(old(sequenceNum), old(lastHash), payload) + [NEWLINE]
                && (old(entriesWritten) + 1 >= bufferSize ==> buffered == [] && (syncs ==> log.durable == |log.lines|))
    {
      if closed {
        return false;
      }
      hide FileOf;
      sequenceNum := sequenceNum + 1;
      if !encodes {
        log := log.(sequenceNum := sequenceNum);
        return false;
      }
      WriteEntry(payload);
      ok := true;
      if entriesWritten >= bufferSize {
        ok := FlushUnlocked(syncs);
      }
    }

    // The entry goes to the buffer and the chain moves on.
    method WriteEntry(payload: string)
      requires file + buffered == Text(log) && log.durable <= |log.lines| && FileOf(log.lines[..log.durable]) <= file
      requires lastHash == log.lastHash && sequenceNum == log.sequenceNum + 1 && entriesWritten == log.unflushed
      modifies this`buffered, this`lastHash, this`entriesWritten, this`log
      ensures Valid()
      ensures var e := NextEntry(old(log), payload);
              log == Log(old(log).lines + [old(log).rest + codec.encode(e)], [], old(log).durable, e.checksum,
                         old(log).sequenceNum + 1, old(log).unflushed + 1)
    {
      hide FileOf;
      var entry := Entry(sequenceNum, lastHash, payload, NoHash);
      entry := entry.(checksum := ChecksumOf(entry.sequenceNum, entry.prevHash, entry.payload));
      var entryData := codec.encode(entry);
      WrittenText(log, entryData, file, buffered);
      buffered := buffered + entryData;
      buffered := buffered + [NEWLINE];
      lastHash := entry.checksum;
      entriesWritten := entriesWritten + 1;
      log := Log(log.lines + [log.rest + entryData], [], log.durable, lastHash, sequenceNum, entriesWritten);
    }

    method FlushUnlocked(syncs: bool) returns (ok: bool)
      requires Valid()
      modifies this`file, this`buffered, this`entriesWritten, this`log
      ensures Valid() && log == Flushed(old(log), syncs) && buffered == [] && ok == syncs
    {
      assert file <= file + buffered;
      file := file + buffered;
      buffered := [];
      assert file + [] == file;
      if !syncs {
        return false;
      }
      entriesWritten := 0;
      assert log.lines[..|log.lines|] == log.lines;
      log := Flushed(log, true);
      return true;
    }

    method Close(syncs: bool) returns (ok: bool)
      requires Valid()
      modifies this
      ensures Valid() && closed && log == if old(closed) then old(log) else Flushed(old(log), syncs)
      ensures !old(closed) ==> buffered == [] && ok == syncs
    {
      if closed {
        return true;
      }
      closed := true;
      ok := FlushUnlocked(syncs);
    }
  }

  lemma WrittenText(l: Log, data: Line, file: seq<Byte>, buffered: seq<Byte>)
    requires file + buffered == Text(l) && l.durable <= |l.lines|
    ensures var more := l.lines + [l.rest + data];
            && file + (buffered + data + [NEWLINE]) == FileOf(more) + []
            && more[..l.durable] == l.lines[..l.durable]
  {
    var more := l.lines + [l.rest + data];
    assert more[..|l.lines|] == l.lines;
    calc {
      file + (buffered + data + [NEWLINE]);
      (file + buffered) + data + [NEWLINE];
      FileOf(l.lines) + l.rest + data + [NEWLINE];
      FileOf(l.lines) + (l.rest + data) + [NEWLINE];
    }
  }

  /** Closing the log and opening its file again is the machine's step, whatever the file's blocks and lines. */
  method Reopen(logger: AuditLogger) returns (reopened: AuditLogger)
    requires logger.Valid() && !logger.closed
    modifies logger
    ensures reopened.Valid() && reopened.log == Apply(old(logger.log), CloseAndReopen, logger.bufferSize, logger.codec)
    ensures reopened.codec == logger.codec && reopened.bufferSize == logger.bufferSize && logger.closed
  {
    var _ := logger.Close(true);
    assert logger.file + [] == logger.file;
    reopened := new AuditLogger(logger.file, logger.bufferSize, logger.codec, logger.log.lines, logger.log.rest);
  }
}
