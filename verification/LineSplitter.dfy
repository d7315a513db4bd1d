/** The installer output reader: complete lines are reported as chunks arrive,
    the unfinished line waits in `pendingLine`. Chunks that do not decode as
    UTF-8 are kept in the byte buffer but skipped by the reporter. */
module LineSplitter {
  import opened Text
  import opened Wrappers

  function Concat(chunks: seq<string>): string {
    if chunks == [] then "" else Concat(chunks[..|chunks| - 1]) + chunks[|chunks| - 1]
  }

  /** The decodable chunks, in order. */
  function DecodedChunks(chunks: seq<Option<string>>): seq<string> {
    if chunks == [] then []
    else
      var before := DecodedChunks(chunks[..|chunks| - 1]);
      var last := chunks[|chunks| - 1];
      if last.Some? then before + [last.value] else before
  }

  /** Trimmed, and dropped when nothing is left. */
  function Report(lines: seq<string>): seq<string> {
    if lines == [] then []
    else
      var line := Trim(lines[0], Blank);
      if line == "" then Report(lines[1..]) else [line] + Report(lines[1..])
  }

  /** The complete lines of a text: every piece but the last. */
  function CompleteLines(text: string): seq<string> {
    var parts := SplitBy(text, LineFeed);
    parts[..|parts| - 1]
  }

  function Remainder(text: string): string {
    var parts := SplitBy(text, LineFeed);
    parts[|parts| - 1]
  }

  class OutputReader {
    var pendingLine: string
    var reported: seq<string>
    ghost var seen: string // the decoded output so far

    ghost predicate Valid()
      reads this
    {
      pendingLine == Remainder(seen) && reported == Report(CompleteLines(seen))
    }

    constructor ()
      ensures Valid() && seen == ""
    {
      pendingLine, reported, seen := "", [], "";
    }

    /** One chunk. What is reported and what waits depends only on the text so
        far, never on where the chunks were cut. */
    method Receive(chunk: Option<string>)
      requires Valid()
      modifies this
      ensures Valid() && seen == if chunk.Some? then old(seen) + chunk.value else old(seen)
    {
      if chunk.None? { return; }
      ChunkExtends(seen, chunk.value);
      seen := seen + chunk.value;
      var parts := SplitBy(pendingLine + chunk.value, LineFeed);
      pendingLine := parts[|parts| - 1];
      var report := Report(parts[..|parts| - 1]);
      if report == [] {
        assert reported + [] == reported;
        return;
      }
      reported := reported + report;
    }
  }

  /** Feed a whole stream, chunk by chunk. */
  method ReadAll(chunks: seq<Option<string>>) returns (reader: OutputReader)
    ensures fresh(reader)
    ensures reader.reported == Report(CompleteLines(Concat(DecodedChunks(chunks))))
    ensures reader.pendingLine == Remainder(Concat(DecodedChunks(chunks)))
  {
    reader := new OutputReader();
    for i := 0 to |chunks|
      invariant fresh(reader) && reader.Valid() && reader.seen == Concat(DecodedChunks(chunks[..i]))
    {
      DecodedSnoc(chunks, i);
      reader.Receive(chunks[i]);
    }
    assert chunks[..|chunks|] == chunks;
  }

  lemma DecodedSnoc(chunks: seq<Option<string>>, i: nat)
    requires i < |chunks|
    ensures Concat(DecodedChunks(chunks[..i + 1])) ==
            if chunks[i].Some? then Concat(DecodedChunks(chunks[..i])) + chunks[i].value
            else Concat(DecodedChunks(chunks[..i]))
  {
    assert chunks[..i + 1][..i] == chunks[..i];
    if chunks[i].Some? {
      var d := DecodedChunks(chunks[..i]);
      assert (d + [chunks[i].value])[..|d|] == d;
    }
  }

  lemma {:induction false} ReportConcat(a: seq<string>, b: seq<string>)
    ensures Report(a + b) == Report(a) + Report(b)
  {
    if a == [] {
      assert a + b == b;
    } else {
      assert (a + b)[0] == a[0] && (a + b)[1..] == a[1..] + b;
      ReportConcat(a[1..], b);
    }
    hide Trim;
  }

  lemma FuseAtTheEnd(l: seq<string>, r: seq<string>)
    requires |l| >= 1 && |r| >= 1
    ensures Fuse(l, r) == l[..|l| - 1] + Fuse([l[|l| - 1]], r)
  {
    assert [l[|l| - 1]][..0] == [];
  }

  lemma EndOfConcat(l: seq<string>, r: seq<string>)
    requires |r| >= 1
    ensures var all := l + r;
            all[|all| - 1] == r[|r| - 1] && all[..|all| - 1] == l + r[..|r| - 1]
  {
  }

  lemma SplitContinues(seen: string, chunk: string)
    ensures SplitBy(seen + chunk, LineFeed) == Fuse(SplitBy(seen, LineFeed), SplitBy(chunk, LineFeed))
    ensures SplitBy(Remainder(seen) + chunk, LineFeed) == Fuse([Remainder(seen)], SplitBy(chunk, LineFeed))
  {
    SplitOfConcat(seen, chunk, LineFeed);
    SplitPiecesAreFree(seen, LineFeed);
    assert Free(Remainder(seen), LineFeed);
    SplitOfFree(Remainder(seen), LineFeed);
    SplitOfConcat(Remainder(seen), chunk, LineFeed);
    hide SplitBy, Fuse;
  }

  lemma WholeIsLinesAndParts(seen: string, chunk: string)
    ensures SplitBy(seen + chunk, LineFeed) == CompleteLines(seen) + SplitBy(Remainder(seen) + chunk, LineFeed)
  {
    SplitContinues(seen, chunk);
    FuseAtTheEnd(SplitBy(seen, LineFeed), SplitBy(chunk, LineFeed));
    hide SplitBy, Fuse;
  }

  lemma PartsContinue(seen: string, chunk: string)
    ensures var parts := SplitBy(Remainder(seen) + chunk, LineFeed);
            && Remainder(seen + chunk) == parts[|parts| - 1]
            && CompleteLines(seen + chunk) == CompleteLines(seen) + parts[..|parts| - 1]
  {
    var whole, lines := SplitBy(seen + chunk, LineFeed), CompleteLines(seen);
    var parts := SplitBy(Remainder(seen) + chunk, LineFeed);
    WholeIsLinesAndParts(seen, chunk);
    EndOfConcat(lines, parts);
    assert Remainder(seen + chunk) == whole[|whole| - 1] && CompleteLines(seen + chunk) == whole[..|whole| - 1];
    hide SplitBy, Remainder, CompleteLines;
  }

  /** Splitting the waiting text plus a chunk continues splitting the whole. */
  lemma ChunkExtends(seen: string, chunk: string)
    ensures var parts := SplitBy(Remainder(seen) + chunk, LineFeed);
            && Remainder(seen + chunk) == parts[|parts| - 1]
            && Report(CompleteLines(seen + chunk)) == Report(CompleteLines(seen)) + Report(parts[..|parts| - 1])
  {
    PartsContinue(seen, chunk);
    hide SplitBy, Report, Remainder, CompleteLines;
    var parts := SplitBy(Remainder(seen) + chunk, LineFeed);
    ReportConcat(CompleteLines(seen), parts[..|parts| - 1]);
  }

  /** The complete lines and the remainder are the whole text: nothing is
      invented or lost by the split itself. */
  lemma LinesRebuildTheText(text: string)
    ensures Join(CompleteLines(text) + [Remainder(text)], '\n') == text
    ensures Free(Remainder(text), LineFeed)
  {
    JoinOfSplit(text, '\n', LineFeed);
    SplitPiecesAreFree(text, LineFeed);
    var parts := SplitBy(text, LineFeed);
    assert parts == parts[..|parts| - 1] + [parts[|parts| - 1]];
    hide SplitBy, Join;
  }

  /** `r` is the line without its outer blanks. */
  predicate Strips(line: string, r: string) {
    && r != "" && !In(r[0], Blank) && !In(r[|r| - 1], Blank)
    && exists i | 0 <= i <= |line| - |r| ::
         line[i..i + |r|] == r && All(line[..i], Blank) && All(line[i + |r|..], Blank)
  }

  /** The reports are the lines at these places, in order, and the other lines are
      all blank. */
  predicate ReportedAt(lines: seq<string>, reports: seq<string>, places: seq<nat>) {
    && |places| == |reports|
    && (forall i | 0 <= i < |places| :: places[i] < |lines| && Strips(lines[places[i]], reports[i]))
    && (forall i, j | 0 <= i < j < |places| :: places[i] < places[j])
    && (forall k | 0 <= k < |lines| && k !in places :: All(lines[k], Blank))
  }

  function Shifted(places: seq<nat>): (r: seq<nat>)
    ensures |r| == |places| && forall i | 0 <= i < |places| :: r[i] == places[i] + 1
  {
    seq(|places|, i requires 0 <= i < |places| => places[i] + 1)
  }

  lemma ShiftedMembers(places: seq<nat>, k: nat)
    requires k > 0
    ensures k - 1 in places ==> k in Shifted(places)
  {
    if k - 1 in places {
      var i :| 0 <= i < |places| && places[i] == k - 1;
      assert Shifted(places)[i] == k;
    }
  }

  lemma BlankInFront(line: string, rest: seq<string>, reports: seq<string>, places: seq<nat>)
    requires All(line, Blank) && ReportedAt(rest, reports, places)
    ensures ReportedAt([line] + rest, reports, Shifted(places))
  {
    hide Strips, All;
    var lines := [line] + rest;
    forall k | 0 <= k < |lines| && k !in Shifted(places) ensures All(lines[k], Blank) {
      if k > 0 {
        ShiftedMembers(places, k);
        assert lines[k] == rest[k - 1];
      }
    }
  }

  lemma KeptInFront(line: string, r: string, rest: seq<string>, reports: seq<string>, places: seq<nat>)
    requires Strips(line, r) && ReportedAt(rest, reports, places)
    ensures ReportedAt([line] + rest, [r] + reports, [0] + Shifted(places))
  {
    hide Strips, All;
    var lines, all, later := [line] + rest, [0] + Shifted(places), Shifted(places);
    forall i | 0 <= i < |all| ensures all[i] < |lines| && Strips(lines[all[i]], ([r] + reports)[i]) {
      if i > 0 {
        assert all[i] == later[i - 1] && lines[all[i]] == rest[places[i - 1]];
      }
    }
    forall k | 0 <= k < |lines| && k !in all ensures All(lines[k], Blank) {
      assert all[0] == 0;
      assert k !in Shifted(places);
      ShiftedMembers(places, k);
      assert lines[k] == rest[k - 1];
    }
  }

  /** What is reported of some lines: those that are not all blank, in order, each
      without its outer blanks. */
  lemma {:induction false} ReportedLines(lines: seq<string>) returns (places: seq<nat>)
    ensures ReportedAt(lines, Report(lines), places)
  {
    if lines == [] {
      places := [];
    } else {
      var line, rest := lines[0], lines[1..];
      assert lines == [line] + rest;
      hide ReportedAt, Trim, Strips, All;
      var r := Trim(line, Blank);
      TrimmedOrBlank(line);
      var later := ReportedLines(rest);
      if r == "" {
        places := Shifted(later);
        BlankInFront(line, rest, Report(rest), later);
      } else {
        places := [0] + Shifted(later);
        KeptInFront(line, r, rest, Report(rest), later);
      }
    }
  }

  lemma TrimmedOrBlank(line: string)
    ensures Trim(line, Blank) == "" ==> All(line, Blank)
    ensures Trim(line, Blank) != "" ==> Strips(line, Trim(line, Blank))
  {
    var head, tail := TrimCuts(line, Blank);
    var r := Trim(line, Blank);
    hide Trim;
    assert line == head + r + tail;
    if r == "" {
      assert line == head + tail;
    } else {
      assert line[..|head|] == head && line[|head|..|head| + |r|] == r && line[|head| + |r|..] == tail;
    }
  }
}
