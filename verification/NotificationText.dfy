/** The text of the notification file: one record a line on the way in, split at
    every Unicode newline and trimmed on the way out. */
module NotificationText {
  import opened Text
  import opened Wrappers

  datatype Note = Note(title: string, body: string)

  /** What appending the records one after the other leaves in the file. */
  function FileText(records: seq<string>): string {
    if records == [] then "" else records[0] + "\n" + FileText(records[1..])
  }

  /** What a reader of the file sees; a missing file holds no record. */
  function Content(file: Option<string>): string {
    if file.Some? then file.value else ""
  }

  lemma {:induction false} FileTextAppend(records: seq<string>, record: string)
    ensures FileText(records + [record]) == FileText(records) + record + "\n"
  {
    var all := records + [record];
    if records == [] {
      assert all[1..] == [];
    } else {
      assert all[0] == records[0] && all[1..] == records[1..] + [record];
      FileTextAppend(records[1..], record);
    }
  }

  /** The trimmed lines that are not empty. */
  function Kept(lines: seq<string>): seq<string> {
    if lines == [] then []
    else
      var line := Trim(lines[0], Space);
      (if line == "" then [] else [line]) + Kept(lines[1..])
  }

  function ReadLines(content: string): seq<string> {
    Kept(SplitBy(content, Newline))
  }

  /** A JSON object's text: not empty, and not bounded by white space. */
  predicate IsRecord(r: string) {
    r != "" && Trimmed(r, Space)
  }

  function Decoded(lines: seq<string>, decoder: imap<string, Note>): seq<Note> {
    if lines == [] then []
    else (if lines[0] in decoder then [decoder[lines[0]]] else []) + Decoded(lines[1..], decoder)
  }

  function Malformed(lines: seq<string>, decoder: imap<string, Note>): seq<string> {
    if lines == [] then []
    else (if lines[0] !in decoder then [lines[0]] else []) + Malformed(lines[1..], decoder)
  }

  predicate Refreshing(setting: Option<string>) {
    Lower(if setting.Some? then setting.value else "true") != "false"
  }

  /** Records are refreshed unless the setting says `false`, in any case; a missing
      setting does not. */
  lemma OnlyFalseSwitchesOff(setting: Option<string>)
    ensures setting == None ==> Refreshing(setting)
    ensures forall v | setting == Some(v) ::
              !Refreshing(setting) <==>
              && |v| == 5 && (v[0] == 'f' || v[0] == 'F') && (v[1] == 'a' || v[1] == 'A')
              && (v[2] == 'l' || v[2] == 'L') && (v[3] == 's' || v[3] == 'S') && (v[4] == 'e' || v[4] == 'E')
  {
    if setting.None? {
      assert Lower("true")[0] == 't';
    } else {
      var v := setting.value;
      var low := Lower(v);
      if |v| == 5 {
        assert low == "false" <==>
               low[0] == 'f' && low[1] == 'a' && low[2] == 'l' && low[3] == 's' && low[4] == 'e';
      }
    }
  }

  // ---------------------------------------------------------------- the consumer
  // `decoder` maps every line that is a well-formed record to its notification.

  class NotificationConsumer {
    var queue: Option<string>
    var consumed: Option<string>
    var delivered: seq<Note>
    var skipped: seq<string>

    constructor (queue: Option<string>, consumed: Option<string>)
      ensures this.queue == queue && this.consumed == consumed && delivered == [] && skipped == []
    {
      this.queue, this.consumed := queue, consumed;
      delivered, skipped := [], [];
    }

    /** The Python side's append, which creates a missing file: a file holding some
        records afterwards holds them and the new one. */
    method Queue(record: string)
      modifies this`queue
      ensures queue.Some?
      ensures forall records | Content(old(queue)) == FileText(records) ::
                Content(queue) == FileText(records + [record])
    {
      queue := Some(Content(queue) + record + "\n");
      forall records | Content(old(queue)) == FileText(records)
        ensures Content(queue) == FileText(records + [record])
      {
        FileTextAppend(records, record);
      }
    }

    /** One cycle. `staleRemoved`, `readable` and `removed` say which file
        operations succeed. A file that cannot be claimed stays queued; one that
        cannot be read is dropped. */
    method CheckAndDeliverPendingNotifications(setting: Option<string>, decoder: imap<string, Note>,
                                               staleRemoved: bool, readable: bool, removed: bool)
      modifies this
      ensures var claims := Refreshing(setting) && old(queue).Some? && (staleRemoved || old(consumed).None?);
              var lines := if claims && readable then ReadLines(old(queue).value) else [];
              && delivered == old(delivered) + Decoded(lines, decoder)
              && skipped == old(skipped) + Malformed(lines, decoder)
              && queue == (if claims then None else old(queue))
              && consumed == (if claims then (if removed then None else old(queue)) else old(consumed))
    {
      hide Lower, SplitBy, Trim;
      if !Refreshing(setting) || queue.None? {
        return;
      }
      if staleRemoved {
        consumed := None;
      }
      if consumed.Some? {
        return;
      }
      consumed, queue := queue, None;
      var content := if readable then consumed else None;
      if removed {
        consumed := None;
      }
      if content.Some? && Trim(content.value, Space) != "" {
        var notes, bad := DecodeLines(SplitBy(content.value, Newline), decoder);
        delivered, skipped := delivered + notes, skipped + bad;
      } else if content.Some? {
        BlankHoldsNoRecords(content.value);
      }
    }
  }

  /** The loop over the lines: the notifications to deliver, and the lines to skip. */
  method DecodeLines(lines: seq<string>, decoder: imap<string, Note>) returns (notes: seq<Note>, bad: seq<string>)
    ensures notes == Decoded(Kept(lines), decoder)
    ensures bad == Malformed(Kept(lines), decoder)
  {
    hide Trim;
    notes, bad := [], [];
    assert lines[..0] == [];
    for i := 0 to |lines|
      invariant notes == Decoded(Kept(lines[..i]), decoder)
      invariant bad == Malformed(Kept(lines[..i]), decoder)
    {
      DeliveredSoFar(lines, i, decoder);
      OneLine(lines[i], decoder);
      hide Kept, Decoded, Malformed;
      var line := Trim(lines[i], Space);
      if line != "" {
        if line in decoder {
          notes := notes + [decoder[line]];
        } else {
          bad := bad + [line];
        }
      }
    }
    assert lines[..|lines|] == lines;
  }

  lemma OneLine(line: string, decoder: imap<string, Note>)
    ensures var trimmed := Trim(line, Space);
            && Decoded(Kept([line]), decoder)
               == (if trimmed != "" && trimmed in decoder then [decoder[trimmed]] else [])
            && Malformed(Kept([line]), decoder)
               == (if trimmed != "" && trimmed !in decoder then [trimmed] else [])
  {
    hide Trim;
    assert [line][1..] == [];
    var trimmed := Trim(line, Space);
    if trimmed != "" {
      assert Kept([line]) == [trimmed] && [trimmed][1..] == [];
    }
  }

  lemma {:induction false} DecodedConcat(a: seq<string>, b: seq<string>, decoder: imap<string, Note>)
    ensures Decoded(a + b, decoder) == Decoded(a, decoder) + Decoded(b, decoder)
  {
    if a == [] {
      assert a + b == b;
    } else {
      assert (a + b)[0] == a[0] && (a + b)[1..] == a[1..] + b;
      DecodedConcat(a[1..], b, decoder);
      var first := if a[0] in decoder then [decoder[a[0]]] else [];
      assert first + (Decoded(a[1..], decoder) + Decoded(b, decoder))
          == (first + Decoded(a[1..], decoder)) + Decoded(b, decoder);
    }
  }

  lemma {:induction false} MalformedConcat(a: seq<string>, b: seq<string>, decoder: imap<string, Note>)
    ensures Malformed(a + b, decoder) == Malformed(a, decoder) + Malformed(b, decoder)
  {
    if a == [] {
      assert a + b == b;
    } else {
      assert (a + b)[0] == a[0] && (a + b)[1..] == a[1..] + b;
      MalformedConcat(a[1..], b, decoder);
      var first := if a[0] !in decoder then [a[0]] else [];
      assert first + (Malformed(a[1..], decoder) + Malformed(b, decoder))
          == (first + Malformed(a[1..], decoder)) + Malformed(b, decoder);
    }
  }

  lemma DeliveredSoFar(lines: seq<string>, i: nat, decoder: imap<string, Note>)
    requires i < |lines|
    ensures Decoded(Kept(lines[..i + 1]), decoder)
            == Decoded(Kept(lines[..i]), decoder) + Decoded(Kept([lines[i]]), decoder)
    ensures Malformed(Kept(lines[..i + 1]), decoder)
            == Malformed(Kept(lines[..i]), decoder) + Malformed(Kept([lines[i]]), decoder)
  {
    assert lines[..i + 1] == lines[..i] + [lines[i]];
    KeptConcat(lines[..i], [lines[i]]);
    hide Trim, Kept, Decoded, Malformed;
    DecodedConcat(Kept(lines[..i]), Kept([lines[i]]), decoder);
    MalformedConcat(Kept(lines[..i]), Kept([lines[i]]), decoder);
  }

  lemma {:induction false} TrimOfAll(s: string)
    requires All(s, Space)
    ensures Trim(s, Space) == ""
  {
    if s != "" {
      assert All(s[1..], Space);
      TrimOfAll(s[1..]);
    }
    hide In;
  }

  /** Text that trims to nothing holds no line that does not. */
  lemma BlankHoldsNoRecords(content: string)
    requires Trim(content, Space) == ""
    ensures ReadLines(content) == []
  {
    var head, tail := TrimCuts(content, Space);
    assert content == head + tail;
    assert All(content, Space);
    hide Trim;
    BlankPieces(content);
    NothingKept(SplitBy(content, Newline));
  }

  lemma {:induction false} BlankPieces(s: string)
    requires All(s, Space)
    ensures forall p | p in SplitBy(s, Newline) :: All(p, Space)
  {
    if s != "" {
      assert All(s[1..], Space);
      BlankPieces(s[1..]);
      var rest := SplitBy(s[1..], Newline);
      assert rest[0] in rest;
    }
    hide In;
  }

  lemma {:induction false} NothingKept(lines: seq<string>)
    requires forall p | p in lines :: All(p, Space)
    ensures Kept(lines) == []
  {
    if lines != [] {
      assert lines[0] in lines;
      TrimOfAll(lines[0]);
      NothingKept(lines[1..]);
    }
    hide Trim;
  }

  // -------------------------------------------------------- reading what was queued

  lemma {:induction false} KeptConcat(a: seq<string>, b: seq<string>)
    ensures Kept(a + b) == Kept(a) + Kept(b)
  {
    hide Trim;
    if a == [] {
      assert a + b == b;
    } else {
      assert (a + b)[1..] == a[1..] + b;
      KeptConcat(a[1..], b);
    }
  }

  lemma SplitAtLine(a: string, b: string)
    ensures SplitBy(a + "\n" + b, Newline) == SplitBy(a, Newline) + SplitBy(b, Newline)
  {
    var rest := "\n" + b;
    assert a + "\n" + b == a + rest;
    assert rest[0] == '\n' && rest[1..] == b;
    assert SplitBy(rest, Newline) == [""] + SplitBy(b, Newline);
    SplitOfConcat(a, rest, Newline);
    FuseAtStart(SplitBy(a, Newline), SplitBy(b, Newline));
    hide SplitBy, Fuse;
  }

  lemma FuseAtStart(l: seq<string>, r: seq<string>)
    requires |l| >= 1
    ensures Fuse(l, [""] + r) == l + r
  {
    assert l[|l| - 1] + "" == l[|l| - 1];
    assert l == l[..|l| - 1] + [l[|l| - 1]];
    assert ([""] + r)[1..] == r;
  }

  /** Each record's share of what is read: no line mixes text of two records. */
  function ReadEach(records: seq<string>): seq<string> {
    if records == [] then [] else ReadLines(records[0]) + ReadEach(records[1..])
  }

  /** However records are broken, reading gives their own lines, record by record. */
  lemma {:induction false} RecordsNeverMix(records: seq<string>)
    ensures ReadLines(FileText(records)) == ReadEach(records)
  {
    if records == [] {
      BlankHoldsNoRecords("");
    } else {
      RecordsNeverMix(records[1..]);
      var a, b := records[0], FileText(records[1..]);
      hide SplitBy, Trim;
      SplitAtLine(a, b);
      KeptConcat(SplitBy(a, Newline), SplitBy(b, Newline));
    }
  }

  lemma {:induction false} KeptAreFree(lines: seq<string>)
    requires AllFree(lines, Newline)
    ensures AllFree(Kept(lines), Newline)
  {
    hide Trim;
    if lines != [] {
      assert Free(lines[0], Newline);
      TrimKeepsFree(lines[0], Space, Newline);
      assert AllFree(lines[1..], Newline) by {
        assert forall i | 0 <= i < |lines[1..]| :: lines[1..][i] == lines[i + 1];
      }
      KeptAreFree(lines[1..]);
    }
    hide Free;
  }

  /** A record is read as itself exactly when it holds no Unicode newline. */
  lemma RecordReadsAsItself(r: string)
    requires IsRecord(r)
    ensures ReadLines(r) == [r] <==> Free(r, Newline)
  {
    SplitPiecesAreFree(r, Newline);
    KeptAreFree(SplitBy(r, Newline));
    if Free(r, Newline) {
      SplitOfFree(r, Newline);
      TrimmedIffFixed(r, Space);
      assert [r][1..] == [];
    }
    hide SplitBy, Trim;
    if ReadLines(r) == [r] {
      assert Free(ReadLines(r)[0], Newline);
    }
  }

  lemma {:induction false} ReadEachOfFree(records: seq<string>)
    requires forall r | r in records :: IsRecord(r) && Free(r, Newline)
    ensures ReadEach(records) == records
  {
    hide ReadLines, IsRecord, Free;
    if records != [] {
      assert records[0] in records;
      RecordReadsAsItself(records[0]);
      ReadEachOfFree(records[1..]);
      assert records == [records[0]] + records[1..];
    }
  }

  /** The consumer reads the records that were queued exactly when none of them
      holds a Unicode newline. (The producer escapes line feeds and carriage
      returns, but not U+0085, U+2028 and U+2029.) */
  lemma ReadsWhatWasQueued(records: seq<string>)
    requires forall r | r in records :: IsRecord(r)
    ensures ReadLines(FileText(records)) == records <==> forall r | r in records :: Free(r, Newline)
  {
    RecordsNeverMix(records);
    if forall r | r in records :: Free(r, Newline) {
      ReadEachOfFree(records);
    }
    var content := FileText(records);
    SplitPiecesAreFree(content, Newline);
    KeptAreFree(SplitBy(content, Newline));
    hide SplitBy, FileText, Free, ReadEach, IsRecord;
    if ReadLines(content) == records {
      forall r | r in records ensures Free(r, Newline) {
        var i :| 0 <= i < |records| && records[i] == r;
      }
    }
  }

  /** A record with such a newline never reaches the decoder whole. */
  lemma BrokenRecordIsNeverSeenWhole(records: seq<string>, r: string)
    requires !Free(r, Newline)
    ensures r !in ReadLines(FileText(records))
  {
    var content := FileText(records);
    SplitPiecesAreFree(content, Newline);
    KeptAreFree(SplitBy(content, Newline));
    hide SplitBy, FileText, Free;
  }

  // A record as the producer writes it, with a line separator inside its title.
  const TORN_HEAD := "{\"title\": \"a"
  const TORN_BODY := "b\", \"body\": \"c\", "
  const TORN_TIME := "\"timestamp\": "
  const TORN_STAMP := "\"2026-01-02T03:04:05+00:00\"}"
  const TORN_TAIL := TORN_BODY + TORN_TIME + TORN_STAMP
  const TORN := TORN_HEAD + "\U{2028}" + TORN_TAIL

  lemma AsciiIsOneLine(s: string)
    requires IsPlainLine(s)
    ensures ReadLines(s) == [s]
  {
    forall i | 0 <= i < |s| ensures ' ' <= s[i] <= '~' {
      assert s[i] in s;
    }
    hide Printable;
    assert Free(s, Newline) && IsRecord(s);
    RecordReadsAsItself(s);
    hide ReadLines;
  }

  predicate IsPlainLine(s: string) {
    Printable(s) && s != "" && s[0] != ' ' && s[|s| - 1] != ' '
  }

  lemma TornPiecesArePrintable()
    ensures Printable(TORN_HEAD) && Printable(TORN_BODY) && Printable(TORN_TIME) && Printable(TORN_STAMP)
  {
    assert Printable(TORN_HEAD) by { hide TORN_BODY, TORN_TIME, TORN_STAMP; }
    assert Printable(TORN_BODY) by { hide TORN_HEAD, TORN_TIME, TORN_STAMP; }
    assert Printable(TORN_TIME) by { hide TORN_BODY, TORN_HEAD, TORN_STAMP; }
    assert Printable(TORN_STAMP) by { hide TORN_BODY, TORN_TIME, TORN_HEAD; }
    hide *;
  }

  lemma TornEnds()
    ensures TORN_HEAD != "" && TORN_HEAD[0] == '{' && TORN_HEAD[|TORN_HEAD| - 1] == 'a'
    ensures TORN_TAIL != "" && TORN_TAIL[0] == 'b' && TORN_TAIL[|TORN_TAIL| - 1] == '}'
  {
    assert TORN_BODY[0] == 'b' && TORN_STAMP[|TORN_STAMP| - 1] == '}';
  }

  lemma TornParts()
    ensures IsPlainLine(TORN_HEAD) && IsPlainLine(TORN_TAIL)
  {
    TornPiecesArePrintable();
    TornEnds();
    hide TORN_HEAD, TORN_BODY, TORN_TIME, TORN_STAMP;
    assert forall c :: c in TORN_TAIL <==> c in TORN_BODY || c in TORN_TIME || c in TORN_STAMP;
  }

  /** Whatever stands around it, a line separator cuts a record in two. */
  lemma ReadAsTwo(head: string, tail: string)
    requires IsPlainLine(head) && IsPlainLine(tail)
    ensures IsRecord(head + "\U{2028}" + tail)
    ensures ReadLines(FileText([head + "\U{2028}" + tail])) == [head, tail]
  {
    var r := head + "\U{2028}" + tail;
    assert head[0] in head && tail[|tail| - 1] in tail;
    assert r[0] == head[0] && r[|r| - 1] == tail[|tail| - 1];
    AsciiIsOneLine(head);
    AsciiIsOneLine(tail);
    hide Printable;
    assert [r][1..] == [];
    RecordsNeverMix([r]);
    assert ReadEach([r]) == ReadLines(r);
    TornLines(head, tail);
    hide ReadLines, FileText, ReadEach, IsPlainLine;
  }

  /** Queued alone, it is read as two lines, neither of them the record. */
  lemma TornRecordIsReadAsTwo()
    ensures IsRecord(TORN)
    ensures ReadLines(FileText([TORN])) == [TORN_HEAD, TORN_TAIL] != [TORN]
  {
    TornParts();
    hide ReadLines, FileText, IsPlainLine, TORN_HEAD, TORN_TAIL, IsRecord;
    ReadAsTwo(TORN_HEAD, TORN_TAIL);
  }

  lemma TornLines(head: string, tail: string)
    ensures ReadLines(head + "\U{2028}" + tail) == ReadLines(head) + ReadLines(tail)
  {
    var rest := "\U{2028}" + tail;
    assert head + "\U{2028}" + tail == head + rest;
    assert rest[0] == '\U{2028}' && rest[1..] == tail;
    assert SplitBy(rest, Newline) == [""] + SplitBy(tail, Newline);
    SplitOfConcat(head, rest, Newline);
    FuseAtStart(SplitBy(head, Newline), SplitBy(tail, Newline));
    KeptConcat(SplitBy(head, Newline), SplitBy(tail, Newline));
    hide SplitBy, Fuse, Kept;
  }
}
