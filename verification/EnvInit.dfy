/** First-launch initialisation of `.env` by the Python side, and how it meets the
    desktop reader. The file holds the text on disk; Python reads it with newlines
    translated, the desktop as it is. */
module EnvInit {
  import opened Text
  import opened Wrappers
  import opened EnvFile
  import R = EnvRoundTrip

  /** Detection results: the status of each usage probe and executor. */
  datatype Detection = Detection(usage: map<string, string>, executors: map<string, string>)

  const PROVIDERS: seq<string> := ["claude", "codex", "antigravity"]
  const USAGE_KEY := "FLUXION_USAGE_PROVIDERS"
  const ENABLED_KEY := "FLUXION_ENABLED_EXECUTORS"
  const DEFAULT_KEY := "FLUXION_DEFAULT_EXECUTOR"
  const COMMENT := "# Auto-detected by Fluxion on first launch."

  function WithStatus(providers: seq<string>, statuses: map<string, string>, status: string): seq<string> {
    if providers == [] then []
    else
      (if providers[0] in statuses && statuses[providers[0]] == status then [providers[0]] else [])
      + WithStatus(providers[1..], statuses, status)
  }

  function DetectedUsageProviders(d: Detection): seq<string> {
    WithStatus(PROVIDERS, d.usage, "ok")
  }

  function EnabledExecutors(d: Detection): seq<string> {
    var available := WithStatus(PROVIDERS, d.executors, "available");
    if available == [] then PROVIDERS else available
  }

  function DetectedDefaultExecutor(d: Detection): string {
    var available := WithStatus(["codex", "claude", "antigravity"], d.executors, "available");
    if available == [] then "codex" else available[0]
  }

  // --------------------------------------------------------- Python's reading

  /** `splitlines`: no final empty line. */
  function PyLines(text: string): seq<string> {
    var parts := SplitBy(text, PyBreak);
    if parts[|parts| - 1] == "" then parts[..|parts| - 1] else parts
  }

  predicate PyIsAssignment(line: string) {
    var left := TrimStart(line, PySpace);
    Trim(line, PySpace) != "" && !(left != "" && left[0] == '#') && '=' in line
  }

  function PyKeyOf(line: string): string {
    FirstEqualsBound(line);
    Trim(line[..FirstEquals(line)], PySpace)
  }

  predicate PyAssigns(line: string, k: string) {
    PyIsAssignment(line) && PyKeyOf(line) == k
  }

  function Existing(lines: seq<string>): set<string> {
    set line | line in lines && PyIsAssignment(line) :: PyKeyOf(line)
  }

  function Additions(d: Detection, existing: set<string>): seq<string> {
    (if USAGE_KEY !in existing then [Assignment(USAGE_KEY, Join(DetectedUsageProviders(d), ','))] else [])
    + (if ENABLED_KEY !in existing then [Assignment(ENABLED_KEY, Join(EnabledExecutors(d), ','))] else [])
    + (if DEFAULT_KEY !in existing then [Assignment(DEFAULT_KEY, DetectedDefaultExecutor(d))] else [])
  }

  function FileLines(file: Option<string>): seq<string> {
    if file.None? then [] else PyLines(Translate(file.value))
  }

  /** The lines written when there is something to add. */
  function Extended(lines: seq<string>, additions: seq<string>): seq<string> {
    lines + (if lines != [] && Trim(lines[|lines| - 1], PySpace) != "" then [""] else []) + [COMMENT] + additions
  }

  function Initialized(d: Detection, file: Option<string>): Option<string> {
    var lines := FileLines(file);
    var additions := Additions(d, Existing(lines));
    if additions == [] then file else Some(Join(Extended(lines, additions), '\n') + "\n")
  }

  class EnvInitializer {
    var file: Option<string>

    constructor (file: Option<string>)
      ensures this.file == file
    {
      this.file := file;
    }

    method InitializeEnv(d: Detection) returns (additions: seq<string>)
      modifies this
      ensures additions == Additions(d, Existing(FileLines(old(file))))
      ensures file == Initialized(d, old(file))
    {
      hide PyIsAssignment, PyKeyOf, PyLines, Join, Trim;
      hide DetectedUsageProviders, EnabledExecutors, DetectedDefaultExecutor;
      var lines := FileLines(file);
      var existing := Existing(lines);
      additions := [];
      if USAGE_KEY !in existing {
        additions := additions + [Assignment(USAGE_KEY, Join(DetectedUsageProviders(d), ','))];
      }
      if ENABLED_KEY !in existing {
        additions := additions + [Assignment(ENABLED_KEY, Join(EnabledExecutors(d), ','))];
      }
      if DEFAULT_KEY !in existing {
        additions := additions + [Assignment(DEFAULT_KEY, DetectedDefaultExecutor(d))];
      }
      assert additions == Additions(d, existing);
      hide Additions, Existing, Assignment;
      if additions != [] {
        var all := lines;
        if lines != [] && Trim(lines[|lines| - 1], PySpace) != "" {
          all := all + [""];
        }
        all := all + ([COMMENT] + additions);
        assert all == Extended(lines, additions);
        file := Some(Join(all, '\n') + "\n");
      }
    }
  }

  // -------------------------------------------------- the texts written are plain

  /** Letters, digits and the punctuation the written lines use. */
  predicate PlainChar(c: char) {
    'a' <= c <= 'z' || 'A' <= c <= 'Z' || c == '_' || c == ','
  }

  predicate Plain(s: string) {
    forall c | c in s :: PlainChar(c)
  }

  lemma PlainAt(s: string)
    requires Plain(s)
    ensures '=' !in s && forall i | 0 <= i < |s| :: PlainChar(s[i])
  {
    forall i | 0 <= i < |s| ensures PlainChar(s[i]) {
      assert s[i] in s;
    }
  }

  lemma PlainIsClean(s: string)
    requires Plain(s)
    ensures Free(s, Newline) && Free(s, PyBreak) && '=' !in s
    ensures R.CleanKey(s) && R.CleanValue(s) && Trim(s, PySpace) == s
  {
    PlainAt(s);
    TrimmedIffFixed(s, Blank);
    TrimmedIffFixed(s, PySpace);
    TrimmedIffFixed(s, Quote);
    hide Trim, Plain;
  }

  lemma {:induction false} JoinIsPlain(parts: seq<string>)
    requires forall p | p in parts :: Plain(p)
    ensures Plain(Join(parts, ','))
  {
    if parts != [] {
      assert parts[0] in parts;
      JoinIsPlain(parts[1..]);
    }
  }

  lemma {:induction false} WithStatusMembers(providers: seq<string>, statuses: map<string, string>, status: string)
    ensures forall p | p in WithStatus(providers, statuses, status) :: p in providers
  {
    if providers != [] {
      WithStatusMembers(providers[1..], statuses, status);
    }
  }

  lemma NamesArePlain()
    ensures Plain("claude") && Plain("codex") && Plain("antigravity")
    ensures Plain(USAGE_KEY) && Plain(ENABLED_KEY) && Plain(DEFAULT_KEY)
  {
    KeysArePlain();
    hide USAGE_KEY, ENABLED_KEY, DEFAULT_KEY;
  }

  lemma KeysArePlain()
    ensures Plain(USAGE_KEY) && Plain(ENABLED_KEY) && Plain(DEFAULT_KEY)
  {
    assert Plain(USAGE_KEY) by { hide ENABLED_KEY, DEFAULT_KEY; }
    assert Plain(ENABLED_KEY) by { hide USAGE_KEY, DEFAULT_KEY; }
    assert Plain(DEFAULT_KEY) by { hide USAGE_KEY, ENABLED_KEY; }
    hide *;
  }

  lemma ValuesArePlain(d: Detection)
    ensures Plain(Join(DetectedUsageProviders(d), ','))
    ensures Plain(Join(EnabledExecutors(d), ','))
    ensures Plain(DetectedDefaultExecutor(d))
  {
    NamesArePlain();
    WithStatusMembers(PROVIDERS, d.usage, "ok");
    WithStatusMembers(PROVIDERS, d.executors, "available");
    WithStatusMembers(["codex", "claude", "antigravity"], d.executors, "available");
    hide WithStatus, Plain;
    assert Plain(DetectedDefaultExecutor(d)) by {
      var available := WithStatus(["codex", "claude", "antigravity"], d.executors, "available");
      if available != [] { assert available[0] in available; }
    }
    JoinIsPlain(DetectedUsageProviders(d));
    JoinIsPlain(EnabledExecutors(d));
  }

  predicate IsSettingKey(k: string) {
    k == USAGE_KEY || k == ENABLED_KEY || k == DEFAULT_KEY
  }

  /** Every added line assigns one of the keys, reads the same on both sides, and
      holds no line break of either kind. */
  ghost predicate GoodLine(line: string) {
    && Free(line, Newline) && Free(line, PyBreak)
    && (line == COMMENT || line == "" || (exists k :: IsSettingKey(k) && PyAssigns(line, k) && Assigns(line, k)))
  }

  lemma PlainAssignmentReads(k: string, v: string)
    requires Plain(k) && Plain(v) && k != ""
    ensures var line := Assignment(k, v);
            Free(line, Newline) && Free(line, PyBreak) && PyAssigns(line, k) && Assigns(line, k)
  {
    PlainIsClean(k);
    PlainIsClean(v);
    var line := Assignment(k, v);
    R.AssignmentReads(k, v);
    assert Free(line, PyBreak) by {
      assert !In('=', PyBreak);
    }
    hide IsAssignment, KeyOf, Free;
    PythonReads(k, v);
    hide PyAssigns, Assignment;
  }

  lemma PythonReads(k: string, v: string)
    requires Plain(k) && k != ""
    ensures PyAssigns(Assignment(k, v), k)
  {
    var line := Assignment(k, v);
    PlainIsClean(k);
    FirstEqualsAt(k, v);
    assert k[0] in k && PlainChar(k[0]);
    hide Plain, Free;
    assert line[0] == k[0] && !In(k[0], PySpace) && k[0] != '#';
    assert TrimStart(line, PySpace) == line;
    assert line[..|k|] == k;
    assert Trim(line, PySpace) != "" by {
      var _, _ := TrimCuts(line, PySpace);
      assert line[|k|] == '=' && !In('=', PySpace);
      hide Trim;
    }
    hide Trim;
    assert line[|k|] == '=';
  }

  lemma AdditionsAreGood(d: Detection, existing: set<string>)
    ensures forall line | line in Additions(d, existing) :: GoodLine(line)
    ensures forall k | IsSettingKey(k) && k !in existing ::
              exists line :: line in Additions(d, existing) && PyAssigns(line, k) && Assigns(line, k)
  {
    NamesArePlain();
    ValuesArePlain(d);
    hide Plain, DetectedUsageProviders, EnabledExecutors, DetectedDefaultExecutor, Join;
    var u, e, f := Join(DetectedUsageProviders(d), ','), Join(EnabledExecutors(d), ','), DetectedDefaultExecutor(d);
    PlainAssignmentReads(USAGE_KEY, u);
    PlainAssignmentReads(ENABLED_KEY, e);
    PlainAssignmentReads(DEFAULT_KEY, f);
    hide PyAssigns, Assigns, Assignment, Free;
    AdditionsHold(d, existing, Assignment(USAGE_KEY, u), Assignment(ENABLED_KEY, e), Assignment(DEFAULT_KEY, f));
  }

  lemma AdditionsHold(d: Detection, existing: set<string>, a: string, b: string, c: string)
    requires a == Assignment(USAGE_KEY, Join(DetectedUsageProviders(d), ','))
    requires b == Assignment(ENABLED_KEY, Join(EnabledExecutors(d), ','))
    requires c == Assignment(DEFAULT_KEY, DetectedDefaultExecutor(d))
    ensures forall line | line in Additions(d, existing) :: line == a || line == b || line == c
    ensures USAGE_KEY !in existing ==> a in Additions(d, existing)
    ensures ENABLED_KEY !in existing ==> b in Additions(d, existing)
    ensures DEFAULT_KEY !in existing ==> c in Additions(d, existing)
  {
    hide Join, Assignment, DetectedUsageProviders, EnabledExecutors, DetectedDefaultExecutor;
  }

  lemma CommentIsPrintable()
    ensures Printable(COMMENT)
  {
  }

  lemma CommentIsGood()
    ensures GoodLine(COMMENT) && GoodLine("")
  {
    CommentIsPrintable();
    PrintableIsFree(COMMENT);
    PrintableIsFree("");
    hide Free, COMMENT;
  }

  // ------------------------------------------------------------- the theorems

  lemma {:induction false} JoinWithFinalBreak(lines: seq<string>)
    requires lines != []
    ensures Join(lines, '\n') + "\n" == Join(lines + [""], '\n')
  {
    if |lines| == 1 {
      assert (lines + [""])[1..] == [""];
    } else {
      assert (lines + [""])[1..] == lines[1..] + [""];
      JoinWithFinalBreak(lines[1..]);
    }
  }

  lemma ExtendedIsFree(lines: seq<string>, additions: seq<string>, k: Chars)
    requires AllFree(lines, k) && (k == Newline || k == PyBreak)
    requires forall line | line in additions :: GoodLine(line)
    ensures AllFree(Extended(lines, additions), k) && Extended(lines, additions) != []
  {
    CommentIsGood();
    var all := Extended(lines, additions);
    hide Free;
    forall i | 0 <= i < |all| ensures Free(all[i], k) {
      if i >= |lines| {
        assert all[i] == "" || all[i] == COMMENT || all[i] in additions;
        assert GoodLine(all[i]);
      } else {
        assert all[i] == lines[i];
      }
    }
  }

  /** Writing and splitting again gives the extended lines and a final empty one. */
  lemma WrittenLines(lines: seq<string>, additions: seq<string>, k: Chars)
    requires AllFree(lines, k) && (k == Newline || k == PyBreak)
    requires forall line | line in additions :: GoodLine(line)
    ensures var all := Extended(lines, additions);
            SplitBy(Join(all, '\n') + "\n", k) == all + [""]
  {
    var all := Extended(lines, additions);
    ExtendedIsFree(lines, additions, k);
    hide Extended, GoodLine;
    JoinWithFinalBreak(all);
    assert In('\n', k);
    SplitOfJoin(all + [""], '\n', k);
  }

  lemma FileLinesAreFree(file: Option<string>)
    ensures AllFree(FileLines(file), PyBreak) && AllFree(FileLines(file), Newline)
  {
    if file.Some? {
      var text := Translate(file.value);
      SplitPiecesAreFree(text, PyBreak);
      TranslateHoldsNoReturn(file.value);
      PiecesHoldNoReturn(text, PyBreak);
      hide Translate;
      NoReturnNoBreaks(FileLines(file));
    }
  }

  lemma NoReturnNoBreaks(lines: seq<string>)
    requires AllFree(lines, PyBreak) && forall line | line in lines :: '\r' !in line
    ensures AllFree(lines, Newline)
  {
    hide Free;
    forall i | 0 <= i < |lines| ensures Free(lines[i], Newline) {
      assert lines[i] in lines;
      NoReturnNoBreak(lines[i]);
    }
  }

  /** When something is added, the file's lines stay in place as a prefix, then
      come at most one blank line, the comment and the additions. */
  lemma ExistingLinesArePrefix(d: Detection, file: Option<string>)
    ensures FileLines(file) <= FileLines(Initialized(d, file))
    ensures var additions := Additions(d, Existing(FileLines(file)));
            additions != [] ==> FileLines(Initialized(d, file)) == Extended(FileLines(file), additions)
  {
    var lines := FileLines(file);
    var additions := Additions(d, Existing(lines));
    FileLinesAreFree(file);
    AdditionsAreGood(d, Existing(lines));
    hide Additions, Existing, FileLines, GoodLine;
    if additions != [] {
      WrittenLines(lines, additions, PyBreak);
      ExtendedIsFree(lines, additions, Newline);
      WrittenFileLines(Extended(lines, additions));
    }
  }

  lemma {:induction false} JoinHoldsNoReturn(all: seq<string>)
    requires AllFree(all, Newline)
    ensures '\r' !in Join(all, '\n')
  {
    if all != [] {
      assert Free(all[0], Newline) && In('\r', Newline);
      assert '\r' !in all[0];
      hide Free;
      assert AllFree(all[1..], Newline) by {
        assert forall i | 0 <= i < |all[1..]| :: all[1..][i] == all[i + 1];
      }
      JoinHoldsNoReturn(all[1..]);
    }
  }

  lemma WrittenFileLines(all: seq<string>)
    requires AllFree(all, Newline)
    requires SplitBy(Join(all, '\n') + "\n", PyBreak) == all + [""]
    ensures FileLines(Some(Join(all, '\n') + "\n")) == all
  {
    JoinHoldsNoReturn(all);
    TranslateFixes(Join(all, '\n') + "\n");
    assert (all + [""])[..|all|] == all;
    hide SplitBy, Join, Translate;
  }

  /** After a run every setting key exists for the Python side. */
  lemma AllKeysExist(d: Detection, file: Option<string>, k: string)
    requires IsSettingKey(k)
    ensures k in Existing(FileLines(Initialized(d, file)))
  {
    var lines := FileLines(file);
    var additions := Additions(d, Existing(lines));
    ExistingLinesArePrefix(d, file);
    AdditionsAreGood(d, Existing(lines));
    var after := FileLines(Initialized(d, file));
    hide Additions, FileLines, GoodLine, Initialized, PyIsAssignment, PyKeyOf, IsAssignment, KeyOf, IsSettingKey;
    if k in Existing(lines) {
      var line :| line in lines && PyIsAssignment(line) && PyKeyOf(line) == k;
      assert line in after;
    } else {
      var line :| line in additions && PyAssigns(line, k);
      assert line in Extended(lines, additions);
    }
  }

  /** A second run, whatever it detects, adds nothing and leaves the file alone. */
  lemma SecondRunAddsNothing(d: Detection, file: Option<string>, later: Detection)
    ensures var once := Initialized(d, file);
            Additions(later, Existing(FileLines(once))) == [] && Initialized(later, once) == once
  {
    AllKeysExist(d, file, USAGE_KEY);
    AllKeysExist(d, file, ENABLED_KEY);
    AllKeysExist(d, file, DEFAULT_KEY);
    var once := Initialized(d, file);
    assert Additions(later, Existing(FileLines(once))) == [] by {
      hide Initialized, FileLines, Existing, Join;
    }
    hide Additions, Existing, FileLines;
  }

  // ------------------------------------------------ what the desktop then sees

  /** Text on which both programs agree what white space and line breaks are. */
  predicate Common(s: string) {
    forall c | c in s :: !('\U{001C}' <= c <= '\U{001F}') && c != R.ZERO_WIDTH_SPACE
  }

  predicate Agree(s: string, p: Chars, q: Chars) {
    forall i | 0 <= i < |s| :: In(s[i], p) <==> In(s[i], q)
  }

  lemma {:induction false} AgreeSplit(s: string, p: Chars, q: Chars)
    requires Agree(s, p, q)
    ensures SplitBy(s, p) == SplitBy(s, q)
  {
    hide In;
    if s != "" {
      assert Agree(s[1..], p, q) by {
        assert forall i | 0 <= i < |s| - 1 :: s[1..][i] == s[i + 1];
      }
      AgreeSplit(s[1..], p, q);
      assert In(s[0], p) <==> In(s[0], q);
    }
  }

  lemma {:induction false} AgreeTrimStart(s: string, p: Chars, q: Chars)
    requires Agree(s, p, q)
    ensures TrimStart(s, p) == TrimStart(s, q) && Agree(TrimStart(s, p), p, q)
  {
    hide In;
    if s != "" {
      assert Agree(s[1..], p, q) by {
        assert forall i | 0 <= i < |s| - 1 :: s[1..][i] == s[i + 1];
      }
      AgreeTrimStart(s[1..], p, q);
      assert In(s[0], p) <==> In(s[0], q);
    }
  }

  lemma {:induction false} AgreeTrimEnd(s: string, p: Chars, q: Chars)
    requires Agree(s, p, q)
    ensures TrimEnd(s, p) == TrimEnd(s, q)
  {
    hide In;
    if s != "" {
      assert Agree(s[..|s| - 1], p, q);
      AgreeTrimEnd(s[..|s| - 1], p, q);
    }
  }

  lemma {:induction false} FirstEqualsSkips(head: string, s: string)
    requires '=' !in head
    ensures FirstEquals(head + s) == |head| + FirstEquals(s)
  {
    if head == "" {
      assert head + s == s;
    } else {
      assert (head + s)[0] == head[0] && (head + s)[1..] == head[1..] + s;
      FirstEqualsSkips(head[1..], s);
    }
  }

  lemma {:induction false} FirstEqualsInFront(s: string, tail: string)
    requires '=' in s
    ensures FirstEquals(s + tail) == FirstEquals(s)
  {
    if s[0] != '=' {
      assert s == [s[0]] + s[1..];
      assert (s + tail)[0] == s[0] && (s + tail)[1..] == s[1..] + tail;
      FirstEqualsInFront(s[1..], tail);
    }
  }

  /** The part of a line both readers take the key from. */
  lemma KeyPart(line: string) returns (head: string, raw: string)
    requires '=' in line
    ensures raw == Trim(line, Space) && raw != "" && '=' in raw && !In(raw[0], Space)
    ensures All(head, Space) && head + raw <= line
    ensures FirstEquals(line) == |head| + FirstEquals(raw)
  {
    var h, tail := TrimCuts(line, Space);
    head, raw := h, Trim(line, Space);
    hide Trim;
    SpacesHoldNoEquals(head);
    SpacesHoldNoEquals(tail);
    assert line == head + (raw + tail);
    FirstEqualsSkips(head, raw + tail);
    FirstEqualsInFront(raw, tail);
  }

  /** On common text a line the Python side reads as assigning a key is read the
      same way by the desktop. */
  lemma CommonLineAgrees(line: string, k: string)
    requires Common(line) && Free(line, Newline) && PyAssigns(line, k)
    ensures Assigns(line, k)
  {
    var head, raw := KeyPart(line);
    var tail := line[|head| + |raw|..];
    assert line == head + (raw + tail);
    CommonHead(line, head, raw, tail);
    FirstEqualsBound(raw);
    var part := raw[..FirstEquals(raw)];
    assert line[..FirstEquals(line)] == head + part;
    hide In, Free, Common;
    TrimStartSkips(head, part, PySpace);
    TrimStartSkips(head, raw + tail, PySpace);
    assert forall i | 0 <= i < |part| :: part[i] == raw[i];
    assert Agree(part, PySpace, Blank);
    AgreeTrimStart(part, PySpace, Blank);
    AgreeTrimEnd(TrimStart(part, PySpace), PySpace, Blank);
    assert (raw + tail)[0] == raw[0];
    assert TrimStart(raw + tail, PySpace) == raw + tail;
    hide Agree, TrimStart, TrimEnd;
  }

  /** What the two kinds of white space make of the front of a common line. */
  lemma CommonHead(line: string, head: string, raw: string, tail: string)
    requires Common(line) && Free(line, Newline) && line == head + (raw + tail)
    requires All(head, Space) && raw != "" && !In(raw[0], Space)
    ensures All(head, PySpace) && !In(raw[0], PySpace) && Agree(raw, PySpace, Blank)
  {
    assert forall i | 0 <= i < |head| :: head[i] == line[i];
    forall i | 0 <= i < |raw| ensures raw[i] in line && raw[i] == line[|head| + i] {
    }
  }

  lemma CommonPieces(text: string)
    requires Common(text) && '\r' !in text
    ensures SplitBy(text, PyBreak) == SplitBy(text, Newline)
  {
    assert forall i | 0 <= i < |text| :: text[i] in text;
    assert Agree(text, PyBreak, Newline);
    AgreeSplit(text, PyBreak, Newline);
    hide SplitBy;
  }

  lemma CommonConcat(a: string, b: string)
    ensures Common(a + b) <==> Common(a) && Common(b)
  {
    assert forall c :: c in a + b <==> c in a || c in b;
  }

  lemma {:induction false} PiecesAreCommon(text: string, k: Chars)
    requires Common(text)
    ensures forall p | p in SplitBy(text, k) :: Common(p)
  {
    if text != "" {
      var head, rest := [text[0]], SplitBy(text[1..], k);
      assert text == head + text[1..];
      CommonConcat(head, text[1..]);
      PiecesAreCommon(text[1..], k);
      assert rest[0] in rest;
      CommonConcat(head, rest[0]);
      assert Common("");
      hide In, Common;
    }
  }

  lemma {:induction false} SomeLineCounts(lines: seq<string>, line: string, k: string)
    requires line in lines && Assigns(line, k)
    ensures R.Count(lines, k) > 0
  {
    if lines[0] != line {
      SomeLineCounts(lines[1..], line, k);
    }
    hide Assigns;
  }

  /** A common file's lines look the same to both readers. */
  lemma FileLinesCommon(file: Option<string>)
    requires file.Some? ==> Common(file.value)
    ensures AllFree(FileLines(file), Newline)
    ensures forall line | line in FileLines(file) :: Common(line) && (line != "" ==> line in LinesOf(file))
  {
    FileLinesAreFree(file);
    if file.Some? {
      var text := Translate(file.value);
      TranslateHoldsNoReturn(file.value);
      assert Common(text);
      CommonPieces(text);
      PiecesAreCommon(text, PyBreak);
      TranslateSplits(file.value);
      hide SplitBy, Common, Translate;
      PiecesBehind(SplitBy(text, Newline), SplitBy(file.value, Newline));
    }
  }

  lemma EmptyAndCommentAssignNothing(k: string)
    ensures !Assigns("", k) && !Assigns(COMMENT, k)
  {
    assert Trim("", Space) == "";
    assert COMMENT[0] == '#';
    var comment := COMMENT;
    hide COMMENT;
    assert TrimStart(comment, Space) == comment;
    var cut := TrimEndCuts(comment, Space);
    assert Trim(comment, Space) == "" || Trim(comment, Space)[0] == '#';
    hide Trim;
  }

  lemma AdditionsAssignOnlyMissing(d: Detection, existing: set<string>)
    ensures forall line, k | line in Additions(d, existing) && Assigns(line, k) :: k !in existing
  {
    NamesArePlain();
    ValuesArePlain(d);
    hide Plain, DetectedUsageProviders, EnabledExecutors, DetectedDefaultExecutor, Join;
    var u, e, f := Join(DetectedUsageProviders(d), ','), Join(EnabledExecutors(d), ','), DetectedDefaultExecutor(d);
    PlainAssignmentReads(USAGE_KEY, u);
    PlainAssignmentReads(ENABLED_KEY, e);
    PlainAssignmentReads(DEFAULT_KEY, f);
    hide PyAssigns, Free, KeyOf, IsAssignment, Assignment, USAGE_KEY, ENABLED_KEY, DEFAULT_KEY;
  }

  lemma {:induction false} CountedLine(lines: seq<string>, k: string) returns (line: string)
    requires R.Count(lines, k) > 0
    ensures line in lines && Assigns(line, k)
  {
    if Assigns(lines[0], k) {
      line := lines[0];
    } else {
      line := CountedLine(lines[1..], k);
    }
    hide Assigns;
  }

  predicate SomeAssigns(lines: seq<string>, k: string) {
    exists line :: line in lines && Assigns(line, k)
  }

  lemma SeenIffSomeAssigns(lines: seq<string>, k: string)
    ensures k in LoadLines(lines) <==> SomeAssigns(lines, k)
  {
    R.LoadedIffCounted(lines, k);
    hide Assigns, LoadLines;
    if R.Count(lines, k) > 0 {
      var line := CountedLine(lines, k);
    }
    if line :| line in lines && Assigns(line, k) {
      SomeLineCounts(lines, line, k);
    }
  }

  lemma {:induction false} PiecesHoldNoReturn(text: string, k: Chars)
    requires '\r' !in text
    ensures forall p | p in SplitBy(text, k) :: '\r' !in p
  {
    if text != "" {
      PiecesHoldNoReturn(text[1..], k);
      var rest := SplitBy(text[1..], k);
      assert rest[0] in rest;
    }
    hide In;
  }

  lemma NoReturnNoBreak(line: string)
    requires Free(line, PyBreak) && '\r' !in line
    ensures Free(line, Newline)
  {
    forall j | 0 <= j < |line| ensures !In(line[j], Newline) {
      assert line[j] in line;
    }
  }

  lemma ExtendedAssigns(d: Detection, lines: seq<string>, k: string)
    requires IsSettingKey(k)
    ensures var existing := Existing(lines);
            SomeAssigns(Extended(lines, Additions(d, existing)) + [""], k)
            <==> k !in existing || SomeAssigns(lines, k)
  {
    var existing := Existing(lines);
    var additions := Additions(d, existing);
    var after := Extended(lines, additions) + [""];
    AdditionsAreGood(d, existing);
    EmptyAndCommentAssignNothing(k);
    hide Additions, GoodLine, Assigns, IsSettingKey, PyAssigns, Existing, Trim, COMMENT;
    if k !in existing {
      var line :| line in additions && PyAssigns(line, k) && Assigns(line, k);
      assert line in after;
    }
    if line :| line in lines && Assigns(line, k) {
      assert line in after;
    }
    if line :| line in after && Assigns(line, k) {
      assert line in lines || line in additions;
      if line in additions {
        AdditionsAssignOnlyMissing(d, existing);
      }
    }
  }

  /** Exactly when the desktop's `loadEnv` sees a setting after initialisation: when
      nothing was written, if it saw it before; otherwise if the Python side missed
      the key, or some line as the Python side cuts them assigns it for the desktop. */
  lemma DesktopSeesSetting(d: Detection, file: Option<string>, k: string)
    requires IsSettingKey(k)
    ensures var lines := FileLines(file);
            k in LoadFile(Initialized(d, file)) <==>
            if Additions(d, Existing(lines)) == [] then k in LoadFile(file)
            else k !in Existing(lines) || k in LoadLines(lines)
  {
    var lines := FileLines(file);
    var additions := Additions(d, Existing(lines));
    if additions != [] {
      FileLinesAreFree(file);
      AdditionsAreGood(d, Existing(lines));
      WrittenLines(lines, additions, Newline);
      ExtendedAssigns(d, lines, k);
      hide Additions, FileLines, Existing, Extended, LoadLines, Assigns, SomeAssigns, IsSettingKey, Join, GoodLine;
      SeenIffSomeAssigns(lines, k);
      SeenIffSomeAssigns(Extended(lines, additions) + [""], k);
    }
    hide Additions, FileLines, Existing, LoadLines, Join, IsSettingKey;
  }

  /** So the desktop's `loadEnv` sees all three settings for every file, whatever its
      line ends, without information separators and zero-width spaces. */
  lemma DesktopSeesAllSettings(d: Detection, file: Option<string>, k: string)
    requires IsSettingKey(k) && (file.Some? ==> Common(file.value))
    ensures k in LoadFile(Initialized(d, file))
  {
    var lines := FileLines(file);
    FileLinesCommon(file);
    DesktopSeesSetting(d, file, k);
    hide Additions, FileLines, Initialized, PyIsAssignment, PyKeyOf, Common, LinesOf, Assigns, IsSettingKey, LoadLines;
    if k in Existing(lines) {
      var line :| line in lines && PyIsAssignment(line) && PyKeyOf(line) == k;
      var i :| 0 <= i < |lines| && lines[i] == line;
      assert Free(line, Newline);
      CommonLineAgrees(line, k);
      EmptyAndCommentAssignNothing(k);
      SeenIffSomeAssigns(lines, k);
      SeenIffSomeAssigns(LinesOf(file), k);
    } else {
      AllKeysAdded(d, Existing(lines), k);
    }
  }

  lemma AllKeysAdded(d: Detection, existing: set<string>, k: string)
    requires IsSettingKey(k) && k !in existing
    ensures Additions(d, existing) != []
  {
    AdditionsAreGood(d, existing);
    hide Additions, GoodLine, PyAssigns, Assigns, IsSettingKey;
  }

  const INFO := "\U{001F}"

  lemma InfoLineForPython(k: string, v: string)
    requires Plain(k) && Plain(v) && k != ""
    ensures PyAssigns(INFO + Assignment(k, v), k)
  {
    var rest := Assignment(k, v);
    var line := INFO + rest;
    PlainAssignmentReads(k, v);
    PlainIsClean(k);
    FirstEqualsAt(k, v);
    FirstEqualsSkips(INFO, rest);
    assert All(INFO, PySpace);
    hide In, Plain, Assignment, Assigns, Free;
    TrimStartSkips(INFO, rest, PySpace);
    TrimStartSkips(INFO, k, PySpace);
    assert line[..|k| + 1] == INFO + k by {
      assert rest == k + "=" + v by { assert rest == Assignment(k, v); }
    }
  }

  lemma InfoLineForDesktop(k: string, v: string)
    requires Plain(k) && k != ""
    ensures !Assigns(INFO + Assignment(k, v), k)
  {
    var line, key := INFO + Assignment(k, v), INFO + k;
    InfoPart(k);
    assert line == key + "=" + v;
    assert !In(key[0], Space);
    assert key != k;
    hide Plain, Assignment, INFO;
    KeyAtStart(key, v);
    hide IsAssignment, KeyOf;
  }

  /** A line that starts with its key reads as having that key. */
  lemma KeyAtStart(key: string, v: string)
    requires key != "" && !In(key[0], Space) && '=' !in key && Trim(key, Blank) == key
    ensures KeyOf(key + "=" + v) == key
  {
    var line := key + "=" + v;
    FirstEqualsAt(key, v);
    assert line[|key|] == '=' && line[0] == key[0];
    var head, raw := KeyPart(line);
    hide Trim;
    assert (head + raw)[0] == line[0];
    assert head == "";
    hide In;
    FirstEqualsBound(raw);
    assert raw <= line;
    assert raw[..|key|] == line[..|key|] == key;
  }

  lemma InfoPart(k: string)
    requires Plain(k) && k != ""
    ensures Trim(INFO + k, Blank) == INFO + k && '=' !in INFO + k
  {
    PlainAt(k);
    assert PlainChar(k[|k| - 1]);
    TrimmedIffFixed(INFO + k, Blank);
    hide Trim, Plain;
  }

  /** The restriction is needed: behind an information separator the Python side
      finds the key, so it adds nothing, and the desktop does not. */
  lemma InfoSeparatorHidesTheKey(k: string, v: string)
    requires Plain(k) && Plain(v) && k != ""
    ensures PyAssigns(INFO + Assignment(k, v), k) && !Assigns(INFO + Assignment(k, v), k)
  {
    InfoLineForPython(k, v);
    InfoLineForDesktop(k, v);
  }

  lemma InfoFile(k: string, v: string)
    requires Plain(k) && Plain(v) && k != ""
    ensures var line := INFO + Assignment(k, v);
            FileLines(Some(line)) == [line] == LinesOf(Some(line))
  {
    var line := INFO + Assignment(k, v);
    PlainIsClean(k);
    PlainIsClean(v);
    assert Free(line, PyBreak) && Free(line, Newline) by {
      assert !In('=', PyBreak) && !In('=', Newline) && !In(INFO[0], PyBreak) && !In(INFO[0], Newline);
    }
    assert '\r' !in line by {
      assert In('\r', Newline);
    }
    assert line != "";
    hide Free, In, Plain, INFO, Assignment;
    SplitOfFree(line, PyBreak);
    SplitOfFree(line, Newline);
    TranslateFixes(line);
    hide SplitBy, Translate;
  }

  /** A whole file with such a line: whatever is detected, the desktop misses the
      setting after initialisation. */
  lemma InfoFileHidesTheSetting(d: Detection, k: string, v: string)
    requires IsSettingKey(k) && Plain(v)
    ensures k !in LoadFile(Initialized(d, Some(INFO + Assignment(k, v))))
  {
    var line := INFO + Assignment(k, v);
    NamesArePlain();
    InfoFile(k, v);
    InfoSeparatorHidesTheKey(k, v);
    DesktopSeesSetting(d, Some(line), k);
    hide Plain, PyAssigns, Assigns, INFO, Assignment, IsSettingKey, FileLines, Initialized, LinesOf, Additions;
    assert line in [line];
    assert PyIsAssignment(line) && PyKeyOf(line) == k by {
      assert PyAssigns(line, k);
    }
    SeenIffSomeAssigns([line], k);
  }
}
