/** Which values initialisation writes for the settings a `.env` file lacks, and that
    the desktop loads them. */
module EnvValues {
  import opened Text
  import opened Wrappers
  import opened EnvFile
  import opened EnvInit
  import R = EnvRoundTrip

  /** The usage probe of a provider succeeded. */
  predicate ProbeOk(d: Detection, provider: string) {
    provider in d.usage && d.usage[provider] == "ok"
  }

  predicate Available(d: Detection, provider: string) {
    provider in d.executors && d.executors[provider] == "available"
  }

  /** The names that hold, in the order claude, codex, antigravity, with commas. */
  function Listed(claude: bool, codex: bool, antigravity: bool): string {
    if claude && codex && antigravity then "claude,codex,antigravity"
    else if claude && codex then "claude,codex"
    else if claude && antigravity then "claude,antigravity"
    else if codex && antigravity then "codex,antigravity"
    else if claude then "claude"
    else if codex then "codex"
    else if antigravity then "antigravity"
    else ""
  }

  /** The value written for a setting the file lacks: the providers whose probe
      succeeded; the available executors, or all three when none is; and the first
      available one of codex, claude and antigravity, or codex. */
  function ValueFor(d: Detection, k: string): string {
    if k == "FLUXION_USAGE_PROVIDERS" then
      Listed(ProbeOk(d, "claude"), ProbeOk(d, "codex"), ProbeOk(d, "antigravity"))
    else if k == "FLUXION_ENABLED_EXECUTORS" then
      var claude, codex, antigravity := Available(d, "claude"), Available(d, "codex"), Available(d, "antigravity");
      if claude || codex || antigravity then Listed(claude, codex, antigravity) else "claude,codex,antigravity"
    else if Available(d, "codex") then "codex"
    else if Available(d, "claude") then "claude"
    else if Available(d, "antigravity") then "antigravity"
    else "codex"
  }

  function Chosen(a: string, aIn: bool, b: string, bIn: bool, c: string, cIn: bool): seq<string> {
    (if aIn then [a] else []) + (if bIn then [b] else []) + (if cIn then [c] else [])
  }

  lemma WithStatusOfThree(a: string, b: string, c: string, statuses: map<string, string>, status: string)
    ensures WithStatus([a, b, c], statuses, status)
            == Chosen(a, a in statuses && statuses[a] == status, b, b in statuses && statuses[b] == status,
                      c, c in statuses && statuses[c] == status)
  {
    assert [a, b, c][1..] == [b, c] && [b, c][1..] == [c] && [c][1..] == [];
    assert WithStatus([c], statuses, status) == if c in statuses && statuses[c] == status then [c] else [];
  }

  lemma JoinOfTwo(a: string, b: string)
    ensures Join([a, b], ',') == a + "," + b
  {
    assert [a, b][1..] == [b];
  }

  lemma JoinOfThree(a: string, b: string, c: string)
    ensures Join([a, b, c], ',') == a + "," + b + "," + c
  {
    assert [a, b, c][1..] == [b, c];
    JoinOfTwo(b, c);
    assert a + "," + (b + "," + c) == a + "," + b + "," + c;
  }

  lemma JoinOfChosen(claude: bool, codex: bool, antigravity: bool)
    ensures Join(Chosen("claude", claude, "codex", codex, "antigravity", antigravity), ',')
            == Listed(claude, codex, antigravity)
  {
    var names := Chosen("claude", claude, "codex", codex, "antigravity", antigravity);
    JoinOfTwo("claude", "codex");
    JoinOfTwo("claude", "antigravity");
    JoinOfTwo("codex", "antigravity");
    JoinOfThree("claude", "codex", "antigravity");
    assert "claude" + "," + "codex" == "claude,codex";
    assert "claude" + "," + "codex" + "," + "antigravity" == "claude,codex,antigravity";
    if |names| < 2 {
      assert names == [] || names == [names[0]];
    } else {
      hide Join;
      assert |names| == 2 ==> names == [names[0], names[1]];
    }
  }

  /** What is detected, as text. */
  lemma DetectedValues(d: Detection)
    ensures Join(DetectedUsageProviders(d), ',') == ValueFor(d, USAGE_KEY)
    ensures Join(EnabledExecutors(d), ',') == ValueFor(d, ENABLED_KEY)
    ensures DetectedDefaultExecutor(d) == ValueFor(d, DEFAULT_KEY)
  {
    WithStatusOfThree("claude", "codex", "antigravity", d.usage, "ok");
    WithStatusOfThree("claude", "codex", "antigravity", d.executors, "available");
    WithStatusOfThree("codex", "claude", "antigravity", d.executors, "available");
    JoinOfChosen(ProbeOk(d, "claude"), ProbeOk(d, "codex"), ProbeOk(d, "antigravity"));
    JoinOfChosen(Available(d, "claude"), Available(d, "codex"), Available(d, "antigravity"));
    JoinOfThree("claude", "codex", "antigravity");
    KeyNames();
    hide WithStatus, Join, USAGE_KEY, ENABLED_KEY, DEFAULT_KEY;
  }

  lemma KeyNames()
    ensures USAGE_KEY == "FLUXION_USAGE_PROVIDERS" && ENABLED_KEY == "FLUXION_ENABLED_EXECUTORS"
    ensures DEFAULT_KEY != "FLUXION_USAGE_PROVIDERS" && DEFAULT_KEY != "FLUXION_ENABLED_EXECUTORS"
  {
    assert DEFAULT_KEY[8] == 'D';
  }

  function Line(d: Detection, k: string): string {
    k + "=" + ValueFor(d, k)
  }

  /** The lines added: one for each setting that is missing, in this order. */
  lemma MissingSettingsAreAdded(d: Detection, existing: set<string>)
    ensures Additions(d, existing)
            == (if USAGE_KEY !in existing then [Line(d, USAGE_KEY)] else [])
               + (if ENABLED_KEY !in existing then [Line(d, ENABLED_KEY)] else [])
               + (if DEFAULT_KEY !in existing then [Line(d, DEFAULT_KEY)] else [])
  {
    DetectedValues(d);
    hide Join, ValueFor, DetectedUsageProviders, EnabledExecutors, DetectedDefaultExecutor;
    hide USAGE_KEY, ENABLED_KEY, DEFAULT_KEY;
  }

  predicate IsBlankLine(line: string) {
    forall i | 0 <= i < |line| :: In(line[i], PySpace)
  }

  lemma BlankTrims(line: string)
    ensures Trim(line, PySpace) == "" <==> IsBlankLine(line)
  {
    var head, tail := TrimCuts(line, PySpace);
    var body := Trim(line, PySpace);
    hide Trim, In;
    if body == "" {
      assert line == head + tail;
    } else {
      assert line[|head|] == body[0];
    }
  }

  /** What the file holds afterwards: its lines, a blank one if the last was not blank,
      the comment, and the lines added. */
  lemma LinesAfterwards(d: Detection, file: Option<string>)
    ensures var lines, added := FileLines(file), Additions(d, Existing(FileLines(file)));
            FileLines(Initialized(d, file)) ==
            if added == [] then lines
            else if lines == [] || IsBlankLine(lines[|lines| - 1]) then
              lines + ["# Auto-detected by Fluxion on first launch."] + added
            else lines + ["", "# Auto-detected by Fluxion on first launch."] + added
  {
    var lines := FileLines(file);
    NothingAdded(d, file);
    ExistingLinesArePrefix(d, file);
    ExtendedIs(lines, Additions(d, Existing(lines)));
    hide *;
  }

  lemma NothingAdded(d: Detection, file: Option<string>)
    ensures Additions(d, Existing(FileLines(file))) == [] ==> Initialized(d, file) == file
  {
    hide Additions, Existing, FileLines;
  }

  lemma ExtendedIs(lines: seq<string>, added: seq<string>)
    ensures Extended(lines, added) ==
            if lines == [] || IsBlankLine(lines[|lines| - 1]) then
              lines + ["# Auto-detected by Fluxion on first launch."] + added
            else lines + ["", "# Auto-detected by Fluxion on first launch."] + added
  {
    if lines != [] {
      BlankTrims(lines[|lines| - 1]);
    }
    assert COMMENT == "# Auto-detected by Fluxion on first launch.";
    hide Trim, IsBlankLine, COMMENT;
    assert lines + [] == lines;
    assert lines + [""] + [COMMENT] == lines + ["", COMMENT];
  }

  // ------------------------------------------------------- what the desktop loads

  /** The last line that assigns a key gives its value. */
  lemma LastLineWins(front: seq<string>, line: string, back: seq<string>, k: string)
    requires Assigns(line, k) && !SomeAssigns(back, k)
    ensures R.Lookup(LoadLines(front + [line] + back), k) == Some(ValueOf(line))
  {
    SeenIffSomeAssigns(back, k);
    R.LoadConcat(front, [line] + back, k);
    R.LoadCons(line, back, k);
    assert front + [line] + back == front + ([line] + back);
    hide LoadLines, IsAssignment, KeyOf, ValueOf, SomeAssigns;
  }

  lemma LinesRead(d: Detection)
    ensures forall k | IsSettingKey(k) ::
              IsAssignment(Line(d, k)) && KeyOf(Line(d, k)) == k && ValueOf(Line(d, k)) == ValueFor(d, k)
  {
    NamesArePlain();
    ValuesArePlain(d);
    DetectedValues(d);
    hide Plain, ValueFor, Join, DetectedUsageProviders, EnabledExecutors, DetectedDefaultExecutor;
    hide USAGE_KEY, ENABLED_KEY, DEFAULT_KEY, IsAssignment, KeyOf, ValueOf;
    forall k | IsSettingKey(k)
      ensures IsAssignment(Line(d, k)) && KeyOf(Line(d, k)) == k && ValueOf(Line(d, k)) == ValueFor(d, k)
    {
      PlainIsClean(k);
      PlainIsClean(ValueFor(d, k));
      R.AssignmentReads(k, ValueFor(d, k));
      assert Line(d, k) == Assignment(k, ValueFor(d, k));
    }
  }

  lemma KeysDiffer()
    ensures USAGE_KEY != ENABLED_KEY && ENABLED_KEY != DEFAULT_KEY && USAGE_KEY != DEFAULT_KEY
  {
    assert USAGE_KEY[8] == 'U' && ENABLED_KEY[8] == 'E' && DEFAULT_KEY[8] == 'D';
  }

  /** What stands around the line added for a missing setting. */
  lemma AddedLine(d: Detection, existing: set<string>, k: string) returns (front: seq<string>, back: seq<string>)
    requires IsSettingKey(k) && k !in existing
    ensures Additions(d, existing) == front + [Line(d, k)] + back
    ensures forall line | line in back :: exists other :: IsSettingKey(other) && other != k && line == Line(d, other)
  {
    MissingSettingsAreAdded(d, existing);
    KeysDiffer();
    hide Additions, Line, USAGE_KEY, ENABLED_KEY, DEFAULT_KEY;
    var u := if USAGE_KEY !in existing then [Line(d, USAGE_KEY)] else [];
    var e := if ENABLED_KEY !in existing then [Line(d, ENABLED_KEY)] else [];
    var f := if DEFAULT_KEY !in existing then [Line(d, DEFAULT_KEY)] else [];
    if k == USAGE_KEY {
      front, back := [], e + f;
      assert u + e + f == [] + u + (e + f);
    } else if k == ENABLED_KEY {
      front, back := u, f;
    } else {
      front, back := u + e, [];
      assert u + e + f == u + e + f + [];
    }
  }

  /** The file written, as the desktop cuts it. */
  lemma WrittenFile(d: Detection, file: Option<string>)
    requires Additions(d, Existing(FileLines(file))) != []
    ensures var lines := FileLines(file);
            LoadFile(Initialized(d, file)) == LoadLines(Extended(lines, Additions(d, Existing(lines))) + [""])
  {
    FileLinesAreFree(file);
    AdditionsAreGood(d, Existing(FileLines(file)));
    hide Additions, Existing, FileLines, Extended, GoodLine, Join;
    WrittenLines(FileLines(file), Additions(d, Existing(FileLines(file))), Newline);
  }

  lemma AroundTheLine(lines: seq<string>, front: seq<string>, line: string, back: seq<string>)
    ensures Extended(lines, front + [line] + back) + [""] == (Extended(lines, []) + front) + [line] + (back + [""])
  {
    hide Trim, COMMENT;
  }

  /** A setting the file lacked is loaded by the desktop with the value detected. */
  lemma MissingSettingIsLoaded(d: Detection, file: Option<string>, k: string)
    requires IsSettingKey(k) && k !in Existing(FileLines(file))
    ensures R.Lookup(LoadFile(Initialized(d, file)), k) == Some(ValueFor(d, k))
  {
    var lines := FileLines(file);
    LinesRead(d);
    assert IsSettingKey(k) ==> Assigns(Line(d, k), k) && ValueOf(Line(d, k)) == ValueFor(d, k);
    hide *;
    var front, back := AddedLine(d, Existing(lines), k);
    WrittenFile(d, file);
    AroundTheLine(lines, front, Line(d, k), back);
    OthersAssignOthers(d, back, k);
    LastLineWins(Extended(lines, []) + front, Line(d, k), back + [""], k);
  }

  lemma OthersAssignOthers(d: Detection, back: seq<string>, k: string)
    requires forall line | line in back :: exists other :: IsSettingKey(other) && other != k && line == Line(d, other)
    ensures !SomeAssigns(back + [""], k)
  {
    LinesRead(d);
    EmptyAndCommentAssignNothing(k);
    hide Line, IsAssignment, KeyOf, ValueOf, ValueFor, IsSettingKey;
  }
}
