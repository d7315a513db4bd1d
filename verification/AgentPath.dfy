/** The path language of nested sub-agent runs (`/root/a/b`): the normaliser,
    the slugifier that turns free text into a path segment, and the path a run
    is given. Errors stand for the Python `ValueError`s. */
module AgentPath {
  import opened Text
  import opened Wrappers

  datatype PathError =
    | NotAbsolute
    | OutsideRoot
    | EmptySegment
    | ReservedDots
    | ReservedRoot
    | SlashInSegment
    | BadCharacter

  predicate IsSlugChar(c: char) {
    'a' <= c <= 'z' || '0' <= c <= '9'
  }

  predicate IsSegmentChar(c: char) {
    IsSlugChar(c) || c == '_'
  }

  predicate AllSegmentChars(s: string) {
    forall i | 0 <= i < |s| :: IsSegmentChar(s[i])
  }

  function ValidateSegment(segment: string, allowRoot: bool): Result<(), PathError> {
    if segment == "" then Err(EmptySegment)
    else if segment == "." || segment == ".." then Err(ReservedDots)
    else if segment == "root" && !allowRoot then Err(ReservedRoot)
    else if '/' in segment then Err(SlashInSegment)
    else if !AllSegmentChars(segment) then Err(BadCharacter)
    else Ok(())
  }

  function ValidateAll(segments: seq<string>): Result<(), PathError> {
    if segments == [] then Ok(())
    else
      var first := ValidateSegment(segments[0], true);
      if first.Err? then first else ValidateAll(segments[1..])
  }

  function NormalizeAgentPath(path: string): Result<string, PathError> {
    var value := Trim(if path == "" then "/root" else path, PySpace);
    if !HasPrefix(value, "/") then Err(NotAbsolute)
    else if value != "/root" && !HasPrefix(value, "/root/") then Err(OutsideRoot)
    else
      var bare := if value[|value| - 1] == '/' && value != "/" then TrimEnd(value, Slash) else value;
      var checked := ValidateAll(SplitBy(Trim(bare, Slash), Slash));
      if checked.Err? then Err(checked.error) else Ok(bare)
  }

  // ------------------------------------------------------------ the language

  predicate ValidSegment(segment: string) {
    segment != "" && AllSegmentChars(segment)
  }

  /** The segment lists that denote agent paths. */
  predicate AgentSegments(segments: seq<string>) {
    && |segments| >= 1 && segments[0] == "root"
    && forall i | 0 <= i < |segments| :: ValidSegment(segments[i])
  }

  function PathOf(segments: seq<string>): string {
    "/" + Join(segments, '/')
  }

  function Slashes(n: nat): (s: string)
    ensures |s| == n && forall i | 0 <= i < n :: s[i] == '/'
  {
    seq(n, i => '/')
  }

  lemma ValidateSegmentDecides(segment: string)
    ensures ValidateSegment(segment, true).Ok? <==> ValidSegment(segment)
    ensures ValidateSegment(segment, false).Ok? <==> ValidSegment(segment) && segment != "root"
  {
    if '/' in segment {
      var i :| 0 <= i < |segment| && segment[i] == '/';
      assert !IsSegmentChar(segment[i]);
    }
    if segment == "." || segment == ".." {
      assert !IsSegmentChar(segment[0]);
    }
  }

  lemma {:induction false} ValidateAllDecides(segments: seq<string>)
    ensures ValidateAll(segments).Ok? <==> forall i | 0 <= i < |segments| :: ValidSegment(segments[i])
  {
    if segments != [] {
      ValidateSegmentDecides(segments[0]);
      ValidateAllDecides(segments[1..]);
      if ValidateAll(segments).Ok? {
        forall i | 0 <= i < |segments| ensures ValidSegment(segments[i]) {
          if i > 0 { assert segments[i] == segments[1..][i - 1]; }
        }
      } else if ValidSegment(segments[0]) {
        var j :| 0 <= j < |segments[1..]| && !ValidSegment(segments[1..][j]);
        assert !ValidSegment(segments[j + 1]);
      }
    }
  }

  lemma SegmentsAreSlashFree(segments: seq<string>)
    requires forall i | 0 <= i < |segments| :: ValidSegment(segments[i])
    ensures AllFree(segments, Slash)
  {
    forall i | 0 <= i < |segments| ensures Free(segments[i], Slash) {
      assert ValidSegment(segments[i]);
      assert forall j | 0 <= j < |segments[i]| :: IsSegmentChar(segments[i][j]);
    }
  }

  /** What the trimming inside the normaliser relies on: a denoted path starts
      with `/root`, continues with `/` if at all, and ends in a segment. */
  lemma {:induction false} JoinShape(segments: seq<string>)
    requires |segments| >= 1 && forall i | 0 <= i < |segments| :: ValidSegment(segments[i])
    ensures var j := Join(segments, '/');
            && j != "" && segments[0] <= j
            && (|segments| > 1 ==> segments[0] + "/" <= j)
            && j[|j| - 1] != '/' && !In(j[|j| - 1], PySpace)
  {
    if |segments| == 1 {
      assert IsSegmentChar(segments[0][|segments[0]| - 1]);
    } else {
      assert forall i | 0 <= i < |segments[1..]| :: segments[1..][i] == segments[i + 1];
      JoinShape(segments[1..]);
    }
  }

  lemma RootedStrip(v: string)
    requires v == "/root" || "/root/" <= v
    requires v[|v| - 1] != '/'
    ensures Trim(v, Slash) == v[1..]
  {
    assert v[0] == '/' && v[1] == 'r';
    assert v[1..][0] == 'r';
    assert TrimStart(v[1..], Slash) == v[1..];
    assert TrimStart(v, Slash) == v[1..];
  }

  lemma RootSurvives(value: string, v: string, n: nat)
    requires value == "/root" || "/root/" <= value
    requires value == v + Slashes(n)
    requires v == "" || v[|v| - 1] != '/'
    ensures v == "/root" || "/root/" <= v
  {
    assert value[4] == 't';
    assert forall i | |v| <= i < |value| :: value[i] == '/';
    assert |v| >= 5;
    if |v| == 5 {
      assert v == value[..5];
    }
  }

  lemma RootedHead(t: string)
    requires t == "root" || "root/" <= t
    ensures SplitBy(t, Slash)[0] == "root"
  {
    if t == "root" {
      SplitOfFree("root", Slash);
    } else {
      assert t == "root" + ['/'] + t[5..];
      SplitHead("root", '/', t[5..], Slash);
    }
  }

  lemma RootedSplit(v: string)
    requires v == "/root" || "/root/" <= v
    ensures var segments := SplitBy(v[1..], Slash);
            && v == PathOf(segments)
            && (ValidateAll(segments).Ok? <==> AgentSegments(segments))
  {
    var t := v[1..];
    assert v == "/" + t;
    assert t == "root" || "root/" <= t;
    RootedHead(t);
    ValidateAllDecides(SplitBy(t, Slash));
    JoinOfSplit(t, '/', Slash);
    hide SplitBy, Join, ValidateAll, ValidSegment;
  }

  /** Outer slashes taken off a rooted text, it is still rooted. */
  lemma StripSlashes(value: string) returns (v: string, n: nat)
    requires value == "/root" || "/root/" <= value
    ensures v == if value[|value| - 1] == '/' && value != "/" then TrimEnd(value, Slash) else value
    ensures value == v + Slashes(n) && (v == "/root" || "/root/" <= v) && v[|v| - 1] != '/'
  {
    v := if value[|value| - 1] == '/' && value != "/" then TrimEnd(value, Slash) else value;
    var cut := TrimEndCuts(value, Slash);
    TrimEndStops(value, Slash);
    hide TrimEnd;
    n := if v == value then 0 else |cut|;
    assert cut == Slashes(|cut|);
    assert value == v + Slashes(n);
    RootSurvives(value, v, n);
  }

  /** Soundness: whatever the normaliser accepts denotes a segment list, and the
      input was that path up to outer white space and trailing slashes. */
  lemma NormalizeSound(path: string) returns (segments: seq<string>, n: nat)
    requires NormalizeAgentPath(path).Ok?
    ensures AgentSegments(segments)
    ensures NormalizeAgentPath(path) == Ok(PathOf(segments))
    ensures Trim(if path == "" then "/root" else path, PySpace) == PathOf(segments) + Slashes(n)
  {
    var value := Trim(if path == "" then "/root" else path, PySpace);
    var v, k := StripSlashes(value);
    n := k;
    segments := SplitBy(v[1..], Slash);
    RootedStrip(v);
    RootedSplit(v);
    hide Trim, TrimEnd, SplitBy, ValidateAll, AgentSegments, PathOf, Slashes;
  }

  lemma PathShape(segments: seq<string>)
    requires AgentSegments(segments)
    ensures var v := PathOf(segments);
            (if |segments| == 1 then v == "/root" else "/root/" <= v) && v[|v| - 1] != '/'
            && v[1..] == Join(segments, '/')
  {
    JoinShape(segments);
    var v := PathOf(segments);
    assert v[1..] == Join(segments, '/');
    assert v[|v| - 1] == Join(segments, '/')[|v| - 2];
    hide AgentSegments, ValidSegment;
    if |segments| > 1 {
      assert "/root/" <= v;
    }
  }

  lemma PaddedStrip(v: string, n: nat)
    requires v == "/root" || "/root/" <= v
    requires v[|v| - 1] != '/'
    ensures var value := v + Slashes(n);
            && HasPrefix(value, "/") && (value == "/root" || HasPrefix(value, "/root/")) && value != "/"
            && (if value[|value| - 1] == '/' then TrimEnd(value, Slash) else value) == v
  {
    var value := v + Slashes(n);
    if n > 0 {
      assert value[|value| - 1] == '/';
      TrimEndAfter(v, Slashes(n), Slash);
      if v == "/root" { assert value[..6] == "/root/"; }
    } else {
      assert value == v;
    }
    hide TrimEnd;
  }

  /** Completeness: a denoted path, padded with white space outside and with
      slashes behind, normalises to itself. */
  lemma NormalizeComplete(path: string, segments: seq<string>, n: nat)
    requires AgentSegments(segments)
    requires Trim(if path == "" then "/root" else path, PySpace) == PathOf(segments) + Slashes(n)
    ensures NormalizeAgentPath(path) == Ok(PathOf(segments))
  {
    var v := PathOf(segments);
    PathShape(segments);
    PaddedStrip(v, n);
    RootedStrip(v);
    PathSplits(segments);
    assert Trim(v, Slash) == Join(segments, '/');
    assert SplitBy(Trim(v, Slash), Slash) == segments;
    hide PathOf, Join, SplitBy, Trim, TrimEnd, AgentSegments, ValidateAll, Slashes;
  }

  lemma PathSplits(segments: seq<string>)
    requires AgentSegments(segments)
    ensures SplitBy(Join(segments, '/'), Slash) == segments && ValidateAll(segments).Ok?
  {
    SegmentsAreSlashFree(segments);
    SplitOfJoin(segments, '/', Slash);
    ValidateAllDecides(segments);
    hide Join, SplitBy, ValidSegment, ValidateAll;
  }

  /** A denoted path is a fixed point of the normaliser. */
  lemma PathIsNormal(segments: seq<string>)
    requires AgentSegments(segments)
    ensures NormalizeAgentPath(PathOf(segments)) == Ok(PathOf(segments))
  {
    var v := PathOf(segments);
    JoinShape(segments);
    assert v[|v| - 1] == Join(segments, '/')[|v| - 2];
    assert v[0] == '/';
    TrimmedIffFixed(v, PySpace);
    assert v + Slashes(0) == v;
    NormalizeComplete(v, segments, 0);
  }

  lemma PathOfInjective(a: seq<string>, b: seq<string>)
    requires AgentSegments(a) && AgentSegments(b) && PathOf(a) == PathOf(b)
    ensures a == b
  {
    assert Join(a, '/') == PathOf(a)[1..] == PathOf(b)[1..] == Join(b, '/');
    SegmentsAreSlashFree(a);
    SegmentsAreSlashFree(b);
    SplitOfJoin(a, '/', Slash);
    SplitOfJoin(b, '/', Slash);
  }

  // ----------------------------------------------------------------- slugs

  function MapToSlugChars(s: string): (r: string)
    ensures |r| == |s|
    ensures forall i | 0 <= i < |s| :: r[i] == if IsSlugChar(s[i]) then s[i] else '_'
  {
    seq(|s|, i requires 0 <= i < |s| => if IsSlugChar(s[i]) then s[i] else '_')
  }

  function NonEmptyPieces(parts: seq<string>): seq<string> {
    if parts == [] then []
    else if parts[0] == "" then NonEmptyPieces(parts[1..])
    else [parts[0]] + NonEmptyPieces(parts[1..])
  }

  /** `str.lower`, as far as a slug can tell: besides A to Z, two characters have a
      lower-case form with ASCII letters in it, the Kelvin sign and the dotted I;
      all else stays outside ASCII. */
  function LowerOf(c: char): string {
    if c == '\U{212A}' then "k"
    else if c == '\U{0130}' then "i\U{0307}"
    else [LowerChar(c)]
  }

  function PyLower(s: string): string {
    if s == "" then "" else LowerOf(s[0]) + PyLower(s[1..])
  }

  /** The slug before validation. */
  function SlugText(value: string): string {
    var raw := PyLower(Trim(if value == "" then "default" else value, PySpace));
    var segment := Join(NonEmptyPieces(SplitBy(MapToSlugChars(raw), Underscore)), '_');
    if segment == "" then "default" else segment
  }

  function DeriveSegment(value: string): Result<string, PathError> {
    var segment := SlugText(value);
    var checked := ValidateSegment(segment, false);
    if checked.Err? then Err(checked.error) else Ok(segment)
  }

  /** Canonical slugs: non-empty, lower-case letters, digits and underscores,
      with no leading, trailing or doubled underscore. */
  predicate Slug(s: string) {
    && s != "" && AllSegmentChars(s)
    && s[0] != '_' && s[|s| - 1] != '_'
    && forall i | 0 <= i < |s| - 1 :: !(s[i] == '_' && s[i + 1] == '_')
  }

  predicate NoEmptyFrom(parts: seq<string>, k: nat) {
    forall i | k <= i < |parts| :: parts[i] != ""
  }

  predicate WellSeparated(s: string) {
    && (s == "" || s[|s| - 1] != '_')
    && forall i | 0 <= i < |s| - 1 :: !(s[i] == '_' && s[i + 1] == '_')
  }

  lemma WellSeparatedCons(s: string)
    requires s != ""
    ensures WellSeparated(s) <==> WellSeparated(s[1..]) && (s[0] == '_' ==> s[1..] != "" && s[1] != '_')
  {
    var t := s[1..];
    assert forall i | 0 <= i < |t| :: t[i] == s[i + 1];
    if WellSeparated(s) {
      forall i | 0 <= i < |t| - 1 ensures !(t[i] == '_' && t[i + 1] == '_') {
        assert t[i] == s[i + 1] && t[i + 1] == s[i + 1 + 1];
      }
      assert s[0] == '_' && |s| > 1 ==> s[0 + 1] != '_';
    }
    if WellSeparated(t) && (s[0] == '_' ==> t != "" && s[1] != '_') {
      assert s[|s| - 1] != '_';
      forall i | 0 <= i < |s| - 1 ensures !(s[i] == '_' && s[i + 1] == '_') {
        if i > 0 { assert t[i - 1] == s[i] && t[i] == s[i + 1]; }
      }
    }
  }

  lemma NoEmptyCons(first: string, rest: seq<string>)
    ensures NoEmptyFrom([first] + rest, 1) <==> NoEmptyFrom(rest, 0)
  {
    var parts := [first] + rest;
    if NoEmptyFrom(parts, 1) {
      forall i | 0 <= i < |rest| ensures rest[i] != "" { assert parts[i + 1] == rest[i]; }
    }
  }

  lemma {:induction false} SeparatedIffNoEmptyTail(s: string)
    ensures WellSeparated(s) <==> NoEmptyFrom(SplitBy(s, Underscore), 1)
    ensures SplitBy(s, Underscore)[0] == "" <==> s == "" || s[0] == '_'
  {
    if s != "" {
      var rest := SplitBy(s[1..], Underscore);
      SeparatedIffNoEmptyTail(s[1..]);
      WellSeparatedCons(s);
      if In(s[0], Underscore) {
        assert SplitBy(s, Underscore) == [""] + rest;
        NoEmptyCons("", rest);
        assert NoEmptyFrom(rest, 0) <==> NoEmptyFrom(rest, 1) && rest[0] != "";
      } else {
        assert SplitBy(s, Underscore) == [[s[0]] + rest[0]] + rest[1..];
        NoEmptyCons([s[0]] + rest[0], rest[1..]);
        NoEmptyCons(rest[0], rest[1..]);
        assert rest == [rest[0]] + rest[1..];
      }
      hide SplitBy, WellSeparated;
    }
  }

  lemma {:induction false} NonEmptyPiecesKeeps(parts: seq<string>)
    ensures NoEmptyFrom(NonEmptyPieces(parts), 0)
    ensures forall p | p in NonEmptyPieces(parts) :: p in parts
    ensures NoEmptyFrom(parts, 0) ==> NonEmptyPieces(parts) == parts
  {
    if parts != [] {
      NonEmptyPiecesKeeps(parts[1..]);
      if NoEmptyFrom(parts, 0) {
        assert NoEmptyFrom(parts[1..], 0);
        assert parts == [parts[0]] + parts[1..];
      }
    }
  }

  lemma {:induction false} JoinChars(parts: seq<string>)
    requires forall p | p in parts :: AllSegmentChars(p)
    ensures AllSegmentChars(Join(parts, '_'))
  {
    if |parts| > 1 {
      assert parts[0] in parts;
      assert forall p | p in parts[1..] :: p in parts;
      JoinChars(parts[1..]);
    }
  }

  lemma {:induction false} PieceChars(s: string)
    requires AllSegmentChars(s)
    ensures forall p | p in SplitBy(s, Underscore) :: AllSegmentChars(p)
  {
    if s != "" {
      assert AllSegmentChars(s[1..]);
      PieceChars(s[1..]);
      var rest := SplitBy(s[1..], Underscore);
      assert rest[0] in rest;
    }
  }

  /** The pieces a slug is joined from. */
  lemma KeptPieces(chars: string)
    requires AllSegmentChars(chars)
    ensures var kept := NonEmptyPieces(SplitBy(chars, Underscore));
            NoEmptyFrom(kept, 0) && AllFree(kept, Underscore) && AllSegmentChars(Join(kept, '_'))
  {
    var pieces := SplitBy(chars, Underscore);
    var kept := NonEmptyPieces(pieces);
    PieceChars(chars);
    SplitPiecesAreFree(chars, Underscore);
    NonEmptyPiecesKeeps(pieces);
    JoinChars(kept);
    hide NonEmptyPieces, SplitBy, Join;
    forall i | 0 <= i < |kept| ensures Free(kept[i], Underscore) {
      assert kept[i] in kept;
      assert kept[i] in pieces;
    }
  }

  lemma JoinedPiecesAreSlug(kept: seq<string>)
    requires kept != [] && NoEmptyFrom(kept, 0) && AllFree(kept, Underscore) && AllSegmentChars(Join(kept, '_'))
    ensures Slug(Join(kept, '_'))
  {
    SplitOfJoin(kept, '_', Underscore);
    SeparatedIffNoEmptyTail(Join(kept, '_'));
    assert kept[0] != "";
    hide SplitBy, Join, AllSegmentChars;
  }

  /** Slugs are canonical: every text yields one. */
  lemma SlugTextIsSlug(value: string)
    ensures Slug(SlugText(value))
  {
    var chars := MapToSlugChars(PyLower(Trim(if value == "" then "default" else value, PySpace)));
    var kept := NonEmptyPieces(SplitBy(chars, Underscore));
    KeptPieces(chars);
    assert SlugText(value) == if Join(kept, '_') == "" then "default" else Join(kept, '_');
    hide NonEmptyPieces, SplitBy, Trim, PyLower, MapToSlugChars, SlugText;
    DefaultIsSlug();
    if kept != [] {
      JoinedPiecesAreSlug(kept);
    }
    hide Slug;
  }

  lemma DefaultIsSlug()
    ensures Slug("default") && Join([], '_') == ""
  {
  }

  lemma {:induction false} SegmentCharsLower(s: string)
    requires AllSegmentChars(s)
    ensures PyLower(s) == s
  {
    if s != "" {
      assert IsSegmentChar(s[0]) && AllSegmentChars(s[1..]);
      SegmentCharsLower(s[1..]);
      assert s == [s[0]] + s[1..];
    }
  }

  lemma SegmentCharsAreFixed(s: string)
    requires AllSegmentChars(s)
    ensures PyLower(s) == s && MapToSlugChars(s) == s
  {
    SegmentCharsLower(s);
    assert forall i | 0 <= i < |s| :: IsSegmentChar(s[i]);
    hide PyLower;
  }

  lemma SlugIsTrimmed(s: string)
    requires Slug(s)
    ensures Trim(s, PySpace) == s
  {
    assert IsSegmentChar(s[0]) && IsSegmentChar(s[|s| - 1]);
    TrimmedIffFixed(s, PySpace);
  }

  lemma SlugRejoins(s: string)
    requires Slug(s)
    ensures Join(NonEmptyPieces(SplitBy(s, Underscore)), '_') == s
  {
    SeparatedIffNoEmptyTail(s);
    NonEmptyPiecesKeeps(SplitBy(s, Underscore));
    JoinOfSplit(s, '_', Underscore);
  }

  /** Slugifying leaves canonical slugs alone, so it is idempotent. */
  lemma SlugTextFixesSlugs(s: string)
    requires Slug(s)
    ensures SlugText(s) == s
  {
    SlugIsTrimmed(s);
    SlugRejoins(s);
    SegmentCharsAreFixed(s);
    hide Slug, PyLower, Trim, MapToSlugChars, NonEmptyPieces, SplitBy, Join;
  }

  lemma SlugTextIdempotent(value: string)
    ensures SlugText(SlugText(value)) == SlugText(value)
  {
    SlugTextIsSlug(value);
    SlugTextFixesSlugs(SlugText(value));
  }

  lemma {:induction false} PyLowerConcat(a: string, b: string)
    ensures PyLower(a + b) == PyLower(a) + PyLower(b)
  {
    if a == "" {
      assert a + b == b;
    } else {
      assert (a + b)[0] == a[0] && (a + b)[1..] == a[1..] + b;
      hide LowerOf;
      PyLowerConcat(a[1..], b);
      assert LowerOf(a[0]) + (PyLower(a[1..]) + PyLower(b)) == (LowerOf(a[0]) + PyLower(a[1..])) + PyLower(b);
    }
  }

  /** White space has no case, and no letter's lower-case form is white space. */
  lemma LowerOfIsBlankFree(c: char)
    ensures LowerOf(c) != ""
    ensures In(c, PySpace) ==> LowerOf(c) == [c]
    ensures !In(c, PySpace) ==> !In(LowerOf(c)[0], PySpace) && !In(LowerOf(c)[|LowerOf(c)| - 1], PySpace)
    ensures PyLower(LowerOf(c)) == LowerOf(c)
  {
    if c == '\U{0130}' {
      var dot := "\U{0307}";
      assert dot[1..] == "" && PyLower(dot) == dot;
      assert LowerOf(c)[1..] == dot;
      assert PyLower(LowerOf(c)) == "i" + dot;
    } else {
      assert LowerOf(c)[1..] == "";
    }
  }

  lemma {:induction false} PyLowerTwice(s: string)
    ensures PyLower(PyLower(s)) == PyLower(s)
  {
    if s != "" {
      PyLowerTwice(s[1..]);
      LowerOfIsBlankFree(s[0]);
      PyLowerConcat(LowerOf(s[0]), PyLower(s[1..]));
      hide LowerOf;
    }
  }

  lemma {:induction false} PyLowerOfBlank(s: string)
    requires All(s, PySpace)
    ensures PyLower(s) == s
  {
    hide LowerOf, In;
    if s != "" {
      LowerOfIsBlankFree(s[0]);
      assert All(s[1..], PySpace);
      PyLowerOfBlank(s[1..]);
      assert s == [s[0]] + s[1..];
    }
  }

  lemma LowerOfTrimmed(s: string)
    requires Trimmed(s, PySpace)
    ensures Trimmed(PyLower(s), PySpace) && (PyLower(s) == "" <==> s == "")
  {
    if s != "" {
      var front, last := s[..|s| - 1], s[|s| - 1];
      LowerOfIsBlankFree(s[0]);
      LowerOfIsBlankFree(last);
      assert s == front + [last];
      PyLowerConcat(front, [last]);
      assert [last][1..] == "";
      assert PyLower([last]) == LowerOf(last) + "" == LowerOf(last);
      hide LowerOf, In;
    }
  }

  lemma PyLowerCommutesWithTrim(s: string)
    ensures Trim(PyLower(s), PySpace) == PyLower(Trim(s, PySpace))
  {
    var head, tail := TrimCuts(s, PySpace);
    var body := Trim(s, PySpace);
    hide Trim, PyLower, Trimmed;
    PyLowerConcat(head + body, tail);
    PyLowerConcat(head, body);
    PyLowerOfBlank(head);
    PyLowerOfBlank(tail);
    LowerOfTrimmed(body);
    TrimOfPadded(head, PyLower(body), tail, PySpace);
  }

  /** Letter case never changes the slug. */
  lemma SlugTextIgnoresCase(value: string)
    ensures SlugText(PyLower(value)) == SlugText(value)
  {
    PyLowerCommutesWithTrim(value);
    PyLowerTwice(Trim(value, PySpace));
    assert PyLower("") == "";
    assert value != "" ==> PyLower(value) != "" by {
      if value != "" { LowerOfIsBlankFree(value[0]); }
    }
    hide Trim, PyLower, MapToSlugChars, NonEmptyPieces, SplitBy, Join;
  }

  /** The only text the slugifier rejects is text whose slug is `root`. */
  lemma DeriveSegmentDecides(value: string)
    ensures DeriveSegment(value) ==
            if SlugText(value) == "root" then Err(ReservedRoot) else Ok(SlugText(value))
    ensures ValidSegment(SlugText(value))
  {
    SlugTextIsSlug(value);
    ValidateSegmentDecides(SlugText(value));
  }

  // ------------------------------------------------------------- agent paths

  function SegmentSource(taskName: Option<string>, thread: string): string {
    if taskName.Some? && Trim(taskName.value, PySpace) != "" then taskName.value else thread
  }

  function AgentPathForRun(parentPath: string, taskName: Option<string>, thread: string): Result<string, PathError> {
    var parent := NormalizeAgentPath(parentPath);
    if parent.Err? then parent
    else
      var segment := DeriveSegment(SegmentSource(taskName, thread));
      if segment.Err? then segment
      else Ok(if parent.value != "/" then parent.value + "/" + segment.value else "/" + segment.value)
  }

  lemma {:induction false} JoinSnoc(segments: seq<string>, last: string)
    requires |segments| >= 1
    ensures Join(segments + [last], '/') == Join(segments, '/') + "/" + last
  {
    var all := segments + [last];
    assert all[0] == segments[0] && all[1..] == segments[1..] + [last];
    if |segments| > 1 {
      JoinSnoc(segments[1..], last);
    }
  }

  lemma SegmentsSnoc(segments: seq<string>, slug: string)
    requires AgentSegments(segments) && ValidSegment(slug)
    ensures AgentSegments(segments + [slug])
    ensures PathOf(segments) != "/" && PathOf(segments) + "/" + slug == PathOf(segments + [slug])
  {
    PathShape(segments);
    JoinSnoc(segments, slug);
    var path := PathOf(segments);
    assert path == "/" + Join(segments, '/');
    assert "/" + (Join(segments, '/') + "/" + slug) == path + "/" + slug;
    hide Join, ValidSegment;
  }

  /** A run under the path of `segments` gets that path extended by exactly its
      own slug, unless the slug is the reserved `root`. */
  lemma RunExtendsParent(segments: seq<string>, taskName: Option<string>, thread: string)
    requires AgentSegments(segments)
    ensures var slug := SlugText(SegmentSource(taskName, thread));
            && AgentPathForRun(PathOf(segments), taskName, thread) ==
               (if slug == "root" then Err(ReservedRoot) else Ok(PathOf(segments + [slug])))
            && AgentSegments(segments + [slug])
  {
    PathIsNormal(segments);
    DeriveSegmentDecides(SegmentSource(taskName, thread));
    SegmentsSnoc(segments, SlugText(SegmentSource(taskName, thread)));
    hide AgentSegments, PathOf, NormalizeAgentPath, DeriveSegment, SegmentSource, SlugText, ValidSegment;
  }

  /** Whatever the parent text, a path handed to a run is a fixed point of the
      normaliser; and a run is refused only for its parent or for `root`. */
  lemma RunPathIsNormal(parentPath: string, taskName: Option<string>, thread: string)
    ensures var r := AgentPathForRun(parentPath, taskName, thread);
            && (r.Ok? ==> NormalizeAgentPath(r.value) == r)
            && (r.Ok? <==> NormalizeAgentPath(parentPath).Ok? && SlugText(SegmentSource(taskName, thread)) != "root")
  {
    if NormalizeAgentPath(parentPath).Ok? {
      var segments, _ := NormalizeSound(parentPath);
      PathIsNormal(segments);
      RunExtendsParent(segments, taskName, thread);
      PathIsNormal(segments + [SlugText(SegmentSource(taskName, thread))]);
    }
  }

  datatype Naming = Naming(taskName: Option<string>, thread: string)

  function SlugOf(n: Naming): string {
    SlugText(SegmentSource(n.taskName, n.thread))
  }

  /** The path of the innermost run of a chain of nested runs. */
  function NestedPath(parent: string, chain: seq<Naming>): Result<string, PathError>
    decreases |chain|
  {
    if chain == [] then Ok(parent)
    else
      var child := AgentPathForRun(parent, chain[0].taskName, chain[0].thread);
      if child.Err? then child else NestedPath(child.value, chain[1..])
  }

  function Slugs(chain: seq<Naming>): seq<string> {
    if chain == [] then [] else [SlugOf(chain[0])] + Slugs(chain[1..])
  }

  lemma {:induction false} SlugsExtend(segments: seq<string>, chain: seq<Naming>)
    requires AgentSegments(segments)
    ensures AgentSegments(segments + Slugs(chain))
    decreases |chain|
  {
    hide SlugText;
    if chain != [] {
      var slug, rest := SlugOf(chain[0]), Slugs(chain[1..]);
      DeriveSegmentDecides(SegmentSource(chain[0].taskName, chain[0].thread));
      SegmentsSnoc(segments, slug);
      hide AgentSegments, SlugOf, SegmentSource, ValidSegment, PathOf;
      SlugsExtend(segments + [slug], chain[1..]);
      assert (segments + [slug]) + rest == segments + ([slug] + rest);
    } else {
      assert segments + Slugs(chain) == segments;
    }
  }

  lemma {:induction false} NestedPathFrom(segments: seq<string>, chain: seq<Naming>)
    requires AgentSegments(segments)
    ensures NestedPath(PathOf(segments), chain) ==
            if "root" in Slugs(chain) then Err(ReservedRoot) else Ok(PathOf(segments + Slugs(chain)))
    decreases |chain|
  {
    hide AgentPathForRun, SlugText, PathOf, SegmentSource, AgentSegments;
    if chain == [] {
      assert segments + [] == segments;
    } else {
      var slug, rest := SlugOf(chain[0]), Slugs(chain[1..]);
      RunExtendsParent(segments, chain[0].taskName, chain[0].thread);
      assert "root" in [slug] + rest <==> slug == "root" || "root" in rest;
      if slug != "root" {
        NestedPathFrom(segments + [slug], chain[1..]);
        assert (segments + [slug]) + rest == segments + ([slug] + rest);
      }
    }
  }

  /** Closure under nesting: from `/root`, a chain of runs of any length gets the
      path spelled by its slugs exactly when no slug in it is `root`. */
  lemma NestingFromRoot(chain: seq<Naming>)
    ensures NestedPath("/root", chain) ==
            if "root" in Slugs(chain) then Err(ReservedRoot) else Ok(PathOf(["root"] + Slugs(chain)))
    ensures AgentSegments(["root"] + Slugs(chain))
  {
    assert IsSegmentChar('r') && IsSegmentChar('o') && IsSegmentChar('t');
    assert AgentSegments(["root"]);
    assert PathOf(["root"]) == "/root";
    SlugsExtend(["root"], chain);
    NestedPathFrom(["root"], chain);
  }
}
