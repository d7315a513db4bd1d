/** String helpers shared by the modules that read or write text: splitting at
    separator characters, joining, and trimming. Strings are sequences of
    Unicode scalars; every helper is parameterised by a class of characters. */
module Text {

  /** The character classes the repository splits and trims by. */
  datatype Chars =
    | LineFeed
    | Slash
    | Underscore
    | EqualsSign
    | Quote
    | Blank    // space separators and tab: Foundation's `.whitespaces`
    | Newline  // Foundation's `.newlines`
    | Space    // Foundation's `.whitespacesAndNewlines`
    | PySpace  // Python's `str.isspace`, the set `strip()` removes
    | PyBreak  // what Python's `splitlines()` breaks at, once newlines are translated

  predicate In(c: char, k: Chars) {
    match k
    case LineFeed => c == '\n'
    case Slash => c == '/'
    case Underscore => c == '_'
    case EqualsSign => c == '='
    case Quote => c == '"' || c == '\''
    case Blank => IsBlank(c)
    case Newline => IsNewline(c)
    case Space => IsBlank(c) || IsNewline(c)
    case PySpace => IsBlank(c) || IsNewline(c) || '\U{001C}' <= c <= '\U{001F}'
    case PyBreak => IsPyBreak(c)
  }

  predicate IsBlank(c: char) {
    || c == ' ' || c == '\t' || c == '\U{00A0}' || c == '\U{1680}'
    || '\U{2000}' <= c <= '\U{200A}'
    || c == '\U{202F}' || c == '\U{205F}' || c == '\U{3000}'
  }

  predicate IsNewline(c: char) {
    || '\U{000A}' <= c <= '\U{000D}' || c == '\U{0085}'
    || c == '\U{2028}' || c == '\U{2029}'
  }

  predicate IsPyBreak(c: char) {
    || '\U{000A}' <= c <= '\U{000C}' || '\U{001C}' <= c <= '\U{001E}'
    || c == '\U{0085}' || c == '\U{2028}' || c == '\U{2029}'
  }

  /** The pieces of `s` between separator characters. Like Swift's
      `components(separatedBy:)` and Python's `split(sep)`, it keeps empty
      pieces, so n separators always give n + 1 pieces. */
  function SplitBy(s: string, sep: Chars): (parts: seq<string>)
    ensures |parts| >= 1
  {
    if s == "" then [""]
    else
      var rest := SplitBy(s[1..], sep);
      if In(s[0], sep) then [""] + rest
      else [[s[0]] + rest[0]] + rest[1..]
  }

  function Join(parts: seq<string>, sep: char): string {
    if |parts| == 0 then ""
    else if |parts| == 1 then parts[0]
    else parts[0] + [sep] + Join(parts[1..], sep)
  }

  predicate Free(s: string, sep: Chars) {
    forall i | 0 <= i < |s| :: !In(s[i], sep)
  }

  predicate AllFree(parts: seq<string>, sep: Chars) {
    forall i | 0 <= i < |parts| :: Free(parts[i], sep)
  }

  lemma {:induction false} SplitPiecesAreFree(s: string, sep: Chars)
    ensures AllFree(SplitBy(s, sep), sep)
  {
    hide In;
    if s != "" {
      SplitPiecesAreFree(s[1..], sep);
    }
  }

  lemma {:induction false} SplitOfFree(s: string, sep: Chars)
    requires Free(s, sep)
    ensures SplitBy(s, sep) == [s]
  {
    hide In;
    if s != "" {
      assert Free(s[1..], sep);
      SplitOfFree(s[1..], sep);
      assert [s[0]] + s[1..] == s;
    }
  }

  /** A separator-free head followed by a separator splits off as one piece. */
  lemma {:induction false} SplitHead(head: string, c: char, rest: string, sep: Chars)
    requires Free(head, sep) && In(c, sep)
    ensures SplitBy(head + [c] + rest, sep) == [head] + SplitBy(rest, sep)
  {
    hide In;
    var s := head + [c] + rest;
    if head == "" {
      assert s[0] == c && s[1..] == rest;
    } else {
      assert s[0] == head[0] && s[1..] == head[1..] + [c] + rest;
      assert Free(head[1..], sep);
      SplitHead(head[1..], c, rest, sep);
      assert [head[0]] + head[1..] == head;
    }
  }

  lemma {:induction false} SplitOfJoin(parts: seq<string>, c: char, sep: Chars)
    requires |parts| >= 1 && AllFree(parts, sep) && In(c, sep)
    ensures SplitBy(Join(parts, c), sep) == parts
  {
    hide In;
    assert Free(parts[0], sep);
    if |parts| == 1 {
      SplitOfFree(parts[0], sep);
    } else {
      assert AllFree(parts[1..], sep) by {
        forall i | 0 <= i < |parts[1..]| ensures Free(parts[1..][i], sep) {
          assert parts[1..][i] == parts[i + 1];
        }
      }
      SplitOfJoin(parts[1..], c, sep);
      SplitHead(parts[0], c, Join(parts[1..], c), sep);
    }
  }

  lemma {:induction false} JoinOfSplit(s: string, c: char, sep: Chars)
    requires forall x | In(x, sep) :: x == c
    ensures Join(SplitBy(s, sep), c) == s
  {
    hide In;
    if s != "" {
      JoinOfSplit(s[1..], c, sep);
      var rest := SplitBy(s[1..], sep);
      if In(s[0], sep) {
        assert ([""] + rest)[1..] == rest;
        assert s == [c] + s[1..];
      } else {
        var parts := [[s[0]] + rest[0]] + rest[1..];
        assert SplitBy(s, sep) == parts;
        assert parts[1..] == rest[1..];
        assert s == [s[0]] + s[1..];
        if |rest| > 1 {
          assert Join(parts, c) == [s[0]] + (rest[0] + [c] + Join(rest[1..], c));
        }
      }
    }
  }

  /** Two piece lists glued where one text continues the other: the last piece
      of the left part and the first piece of the right part become one. */
  function Fuse(l: seq<string>, r: seq<string>): seq<string>
    requires |l| >= 1 && |r| >= 1
  {
    l[..|l| - 1] + [l[|l| - 1] + r[0]] + r[1..]
  }

  lemma FuseUnderCons(piece: string, t: seq<string>, r: seq<string>)
    requires |t| >= 1 && |r| >= 1
    ensures Fuse([piece] + t, r) == [piece] + Fuse(t, r)
  {
  }

  lemma FuseUnderHead(c: char, t: seq<string>, r: seq<string>)
    requires |t| >= 1 && |r| >= 1
    ensures var g := Fuse(t, r);
            Fuse([[c] + t[0]] + t[1..], r) == [[c] + g[0]] + g[1..]
  {
    if |t| == 1 {
      assert ([c] + t[0]) + r[0] == [c] + (t[0] + r[0]);
    }
  }

  lemma {:induction false} SplitOfConcat(a: string, b: string, sep: Chars)
    ensures SplitBy(a + b, sep) == Fuse(SplitBy(a, sep), SplitBy(b, sep))
  {
    hide In;
    var r := SplitBy(b, sep);
    if a == "" {
      assert a + b == b;
      assert "" + r[0] == r[0];
    } else {
      SplitOfConcat(a[1..], b, sep);
      assert (a + b)[0] == a[0] && (a + b)[1..] == a[1..] + b;
      var t := SplitBy(a[1..], sep);
      if In(a[0], sep) {
        FuseUnderCons("", t, r);
      } else {
        FuseUnderHead(a[0], t, r);
      }
    }
  }

  // ---------------------------------------------------------------- trimming

  function TrimStart(s: string, p: Chars): string {
    if s == "" || !In(s[0], p) then s else TrimStart(s[1..], p)
  }

  function TrimEnd(s: string, p: Chars): string {
    if s == "" || !In(s[|s| - 1], p) then s else TrimEnd(s[..|s| - 1], p)
  }

  function Trim(s: string, p: Chars): string {
    TrimEnd(TrimStart(s, p), p)
  }

  predicate All(s: string, p: Chars) {
    forall i | 0 <= i < |s| :: In(s[i], p)
  }

  /** The strings trimming leaves alone: empty, or bounded by kept characters. */
  predicate Trimmed(s: string, p: Chars) {
    s == "" || (!In(s[0], p) && !In(s[|s| - 1], p))
  }

  lemma {:induction false} TrimStartStops(s: string, p: Chars)
    ensures TrimStart(s, p) == "" || !In(TrimStart(s, p)[0], p)
  {
    hide In;
    if s != "" && In(s[0], p) {
      TrimStartStops(s[1..], p);
    }
  }

  lemma {:induction false} TrimStartCuts(s: string, p: Chars) returns (cut: string)
    ensures s == cut + TrimStart(s, p) && All(cut, p)
  {
    hide In;
    if s == "" || !In(s[0], p) {
      cut := "";
      assert s == "" + s;
    } else {
      var first, tail := s[0], s[1..];
      var rest := TrimStartCuts(tail, p);
      cut := [first] + rest;
      assert TrimStart(s, p) == TrimStart(tail, p);
      hide TrimStart;
      assert s == [first] + tail;
      assert s == [first] + (rest + TrimStart(tail, p));
      assert All(cut, p) by {
        assert forall i | 0 < i < |cut| :: cut[i] == rest[i - 1];
      }
    }
  }

  lemma {:induction false} TrimEndStops(s: string, p: Chars)
    ensures TrimEnd(s, p) == "" || !In(TrimEnd(s, p)[|TrimEnd(s, p)| - 1], p)
  {
    hide In;
    if s != "" && In(s[|s| - 1], p) {
      TrimEndStops(s[..|s| - 1], p);
    }
  }

  lemma {:induction false} TrimEndCuts(s: string, p: Chars) returns (cut: string)
    ensures s == TrimEnd(s, p) + cut && All(cut, p)
  {
    hide In;
    if s == "" || !In(s[|s| - 1], p) {
      cut := "";
    } else {
      var front, last := s[..|s| - 1], s[|s| - 1];
      var rest := TrimEndCuts(front, p);
      cut := rest + [last];
      assert TrimEnd(s, p) == TrimEnd(front, p);
      hide TrimEnd;
      assert s == front + [last];
    }
  }

  /** Trimming strips a prefix and a suffix of trimmed characters, and what it
      leaves is bounded by kept ones. */
  lemma TrimCuts(s: string, p: Chars) returns (head: string, tail: string)
    ensures s == head + Trim(s, p) + tail && All(head, p) && All(tail, p)
    ensures Trimmed(Trim(s, p), p)
  {
    hide In;
    head := TrimStartCuts(s, p);
    TrimStartStops(s, p);
    var a := TrimStart(s, p);
    tail := TrimEndCuts(a, p);
    TrimEndStops(a, p);
    var b := TrimEnd(a, p);
    hide TrimStart, TrimEnd;
    assert a == b + tail;
    assert b != "" ==> b[0] == a[0];
  }

  lemma TrimmedIffFixed(s: string, p: Chars)
    ensures Trimmed(s, p) <==> Trim(s, p) == s
  {
    hide In;
    var _, _ := TrimCuts(s, p);
  }

  lemma {:induction false} TrimEndAfter(kept: string, cut: string, p: Chars)
    requires kept == "" || !In(kept[|kept| - 1], p)
    requires All(cut, p)
    ensures TrimEnd(kept + cut, p) == kept
  {
    hide In;
    var s := kept + cut;
    if cut == "" {
      assert s == kept;
    } else {
      assert s[..|s| - 1] == kept + cut[..|cut| - 1];
      assert s[|s| - 1] == cut[|cut| - 1];
      TrimEndAfter(kept, cut[..|cut| - 1], p);
    }
  }

  lemma {:induction false} TrimStartSkips(head: string, s: string, p: Chars)
    requires All(head, p)
    ensures TrimStart(head + s, p) == TrimStart(s, p)
  {
    hide In;
    if head == "" {
      assert head + s == s;
    } else {
      assert (head + s)[0] == head[0] && (head + s)[1..] == head[1..] + s;
      assert All(head[1..], p);
      TrimStartSkips(head[1..], s, p);
    }
  }

  lemma SpacesHoldNoEquals(s: string)
    requires All(s, Space)
    ensures '=' !in s
  {
    assert !In('=', Space);
  }

  lemma TrimOfPadded(head: string, body: string, tail: string, p: Chars)
    requires All(head, p) && All(tail, p) && Trimmed(body, p)
    ensures Trim(head + body + tail, p) == body
  {
    hide In;
    if body == "" {
      assert head + body + tail == (head + tail) + "" == "" + (head + tail);
      TrimStartSkips(head + tail, "", p);
    } else {
      assert head + body + tail == head + (body + tail);
      TrimStartSkips(head, body + tail, p);
      assert (body + tail)[0] == body[0];
      TrimEndAfter(body, tail, p);
    }
  }

  lemma TrimKeepsFree(s: string, p: Chars, sep: Chars)
    requires Free(s, sep)
    ensures Free(Trim(s, p), sep)
  {
    hide In;
    var head, tail := TrimCuts(s, p);
    var b := Trim(s, p);
    forall i | 0 <= i < |b| ensures !In(b[i], sep) {
      assert b[i] == s[|head| + i];
    }
  }

  // --------------------------------------------------------------- searching

  predicate HasPrefix(s: string, prefix: string) {
    prefix <= s
  }

  predicate Contains(s: string, needle: string) {
    needle <= s || (s != "" && Contains(s[1..], needle))
  }

  lemma {:induction false} ContainsAt(s: string, needle: string, i: nat)
    requires i + |needle| <= |s| && s[i..i + |needle|] == needle
    ensures Contains(s, needle)
  {
    if i == 0 {
      assert s[..|needle|] == needle;
    } else {
      assert s[1..][i - 1..i - 1 + |needle|] == s[i..i + |needle|];
      ContainsAt(s[1..], needle, i - 1);
    }
  }

  /** A text holds every character of what it contains. */
  lemma {:induction false} ContainsChar(s: string, needle: string, c: char)
    ensures Contains(s, needle) && c in needle ==> c in s
  {
    if needle <= s {
      assert s == needle + s[|needle|..];
    } else if s != "" {
      ContainsChar(s[1..], needle, c);
    }
  }

  /** ASCII lower-casing; every other character is left unchanged. */
  function LowerChar(c: char): char {
    if 'A' <= c <= 'Z' then ((c as int) + 32) as char else c
  }

  function Lower(s: string): (r: string)
    ensures |r| == |s|
    ensures forall i | 0 <= i < |s| :: r[i] == LowerChar(s[i])
  {
    seq(|s|, i requires 0 <= i < |s| => LowerChar(s[i]))
  }

  // -------------------------------------------------------- plain texts, lists

  /** Printable ASCII only. */
  predicate Printable(s: string) {
    forall c | c in s :: ' ' <= c <= '~'
  }

  lemma PrintableIsFree(s: string)
    requires Printable(s)
    ensures Free(s, Newline) && Free(s, PyBreak)
  {
    forall i | 0 <= i < |s| ensures ' ' <= s[i] <= '~' {
      assert s[i] in s;
    }
  }

  predicate NoRepeats(xs: seq<string>) {
    forall i, j | 0 <= i < j < |xs| :: xs[i] != xs[j]
  }

  lemma NoRepeatsCons(xs: seq<string>)
    requires xs != []
    ensures NoRepeats(xs) <==> NoRepeats(xs[1..]) && xs[0] !in xs[1..]
    ensures forall x :: x in xs <==> x == xs[0] || x in xs[1..]
  {
    var rest := xs[1..];
    assert xs == [xs[0]] + rest;
    assert forall i | 0 <= i < |rest| :: rest[i] == xs[i + 1];
    if NoRepeats(rest) && xs[0] !in rest {
      forall i, j | 0 <= i < j < |xs| ensures xs[i] != xs[j] {
        assert xs[j] == rest[j - 1] && rest[j - 1] in rest;
        assert i > 0 ==> xs[i] == rest[i - 1];
      }
    }
  }

  // ------------------------------------------------------- universal newlines

  /** What Python's text mode makes of line ends: CR LF and CR become LF. */
  function Translate(s: string): string {
    if s == "" then ""
    else if s[0] != '\r' then [s[0]] + Translate(s[1..])
    else if |s| > 1 && s[1] == '\n' then "\n" + Translate(s[2..])
    else "\n" + Translate(s[1..])
  }

  lemma {:induction false} TranslateHoldsNoReturn(s: string)
    ensures '\r' !in Translate(s)
    ensures forall c | c in Translate(s) :: c in s || c == '\n'
  {
    if s == "" {
    } else if s[0] == '\r' && |s| > 1 && s[1] == '\n' {
      TranslateHoldsNoReturn(s[2..]);
    } else {
      TranslateHoldsNoReturn(s[1..]);
    }
  }

  lemma {:induction false} TranslateFixes(s: string)
    requires '\r' !in s
    ensures Translate(s) == s
  {
    if s != "" {
      assert s == [s[0]] + s[1..];
      TranslateFixes(s[1..]);
    }
  }

  lemma SplitStep(s: string, sep: Chars)
    requires s != ""
    ensures var rest := SplitBy(s[1..], sep);
            SplitBy(s, sep) == if In(s[0], sep) then [""] + rest else [[s[0]] + rest[0]] + rest[1..]
  {
  }

  /** The pieces of the translated text that are not empty are pieces of the text
      itself, whose CR LF only puts an empty piece more. */
  lemma {:induction false} TranslateSplits(s: string)
    ensures SplitBy(Translate(s), Newline)[0] == SplitBy(s, Newline)[0]
    ensures forall p | p in SplitBy(Translate(s), Newline)[1..] && p != "" :: p in SplitBy(s, Newline)[1..]
  {
    if s != "" {
      var t := Translate(s);
      assert In('\n', Newline) && In('\r', Newline);
      SplitStep(s, Newline);
      SplitStep(t, Newline);
      if s[0] == '\r' && |s| > 1 && s[1] == '\n' {
        TranslateSplits(s[2..]);
        SplitStep(s[1..], Newline);
        assert s[1..][1..] == s[2..];
        assert t == "\n" + Translate(s[2..]);
        assert t[0] == '\n' && t[1..] == Translate(s[2..]);
        hide In, SplitBy, Translate;
        PiecesBehind(SplitBy(t[1..], Newline), SplitBy(s[2..], Newline));
      } else {
        TranslateSplits(s[1..]);
        assert t[1..] == Translate(s[1..]);
        assert t[0] == if s[0] == '\r' then '\n' else s[0];
        hide In, SplitBy, Translate;
        PiecesBehind(SplitBy(t[1..], Newline), SplitBy(s[1..], Newline));
      }
    }
  }

  lemma PiecesBehind(a: seq<string>, b: seq<string>)
    requires |a| >= 1 && |b| >= 1 && a[0] == b[0] && forall p | p in a[1..] && p != "" :: p in b[1..]
    ensures forall p | p in a && p != "" :: p in b
  {
    assert a == [a[0]] + a[1..] && b == [b[0]] + b[1..];
  }
}
