/** Which slug a text gets: its words, lowered, in order, joined by underscores; and
    which text names a run. */
module AgentSlug {
  import opened Text
  import opened Wrappers
  import opened AgentPath

  // ------------------------------------------------------------ words and gaps

  predicate IsWord(s: string) {
    s != "" && forall i | 0 <= i < |s| :: 'a' <= s[i] <= 'z' || '0' <= s[i] <= '9'
  }

  predicate IsGap(s: string) {
    forall i | 0 <= i < |s| :: !('a' <= s[i] <= 'z' || '0' <= s[i] <= '9')
  }

  /** The words of a text and what stands around them: every word is a maximal run. */
  predicate Parts(gaps: seq<string>, words: seq<string>) {
    && |gaps| == |words| + 1
    && (forall i | 0 <= i < |words| :: IsWord(words[i]))
    && (forall i | 0 <= i < |gaps| :: IsGap(gaps[i]))
    && (forall i | 0 < i < |words| :: gaps[i] != "")
  }

  /** The text itself: gap, word, gap, and so on to the last gap. */
  function Spelled(gaps: seq<string>, words: seq<string>): string
    requires |gaps| == |words| + 1
  {
    if words == [] then gaps[0] else gaps[0] + words[0] + Spelled(gaps[1..], words[1..])
  }

  // ------------------------------------------------------------ the slug's pieces

  /** The pieces the slugifier keeps of a lowered text. */
  function Pieces(s: string): seq<string> {
    NonEmptyPieces(SplitBy(MapToSlugChars(s), Underscore))
  }

  lemma {:induction false} NonEmptyConcat(a: seq<string>, b: seq<string>)
    ensures NonEmptyPieces(a + b) == NonEmptyPieces(a) + NonEmptyPieces(b)
  {
    if a == [] {
      assert a + b == b;
    } else {
      assert (a + b)[0] == a[0] && (a + b)[1..] == a[1..] + b;
      NonEmptyConcat(a[1..], b);
    }
  }

  lemma MapConcat(a: string, b: string)
    ensures MapToSlugChars(a + b) == MapToSlugChars(a) + MapToSlugChars(b)
  {
  }

  /** An underscore ends one list of pieces and starts another. */
  lemma SplitAtUnderscore(a: string, b: string)
    ensures SplitBy(a + "_" + b, Underscore) == SplitBy(a, Underscore) + SplitBy(b, Underscore)
  {
    var l, r, tail := SplitBy(a, Underscore), SplitBy(b, Underscore), "_" + b;
    assert a + "_" + b == a + tail && tail[0] == '_' && tail[1..] == b;
    assert SplitBy(tail, Underscore) == [""] + r;
    SplitOfConcat(a, tail, Underscore);
    hide SplitBy;
    assert l[|l| - 1] + "" == l[|l| - 1];
    assert l == l[..|l| - 1] + [l[|l| - 1]] && ([""] + r)[1..] == r;
  }

  lemma {:induction false} PiecesApart(a: string, gap: string, b: string)
    requires gap != "" && IsGap(gap)
    ensures Pieces(a + gap + b) == Pieces(a) + Pieces(b)
    decreases |gap|
  {
    var c, rest := gap[..1], gap[1..];
    assert a + gap + b == a + c + (rest + b);
    assert MapToSlugChars(c) == "_";
    MapConcat(a + c, rest + b);
    MapConcat(a, c);
    hide MapToSlugChars, SplitBy, NonEmptyPieces;
    SplitAtUnderscore(MapToSlugChars(a), MapToSlugChars(rest + b));
    NonEmptyConcat(SplitBy(MapToSlugChars(a), Underscore), SplitBy(MapToSlugChars(rest + b), Underscore));
    if rest == "" {
      assert rest + b == b;
    } else {
      assert rest + b == "" + rest + b;
      PiecesApart("", rest, b);
      NoPieces();
      assert [] + Pieces(b) == Pieces(b);
    }
  }

  lemma NoPieces()
    ensures Pieces("") == []
  {
    assert MapToSlugChars("") == "";
    assert [""][1..] == [];
  }

  lemma PieceOfWord(word: string)
    requires IsWord(word)
    ensures Pieces(word) == [word]
  {
    assert MapToSlugChars(word) == word;
    SplitOfFree(word, Underscore);
    assert [word][1..] == [] && NonEmptyPieces([]) == [];
    assert [word] + [] == [word];
  }

  lemma GapBefore(gap: string, s: string)
    requires IsGap(gap)
    ensures Pieces(gap + s) == Pieces(s)
  {
    if gap == "" {
      assert gap + s == s;
    } else {
      assert gap + s == "" + gap + s;
      PiecesApart("", gap, s);
      NoPieces();
      assert [] + Pieces(s) == Pieces(s);
    }
  }

  lemma GapBehind(s: string, gap: string)
    requires IsGap(gap)
    ensures Pieces(s + gap) == Pieces(s)
  {
    if gap == "" {
      assert s + gap == s;
    } else {
      assert s + gap == s + gap + "";
      PiecesApart(s, gap, "");
      NoPieces();
      assert Pieces(s) + [] == Pieces(s);
    }
  }

  lemma PartsTail(gaps: seq<string>, words: seq<string>)
    requires Parts(gaps, words) && words != []
    ensures Parts(gaps[1..], words[1..]) && IsGap(gaps[0]) && IsWord(words[0])
    ensures words[1..] != [] ==> gaps[1..][0] != ""
  {
    hide IsWord, IsGap;
  }

  /** The kept pieces are the words. */
  lemma {:induction false} PiecesAreWords(gaps: seq<string>, words: seq<string>)
    requires Parts(gaps, words)
    ensures Pieces(Spelled(gaps, words)) == words
    decreases |words|
  {
    hide Pieces, IsWord, IsGap;
    if words == [] {
      assert gaps[0] == gaps[0] + "";
      GapBefore(gaps[0], "");
      NoPieces();
    } else {
      var rest := Spelled(gaps[1..], words[1..]);
      PartsTail(gaps, words);
      hide Parts;
      assert gaps[0] + words[0] + rest == gaps[0] + (words[0] + rest);
      GapBefore(gaps[0], words[0] + rest);
      PieceOfWord(words[0]);
      if words[1..] == [] {
        GapBehind(words[0], gaps[1]);
      } else {
        SpelledTail(gaps, words);
        var later := Spelled([""] + gaps[2..], words[1..]);
        assert words[0] + rest == words[0] + gaps[1] + later;
        PiecesApart(words[0], gaps[1], later);
        PiecesAreWords([""] + gaps[2..], words[1..]);
      }
      assert words == [words[0]] + words[1..];
    }
  }

  lemma SpelledTail(gaps: seq<string>, words: seq<string>)
    requires Parts(gaps, words) && |words| > 1
    ensures Parts([""] + gaps[2..], words[1..]) && IsGap(gaps[1]) && gaps[1] != ""
    ensures Spelled(gaps[1..], words[1..]) == gaps[1] + Spelled([""] + gaps[2..], words[1..])
  {
    hide IsWord;
    var later := [""] + gaps[2..];
    assert later[1..] == gaps[1..][1..];
    forall i | 0 < i < |words[1..]| ensures later[i] != "" {
      assert later[i] == gaps[i + 1];
    }
    forall i | 0 <= i < |later| ensures IsGap(later[i]) {
      assert i == 0 || later[i] == gaps[i + 1];
    }
    var tail := Spelled(gaps[2..], words[2..]);
    assert words[1..][1..] == words[2..] && gaps[1..][1..] == gaps[2..];
    assert gaps[1] + words[1] + tail == gaps[1] + ("" + words[1] + tail);
  }

  // ------------------------------------------------------------ what a slug says

  lemma WhiteIsGap(s: string)
    requires All(s, PySpace)
    ensures IsGap(s)
  {
  }

  /** The slug is the words of the lowered text joined by underscores, and `default`
      when there is no word. */
  lemma SlugSpellsTheWords(value: string, gaps: seq<string>, words: seq<string>)
    requires Parts(gaps, words) && PyLower(value) == Spelled(gaps, words)
    ensures SlugText(value) == if words == [] then "default" else Join(words, '_')
  {
    if value == "" {
      if words != [] {
        WordsAreText(gaps, words);
        assert false;
      }
      SlugTextFixesSlugs("default") by { DefaultIsSlug(); }
    } else {
      var lowered := PyLower(value);
      var head, tail := TrimCuts(lowered, PySpace);
      var body := Trim(lowered, PySpace);
      PyLowerCommutesWithTrim(value);
      hide Trim, PyLower;
      WhiteIsGap(head);
      WhiteIsGap(tail);
      GapBehind(head + body, tail);
      GapBefore(head, body);
      PiecesAreWords(gaps, words);
      assert SlugText(value) == if Join(Pieces(body), '_') == "" then "default" else Join(Pieces(body), '_');
      hide Pieces, Spelled, SlugText;
      if words != [] {
        assert IsWord(words[0]);
      }
    }
  }

  lemma WordsAreText(gaps: seq<string>, words: seq<string>)
    requires Parts(gaps, words) && words != []
    ensures Spelled(gaps, words) != ""
  {
    assert IsWord(words[0]);
    assert |Spelled(gaps, words)| >= |words[0]|;
  }

  /** Every text has words and gaps, so the result above is about every text. */
  lemma {:induction false} PartsOf(s: string) returns (gaps: seq<string>, words: seq<string>)
    ensures Parts(gaps, words) && s == Spelled(gaps, words)
  {
    if s == "" {
      gaps, words := [""], [];
    } else {
      var c := s[..1];
      var g, w := PartsOf(s[1..]);
      assert s == c + s[1..];
      if IsGap(c) {
        gaps, words := [c + g[0]] + g[1..], w;
        GapGrows(c, g, w);
      } else if w != [] && g[0] == "" {
        gaps, words := g, [c + w[0]] + w[1..];
        WordGrows(c, g, w);
      } else {
        gaps, words := [""] + g, [c] + w;
        WordStarts(c, g, w);
      }
    }
  }

  lemma GapGrows(c: string, g: seq<string>, w: seq<string>)
    requires Parts(g, w) && IsGap(c)
    ensures var gaps := [c + g[0]] + g[1..];
            Parts(gaps, w) && Spelled(gaps, w) == c + Spelled(g, w)
  {
    var gaps := [c + g[0]] + g[1..];
    assert gaps[1..] == g[1..];
    assert IsGap(g[0]) && IsGap(gaps[0]);
    hide IsGap, IsWord;
    if w != [] {
      var rest := Spelled(g[1..], w[1..]);
      assert (c + g[0]) + w[0] + rest == c + (g[0] + w[0] + rest);
    }
  }

  lemma WordGrows(c: string, g: seq<string>, w: seq<string>)
    requires Parts(g, w) && w != [] && g[0] == "" && |c| == 1 && !IsGap(c)
    ensures var words := [c + w[0]] + w[1..];
            Parts(g, words) && Spelled(g, words) == c + Spelled(g, w)
  {
    var words := [c + w[0]] + w[1..];
    assert words[1..] == w[1..];
    assert IsWord(w[0]) && IsWord(words[0]);
    hide IsGap, IsWord;
    var rest := Spelled(g[1..], w[1..]);
    assert g[0] + (c + w[0]) + rest == c + (g[0] + w[0] + rest);
  }

  lemma WordStarts(c: string, g: seq<string>, w: seq<string>)
    requires Parts(g, w) && (w != [] ==> g[0] != "") && |c| == 1 && !IsGap(c)
    ensures Parts([""] + g, [c] + w) && Spelled([""] + g, [c] + w) == c + Spelled(g, w)
  {
    var gaps, words := [""] + g, [c] + w;
    assert gaps[1..] == g && words[1..] == w;
    assert IsWord(c) && IsGap("");
    hide IsGap, IsWord;
    assert gaps[0] + words[0] + Spelled(g, w) == c + Spelled(g, w);
  }

  // ------------------------------------------------------------ letter case

  /** `c` is the letter or digit `w`, in whatever case. */
  predicate Cased(c: char, w: char) {
    || c == w
    || ('A' <= c <= 'Z' && (c as int) + 32 == (w as int))
    || (c == '\U{212A}' && w == 'k')
  }

  predicate Recased(s: string, word: string) {
    |s| == |word| && forall i | 0 <= i < |s| :: Cased(s[i], word[i])
  }

  /** No letter or digit in either case, and neither of the two other characters
      whose lower-case form has a letter in it. */
  predicate IsSeparator(s: string) {
    forall i | 0 <= i < |s| ::
      !('a' <= s[i] <= 'z' || 'A' <= s[i] <= 'Z' || '0' <= s[i] <= '9' || s[i] == '\U{212A}' || s[i] == '\U{0130}')
  }

  lemma {:induction false} RecasedLowers(s: string, word: string)
    requires Recased(s, word) && (word == "" || IsWord(word))
    ensures PyLower(s) == word
  {
    if s != "" {
      assert Cased(s[0], word[0]);
      assert LowerOf(s[0]) == [word[0]];
      assert Recased(s[1..], word[1..]);
      RecasedLowers(s[1..], word[1..]);
      assert word == [word[0]] + word[1..];
    }
  }

  lemma {:induction false} SeparatorLowers(s: string)
    requires IsSeparator(s)
    ensures PyLower(s) == s && IsGap(s)
  {
    if s != "" {
      assert IsSeparator(s[1..]);
      SeparatorLowers(s[1..]);
      assert s == [s[0]] + s[1..];
    }
  }

  lemma {:induction false} RecasedTextLowers(gaps: seq<string>, shown: seq<string>, words: seq<string>)
    requires |gaps| == |words| + 1 == |shown| + 1
    requires forall i | 0 <= i < |gaps| :: IsSeparator(gaps[i])
    requires forall i | 0 <= i < |words| :: IsWord(words[i]) && Recased(shown[i], words[i])
    ensures PyLower(Spelled(gaps, shown)) == Spelled(gaps, words)
    ensures forall i | 0 <= i < |gaps| :: IsGap(gaps[i])
    decreases |words|
  {
    SeparatorLowers(gaps[0]);
    hide IsSeparator, IsWord, IsGap, Recased, PyLower;
    if words != [] {
      var rest := Spelled(gaps[1..], shown[1..]);
      RecasedLowers(shown[0], words[0]);
      RecasedTextLowers(gaps[1..], shown[1..], words[1..]);
      PyLowerConcat(gaps[0] + shown[0], rest);
      PyLowerConcat(gaps[0], shown[0]);
      forall i | 0 <= i < |gaps| ensures IsGap(gaps[i]) {
        assert i == 0 || gaps[i] == gaps[1..][i - 1];
      }
    }
  }

  /** Words in any case, set apart by whatever holds no letter or digit, slug to the
      lower-case words joined by underscores. */
  lemma SlugKeepsWords(gaps: seq<string>, shown: seq<string>, words: seq<string>)
    requires |gaps| == |words| + 1 == |shown| + 1
    requires forall i | 0 <= i < |gaps| :: IsSeparator(gaps[i])
    requires forall i | 0 < i < |words| :: gaps[i] != ""
    requires forall i | 0 <= i < |words| :: IsWord(words[i]) && Recased(shown[i], words[i])
    ensures SlugText(Spelled(gaps, shown)) == if words == [] then "default" else Join(words, '_')
  {
    RecasedTextLowers(gaps, shown, words);
    hide IsSeparator, IsWord, IsGap, Recased, PyLower, Spelled, SlugText, Join;
    SlugSpellsTheWords(Spelled(gaps, shown), gaps, words);
  }

  // ------------------------------------------------------------ slugs side by side

  lemma SlugIsItsPieces(s: string)
    requires Slug(s)
    ensures PyLower(s) == s && Pieces(s) != [] && Join(Pieces(s), '_') == s
  {
    SegmentCharsAreFixed(s);
    SlugRejoins(s);
  }

  lemma {:induction false} JoinConcat(a: seq<string>, b: seq<string>)
    requires a != [] && b != []
    ensures Join(a + b, '_') == Join(a, '_') + "_" + Join(b, '_')
  {
    if |a| == 1 {
      assert (a + b)[1..] == b;
    } else {
      assert (a + b)[1..] == a[1..] + b;
      JoinConcat(a[1..], b);
    }
  }

  lemma SlugFromPieces(value: string)
    requires value != "" && Trimmed(value, PySpace)
    ensures var slug := Join(Pieces(PyLower(value)), '_');
            SlugText(value) == if slug == "" then "default" else slug
  {
    TrimmedIffFixed(value, PySpace);
    hide Trim, PyLower, MapToSlugChars, NonEmptyPieces, SplitBy, Join;
  }

  lemma SlugEnds(a: string, sep: string, b: string)
    requires Slug(a) && Slug(b)
    ensures a + sep + b != "" && Trimmed(a + sep + b, PySpace)
  {
    assert IsSegmentChar(a[0]) && IsSegmentChar(b[|b| - 1]);
    var value := a + sep + b;
    assert value[0] == a[0] && value[|value| - 1] == b[|b| - 1];
  }

  /** Two slugs with any separator between them make the slug of both. */
  lemma SlugOfTwo(a: string, sep: string, b: string)
    requires Slug(a) && Slug(b) && IsSeparator(sep) && sep != ""
    ensures SlugText(a + sep + b) == a + "_" + b
  {
    hide *;
    SlugEnds(a, sep, b);
    SlugFromPieces(a + sep + b);
    SlugIsItsPieces(a);
    SlugIsItsPieces(b);
    SeparatorLowers(sep);
    PyLowerConcat(a + sep, b);
    PyLowerConcat(a, sep);
    PiecesApart(a, sep, b);
    JoinConcat(Pieces(a), Pieces(b));
  }

  // ------------------------------------------------------------ what names a run

  predicate IsBlankText(s: string) {
    forall i | 0 <= i < |s| :: In(s[i], PySpace)
  }

  lemma BlankTrims(s: string)
    ensures Trim(s, PySpace) == "" <==> IsBlankText(s)
  {
    var head, tail := TrimCuts(s, PySpace);
    var body := Trim(s, PySpace);
    hide Trim, In;
    if body == "" {
      assert s == head + tail;
    } else {
      assert s[|head|] == body[0];
    }
  }

  /** A task name that is not blank names the run, whatever the thread; without one
      the thread does. The path is the parent's and that text's slug. */
  lemma TaskNameComesFirst(segments: seq<string>, taskName: Option<string>, thread: string)
    requires AgentSegments(segments)
    ensures var named := taskName.Some? && !IsBlankText(taskName.value);
            var slug := SlugText(if named then taskName.value else thread);
            AgentPathForRun(PathOf(segments), taskName, thread)
            == if slug == "root" then Err(ReservedRoot) else Ok(PathOf(segments) + "/" + slug)
  {
    if taskName.Some? {
      BlankTrims(taskName.value);
    }
    var slug := SlugText(SegmentSource(taskName, thread));
    RunExtendsParent(segments, taskName, thread);
    DeriveSegmentDecides(SegmentSource(taskName, thread));
    SegmentsSnoc(segments, slug);
    hide SlugText, PathOf, AgentSegments, Trim, IsBlankText, AgentPathForRun, ValidSegment;
  }
}
