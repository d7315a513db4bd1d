/** What saving and loading the `.env` file promise together. */
module EnvRoundTrip {
  import opened Text
  import opened Wrappers
  import opened EnvFile

  // ------------------------------------------------------- clean assignments

  // Versions of Foundation differ on whether this is white space.
  const ZERO_WIDTH_SPACE := '\U{200B}'

  /** Keys and values the reader's trimming leaves alone, on every version. */
  predicate CleanKey(k: string) {
    && ZERO_WIDTH_SPACE !in k
    && Trim(k, Blank) == k && '=' !in k && Free(k, Newline) && (k == "" || k[0] != '#')
  }

  predicate CleanValue(v: string) {
    ZERO_WIDTH_SPACE !in v && Free(v, Newline) && Trim(Trim(v, Blank), Quote) == v
  }

  predicate Clean(u: map<string, string>) {
    forall k | k in u :: CleanKey(k) && CleanValue(u[k])
  }

  lemma CleanValueIsTrimmed(v: string)
    requires CleanValue(v)
    ensures Trimmed(v, Blank) && Trim(v, Blank) == v && Trim(v, Quote) == v
  {
    var t := Trim(v, Blank);
    var _, _ := TrimCuts(v, Blank);
    var _, _ := TrimCuts(t, Quote);
    assert |t| >= |v|;
    assert t == v;
    TrimmedIffFixed(v, Blank);
    hide Trim, Free;
  }

  lemma NewlineFreeTrim(s: string)
    requires Free(s, Newline) && Trimmed(s, Blank)
    ensures Trim(s, Space) == s
  {
    TrimmedIffFixed(s, Space);
  }

  lemma AssignmentIsTrimmed(k: string, v: string)
    requires CleanKey(k) && CleanValue(v)
    ensures var line := Assignment(k, v);
            Trim(line, Space) == line && Free(line, Newline)
  {
    CleanValueIsTrimmed(v);
    TrimmedIffFixed(k, Blank);
    hide Trim;
    var line := Assignment(k, v);
    assert !In('=', Blank) && !In('=', Newline);
    assert Free(line, Newline);
    NewlineFreeTrim(line);
  }

  /** A clean assignment line reads back as itself. */
  lemma AssignmentReads(k: string, v: string)
    requires CleanKey(k) && CleanValue(v)
    ensures var line := Assignment(k, v);
            Free(line, Newline) && IsAssignment(line) && KeyOf(line) == k && ValueOf(line) == v
  {
    var line := Assignment(k, v);
    AssignmentIsTrimmed(k, v);
    CleanValueIsTrimmed(v);
    FirstEqualsAt(k, v);
    hide Trim, Free, FirstEquals;
    assert line[..|k|] == k && line[|k| + 1..] == v;
    assert line[|k|] == '=';
  }

  /** The value between the quotes, as the reader takes it. */
  lemma QuotedValue(blank: string, open: string, v: string, close: string)
    requires CleanValue(v) && All(blank, Blank) && All(open, Quote) && All(close, Quote)
    ensures Trimmed(open + v + close, Blank) && Trim(blank + (open + v + close), Blank) == open + v + close
    ensures Trim(open + v + close, Quote) == v && Free(open + v + close, Newline)
  {
    assert forall c | In(c, Quote) :: !In(c, Newline);
    CleanValueIsTrimmed(v);
    TrimmedIffFixed(v, Quote);
    var q := open + v + close;
    assert q != "" ==> !In(q[0], Blank) && !In(q[|q| - 1], Blank);
    hide Trim, In;
    TrimOfPadded(open, v, close, Quote);
    assert blank + q == blank + q + "";
    TrimOfPadded(blank, q, "", Blank);
  }

  /** Blanks around key and value, and quotes around the value, are not part of
      either: the line reads as the bare assignment does. */
  lemma QuotedAssignmentReads(k: string, v: string, open: string, close: string,
                              before: string, left: string, right: string, behind: string)
    requires CleanKey(k) && k != "" && CleanValue(v) && All(open, Quote) && All(close, Quote)
    requires All(before, Blank) && All(left, Blank) && All(right, Blank) && All(behind, Blank)
    ensures var line := before + k + left + "=" + right + open + v + close + behind;
            IsAssignment(line) && KeyOf(line) == k && ValueOf(line) == v
  {
    var q := open + v + close;
    // Without a value the blanks on its left are the line's last.
    var blank, end := if q == "" then "" else right, if q == "" then right + behind else behind;
    assert All(blank, Blank) && All(end, Blank);
    hide *;
    Regrouped(k, v, open, close, before, left, right, behind);
    QuotedValue(blank, open, v, close);
    PaddedLineReads(k, left, blank, q, before, end, v);
  }

  lemma Regrouped(k: string, v: string, open: string, close: string,
                  before: string, left: string, right: string, behind: string)
    ensures var q := open + v + close;
            var blank, end := if q == "" then "" else right, if q == "" then right + behind else behind;
            before + k + left + "=" + right + open + v + close + behind
            == before + (k + left + "=" + (blank + q)) + end
  {
    var q := open + v + close;
    var head := before + (k + left + "=");
    assert before + k + left + "=" == head;
    assert head + right + open + v + close + behind == head + right + q + behind;
    if q == "" {
      assert head + right + q + behind == head + (right + behind);
      assert head == before + (k + left + "=" + ("" + q));
    } else {
      assert head + right + q + behind == before + (k + left + "=" + (right + q)) + behind;
    }
  }

  lemma PaddedLineReads(k: string, left: string, blank: string, q: string, before: string, end: string, v: string)
    requires CleanKey(k) && k != "" && All(left, Blank) && All(before, Blank) && All(end, Blank)
    requires Trimmed(q, Blank) && Free(q, Newline) && (q == "" ==> blank == "")
    requires Trim(blank + q, Blank) == q && Trim(q, Quote) == v
    ensures var line := before + (k + left + "=" + (blank + q)) + end;
            IsAssignment(line) && KeyOf(line) == k && ValueOf(line) == v
  {
    var raw := k + left + "=" + (blank + q);
    var line := before + raw + end;
    assert k[0] != '#' && '=' !in k && Trim(k, Blank) == k;
    hide *;
    RawEnds(k, left, blank, q);
    BlankIsSpace(before);
    BlankIsSpace(end);
    BlankIsSpace(left);
    SpacesHoldNoEquals(left);
    TrimOfPadded(before, raw, end, Space);
    assert (k + left)[0] == k[0];
    ReadsRaw(line, k + left, blank + q);
    PaddedKey(k, left);
  }

  lemma PaddedKey(k: string, left: string)
    requires Trim(k, Blank) == k && All(left, Blank)
    ensures Trim(k + left, Blank) == k
  {
    TrimmedIffFixed(k, Blank);
    assert All("", Blank);
    hide Trim, In;
    assert k + left == "" + k + left;
    TrimOfPadded("", k, left, Blank);
  }

  /** What is read of a line that trims to a head, the first equals sign and a rest. */
  lemma ReadsRaw(line: string, head: string, rest: string)
    requires Trim(line, Space) == head + "=" + rest && head != "" && head[0] != '#' && '=' !in head
    ensures IsAssignment(line)
    ensures KeyOf(line) == Trim(head, Blank) && ValueOf(line) == Trim(Trim(rest, Blank), Quote)
  {
    var raw := head + "=" + rest;
    FirstEqualsAt(head, rest);
    assert raw[..|head|] == head && raw[|head| + 1..] == rest && raw[|head|] == '=' && raw[0] == head[0];
    hide Trim, FirstEquals;
  }

  lemma RawEnds(k: string, left: string, blank: string, q: string)
    requires CleanKey(k) && k != "" && Trimmed(q, Blank) && (q == "" ==> blank == "")
    requires Free(q, Newline)
    ensures Trimmed(k + left + "=" + (blank + q), Space)
  {
    TrimmedIffFixed(k, Blank);
    hide Trim;
    var raw := k + left + "=" + (blank + q);
    assert raw[0] == k[0];
    assert raw[|raw| - 1] == if q == "" then '=' else q[|q| - 1];
  }

  lemma BlankIsSpace(s: string)
    requires All(s, Blank)
    ensures All(s, Space)
  {
  }

  // ---------------------------------------------------------------- look-up

  function Lookup(m: map<string, string>, k: string): Option<string> {
    if k in m then Some(m[k]) else None
  }

  /** How many lines assign the key. */
  function Count(lines: seq<string>, k: string): nat {
    if lines == [] then 0 else (if Assigns(lines[0], k) then 1 else 0) + Count(lines[1..], k)
  }

  lemma {:induction false} LoadConcat(a: seq<string>, b: seq<string>, k: string)
    ensures Lookup(LoadLines(a + b), k) ==
            if k in LoadLines(b) then Some(LoadLines(b)[k]) else Lookup(LoadLines(a), k)
    decreases |b|
  {
    hide IsAssignment, KeyOf, ValueOf;
    if b == [] {
      assert a + b == a;
    } else {
      var ab := a + b;
      assert ab[..|ab| - 1] == a + b[..|b| - 1] && ab[|ab| - 1] == b[|b| - 1];
      LoadConcat(a, b[..|b| - 1], k);
    }
  }

  lemma LoadOne(line: string)
    ensures LoadLines([line]) == if IsAssignment(line) then map[KeyOf(line) := ValueOf(line)] else map[]
  {
    hide IsAssignment, KeyOf, ValueOf;
    assert [line][..0] == [];
  }

  lemma LoadCons(line: string, rest: seq<string>, k: string)
    ensures Lookup(LoadLines([line] + rest), k) ==
            if k in LoadLines(rest) then Some(LoadLines(rest)[k])
            else if Assigns(line, k) then Some(ValueOf(line)) else None
  {
    LoadConcat([line], rest, k);
    LoadOne(line);
    hide LoadLines, IsAssignment, KeyOf, ValueOf;
  }

  lemma {:induction false} LoadedIffCounted(lines: seq<string>, k: string)
    ensures k in LoadLines(lines) <==> Count(lines, k) > 0
  {
    if lines != [] {
      LoadedIffCounted(lines[1..], k);
      LoadCons(lines[0], lines[1..], k);
      assert lines == [lines[0]] + lines[1..];
    }
    hide LoadLines, Assigns, ValueOf;
  }

  // ---------------------------------------------------- rewriting, key by key

  lemma CleanWithout(u: map<string, string>, k: string)
    requires Clean(u)
    ensures Clean(u - {k})
  {
    hide CleanKey, CleanValue;
  }

  /** After rewriting, a key loads its update if exactly one line assigned it;
      with several, the last line, which is not rewritten, still wins. */
  lemma {:induction false} RewrittenLookup(lines: seq<string>, u: map<string, string>, k: string)
    requires Clean(u)
    ensures Lookup(LoadLines(Rewritten(lines, u)), k) ==
            if k in u && Count(lines, k) == 1 then Some(u[k]) else Lookup(LoadLines(lines), k)
  {
    if lines != [] {
      var line, rest, k0 := lines[0], lines[1..], KeyOf(lines[0]);
      assert lines == [line] + rest;
      LoadCons(line, rest, k);
      LoadedIffCounted(rest, k);
      if IsAssignment(line) && k0 in u {
        CleanWithout(u, k0);
        RewrittenLookup(rest, u - {k0}, k);
        AssignmentReads(k0, u[k0]);
        LoadCons(Assignment(k0, u[k0]), Rewritten(rest, u - {k0}), k);
      } else {
        RewrittenLookup(rest, u, k);
        LoadCons(line, Rewritten(rest, u), k);
      }
      hide LoadLines, IsAssignment, KeyOf, ValueOf, Clean, Assignment;
    }
  }

  lemma {:induction false} LeftKeys(lines: seq<string>, u: map<string, string>, k: string)
    ensures Lookup(Left(lines, u), k) == if Count(lines, k) == 0 then Lookup(u, k) else None
  {
    hide IsAssignment, KeyOf;
    if lines != [] {
      var k0 := KeyOf(lines[0]);
      LeftKeys(lines[1..], if IsAssignment(lines[0]) && k0 in u then u - {k0} else u, k);
    }
  }

  lemma {:induction false} RenderLookup(order: seq<string>, u: map<string, string>, k: string)
    requires Clean(u) && NoRepeats(order) && forall x | x in order :: x in u
    ensures Lookup(LoadLines(Render(order, u)), k) == if k in order then Lookup(u, k) else None
  {
    if order != [] {
      var k0, rest := order[0], order[1..];
      NoRepeatsCons(order);
      AssignmentReads(k0, u[k0]);
      assert Render(order, u) == [Assignment(k0, u[k0])] + Render(rest, u);
      hide LoadLines, IsAssignment, KeyOf, ValueOf, Clean, Assignment, NoRepeats, Render;
      RenderLookup(rest, u, k);
      LoadCons(Assignment(k0, u[k0]), Render(rest, u), k);
    }
  }

  lemma NewLinesLookup(lines: seq<string>, u: map<string, string>, order: seq<string>, k: string)
    requires Clean(u) && IsOrder(order, Left(lines, u))
    ensures Lookup(LoadLines(NewLines(lines, u, order)), k) ==
            if k in u && Count(lines, k) <= 1 then Some(u[k]) else Lookup(LoadLines(lines), k)
  {
    var left := Left(lines, u);
    assert Clean(left) by {
      forall x | x in left ensures CleanKey(x) && CleanValue(left[x]) {
        LeftKeys(lines, u, x);
        assert Lookup(left, x) == Lookup(u, x);
      }
    }
    RewrittenLookup(lines, u, k);
    LeftKeys(lines, u, k);
    RenderLookup(order, left, k);
    LoadConcat(Rewritten(lines, u), Render(order, left), k);
    LoadedIffCounted(lines, k);
    hide LoadLines, Rewritten, Render, Left, Clean, NoRepeats, Count;
  }

  // ----------------------------------------------------- lines back from text

  lemma AllFreeCons(line: string, rest: seq<string>, sep: Chars)
    ensures AllFree([line] + rest, sep) <==> Free(line, sep) && AllFree(rest, sep)
  {
    hide Free;
    var all := [line] + rest;
    if AllFree(all, sep) {
      assert Free(all[0], sep);
      forall i | 0 <= i < |rest| ensures Free(rest[i], sep) {
        assert Free(all[i + 1], sep);
      }
    }
  }

  lemma {:induction false} RewrittenIsFree(lines: seq<string>, u: map<string, string>)
    requires Clean(u) && AllFree(lines, Newline)
    ensures AllFree(Rewritten(lines, u), Newline)
    ensures |Rewritten(lines, u)| == |lines|
  {
    hide Free, IsAssignment, KeyOf;
    if lines != [] {
      var line, rest, k := lines[0], lines[1..], KeyOf(lines[0]);
      assert lines == [line] + rest;
      AllFreeCons(line, rest, Newline);
      RewriteHead(line, rest, u);
      var v := u - {k};
      if IsAssignment(line) && k in u {
        AssignmentReads(k, u[k]);
        CleanWithout(u, k);
        hide Clean, Assignment, Rewritten, AllFree;
        RewrittenIsFree(rest, v);
        AllFreeCons(Assignment(k, u[k]), Rewritten(rest, v), Newline);
      } else {
        hide Clean, Assignment, Rewritten, AllFree;
        RewrittenIsFree(rest, u);
        AllFreeCons(line, Rewritten(rest, u), Newline);
      }
    }
  }

  lemma {:induction false} RenderIsFree(order: seq<string>, u: map<string, string>)
    requires Clean(u) && forall x | x in order :: x in u
    ensures AllFree(Render(order, u), Newline)
  {
    if order != [] {
      AssignmentReads(order[0], u[order[0]]);
      RenderIsFree(order[1..], u);
    }
    hide Free, IsAssignment, KeyOf, Clean, Assignment;
  }

  lemma LeftIsClean(lines: seq<string>, u: map<string, string>)
    requires Clean(u)
    ensures Clean(Left(lines, u))
  {
    forall x | x in Left(lines, u) ensures CleanKey(x) && CleanValue(Left(lines, u)[x]) {
      LeftKeys(lines, u, x);
      assert Lookup(Left(lines, u), x) == Lookup(u, x);
    }
  }

  /** Splitting a saved text gives back the lines that were joined (or one empty
      line when there were none). */
  lemma SavedLines(file: Option<string>, u: map<string, string>, order: seq<string>)
    requires Clean(u) && IsOrder(order, Left(LinesOf(file), u))
    ensures var lines := NewLines(LinesOf(file), u, order);
            SplitBy(Join(lines, '\n'), Newline) == if lines == [] then [""] else lines
  {
    var before := LinesOf(file);
    if file.Some? {
      SplitPiecesAreFree(file.value, Newline);
    }
    RewrittenIsFree(before, u);
    LeftIsClean(before, u);
    RenderIsFree(order, Left(before, u));
    var lines := NewLines(before, u, order);
    if lines != [] {
      hide Rewritten, Render, Left, Clean, Free;
      SplitOfJoin(lines, '\n', Newline);
    }
  }

  // ------------------------------------------------------------- the theorems

  lemma LoadOfSaved(file: Option<string>, u: map<string, string>, order: seq<string>)
    requires Clean(u) && IsOrder(order, Left(LinesOf(file), u))
    ensures var lines := NewLines(LinesOf(file), u, order);
            Load(Join(lines, '\n')) == LoadLines(lines)
  {
    SavedLines(file, u, order);
    EmptyLineLoadsNothing();
    hide NewLines, LinesOf, Clean, Join, SplitBy, IsOrder, Left, LoadLines;
  }

  lemma EmptyLineLoadsNothing()
    ensures LoadLines([""]) == LoadLines([]) == map[]
  {
    LoadOne("");
    assert Trim("", Space) == "";
    hide Trim, KeyOf, ValueOf;
  }

  /** What one key loads as after saving. */
  lemma SavedLookup(file: Option<string>, u: map<string, string>, text: string, k: string)
    requires Clean(u) && IsSaved(file, u, text)
    ensures Lookup(Load(text), k) ==
            if k in u && Count(LinesOf(file), k) <= 1 then Some(u[k]) else Lookup(LoadFile(file), k)
  {
    var lines := LinesOf(file);
    var order :| IsOrder(order, Left(lines, u)) && text == Join(NewLines(lines, u, order), '\n');
    hide LoadLines, NewLines, LinesOf, Clean, Count, Join, Load, IsOrder, Left;
    LoadOfSaved(file, u, order);
    NewLinesLookup(lines, u, order, k);
  }

  /** Loading what was saved gives the old settings overridden by the updates
      exactly when each updated key was assigned at most once, or its last
      assignment already had the new value. */
  lemma RoundTrip(file: Option<string>, u: map<string, string>, text: string)
    requires Clean(u) && IsSaved(file, u, text)
    ensures Load(text) == LoadFile(file) + u <==>
            forall k | k in u :: Count(LinesOf(file), k) <= 1 || Lookup(LoadFile(file), k) == Some(u[k])
  {
    forall k
      ensures Lookup(Load(text), k) ==
              if k in u && Count(LinesOf(file), k) <= 1 then Some(u[k]) else Lookup(LoadFile(file), k)
    {
      SavedLookup(file, u, text, k);
    }
    hide Clean, IsSaved, LoadFile, Load, LinesOf;
    hide Count;
    var before, after := LoadFile(file), Load(text);
    SameByLookup(after, before + u);
    forall k
      ensures Lookup(after, k) == Lookup(before + u, k) <==>
              k in u ==> Count(LinesOf(file), k) <= 1 || Lookup(before, k) == Some(u[k])
    {
    }
  }

  lemma SameByLookup(a: map<string, string>, b: map<string, string>)
    ensures a == b <==> forall k :: Lookup(a, k) == Lookup(b, k)
  {
    if forall k :: Lookup(a, k) == Lookup(b, k) {
      assert forall k :: k in a <==> Lookup(a, k).Some?;
      assert forall k :: k in b <==> Lookup(b, k).Some?;
      assert forall k | k in a :: Lookup(a, k) == Some(a[k]) && Lookup(b, k) == Some(b[k]);
      assert a.Keys == b.Keys;
    }
  }

  /** Line `i` is the first to assign an updated key. */
  predicate TakesUpdate(lines: seq<string>, u: map<string, string>, i: nat)
    requires i < |lines|
  {
    && IsAssignment(lines[i]) && KeyOf(lines[i]) in u
    && forall j | 0 <= j < i :: !Assigns(lines[j], KeyOf(lines[i]))
  }

  /** Every line keeps its place, and every line that does not take an update
      keeps its text. */
  lemma {:induction false} LinesAreKept(lines: seq<string>, u: map<string, string>, i: nat)
    requires i < |lines|
    ensures |Rewritten(lines, u)| == |lines|
    ensures Rewritten(lines, u)[i] ==
            if TakesUpdate(lines, u, i) then Assignment(KeyOf(lines[i]), u[KeyOf(lines[i])]) else lines[i]
    decreases |lines|
  {
    hide IsAssignment, KeyOf, Assignment;
    var k, rest := KeyOf(lines[0]), lines[1..];
    var v := if IsAssignment(lines[0]) && k in u then u - {k} else u;
    if |lines| > 1 {
      var j := if i == 0 then 0 else i - 1;
      LinesAreKept(rest, v, j);
      if i > 0 {
        assert lines[i] == rest[j];
        TakesLater(lines, u, i);
      }
    }
  }

  lemma TakesLater(lines: seq<string>, u: map<string, string>, i: nat)
    requires 0 < i < |lines|
    ensures var k := KeyOf(lines[0]);
            var v := if IsAssignment(lines[0]) && k in u then u - {k} else u;
            TakesUpdate(lines, u, i) <==> TakesUpdate(lines[1..], v, i - 1)
  {
    hide IsAssignment, KeyOf;
    var rest := lines[1..];
    assert forall j | 0 <= j < |rest| :: rest[j] == lines[j + 1];
    assert lines[i] == rest[i - 1];
    if TakesUpdate(lines, u, i) {
      forall j | 0 <= j < i - 1 ensures !Assigns(rest[j], KeyOf(lines[i])) {
        assert !Assigns(lines[j + 1], KeyOf(lines[i]));
      }
      assert !Assigns(lines[0], KeyOf(lines[i]));
    }
    var k := KeyOf(lines[0]);
    var v := if IsAssignment(lines[0]) && k in u then u - {k} else u;
    if TakesUpdate(rest, v, i - 1) {
      forall j | 0 <= j < i ensures !Assigns(lines[j], KeyOf(lines[i])) {
        if j > 0 { assert !Assigns(rest[j - 1], KeyOf(lines[i])); }
      }
    }
  }

  // -------------------------------------------------------------- idempotence

  lemma {:induction false} RewrittenConcat(a: seq<string>, b: seq<string>, u: map<string, string>)
    ensures Rewritten(a + b, u) == Rewritten(a, u) + Rewritten(b, Left(a, u))
    ensures Left(a + b, u) == Left(b, Left(a, u))
  {
    hide IsAssignment, KeyOf, Assignment;
    if a == [] {
      assert a + b == b;
    } else {
      var line, rest, k := a[0], a[1..], KeyOf(a[0]);
      var v := if IsAssignment(line) && k in u then u - {k} else u;
      var first := if IsAssignment(line) && k in u then [Assignment(k, u[k])] else [line];
      assert a == [line] + rest && a + b == [line] + (rest + b);
      RewriteHead(line, rest, u);
      RewriteHead(line, rest + b, u);
      hide Rewritten, Left;
      RewrittenConcat(rest, b, v);
      var x, y := Rewritten(rest, v), Rewritten(b, Left(rest, v));
      assert first + (x + y) == (first + x) + y;
    }
  }

  /** Rewriting again with the same updates changes nothing. */
  lemma {:induction false} RewritingIsStable(lines: seq<string>, u: map<string, string>)
    requires Clean(u)
    ensures Rewritten(Rewritten(lines, u), u) == Rewritten(lines, u)
    ensures Left(Rewritten(lines, u), u) == Left(lines, u)
  {
    if lines != [] {
      var k, rest := KeyOf(lines[0]), lines[1..];
      if IsAssignment(lines[0]) && k in u {
        AssignmentReads(k, u[k]);
        CleanWithout(u, k);
        RewritingIsStable(rest, u - {k});
        RewriteHead(Assignment(k, u[k]), Rewritten(rest, u - {k}), u);
      } else {
        RewritingIsStable(rest, u);
        RewriteHead(lines[0], Rewritten(rest, u), u);
      }
    }
    hide IsAssignment, KeyOf, ValueOf, Assignment, Clean;
  }

  lemma RewriteHead(line: string, rest: seq<string>, u: map<string, string>)
    ensures var k := KeyOf(line);
            if IsAssignment(line) && k in u
            then Rewritten([line] + rest, u) == [Assignment(k, u[k])] + Rewritten(rest, u - {k})
                 && Left([line] + rest, u) == Left(rest, u - {k})
            else Rewritten([line] + rest, u) == [line] + Rewritten(rest, u) && Left([line] + rest, u) == Left(rest, u)
  {
    hide IsAssignment, KeyOf, Assignment;
    assert ([line] + rest)[1..] == rest;
  }

  /** Appended updates are taken by their own lines, leaving nothing over. */
  lemma {:induction false} RenderedIsTaken(order: seq<string>, u: map<string, string>, left: map<string, string>)
    requires Clean(u) && NoRepeats(order)
    requires forall k | k in order :: k in u && k in left && left[k] == u[k]
    requires forall k | k in left :: k in order
    ensures Rewritten(Render(order, u), left) == Render(order, u)
    ensures Left(Render(order, u), left) == map[]
  {
    if order == [] {
      assert left.Keys == {};
      assert left == map[];
    } else {
      var k, rest := order[0], order[1..];
      NoRepeatsCons(order);
      assert Render(order, u) == [Assignment(k, u[k])] + Render(rest, u);
      AssignmentReads(k, u[k]);
      hide IsAssignment, KeyOf, ValueOf, Assignment, Clean, NoRepeats, Render;
      RenderedIsTaken(rest, u, left - {k});
      RewriteHead(Assignment(k, u[k]), Render(rest, u), left);
      hide Rewritten, Left;
    }
  }

  /** The lines a saved text has, saved again with the same updates. */
  lemma SavedLinesAreStable(lines: seq<string>, u: map<string, string>, order: seq<string>)
    requires Clean(u) && IsOrder(order, Left(lines, u))
    ensures var all := NewLines(lines, u, order);
            Rewritten(all, u) == all && Left(all, u) == map[]
  {
    var left := Left(lines, u);
    LeftIsClean(lines, u);
    RewritingIsStable(lines, u);
    RewrittenConcat(Rewritten(lines, u), Render(order, left), u);
    RenderedIsTaken(order, left, left);
    hide Rewritten, Left, Render, Clean;
  }

  /** Saving the same clean updates twice writes the same text, even when the
      file repeats keys and in whatever order dictionaries iterate. */
  lemma SavingTwiceIsSavingOnce(file: Option<string>, u: map<string, string>, once: string, twice: string)
    requires Clean(u) && IsSaved(file, u, once) && IsSaved(Some(once), u, twice)
    ensures twice == once
  {
    var lines := LinesOf(file);
    var order :| IsOrder(order, Left(lines, u)) && once == Join(NewLines(lines, u, order), '\n');
    var order' :|
      && IsOrder(order', Left(LinesOf(Some(once)), u))
      && twice == Join(NewLines(LinesOf(Some(once)), u, order'), '\n');
    var all := NewLines(lines, u, order);
    SavedLines(file, u, order);
    SavedLinesAreStable(lines, u, order);
    hide Rewritten, Left, Clean, SplitBy, NewLines, Join, IsOrder;
    if all == [] {
      EmptyLineIsKept(u);
      NothingToSave(u);
      StableLinesResave([""], u, order');
      JoinOfNothing();
    } else {
      StableLinesResave(all, u, order');
    }
  }

  lemma StableLinesResave(lines: seq<string>, u: map<string, string>, order: seq<string>)
    requires Rewritten(lines, u) == lines && Left(lines, u) == map[]
    requires IsOrder(order, Left(lines, u))
    ensures NewLines(lines, u, order) == lines
  {
    hide Rewritten, Left;
    MembersOfOrder(order);
    assert lines + [] == lines;
  }

  lemma MembersOfOrder(order: seq<string>)
    ensures order == [] || exists k :: k in order
  {
    if order != [] {
      assert order[0] in order;
    }
  }

  lemma NothingToSave(u: map<string, string>)
    ensures Left([], u) == u
  {
  }

  lemma JoinOfNothing()
    ensures Join([""], '\n') == Join([], '\n') == ""
  {
  }

  lemma EmptyLineIsKept(u: map<string, string>)
    ensures Rewritten([""], u) == [""] && Left([""], u) == u
  {
    assert Trim("", Space) == "";
    assert [""][1..] == [];
  }

  // -------------------------------------------------- what saving cannot promise

  lemma {:induction false} RenderedLines(order: seq<string>, u: map<string, string>, line: string)
    requires (forall k | k in order :: k in u) && line in Render(order, u)
    ensures exists k :: k in u && line == Assignment(k, u[k])
  {
    hide Assignment;
    if line != Assignment(order[0], u[order[0]]) {
      RenderedLines(order[1..], u, line);
    }
  }

  /** A file that does not decode is overwritten: afterwards every line that is not
      empty is an update, and the updates are all there is to load. */
  lemma UndecodableFileIsOverwritten(u: map<string, string>, text: string, line: string)
    requires Clean(u) && IsSaved(Seen(Undecodable), u, text) && line in LinesOf(Some(text))
    ensures line == "" || exists k :: k in u && line == Assignment(k, u[k])
    ensures Load(text) == u
  {
    RoundTrip(None, u, text);
    assert LoadFile(None) + u == u;
    var order :| IsOrder(order, Left([], u)) && text == Join(NewLines([], u, order), '\n');
    SavedLines(None, u, order);
    hide Load, Clean, Join, SplitBy, Assignment, IsSaved;
    assert NewLines([], u, order) == Render(order, u);
    if line != "" {
      RenderedLines(order, u, line);
    }
  }

  lemma DigitsAreClean()
    ensures CleanKey("A") && CleanValue("1") && CleanValue("2") && CleanValue("3")
  {
    TrimmedIffFixed("A", Blank);
    TrimmedIffFixed("1", Blank);
    TrimmedIffFixed("2", Blank);
    TrimmedIffFixed("3", Blank);
    TrimmedIffFixed("1", Quote);
    TrimmedIffFixed("2", Quote);
    TrimmedIffFixed("3", Quote);
    hide Trim;
  }

  /** Two lines that assign the same key. */
  lemma TwoAssignments(a: string, b: string, k: string, v: string, w: string)
    requires CleanKey(k) && CleanValue(v) && CleanValue(w) && a == Assignment(k, v) && b == Assignment(k, w)
    ensures AllFree([a, b], Newline)
    ensures Count([a, b], k) == 2 && Lookup(LoadLines([a, b]), k) == Some(w)
  {
    AssignmentReads(k, v);
    AssignmentReads(k, w);
    hide IsAssignment, KeyOf, ValueOf, Free, CleanKey, CleanValue, Assignment;
    LoadOne(b);
    LoadCons(a, [b], k);
    hide LoadLines;
    assert [a, b] == [a] + [b];
    assert [a, b][1..] == [b] && [b][1..] == [];
    assert Count([b], k) == 1;
  }

  /** Saving another value of a key that two lines assign changes nothing of what
      is loaded for it: the first assignment is rewritten, the last one obeyed. */
  lemma RepeatedKeyIsNotSaved(k: string, v: string, w: string, x: string, text: string)
    requires CleanKey(k) && CleanValue(v) && CleanValue(w) && CleanValue(x)
    requires IsSaved(Some(Assignment(k, v) + "\n" + Assignment(k, w)), map[k := x], text)
    ensures Lookup(Load(text), k) == Some(w)
  {
    var a, b := Assignment(k, v), Assignment(k, w);
    TwoAssignments(a, b, k, v, w);
    assert [a, b][1..] == [b];
    assert Join([b], '\n') == b;
    assert Join([a, b], '\n') == a + "\n" + b;
    SplitOfJoin([a, b], '\n', Newline);
    hide SplitBy, Join, CleanKey, CleanValue, LoadLines, Count, IsSaved, Assignment;
    SavedLookup(Some(a + "\n" + b), map[k := x], text, k);
  }

  /** For example, setting `A` to 3 in a file that sets it to 1 and then to 2. */
  lemma TwiceSetKeepsTheSecond()
    ensures forall text | IsSaved(Some("A=1\nA=2"), map["A" := "3"], text) :: Lookup(Load(text), "A") == Some("2")
  {
    DigitsAreClean();
    TwiceSetText();
    hide CleanKey, CleanValue, IsSaved, Assignment, Load, LinesOf, Left;
    forall text | IsSaved(Some("A=1\nA=2"), map["A" := "3"], text) ensures Lookup(Load(text), "A") == Some("2") {
      RepeatedKeyIsNotSaved("A", "1", "2", "3", text);
    }
  }

  lemma TwiceSetText()
    ensures Assignment("A", "1") + "\n" + Assignment("A", "2") == "A=1\nA=2"
  {
    assert Assignment("A", "1") == "A=1" && Assignment("A", "2") == "A=2";
    hide Assignment;
  }
}
