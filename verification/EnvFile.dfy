/** The desktop app's `.env` reader and writer. */
module EnvFile {
  import opened Text
  import opened Wrappers

  // ------------------------------------------------------------ one line

  /** The index of the first `=`, or the length when there is none. */
  function FirstEquals(s: string): nat {
    if s == "" || s[0] == '=' then 0 else 1 + FirstEquals(s[1..])
  }

  lemma {:induction false} FirstEqualsBound(s: string)
    ensures FirstEquals(s) <= |s|
    ensures '=' in s <==> FirstEquals(s) < |s|
    ensures FirstEquals(s) < |s| ==> s[FirstEquals(s)] == '='
    ensures '=' !in s[..FirstEquals(s)]
  {
    if s != "" && s[0] != '=' {
      FirstEqualsBound(s[1..]);
      assert s == [s[0]] + s[1..];
      assert s[..FirstEquals(s)] == [s[0]] + s[1..][..FirstEquals(s[1..])];
    }
  }

  lemma {:induction false} FirstEqualsAt(k: string, rest: string)
    requires '=' !in k
    ensures FirstEquals(k + "=" + rest) == |k|
  {
    var s := k + "=" + rest;
    if k != "" {
      assert s[0] == k[0] && s[1..] == k[1..] + "=" + rest;
      FirstEqualsAt(k[1..], rest);
    }
  }

  predicate IsAssignment(line: string) {
    var raw := Trim(line, Space);
    raw != "" && raw[0] != '#' && '=' in raw
  }

  function KeyOf(line: string): string {
    var raw := Trim(line, Space);
    FirstEqualsBound(raw);
    Trim(raw[..FirstEquals(raw)], Blank)
  }

  function ValueOf(line: string): string
    requires IsAssignment(line)
  {
    var raw := Trim(line, Space);
    FirstEqualsBound(raw);
    Trim(Trim(raw[FirstEquals(raw) + 1..], Blank), Quote)
  }

  predicate Assigns(line: string, k: string) {
    IsAssignment(line) && KeyOf(line) == k
  }

  function Assignment(k: string, v: string): string {
    k + "=" + v
  }

  // ---------------------------------------------------------------- loading

  /** Later assignments win. */
  function LoadLines(lines: seq<string>): map<string, string> {
    if lines == [] then map[]
    else
      var before, line := LoadLines(lines[..|lines| - 1]), lines[|lines| - 1];
      if IsAssignment(line) then before[KeyOf(line) := ValueOf(line)] else before
  }

  function Load(text: string): map<string, string> {
    LoadLines(SplitBy(text, Newline))
  }

  function LinesOf(file: Option<string>): seq<string> {
    if file.None? then [] else SplitBy(file.value, Newline)
  }

  function LoadFile(file: Option<string>): map<string, string> {
    LoadLines(LinesOf(file))
  }

  // ----------------------------------------------------------------- saving

  /** The file's lines with the first assignment of each updated key replaced. */
  function Rewritten(lines: seq<string>, u: map<string, string>): seq<string> {
    if lines == [] then []
    else
      var k := KeyOf(lines[0]);
      if IsAssignment(lines[0]) && k in u then [Assignment(k, u[k])] + Rewritten(lines[1..], u - {k})
      else [lines[0]] + Rewritten(lines[1..], u)
  }

  /** The updates no line took. */
  function Left(lines: seq<string>, u: map<string, string>): map<string, string> {
    if lines == [] then u
    else
      var k := KeyOf(lines[0]);
      if IsAssignment(lines[0]) && k in u then Left(lines[1..], u - {k}) else Left(lines[1..], u)
  }

  function Render(order: seq<string>, u: map<string, string>): seq<string>
    requires forall k | k in order :: k in u
  {
    if order == [] then []
    else [Assignment(order[0], u[order[0]])] + Render(order[1..], u)
  }

  /** An order in which a dictionary with these keys may iterate. */
  predicate IsOrder(order: seq<string>, m: map<string, string>) {
    && NoRepeats(order)
    && (forall k | k in order :: k in m)
    && (forall k | k in m :: k in order)
  }

  function NewLines(lines: seq<string>, u: map<string, string>, order: seq<string>): seq<string>
    requires IsOrder(order, Left(lines, u))
  {
    Rewritten(lines, u) + Render(order, Left(lines, u))
  }

  /** Some text the writer may produce (updates that were not in the file are
      appended in the dictionary's order). */
  ghost predicate IsSaved(file: Option<string>, u: map<string, string>, text: string) {
    exists order :: IsOrder(order, Left(LinesOf(file), u)) && text == Join(NewLines(LinesOf(file), u, order), '\n')
  }

  /** The file on disk, which may hold bytes that are not UTF-8. */
  datatype Disk = Missing | Undecodable | Readable(text: string)

  /** What reading it yields; undecodable and missing files look the same. */
  function Seen(file: Disk): Option<string> {
    if file.Readable? then Some(file.text) else None
  }

  class EnvStore {
    var file: Disk
    var envVals: map<string, string>

    constructor (file: Disk)
      ensures this.file == file && envVals == map[]
    {
      this.file := file;
      envVals := map[];
    }

    method LoadEnv()
      modifies this`envVals
      ensures envVals == LoadFile(Seen(file))
    {
      var vals: map<string, string> := map[];
      if file.Readable? {
        vals := ReadLines(SplitBy(file.text, Newline));
      }
      hide LoadLines, SplitBy;
      envVals := vals;
    }

    /** Write the updates, and read the settings back whether or not that worked. */
    method SaveEnv(updates: map<string, string>, writable: bool)
      modifies this
      ensures writable ==> file.Readable? && IsSaved(Seen(old(file)), updates, file.text)
      ensures !writable ==> file == old(file)
      ensures envVals == LoadFile(Seen(file))
    {
      var before := LinesOf(Seen(file));
      var lines, remaining := RewriteLines(before, updates);
      var added := RenderUpdates(remaining);
      ghost var order :| IsOrder(order, remaining) && added == Render(order, remaining);
      var text := Join(lines + added, '\n');
      hide Rewritten, LinesOf, Left, Render, Join, LoadLines;
      assert IsSaved(Seen(old(file)), updates, text);
      if writable {
        file := Readable(text);
      }
      LoadEnv();
    }
  }

  /** The remaining updates as lines, in whatever order the dictionary iterates. */
  method RenderUpdates(u: map<string, string>) returns (lines: seq<string>)
    ensures exists order :: IsOrder(order, u) && lines == Render(order, u)
  {
    var remaining := u;
    lines := [];
    ghost var order: seq<string> := [];
    while remaining != map[]
      invariant remaining.Keys <= u.Keys && forall k | k in remaining :: remaining[k] == u[k]
      invariant NoRepeats(order) && forall k :: k in u <==> k in order || k in remaining
      invariant forall k | k in order :: k !in remaining
      invariant lines == Render(order, u)
      decreases remaining.Keys
    {
      assert remaining.Keys != {};
      var k :| k in remaining.Keys;
      RenderSnoc(order, k, u);
      hide Render, Assignment;
      lines := lines + [Assignment(k, remaining[k])];
      order := order + [k];
      remaining := remaining - {k};
    }
    assert IsOrder(order, u);
  }

  method ReadLines(lines: seq<string>) returns (vals: map<string, string>)
    ensures vals == LoadLines(lines)
  {
    hide KeyOf, ValueOf, IsAssignment;
    vals := map[];
    for i := 0 to |lines|
      invariant vals == LoadLines(lines[..i])
    {
      assert lines[..i + 1][..i] == lines[..i];
      if !IsAssignment(lines[i]) { continue; }
      vals := vals[KeyOf(lines[i]) := ValueOf(lines[i])];
    }
    assert lines[..|lines|] == lines;
  }

  lemma RewriteStep(lines: seq<string>, u: map<string, string>, i: nat)
    requires i < |lines|
    ensures var k := KeyOf(lines[i]);
            if IsAssignment(lines[i]) && k in u
            then Rewritten(lines[i..], u) == [Assignment(k, u[k])] + Rewritten(lines[i + 1..], u - {k})
                 && Left(lines[i..], u) == Left(lines[i + 1..], u - {k})
            else Rewritten(lines[i..], u) == [lines[i]] + Rewritten(lines[i + 1..], u)
                 && Left(lines[i..], u) == Left(lines[i + 1..], u)
  {
    hide KeyOf, IsAssignment;
    var rest := lines[i..];
    assert rest[0] == lines[i] && rest[1..] == lines[i + 1..];
  }

  method RewriteLines(before: seq<string>, updates: map<string, string>)
    returns (lines: seq<string>, remaining: map<string, string>)
    ensures lines == Rewritten(before, updates) && remaining == Left(before, updates)
  {
    lines, remaining := [], updates;
    for i := 0 to |before|
      invariant lines + Rewritten(before[i..], remaining) == Rewritten(before, updates)
      invariant Left(before[i..], remaining) == Left(before, updates)
    {
      hide KeyOf, IsAssignment, Rewritten, Left;
      var line, k := before[i], KeyOf(before[i]);
      RewriteStep(before, remaining, i);
      if IsAssignment(line) && k in remaining {
        var added := Assignment(k, remaining[k]);
        assert lines + ([added] + Rewritten(before[i + 1..], remaining - {k}))
            == (lines + [added]) + Rewritten(before[i + 1..], remaining - {k});
        hide Assignment;
        lines := lines + [added];
        remaining := remaining - {k};
      } else {
        assert lines + ([line] + Rewritten(before[i + 1..], remaining))
            == (lines + [line]) + Rewritten(before[i + 1..], remaining);
        lines := lines + [line];
      }
    }
  }

  lemma {:induction false} RenderSnoc(order: seq<string>, k: string, u: map<string, string>)
    requires k in u && forall x | x in order :: x in u
    ensures Render(order + [k], u) == Render(order, u) + [Assignment(k, u[k])]
  {
    if order == [] {
      assert [] + [k] == [k] && [k][1..] == [];
    } else {
      assert (order + [k])[0] == order[0] && (order + [k])[1..] == order[1..] + [k];
      RenderSnoc(order[1..], k, u);
    }
  }
}
