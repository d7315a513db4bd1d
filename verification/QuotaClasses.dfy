/** How a quota window is classified, told from the places where its key or label names
    its kind and pool; and when a window's reset is due. */
module QuotaClasses {
  import opened Text
  import opened Wrappers
  import opened QuotaWindows

  /** `c` is the character `d`, or its capital. */
  predicate AnyCase(c: char, d: char) {
    c == d || ('A' <= c <= 'Z' && (c as int) + 32 == (d as int))
  }

  predicate NamedAt(s: string, name: string, i: nat) {
    i + |name| <= |s| && forall k | 0 <= k < |name| :: AnyCase(s[i + k], name[k])
  }

  /** The text has the name somewhere, in any case. */
  predicate Named(s: string, name: string) {
    exists i: nat | i <= |s| :: NamedAt(s, name, i)
  }

  /** Key or label has it. */
  predicate Mentions(w: QuotaWindow, name: string) {
    Named(OrEmpty(w.key), name) || Named(OrEmpty(w.title), name)
  }

  /** The key ends in 5 and the label starts with hour: joined by a space they read as
      five hours. */
  predicate FiveThenHour(w: QuotaWindow) {
    var key := OrEmpty(w.key);
    key != "" && key[|key| - 1] == '5' && NamedAt(OrEmpty(w.title), "hour", 0)
  }

  // --------------------------------------------------------- searching by position

  predicate At(s: string, needle: string, i: nat) {
    i + |needle| <= |s| && s[i..i + |needle|] == needle
  }

  lemma AtTail(s: string, needle: string, i: nat)
    requires s != ""
    ensures At(s, needle, i + 1) <==> At(s[1..], needle, i)
  {
    if i + 1 + |needle| <= |s| {
      assert s[1..][i..i + |needle|] == s[i + 1..i + 1 + |needle|];
    }
  }

  lemma {:induction false} FoundAt(s: string, needle: string) returns (i: nat)
    requires Contains(s, needle)
    ensures i <= |s| && At(s, needle, i)
  {
    if needle <= s {
      i := 0;
    } else {
      var k := FoundAt(s[1..], needle);
      AtTail(s, needle, k);
      i := k + 1;
    }
  }

  lemma ContainsIsAt(s: string, needle: string)
    ensures Contains(s, needle) <==> exists i: nat | i <= |s| :: At(s, needle, i)
  {
    if Contains(s, needle) {
      var i := FoundAt(s, needle);
    }
    if i: nat :| i <= |s| && At(s, needle, i) {
      ContainsAt(s, needle, i);
    }
    hide Contains;
  }

  predicate LowerCase(name: string) {
    forall k | 0 <= k < |name| :: !('A' <= name[k] <= 'Z')
  }

  lemma LowerAt(s: string, name: string, i: nat)
    requires LowerCase(name)
    ensures At(Lower(s), name, i) <==> NamedAt(s, name, i)
  {
    if i + |name| <= |s| {
      var low := Lower(s)[i..i + |name|];
      assert forall k | 0 <= k < |name| :: low[k] == LowerChar(s[i + k]);
      assert forall k | 0 <= k < |name| :: low[k] == name[k] <==> AnyCase(s[i + k], name[k]);
    }
  }

  /** In the joined text a name stands where the key has it, where the label has it, or
      across the space between them. */
  lemma JoinedAt(key: string, title: string, name: string, i: nat)
    requires LowerCase(name) && name != ""
    ensures At(Lower(key) + " " + Lower(title), name, i) <==>
            if i + |name| <= |key| then NamedAt(key, name, i)
            else if i > |key| then NamedAt(title, name, i - |key| - 1)
            else At(Lower(key) + " " + Lower(title), name, i)
    ensures i <= |key| < i + |name| && At(Lower(key) + " " + Lower(title), name, i) ==>
            ' ' in name && name[|key| - i] == ' '
  {
    var hay := Lower(key) + " " + Lower(title);
    if i + |name| <= |key| {
      assert hay[i..i + |name|] == Lower(key)[i..i + |name|];
      LowerAt(key, name, i);
    } else if i > |key| {
      var j := i - |key| - 1;
      if i + |name| <= |hay| {
        assert hay[i..i + |name|] == Lower(title)[j..j + |name|];
      }
      LowerAt(title, name, j);
    } else if At(hay, name, i) {
      assert hay[|key|] == ' ' && hay[i..i + |name|][|key| - i] == ' ';
    }
  }

  lemma HayMentions(w: QuotaWindow, name: string)
    requires LowerCase(name) && name != ""
    ensures Mentions(w, name) ==> Contains(Haystack(w), name)
    ensures ' ' !in name ==> (Contains(Haystack(w), name) <==> Mentions(w, name))
  {
    var key, title, hay := OrEmpty(w.key), OrEmpty(w.title), Haystack(w);
    ContainsIsAt(hay, name);
    hide Contains, NamedAt, Lower, At, LowerCase;
    if Contains(hay, name) && ' ' !in name {
      var i: nat :| i <= |hay| && At(hay, name, i);
      JoinedAt(key, title, name, i);
      InsideOf(key, name, i);
      InsideOf(title, name, if i > |key| then i - |key| - 1 else 0);
    }
    if i: nat :| i <= |key| && NamedAt(key, name, i) {
      InsideOf(key, name, i);
      JoinedAt(key, title, name, i);
      assert At(hay, name, i);
    }
    if i: nat :| i <= |title| && NamedAt(title, name, i) {
      InsideOf(title, name, i);
      JoinedAt(key, title, name, |key| + 1 + i);
      assert At(hay, name, |key| + 1 + i);
    }
  }

  lemma InsideOf(s: string, name: string, i: nat)
    ensures NamedAt(s, name, i) ==> i + |name| <= |s|
  {
  }

  lemma FiveHourAcross(key: string, title: string, i: nat)
    requires i + 1 == |key|
    ensures At(Lower(key) + " " + Lower(title), "5 hour", i) <==> key[i] == '5' && NamedAt(title, "hour", 0)
  {
    var hay := Lower(key) + " " + Lower(title);
    LowerAt(title, "hour", 0);
    assert LowerChar(key[i]) == '5' <==> key[i] == '5';
    hide NamedAt;
    if i + 6 <= |hay| {
      assert hay[i + 2..i + 6] == Lower(title)[0..4];
      assert hay[i..i + 6] == [hay[i]] + [hay[i + 1]] + hay[i + 2..i + 6];
      assert hay[i] == LowerChar(key[i]) && hay[i + 1] == ' ';
      FiveHourParts(hay[i], Lower(title)[0..4]);
    }
  }

  lemma FiveHourParts(first: char, rest: string)
    ensures [first] + [' '] + rest == "5 hour" <==> first == '5' && rest == "hour"
  {
    var whole := [first] + [' '] + rest;
    assert whole[0] == first && whole[2..] == rest && "5 hour"[2..] == "hour";
    assert "5" + " " + "hour" == "5 hour";
  }

  lemma FiveHourFound(key: string, title: string, i: nat)
    requires At(Lower(key) + " " + Lower(title), "5 hour", i)
    ensures NamedAt(key, "5 hour", i) || (i > |key| && NamedAt(title, "5 hour", i - |key| - 1)) || i + 1 == |key|
  {
    var name := "5 hour";
    assert forall k | 0 <= k < |name| && name[k] == ' ' :: k == 1;
    JoinedAt(key, title, name, i);
    hide At, NamedAt, Lower;
  }

  lemma HayFiveHour(w: QuotaWindow)
    ensures Contains(Haystack(w), "5 hour") <==> Mentions(w, "5 hour") || FiveThenHour(w)
  {
    var key, title, hay := OrEmpty(w.key), OrEmpty(w.title), Haystack(w);
    assert hay == Lower(key) + " " + Lower(title);
    assert LowerCase("5 hour");
    hide Contains, NamedAt, Lower, At, Haystack, LowerCase;
    HayMentions(w, "5 hour");
    ContainsIsAt(hay, "5 hour");
    if key != "" {
      FiveHourAcross(key, title, |key| - 1);
    }
    if Contains(hay, "5 hour") && !Mentions(w, "5 hour") {
      var i: nat :| i <= |hay| && At(hay, "5 hour", i);
      FiveHourFound(key, title, i);
      InsideOf(key, "5 hour", i);
      InsideOf(title, "5 hour", if i > |key| then i - |key| - 1 else 0);
    }
    if FiveThenHour(w) {
      assert At(hay, "5 hour", |key| - 1);
    }
  }

  // ------------------------------------------------------------------ the classes

  lemma NamesAreLower()
    ensures LowerCase("5h") && LowerCase("5-hour") && LowerCase("7d") && LowerCase("week") && LowerCase("weekly")
    ensures ' ' !in "5h" && ' ' !in "5-hour" && ' ' !in "7d" && ' ' !in "week" && ' ' !in "weekly"
  {
  }

  /** A window's kind: none if its key starts as a scoped one does; five-hour or weekly
      as key or label says in any case; and else by its length, up to twelve hours or
      more. */
  lemma KindIsDecided(w: QuotaWindow)
    ensures NotchWindowKind(w) ==
            if w.key.Some? && "scoped_" <= w.key.value then None
            else if Mentions(w, "5h") || Mentions(w, "5-hour") || Mentions(w, "5 hour") || FiveThenHour(w) then
              Some(FiveHour)
            else if Mentions(w, "7d") || Mentions(w, "week") then Some(Weekly)
            else if w.windowMinutes.None? || w.windowMinutes.value <= 0 then None
            else if w.windowMinutes.value <= 12 * 60 then Some(FiveHour)
            else Some(Weekly)
  {
    NamesAreLower();
    WeeklyIsWeek(Haystack(w));
    assert "scoped_" != "";
    hide LowerCase, Mentions, FiveThenHour, Contains, Haystack;
    HayMentions(w, "5h");
    HayMentions(w, "5-hour");
    HayFiveHour(w);
    HayMentions(w, "7d");
    HayMentions(w, "week");
  }

  lemma {:induction false} WeeklyIsWeek(s: string)
    ensures Contains(s, "weekly") ==> Contains(s, "week")
  {
    if "weekly" <= s {
      assert "weekly"[..4] == "week" && s[..6][..4] == s[..4];
    } else if s != "" {
      WeeklyIsWeek(s[1..]);
    }
  }

  /** Its pool: external when key or label says external or claude/gpt, else Gemini when
      they say so. */
  lemma TagIsDecided(w: QuotaWindow)
    ensures NotchWindowTag(w) ==
            if Mentions(w, "external") || Mentions(w, "claude/gpt") then Some(EXT)
            else if Mentions(w, "gemini") then Some(GEM) else None
  {
    TagNamesAreLower();
    hide LowerCase, Mentions, Contains, Haystack;
    HayMentions(w, "external");
    HayMentions(w, "claude/gpt");
    HayMentions(w, "gemini");
  }

  lemma TagNamesAreLower()
    ensures LowerCase("external") && LowerCase("claude/gpt") && LowerCase("gemini")
    ensures ' ' !in "external" && ' ' !in "claude/gpt" && ' ' !in "gemini"
  {
  }

  // ------------------------------------------------------------------------- due

  function Instant(p: Presenter, text: Option<string>): Option<real> {
    if text.Some? then p.parse(text.value) else None
  }

  /** Fetched at one instant, the window reports a reset a full length later, give or
      take 15 s: its clock has not started. */
  predicate NotStarted(p: Presenter, w: QuotaWindow, fetchedAt: Option<string>) {
    && w.windowMinutes.Some? && w.windowMinutes.value > 0
    && Instant(p, w.resetsAt).Some? && Instant(p, fetchedAt).Some?
    && var late := Instant(p, w.resetsAt).value - Instant(p, fetchedAt).value - (w.windowMinutes.value * 60) as real;
       -15.0 <= late <= 15.0
  }

  predicate NoText(text: Option<string>) {
    text.Some? ==> forall i | 0 <= i < |text.value| :: In(text.value[i], Blank)
  }

  lemma NoTextTrims(text: Option<string>)
    ensures Trim(OrEmpty(text), Blank) == "" <==> NoText(text)
  {
    var s := OrEmpty(text);
    var head, tail := TrimCuts(s, Blank);
    hide Trim, In;
    if Trim(s, Blank) == "" {
      assert s == head + tail;
    } else {
      assert s[|head|] == Trim(s, Blank)[0];
    }
  }

  /** A window is waited for no longer, pending a poll, exactly when the reset it reports
      has passed and its clock had started; one that reports blank text counts as started
      above five percent. */
  lemma DueIsDecided(p: Presenter, u: ProviderUsage, w: QuotaWindow, kind: WindowKind)
    ensures AwaitingReset(p, TakeSnapshot(p, u, w, kind)) <==>
            && w.usedPercent.Some? && Instant(p, w.resetsAt).Some? && Instant(p, w.resetsAt).value <= p.now
            && if NoText(w.resetsAt) then w.usedPercent.value > 5.0 else !NotStarted(p, w, u.fetchedAt)
  {
    NoTextTrims(w.resetsAt);
    hide Trim, NoText, Remaining, NotchWindowTag, In;
  }
}
