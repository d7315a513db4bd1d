/** Choosing the executor of a sub-agent run from the request, the configured
    defaults, the enabled list and, when known, what is installed. */
module AgentResolver {
  import opened Text
  import opened Wrappers

  /** `sorted(SUPPORTED_AGENTS)`. */
  const SUPPORTED_AGENTS: seq<string> := ["antigravity", "claude", "codex"]

  datatype AgentError =
    | Unsupported(name: string)
    | Disabled(name: string)
    | Unavailable(name: string)

  function Alias(name: string): string {
    if name == "agy" || name == "antigravity-cli" || name == "antigratity" then "antigravity"
    else if name == "claude-code" || name == "claude-code-cli" then "claude"
    else name
  }

  function DashChar(c: char): char {
    if c == '_' then '-' else c
  }

  function Dashed(s: string): (r: string)
    ensures |r| == |s|
    ensures forall i | 0 <= i < |s| :: r[i] == DashChar(s[i])
  {
    seq(|s|, i requires 0 <= i < |s| => DashChar(s[i]))
  }

  function NormalizeAgentName(value: string): string {
    Alias(Dashed(Lower(Trim(value, PySpace))))
  }

  predicate IsAuto(name: string) {
    name == "" || name == "auto"
  }

  function OnlySupported(names: seq<string>): seq<string> {
    if names == [] then []
    else if names[0] in SUPPORTED_AGENTS then [names[0]] + OnlySupported(names[1..])
    else OnlySupported(names[1..])
  }

  /** The enabled agents in preference order; never empty. */
  function Enabled(enabledAgents: Option<seq<string>>): seq<string> {
    var listed := if enabledAgents.Some? && enabledAgents.value != [] then enabledAgents.value else SUPPORTED_AGENTS;
    var kept := OnlySupported(listed);
    if kept != [] then kept else SUPPORTED_AGENTS
  }

  function FirstIn(candidates: seq<string>, allowed: seq<string>, installed: Option<set<string>>): Option<string> {
    if candidates == [] then None
    else if candidates[0] in allowed && (installed.None? || candidates[0] in installed.value) then Some(candidates[0])
    else FirstIn(candidates[1..], allowed, installed)
  }

  function Installed(availableAgents: Option<set<string>>): set<string> {
    if availableAgents.None? then {} else set a | a in availableAgents.value :: NormalizeAgentName(a)
  }

  function Preferred(projectDefault: string, settingsDefault: string, enabled: seq<string>): seq<string>
    requires enabled != []
  {
    [NormalizeAgentName(projectDefault), NormalizeAgentName(settingsDefault), enabled[0]]
  }

  lemma {:induction false} OnlySupportedMembers(names: seq<string>)
    ensures forall a | a in OnlySupported(names) :: a in SUPPORTED_AGENTS && a in names
  {
    if names != [] {
      OnlySupportedMembers(names[1..]);
    }
  }

  lemma EnabledIsSupported(enabledAgents: Option<seq<string>>)
    ensures Enabled(enabledAgents) != []
    ensures forall a | a in Enabled(enabledAgents) :: a in SUPPORTED_AGENTS
  {
    OnlySupportedMembers(
      if enabledAgents.Some? && enabledAgents.value != [] then enabledAgents.value else SUPPORTED_AGENTS);
  }

  function ResolveAgent(
    requested: string,
    projectDefault: string,
    settingsDefault: string,
    enabledAgents: Option<seq<string>>,
    availableAgents: Option<set<string>>
  ): Result<string, AgentError>
  {
    var name := NormalizeAgentName(requested);
    EnabledIsSupported(enabledAgents);
    var enabled := Enabled(enabledAgents);
    var installed := Installed(availableAgents);
    if IsAuto(name) then
      var preferred := Preferred(projectDefault, settingsDefault, enabled);
      var both := if availableAgents.Some? then FirstIn(preferred, enabled, Some(installed)) else None;
      if both.Some? then Ok(both.value)
      else
        var fallback := FirstIn(preferred, enabled, None);
        if fallback.Some? then Ok(fallback.value) else Checked(enabled[0], enabled, availableAgents)
    else Checked(name, enabled, availableAgents)
  }

  function Checked(candidate: string, enabled: seq<string>,
                   availableAgents: Option<set<string>>): Result<string, AgentError> {
    var installed := Installed(availableAgents);
    if candidate !in SUPPORTED_AGENTS then Err(Unsupported(candidate))
    else if candidate !in enabled then Err(Disabled(candidate))
    else if availableAgents.Some? && installed != {} && candidate !in installed then Err(Unavailable(candidate))
    else Ok(candidate)
  }

  // ------------------------------------------------------------ properties

  /** `FirstIn` returns the earliest candidate that qualifies, if any does. */
  lemma {:induction false} FirstInIsFirst(candidates: seq<string>, allowed: seq<string>, installed: Option<set<string>>)
    ensures FirstIn(candidates, allowed, installed).None? <==>
            forall i | 0 <= i < |candidates| :: !Qualifies(candidates[i], allowed, installed)
    ensures FirstIn(candidates, allowed, installed).Some? ==>
            exists i | 0 <= i < |candidates| ::
              && candidates[i] == FirstIn(candidates, allowed, installed).value
              && Qualifies(candidates[i], allowed, installed)
              && forall j | 0 <= j < i :: !Qualifies(candidates[j], allowed, installed)
  {
    if candidates != [] {
      FirstInIsFirst(candidates[1..], allowed, installed);
      if Qualifies(candidates[0], allowed, installed) {
        assert candidates[0] == FirstIn(candidates, allowed, installed).value;
      } else {
        var rest := candidates[1..];
        assert forall i | 1 <= i < |candidates| :: candidates[i] == rest[i - 1];
        if FirstIn(rest, allowed, installed).Some? {
          var i :| 0 <= i < |rest| && rest[i] == FirstIn(rest, allowed, installed).value
                   && Qualifies(rest[i], allowed, installed)
                   && forall j | 0 <= j < i :: !Qualifies(rest[j], allowed, installed);
          assert candidates[i + 1] == rest[i];
          forall j | 0 <= j < i + 1 ensures !Qualifies(candidates[j], allowed, installed) {
            if j > 0 { assert candidates[j] == rest[j - 1]; }
          }
        } else {
          forall i | 0 <= i < |candidates| ensures !Qualifies(candidates[i], allowed, installed) {
            if i > 0 { assert candidates[i] == rest[i - 1]; }
          }
        }
      }
    }
  }

  predicate Qualifies(a: string, allowed: seq<string>, installed: Option<set<string>>) {
    a in allowed && (installed.None? || a in installed.value)
  }

  /** An automatic pick is never refused; it is enabled, and it is installed
      exactly when one of the three preferred agents is both enabled and
      installed (or availability is not known at all). */
  lemma AutoAlwaysResolves(
    requested: string, projectDefault: string, settingsDefault: string,
    enabledAgents: Option<seq<string>>, availableAgents: Option<set<string>>)
    requires NormalizeAgentName(requested) in {"", "auto"}
    ensures var r := ResolveAgent(requested, projectDefault, settingsDefault, enabledAgents, availableAgents);
            var enabled := Enabled(enabledAgents);
            && enabled != []
            && r.Ok? && r.value in enabled && r.value in SUPPORTED_AGENTS
            && (availableAgents.Some? ==>
                  (r.value in Installed(availableAgents) <==>
                   exists a | a in Preferred(projectDefault, settingsDefault, enabled) ::
                     a in enabled && a in Installed(availableAgents)))
  {
    EnabledIsSupported(enabledAgents);
    var enabled := Enabled(enabledAgents);
    var preferred := Preferred(projectDefault, settingsDefault, enabled);
    FirstInIsFirst(preferred, enabled, None);
    assert Qualifies(preferred[2], enabled, None);
    if availableAgents.Some? {
      var both := Some(Installed(availableAgents));
      FirstInIsFirst(preferred, enabled, both);
      var r := ResolveAgent(requested, projectDefault, settingsDefault, enabledAgents, availableAgents).value;
      assert r in preferred;
      if FirstIn(preferred, enabled, both).None? {
        forall a | a in preferred ensures !(a in enabled && a in both.value) {
          var i :| 0 <= i < |preferred| && preferred[i] == a;
          assert !Qualifies(preferred[i], enabled, both);
        }
      }
    }
  }

  /** The earliest of the candidates that `good` holds of is `a`. */
  predicate IsFirst(a: string, candidates: seq<string>, good: set<string>) {
    exists i | 0 <= i < |candidates| ::
      candidates[i] == a && a in good && forall j | 0 <= j < i :: candidates[j] !in good
  }

  /** The automatic pick is the first of project default, settings default and first
      enabled agent that is enabled and installed; if none is, or it is not known what is
      installed, the first that is enabled. */
  lemma AutoPicksTheFirst(
    requested: string, projectDefault: string, settingsDefault: string,
    enabledAgents: Option<seq<string>>, availableAgents: Option<set<string>>)
    requires NormalizeAgentName(requested) in {"", "auto"}
    ensures var r := ResolveAgent(requested, projectDefault, settingsDefault, enabledAgents, availableAgents);
            var enabled := Enabled(enabledAgents);
            && enabled != [] && r.Ok?
            && var candidates := [NormalizeAgentName(projectDefault), NormalizeAgentName(settingsDefault), enabled[0]];
               var usable := set a | a in enabled;
               var both := set a | a in enabled && a in Installed(availableAgents);
               IsFirst(r.value, candidates,
                       if exists a | a in candidates :: a in both then both else usable)
  {
    EnabledIsSupported(enabledAgents);
    var enabled := Enabled(enabledAgents);
    var preferred := Preferred(projectDefault, settingsDefault, enabled);
    FirstInPicks(preferred, enabled, None);
    FirstInPicks(preferred, enabled, Some(Installed(availableAgents)));
    assert preferred[2] in preferred && preferred[2] in enabled;
    hide NormalizeAgentName, Enabled, FirstIn, IsFirst;
  }

  lemma FirstInPicks(candidates: seq<string>, allowed: seq<string>, installed: Option<set<string>>)
    ensures var good := set a | a in allowed && (installed.None? || a in installed.value);
            var pick := FirstIn(candidates, allowed, installed);
            if exists a | a in candidates :: a in good then pick.Some? && IsFirst(pick.value, candidates, good)
            else pick == None
  {
    FirstInIsFirst(candidates, allowed, installed);
    hide FirstIn;
    var good := set a | a in allowed && (installed.None? || a in installed.value);
    assert forall a :: a in good <==> Qualifies(a, allowed, installed);
    if a :| a in candidates && a in good {
      var k :| 0 <= k < |candidates| && candidates[k] == a;
      assert Qualifies(candidates[k], allowed, installed);
    }
  }

  lemma {:induction false} OnlySupportedAre(names: seq<string>)
    ensures forall a :: a in OnlySupported(names) <==> a in names && a in SUPPORTED_AGENTS
    ensures OnlySupported(names) != [] ==> IsFirst(OnlySupported(names)[0], names, set a | a in SUPPORTED_AGENTS)
  {
    if names != [] {
      var rest := names[1..];
      OnlySupportedAre(rest);
      assert names == [names[0]] + rest;
      hide SUPPORTED_AGENTS;
      var good := set a | a in SUPPORTED_AGENTS;
      if names[0] in SUPPORTED_AGENTS {
        assert IsFirst(names[0], names, good);
      } else if OnlySupported(names) != [] {
        var a := OnlySupported(rest)[0];
        var i :| 0 <= i < |rest| && rest[i] == a && a in good && forall j | 0 <= j < i :: rest[j] !in good;
        forall j | 0 <= j < i + 1 ensures names[j] !in good {
          assert j == 0 || names[j] == rest[j - 1];
        }
        assert names[i + 1] == a;
      }
    }
  }

  /** The enabled agents are the listed ones that are supported, the first of them
      first, or all three when none is. */
  lemma EnabledAgentsAre(enabledAgents: Option<seq<string>>)
    ensures var listed := if enabledAgents.Some? then enabledAgents.value else [];
            var supported, enabled := {"antigravity", "claude", "codex"}, Enabled(enabledAgents);
            if exists a | a in listed :: a in supported then
              && enabled != [] && IsFirst(enabled[0], listed, supported)
              && forall a :: a in enabled <==> a in listed && a in supported
            else enabled == ["antigravity", "claude", "codex"]
  {
    var listed := if enabledAgents.Some? then enabledAgents.value else [];
    var supported := {"antigravity", "claude", "codex"};
    var kept := OnlySupported(listed);
    OnlySupportedAre(listed);
    assert kept != [] ==> kept[0] in kept;
    assert (set a | a in SUPPORTED_AGENTS) == supported;
    assert forall a :: a in SUPPORTED_AGENTS <==> a in supported;
    hide OnlySupported, IsFirst;
    if a :| a in listed && a in supported {
      assert a in OnlySupported(listed);
    } else {
      assert forall a :: a !in kept;
    }
  }

  /** Other names an agent goes by. */
  const ALIASES: map<string, string> :=
    map["agy" := "antigravity", "antigravity-cli" := "antigravity", "antigratity" := "antigravity",
        "claude-code" := "claude", "claude-code-cli" := "claude"]

  predicate SpelledFrom(c: char, d: char) {
    c == d || ('A' <= c <= 'Z' && (c as int) + 32 == (d as int)) || (c == '_' && d == '-')
  }

  /** `s` is the name in any case, with underscores for dashes at will. */
  predicate SpelledAs(s: string, name: string) {
    && |s| == |name|
    && forall i | 0 <= i < |s| :: SpelledFrom(s[i], name[i])
  }

  /** A name is taken for what it stands for, however it is cased, dashed and padded. */
  lemma NamesAreAliased(before: string, s: string, behind: string, name: string)
    requires All(before, PySpace) && All(behind, PySpace)
    requires Clean(name) && SpelledAs(s, name)
    ensures NormalizeAgentName(before + s + behind) == if name in ALIASES then ALIASES[name] else name
  {
    var text := before + s + behind;
    assert NormalizeAgentName(text) == Alias(Dashed(Lower(Trim(text, PySpace))));
    hide *;
    SpelledIsTrimmed(s, name);
    TrimOfPadded(before, s, behind, PySpace);
    SpelledLowers(s, name);
    AliasIsTable(name);
  }

  lemma AliasIsTable(name: string)
    ensures Alias(name) == if name in ALIASES then ALIASES[name] else name
  {
  }

  lemma SpelledIsTrimmed(s: string, name: string)
    requires Clean(name) && SpelledAs(s, name)
    ensures Trimmed(s, PySpace)
  {
    if s != "" {
      assert SpelledFrom(s[0], name[0]) && SpelledFrom(s[|s| - 1], name[|s| - 1]);
    }
  }

  lemma SpelledLowers(s: string, name: string)
    requires Clean(name) && SpelledAs(s, name)
    ensures Dashed(Lower(s)) == name
  {
    forall i | 0 <= i < |s| ensures DashChar(LowerChar(s[i])) == name[i] {
      assert SpelledFrom(s[i], name[i]) && DashChar(LowerChar(name[i])) == name[i];
    }
  }

  /** An explicit pick is accepted exactly when the agent is supported, enabled,
      and not known to be missing; a wholly empty sweep counts as unknown. */
  lemma ExplicitPickDecided(
    requested: string, projectDefault: string, settingsDefault: string,
    enabledAgents: Option<seq<string>>, availableAgents: Option<set<string>>)
    requires NormalizeAgentName(requested) !in {"", "auto"}
    ensures var r := ResolveAgent(requested, projectDefault, settingsDefault, enabledAgents, availableAgents);
            var name := NormalizeAgentName(requested);
            && (r.Ok? ==> r.value == name)
            && (r.Ok? <==>
                && name in Enabled(enabledAgents)
                && (availableAgents.None? || availableAgents.value == {} || name in Installed(availableAgents)))
            && (r.Err? && r.error.Unavailable? ==> name in Enabled(enabledAgents))
  {
    EnabledIsSupported(enabledAgents);
    if availableAgents.Some? && availableAgents.value != {} {
      var a :| a in availableAgents.value;
      assert NormalizeAgentName(a) in Installed(availableAgents);
    }
  }

  /** The automatic pick looks at three agents only: with `codex` preferred
      everywhere and only `claude` installed it still picks an agent that is not
      installed, although `claude` is both enabled and installed. */
  lemma AutoCanPickAnUninstalledAgent()
    ensures var enabled := Some(["codex", "claude"]);
            var available := Some({"claude"});
            var r := ResolveAgent("auto", "", "codex", enabled, available);
            && r.Ok? && r.value !in Installed(available)
            && "claude" in Enabled(enabled) && "claude" in Installed(available)
  {
    var enabled, available := Some(["codex", "claude"]), Some({"claude"});
    PlainNames();
    hide NormalizeAgentName, Enabled, Installed, ResolveAgent, Preferred, FirstIn, Checked, OnlySupported, Alias;
    AutoAlwaysResolves("auto", "", "codex", enabled, available);
    ExampleFacts();
  }

  lemma ExampleFacts()
    ensures Enabled(Some(["codex", "claude"])) == ["codex", "claude"]
    ensures Installed(Some({"claude"})) == {"claude"}
    ensures Preferred("", "codex", ["codex", "claude"]) == ["", "codex", "codex"]
  {
    PlainNames();
    EnabledPair();
    assert "claude" in {"claude"};
    hide NormalizeAgentName, Enabled;
  }

  lemma EnabledPair()
    ensures Enabled(Some(["codex", "claude"])) == ["codex", "claude"]
  {
    var listed := ["codex", "claude"];
    assert listed[1..] == ["claude"];
    assert OnlySupported(["claude"]) == ["claude"];
  }

  lemma PlainNames()
    ensures NormalizeAgentName("auto") == "auto"
    ensures NormalizeAgentName("codex") == "codex"
    ensures NormalizeAgentName("claude") == "claude"
    ensures NormalizeAgentName("") == ""
  {
    AutoAndNothingAreClean();
    CodexAndClaudeAreClean();
    hide Clean, NormalizeAgentName;
    CleanIsFixed("auto");
    CleanIsFixed("codex");
    CleanIsFixed("claude");
    CleanIsFixed("");
  }

  lemma AutoAndNothingAreClean()
    ensures Clean("auto") && Clean("")
  {
  }

  lemma CodexAndClaudeAreClean()
    ensures Clean("codex") && Clean("claude")
  {
  }

  /** Names that only aliasing could still change. */
  predicate Clean(name: string) {
    && Trimmed(name, PySpace)
    && forall i | 0 <= i < |name| :: DashChar(LowerChar(name[i])) == name[i]
  }

  lemma CleanIsFixed(name: string)
    requires Clean(name)
    ensures NormalizeAgentName(name) == Alias(name)
  {
    TrimmedIffFixed(name, PySpace);
    assert Dashed(Lower(name)) == name;
    hide Trim, Dashed, Lower, Alias;
  }

  lemma NormalizingCleans(value: string)
    ensures Clean(Dashed(Lower(Trim(value, PySpace))))
  {
    var t := Trim(value, PySpace);
    var _, _ := TrimCuts(value, PySpace);
    hide Trim;
    var s := Dashed(Lower(t));
    forall i | 0 <= i < |s| ensures DashChar(LowerChar(s[i])) == s[i] {
      assert s[i] == DashChar(LowerChar(t[i]));
    }
  }

  lemma TargetsAreClean()
    ensures Clean("antigravity") && Clean("claude")
  {
    assert Clean("antigravity");
    assert Clean("claude");
  }

  lemma AliasesAreClean(name: string)
    requires Clean(name)
    ensures Clean(Alias(name)) && Alias(Alias(name)) == Alias(name)
  {
    TargetsAreClean();
    hide Clean;
  }

  /** Normalising a name twice is normalising it once. */
  lemma NormalizeAgentNameIdempotent(value: string)
    ensures NormalizeAgentName(NormalizeAgentName(value)) == NormalizeAgentName(value)
  {
    NormalizingCleans(value);
    var s := Dashed(Lower(Trim(value, PySpace)));
    assert NormalizeAgentName(value) == Alias(s);
    hide NormalizeAgentName, Clean;
    AliasesAreClean(s);
    CleanIsFixed(Alias(s));
    hide Alias;
  }
}
