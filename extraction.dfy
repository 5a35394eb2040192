/**
 * The key-path search of `SystemTemplateHook._extract_system_template`: four
 * fixed paths tried in order, each lookup failure a miss for that path only,
 * and the first path ending at a string with non-whitespace content winning.
 */
module Extraction {
  import opened Wrappers
  import opened PyText
  import opened Config

  /** The candidate key-paths, in precedence order. */
  const SystemTemplatePaths: seq<seq<string>> := [
    ["agent", "templates", "system_template"],
    ["templates", "system_template"],
    ["system_template"],
    ["agent", "system_template"]
  ]

  /**
   * What one path contributes: the stripped string it ends at, or `None` when
   * the lookup raises or ends at a non-string or a whitespace-only string.
   */
  function Candidate(config: Value, path: seq<string>): (r: Option<string>)
    ensures r.None? <==>
      Lookup(config, path).None? || !Lookup(config, path).value.Str? || AllSpace(Lookup(config, path).value.text)
    ensures r.Some? ==> IsStripped(r.value)
  {
    match Lookup(config, path)
    case Some(Str(s)) => if Strip(s) != "" then Some(Strip(s)) else None
    case _ => None
  }

  /** A hit is the string the lookup reached, stripped. */
  lemma CandidateValue(config: Value, path: seq<string>)
    requires Candidate(config, path).Some?
    ensures Lookup(config, path).Some? && Lookup(config, path).value.Str?
    ensures Candidate(config, path).value == Strip(Lookup(config, path).value.text)
  {
  }

  /**
   * The first candidate along `paths`, or "" when every path misses. The
   * result is "" or a non-empty string with no whitespace at either end.
   */
  function FirstMatch(config: Value, paths: seq<seq<string>>): (r: string)
    ensures r == "" || IsStripped(r)
    decreases |paths|
  {
    if paths == [] then ""
    else match Candidate(config, paths[0])
      case Some(t) => t
      case None => FirstMatch(config, paths[1..])
  }

  /** The search comes back empty exactly when every path misses. */
  lemma {:induction false} FirstMatchEmptyIff(config: Value, paths: seq<seq<string>>)
    ensures FirstMatch(config, paths) == "" <==> forall i :: 0 <= i < |paths| ==> Candidate(config, paths[i]).None?
    decreases |paths|
  {
    if paths != [] {
      FirstMatchEmptyIff(config, paths[1..]);
      forall i | 1 <= i < |paths| ensures paths[i] == paths[1..][i - 1] {}
    }
  }

  /** The template `_extract_system_template` returns for a parsed document. */
  function ExtractedTemplate(config: Value): string {
    FirstMatch(config, SystemTemplatePaths)
  }

  /**
   * `_extract_system_template` as written: the outer loop over the paths, the
   * inner loop reassigning `current` key by key, and the early return.
   */
  method ExtractSystemTemplate(config: Value) returns (r: string)
    ensures r == ExtractedTemplate(config)
  {
    var paths := SystemTemplatePaths;
    var i := 0;
    while i < |paths|
      invariant 0 <= i <= |paths|
      invariant FirstMatch(config, paths) == FirstMatch(config, paths[i..])
    {
      var path := paths[i];
      var current := config;
      var raised := false;
      var j := 0;
      while j < |path| && !raised
        decreases |path| - j, !raised
        invariant 0 <= j <= |path|
        invariant raised ==> Lookup(config, path).None?
        invariant !raised ==> Lookup(config, path) == Lookup(current, path[j..])
      {
        if StepFails(current, path[j]) {
          raised := true;
        } else {
          current := current.entries[path[j]];
          j := j + 1;
        }
      }
      if !raised {
        assert Lookup(config, path) == Some(current);
        if current.Str? && Strip(current.text) != "" {
          return Strip(current.text);
        }
      }
      assert Candidate(config, paths[i]).None?;
      assert paths[i..][1..] == paths[i + 1..];
      i := i + 1;
    }
    return "";
  }

  /** A path with a candidate, preceded only by misses, decides the result. */
  lemma {:induction false} FirstMatchWins(config: Value, paths: seq<seq<string>>, i: nat, t: string)
    requires i < |paths| && Candidate(config, paths[i]) == Some(t)
    requires forall j :: 0 <= j < i ==> Candidate(config, paths[j]).None?
    ensures FirstMatch(config, paths) == t
    decreases i
  {
    if i > 0 {
      assert paths[1..][i - 1] == paths[i];
      forall j | 0 <= j < i - 1 ensures Candidate(config, paths[1..][j]).None? {
        assert paths[1..][j] == paths[j + 1];
      }
      FirstMatchWins(config, paths[1..], i - 1, t);
    }
  }

  /** A non-empty result comes from some path, and every earlier path missed. */
  lemma {:induction false} FirstMatchIndex(config: Value, paths: seq<seq<string>>) returns (i: nat)
    requires FirstMatch(config, paths) != ""
    ensures i < |paths| && Candidate(config, paths[i]) == Some(FirstMatch(config, paths))
    ensures forall j :: 0 <= j < i ==> Candidate(config, paths[j]).None?
    decreases |paths|
  {
    if Candidate(config, paths[0]).Some? {
      i := 0;
    } else {
      var k := FirstMatchIndex(config, paths[1..]);
      i := k + 1;
      forall j | 0 <= j < i ensures Candidate(config, paths[j]).None? {
        if j > 0 { assert paths[j] == paths[1..][j - 1]; }
      }
    }
  }

  /** Leading misses can be dropped: the search simply moves on. */
  lemma {:induction false} MissesSkipped(config: Value, paths: seq<seq<string>>, i: nat)
    requires i <= |paths|
    requires forall j :: 0 <= j < i ==> Candidate(config, paths[j]).None?
    ensures FirstMatch(config, paths) == FirstMatch(config, paths[i..])
    decreases i
  {
    if i > 0 {
      forall j | 0 <= j < i - 1 ensures Candidate(config, paths[1..][j]).None? {
        assert paths[1..][j] == paths[j + 1];
      }
      MissesSkipped(config, paths[1..], i - 1);
      assert paths[1..][i - 1..] == paths[i..];
    }
  }

  /** Once path `i` yields a candidate, the paths after it do not matter. */
  lemma {:induction false} LaterPathsIgnored(config: Value, paths: seq<seq<string>>, i: nat, rest: seq<seq<string>>)
    requires i < |paths| && Candidate(config, paths[i]).Some?
    ensures FirstMatch(config, paths) == FirstMatch(config, paths[..i + 1] + rest)
    decreases i
  {
    if i > 0 {
      if Candidate(config, paths[0]).None? {
        assert (paths[..i + 1] + rest)[1..] == paths[1..][..i] + rest;
        LaterPathsIgnored(config, paths[1..], i - 1, rest);
      }
    }
  }

  /** Two documents on which every path yields the same candidate extract the same result. */
  lemma {:induction false} FirstMatchCongruent(c1: Value, c2: Value, paths: seq<seq<string>>)
    requires forall i :: 0 <= i < |paths| ==> Candidate(c1, paths[i]) == Candidate(c2, paths[i])
    ensures FirstMatch(c1, paths) == FirstMatch(c2, paths)
    decreases |paths|
  {
    if paths != [] {
      forall i | 0 <= i < |paths| - 1 ensures Candidate(c1, paths[1..][i]) == Candidate(c2, paths[1..][i]) {
        assert paths[1..][i] == paths[i + 1];
      }
      FirstMatchCongruent(c1, c2, paths[1..]);
    }
  }

  /** A document that is not a mapping (null, a string, a list, a scalar) yields "". */
  lemma NonMappingYieldsNothing(config: Value)
    requires !config.Map?
    ensures ExtractedTemplate(config) == ""
  {
  }

  /** Top-level keys outside the three the paths start with are ignored. */
  lemma OtherKeysIgnored(m: map<string, Value>, k: string, x: Value)
    requires k != "agent" && k != "templates" && k != "system_template"
    ensures ExtractedTemplate(Map(m[k := x])) == ExtractedTemplate(Map(m))
  {
    forall i | 0 <= i < |SystemTemplatePaths|
      ensures Candidate(Map(m[k := x]), SystemTemplatePaths[i]) == Candidate(Map(m), SystemTemplatePaths[i])
    {
      LookupOtherKey(m, k, x, SystemTemplatePaths[i]);
    }
    FirstMatchCongruent(Map(m[k := x]), Map(m), SystemTemplatePaths);
  }

  /**
   * A document carrying `s` at any one recognised path, and nothing else,
   * extracts `s` stripped, whenever `s` has non-whitespace content.
   */
  lemma EmbedRoundTrip(i: nat, s: string)
    requires i < |SystemTemplatePaths| && Strip(s) != ""
    ensures ExtractedTemplate(Nest(SystemTemplatePaths[i], Str(s))) == Strip(s)
  {
    var doc := Nest(SystemTemplatePaths[i], Str(s));
    LookupNest(SystemTemplatePaths[i], Str(s));
    forall j | 0 <= j < i ensures Candidate(doc, SystemTemplatePaths[j]).None? {
      EarlierPathMisses(i, j, s);
    }
    FirstMatchWins(doc, SystemTemplatePaths, i, Strip(s));
  }

  /** In a document built along recognised path `i`, no earlier recognised path leads anywhere. */
  lemma EarlierPathMisses(i: nat, j: nat, s: string)
    requires j < i < |SystemTemplatePaths|
    ensures Lookup(Nest(SystemTemplatePaths[i], Str(s)), SystemTemplatePaths[j]).None?
  {
  }

  /** A document holding only the extracted template, at any recognised path, extracts it again unchanged. */
  lemma ReExtractStable(config: Value, i: nat)
    requires i < |SystemTemplatePaths| && ExtractedTemplate(config) != ""
    ensures ExtractedTemplate(Nest(SystemTemplatePaths[i], Str(ExtractedTemplate(config)))) == ExtractedTemplate(config)
  {
    EmbedRoundTrip(i, ExtractedTemplate(config));
  }

  /** The result is "" or a non-empty string equal to its own strip. */
  lemma ResultShape(config: Value)
    ensures var r := ExtractedTemplate(config); r == "" || (r != "" && Strip(r) == r)
  {
  }

  /** A file holding `templates: {system_template: "You are a careful reviewer."}`. */
  lemma ExampleTemplatesLayout()
    ensures ExtractedTemplate(Map(map["templates" := Map(map["system_template" := Str("You are a careful reviewer.")])]))
      == "You are a careful reviewer."
  {
    var t := "You are a careful reviewer.";
    assert IsStripped(t);
    StrippedIffFixed(t);
    EmbedRoundTrip(1, t);
    assert Nest(SystemTemplatePaths[1], Str(t)) == Map(map["templates" := Map(map["system_template" := Str(t)])]);
  }

  /**
   * A file holding both `agent: {templates: {system_template: a}}` and a
   * top-level `system_template: b` extracts `a` trimmed, whatever `b` is.
   */
  lemma NestedLayoutBeatsFlat(a: string, b: Value)
    requires Strip(a) != ""
    ensures ExtractedTemplate(BothLayouts(a, b)) == Strip(a)
  {
    BothLayoutsLookup(a, b);
    FirstPathDecides(BothLayouts(a, b), a);
  }

  /** The document with `a` under `agent.templates.system_template` and `b` under `system_template`. */
  function BothLayouts(a: string, b: Value): Value {
    Map(map["system_template" := b, "agent" := Map(map["templates" := Map(map["system_template" := Str(a)])])])
  }

  /** The first recognised path reaches `a` in `BothLayouts(a, b)`. */
  lemma BothLayoutsLookup(a: string, b: Value)
    ensures Lookup(BothLayouts(a, b), SystemTemplatePaths[0]) == Some(Str(a))
  {
    var inner := Map(map["system_template" := Str(a)]);
    var middle := Map(map["templates" := inner]);
    var path := SystemTemplatePaths[0];
    assert path == ["agent", "templates", "system_template"];
    assert Lookup(inner, path[2..]) == Some(Str(a));
    assert Lookup(middle, path[1..]) == Lookup(inner, path[2..]) by { assert path[1..][1..] == path[2..]; }
  }

  /** A usable string at `agent.templates.system_template` is the result, whatever else the document holds. */
  lemma FirstPathDecides(config: Value, a: string)
    requires Lookup(config, SystemTemplatePaths[0]) == Some(Str(a)) && Strip(a) != ""
    ensures ExtractedTemplate(config) == Strip(a)
  {
    PathDecides(config, 0, a);
  }

  /**
   * A usable string at recognised path `i`, when every earlier recognised path
   * misses, is the result, trimmed, whatever the rest of the document holds.
   */
  lemma PathDecides(config: Value, i: nat, a: string)
    requires i < |SystemTemplatePaths| && Lookup(config, SystemTemplatePaths[i]) == Some(Str(a)) && Strip(a) != ""
    requires forall j :: 0 <= j < i ==> Candidate(config, SystemTemplatePaths[j]).None?
    ensures ExtractedTemplate(config) == Strip(a)
  {
    assert Candidate(config, SystemTemplatePaths[i]) == Some(Strip(a));
    FirstMatchWins(config, SystemTemplatePaths, i, Strip(a));
  }
}
