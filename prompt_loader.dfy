/**
 The prompt-loader units: a template with `[key]` placeholders is filled in
 from the keyword arguments, one key after the other, each key replacing
 every occurrence of its placeholder by Python's `str.replace`. Reading the
 template files is not modelled: the loaded text is a parameter.
 */
module PromptLoader {
  import opened Types
  import opened Text

  /** The constant schema of both prompt loaders: no required parameters
      and four optional strings, each defaulting to "". */
  function InputTypes(): (r: Schema)
    ensures r.required == Some(map[])
    ensures r.optional.Some?
    ensures r.optional.value.Keys == {"task", "model", "positive_prompt", "negative_prompt"}
    ensures forall k :: k in r.optional.value ==>
      && r.optional.value[k].kind == Named("STRING")
      && HasDefault(r.optional.value, k)
      && r.optional.value[k].options.value["default"] == Str("")
  {
    Schema(
      Some(map[]),
      Some(map[
        "task" := Param(Named("STRING"), Some(map[
          "multiline" := Bool(true), "default" := Str(""),
          "tooltip" := Str("Define the task to be performed by the specialist.")])),
        "model" := Param(Named("STRING"), Some(map[
          "multiline" := Bool(false), "default" := Str(""),
          "tooltip" := Str("Define the model to be used by the specialist.")])),
        "positive_prompt" := Param(Named("STRING"), Some(map[
          "multiline" := Bool(true), "default" := Str(""),
          "tooltip" := Str("Define the positive guidelines for the specialist."),
          "title" := Str("Positive Prompt")])),
        "negative_prompt" := Param(Named("STRING"), Some(map[
          "multiline" := Bool(true), "default" := Str(""),
          "tooltip" := Str("Define the negative guidelines for the specialist.")]))]))
  }

  const ReturnNames: seq<string> := ["system", "prompt"]

  /** The two loader classes as units of the executor. */
  function SystemPromptLoaderUnit(): UnitClass
  {
    UnitClass("SystemPromptLoader", InputTypes(), Some(ReturnNames))
  }

  function ActionPromptLoaderUnit(): UnitClass
  {
    UnitClass("ActionPromptLoader", InputTypes(), Some(ReturnNames))
  }

  // ---------------------------------------------------------------------
  // str.replace

  /** `s.replace(pat, rep)`: scanning left to right, each occurrence of pat
      is replaced and the scan resumes after it. */
  function ReplaceAll(s: string, pat: string, rep: string): string
    requires |pat| > 0
    decreases |s|
  {
    if |s| < |pat| then s
    else if s[..|pat|] == pat then rep + ReplaceAll(s[|pat|..], pat, rep)
    else [s[0]] + ReplaceAll(s[1..], pat, rep)
  }

  /** Text without the pattern is left as it is. */
  lemma {:induction false} ReplaceAbsent(s: string, pat: string, rep: string)
    requires |pat| > 0
    requires !Occurs(pat, s)
    ensures ReplaceAll(s, pat, rep) == s
    decreases |s|
  {
    if |s| >= |pat| {
      assert !MatchAt(pat, s, 0);
      assert s[0..|pat|] == s[..|pat|];
      assert !Occurs(pat, s[1..]) by {
        forall i | MatchAt(pat, s[1..], i) ensures false {
          TailMatch(pat, s, i);
        }
      }
      ReplaceAbsent(s[1..], pat, rep);
    }
  }

  /** Every '[' of s opens an occurrence of pat. */
  ghost predicate BracketsOpen(s: string, pat: string)
  {
    forall i :: 0 <= i < |s| && s[i] == '[' ==> i + |pat| <= |s| && s[i..i + |pat|] == pat
  }

  /** When every '[' of the text opens an occurrence of the pattern, the scan
      consumes all of them, so with a replacement free of '[' none is left. */
  lemma {:induction false} ReplaceClearsBrackets(s: string, pat: string, rep: string)
    requires |pat| > 0 && pat[0] == '['
    requires BracketsOpen(s, pat)
    requires '[' !in rep
    ensures '[' !in ReplaceAll(s, pat, rep)
    decreases |s|
  {
    if |s| >= |pat| {
      if s[..|pat|] == pat {
        var t := s[|pat|..];
        forall i | 0 <= i < |t| && t[i] == '[' ensures i + |pat| <= |t| && t[i..i + |pat|] == pat {
          assert s[|pat| + i] == '[';
          assert s[|pat| + i..|pat| + i + |pat|] == t[i..i + |pat|];
        }
        ReplaceClearsBrackets(t, pat, rep);
      } else {
        assert s[0] != '[' by { assert s[0..|pat|] == s[..|pat|]; }
        var t := s[1..];
        forall i | 0 <= i < |t| && t[i] == '[' ensures i + |pat| <= |t| && t[i..i + |pat|] == pat {
          assert s[1 + i] == '[';
          assert s[1 + i..1 + i + |pat|] == t[i..i + |pat|];
        }
        ReplaceClearsBrackets(t, pat, rep);
      }
    } else {
      assert forall i :: 0 <= i < |s| ==> s[i] != '[';
    }
  }

  // ---------------------------------------------------------------------
  // replace_prompt

  function Placeholder(key: string): (p: string)
    ensures |p| == |key| + 2 && p[0] == '['
  {
    "[" + key + "]"
  }

  /** `replace_prompt`: for each argument in order, a truthy value replaces
      its placeholder everywhere; a falsy one erases it. `str.replace` only
      takes a string, so a truthy value that is not one raises. */
  function Substitute(text: string, args: seq<(string, Value)>): Result<string>
    decreases |args|
  {
    if args == [] then Ok(text)
    else
      var key := args[0].0;
      var value := args[0].1;
      if !Truthy(value) then Substitute(ReplaceAll(text, Placeholder(key), ""), args[1..])
      else if value.Str? then Substitute(ReplaceAll(text, Placeholder(key), value.s), args[1..])
      else Err(NotAString(key))
  }

  /** The loop of `replace_prompt`, reassigning the prompt. */
  method ReplacePrompt(prompt: string, args: seq<(string, Value)>) returns (r: Result<string>)
    ensures r == Substitute(prompt, args)
  {
    var current := prompt;
    for i := 0 to |args|
      invariant Substitute(prompt, args) == Substitute(current, args[i..])
    {
      assert args[i..][1..] == args[i + 1..];
      var key := args[i].0;
      var value := args[i].1;
      if Truthy(value) {
        if !value.Str? {
          return Err(NotAString(key));
        }
        current := ReplaceAll(current, Placeholder(key), value.s);
      } else {
        current := ReplaceAll(current, Placeholder(key), "");
      }
    }
    return Ok(current);
  }

  /** The argument at which substitution fails: the first truthy non-string. */
  ghost predicate BadArgAt(args: seq<(string, Value)>, i: int)
  {
    0 <= i < |args| && Truthy(args[i].1) && !args[i].1.Str? &&
    forall j :: 0 <= j < i ==> !Truthy(args[j].1) || args[j].1.Str?
  }

  /** Substitution fails exactly when some value is a truthy non-string,
      naming the first such key, whatever the text. */
  lemma {:induction false} SubstituteFailsIff(text: string, args: seq<(string, Value)>)
    ensures Substitute(text, args).Err? <==> exists i :: 0 <= i < |args| && Truthy(args[i].1) && !args[i].1.Str?
    ensures Substitute(text, args).Err? ==>
      exists i :: BadArgAt(args, i) && Substitute(text, args).error == NotAString(args[i].0)
    decreases |args|
  {
    if args != [] {
      var value := args[0].1;
      var next := if !Truthy(value) then ReplaceAll(text, Placeholder(args[0].0), "")
                  else if value.Str? then ReplaceAll(text, Placeholder(args[0].0), value.s) else text;
      if !Truthy(value) || value.Str? {
        SubstituteFailsIff(next, args[1..]);
        assert forall i :: 0 <= i < |args| - 1 ==> args[1..][i] == args[i + 1];
        if Substitute(text, args).Err? {
          var i :| BadArgAt(args[1..], i) && Substitute(next, args[1..]).error == NotAString(args[1..][i].0);
          assert BadArgAt(args, i + 1);
        }
      } else {
        assert BadArgAt(args, 0);
      }
    }
  }

  /** Text with none of the placeholders comes back unchanged. */
  lemma {:induction false} NoPlaceholderUnchanged(text: string, args: seq<(string, Value)>)
    requires forall i :: 0 <= i < |args| ==> !Occurs(Placeholder(args[i].0), text)
    ensures Substitute(text, args).Ok? ==> Substitute(text, args).value == text
    decreases |args|
  {
    if args != [] {
      ReplaceAbsent(text, Placeholder(args[0].0), "");
      if args[0].1.Str? {
        ReplaceAbsent(text, Placeholder(args[0].0), args[0].1.s);
      }
      assert forall i :: 0 <= i < |args| - 1 ==> args[1..][i] == args[i + 1];
      NoPlaceholderUnchanged(text, args[1..]);
    }
  }

  /** Substitution of string arguments, ignoring truthiness. */
  function SubstituteStrings(text: string, args: seq<(string, string)>): string
    decreases |args|
  {
    if args == [] then text
    else SubstituteStrings(ReplaceAll(text, Placeholder(args[0].0), args[0].1), args[1..])
  }

  /** For string arguments the two branches coincide: an empty string is
      replaced by "" either way. */
  lemma {:induction false} StringBranchesCoincide(text: string, args: seq<(string, string)>)
    ensures Substitute(text, seq(|args|, i requires 0 <= i < |args| => (args[i].0, Str(args[i].1))))
         == Ok(SubstituteStrings(text, args))
    decreases |args|
  {
    var wrapped := seq(|args|, i requires 0 <= i < |args| => (args[i].0, Str(args[i].1)));
    if args != [] {
      StringBranchesCoincide(ReplaceAll(text, Placeholder(args[0].0), args[0].1), args[1..]);
      assert wrapped[1..] == seq(|args| - 1, i requires 0 <= i < |args| - 1 => (args[1..][i].0, Str(args[1..][i].1)));
    }
  }

  /** A single replacement does not always leave the text free of its
      placeholder: erasing "[task]" from "[[task]task]" joins the
      remaining text into "[task]". */
  lemma ErasedPlaceholderCanReappear()
    ensures Substitute("[[task]task]", [("task", Str(""))]) == Ok("[task]")
    ensures Occurs(Placeholder("task"), "[task]")
  {
    var pat := Placeholder("task");
    assert pat == "[task]";
    var s := "[[task]task]";
    assert s[..6] == "[[task" != pat;
    assert s[1..] == "[task]task]";
    assert s[1..][..6] == pat;
    assert s[1..][6..] == "task]";
    assert ReplaceAll("task]", pat, "") == "task]";
    assert ReplaceAll(s[1..], pat, "") == "task]";
    assert ReplaceAll(s, pat, "") == "[task]";
    assert [("task", Str(""))][1..] == [];
    assert MatchAt(pat, "[task]", 0);
  }

  /** It does when every '[' of the text opens that placeholder and the
      value brings no '[': then no '[' at all is left. */
  lemma SinglePlaceholderCleared(text: string, key: string, value: Value)
    requires BracketsOpen(text, Placeholder(key))
    requires !Truthy(value) || (value.Str? && '[' !in value.s)
    ensures Substitute(text, [(key, value)]).Ok?
    ensures '[' !in Substitute(text, [(key, value)]).value
    ensures !Occurs(Placeholder(key), Substitute(text, [(key, value)]).value)
  {
    var rep := if !Truthy(value) then "" else value.s;
    ReplaceClearsBrackets(text, Placeholder(key), rep);
    var r := ReplaceAll(text, Placeholder(key), rep);
    assert [(key, value)][1..] == [];
    assert Substitute(text, [(key, value)]) == Ok(r);
  }

  // ---------------------------------------------------------------------
  // The loader object

  class PromptLoader {
    var path: string
    var prompt: string
    var system: string

    constructor (path: string)
      ensures this.path == path && prompt == "" && system == ""
    {
      this.path := path;
      prompt := "";
      system := "";
    }

    /** `run`, given the loaded "prompt" and "context" templates (the empty
        string when a file is missing): substitutes both with the same
        arguments and returns (system, prompt), the order of RETURN_NAMES.
        The fields hold the values computed before a failure. */
    method Run(promptTemplate: string, contextTemplate: string, args: seq<(string, Value)>)
      returns (r: Result<(string, string)>)
      modifies this
      ensures path == old(path)
      ensures Substitute(promptTemplate, args).Err? ==>
        && r == Err(Substitute(promptTemplate, args).error)
        && prompt == promptTemplate && system == contextTemplate
      ensures Substitute(promptTemplate, args).Ok? ==>
        && Substitute(contextTemplate, args).Ok?
        && prompt == Substitute(promptTemplate, args).value
        && system == Substitute(contextTemplate, args).value
        && r == Ok((system, prompt))
    {
      prompt := promptTemplate;
      system := contextTemplate;
      var substituted := ReplacePrompt(prompt, args);
      if substituted.Err? {
        return Err(substituted.error);
      }
      prompt := substituted.value;
      SubstituteFailsIff(promptTemplate, args);
      SubstituteFailsIff(contextTemplate, args);
      substituted := ReplacePrompt(system, args);
      system := substituted.value;
      return Ok((system, prompt));
    }
  }
}
