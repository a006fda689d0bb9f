/**
 The response-cleaning unit: blocks of model "thinking" enclosed in
 <think>…</think>, then in <thinking>…</thinking>, are removed the way a
 lazy regular-expression substitution does it, and the rest is stripped of
 surrounding whitespace.
 */
module CleanResponse {
  import opened Types
  import opened Text

  /** The unit as the executor sees it: one required string and one output. */
  function CleanResponseUnit(): UnitClass
  {
    UnitClass(
      "CleanResponse",
      Schema(Some(map["model_response" := Param(Named("STRING"), Some(map[
        "multiline" := Bool(true), "default" := Str(""),
        "tooltip" := Str("The response to be cleaned.")]))]), None),
      Some(["cleaned_response"]))
  }

  const Think := "<think>"
  const ThinkEnd := "</think>"
  const Thinking := "<thinking>"
  const ThinkingEnd := "</thinking>"

  // ---------------------------------------------------------------------
  // Lazy span removal

  /** The first index at or after i where pat starts, or -1. */
  function FindFrom(s: string, pat: string, i: nat): (j: int)
    ensures j == -1 || (i <= j && MatchAt(pat, s, j))
    ensures forall k :: i <= k && (j == -1 || k < j) ==> !MatchAt(pat, s, k)
    decreases |s| - i
  {
    if i + |pat| > |s| then -1
    else if s[i..i + |pat|] == pat then i
    else FindFrom(s, pat, i + 1)
  }

  /** `re.sub(open + ".*?" + close, "", s, flags=re.DOTALL)`: scanning left
      to right, an opening tag followed somewhere by a closing tag is removed
      together with everything up to the first such closing tag; an opening
      tag never closed is kept. */
  function RemoveSpans(s: string, open: string, close: string): (r: string)
    requires |open| > 0
    ensures |r| <= |s|
    decreases |s|
  {
    if s == [] then []
    else if MatchAt(open, s, 0) && FindFrom(s, close, |open|) >= 0 then
      RemoveSpans(s[FindFrom(s, close, |open|) + |close|..], open, close)
    else [s[0]] + RemoveSpans(s[1..], open, close)
  }

  /** Characters Python's `str.strip()` treats as whitespace. */
  predicate IsSpace(c: char)
  {
    c in {' ', '\t', '\n', '\r', '\U{000B}', '\U{000C}', '\U{001C}', '\U{001D}', '\U{001E}',
          '\U{001F}', '\U{0085}', '\U{00A0}', '\U{1680}', '\U{2000}', '\U{2001}', '\U{2002}',
          '\U{2003}', '\U{2004}', '\U{2005}', '\U{2006}', '\U{2007}', '\U{2008}', '\U{2009}',
          '\U{200A}', '\U{2028}', '\U{2029}', '\U{202F}', '\U{205F}', '\U{3000}'}
  }

  /** Leading whitespace removed: the longest suffix not starting with it. */
  function TrimStart(s: string): (r: string)
    ensures |r| <= |s| && r == s[|s| - |r|..]
    ensures forall k :: 0 <= k < |s| - |r| ==> IsSpace(s[k])
    ensures r == [] || !IsSpace(r[0])
    decreases |s|
  {
    if s != [] && IsSpace(s[0]) then TrimStart(s[1..]) else s
  }

  /** Trailing whitespace removed: the longest prefix not ending with it. */
  function TrimEnd(s: string): (r: string)
    ensures |r| <= |s| && r == s[..|r|]
    ensures forall k :: |r| <= k < |s| ==> IsSpace(s[k])
    ensures r == [] || !IsSpace(r[|r| - 1])
    decreases |s|
  {
    if s != [] && IsSpace(s[|s| - 1]) then TrimEnd(s[..|s| - 1]) else s
  }

  /** `str.strip()`: the text between the leading and the trailing
      whitespace. */
  function Strip(s: string): string
  {
    TrimEnd(TrimStart(s))
  }

  /** `clean_response`: both removals, then strip; the unit returns a
      one-element tuple. */
  function Clean(modelResponse: string): string
  {
    Strip(RemoveSpans(RemoveSpans(modelResponse, Think, ThinkEnd), Thinking, ThinkingEnd))
  }

  function CleanOutputs(modelResponse: string): (r: seq<Value>)
    ensures |r| == 1 && r[0].Str?
    ensures r[0].s == [] || (!IsSpace(r[0].s[0]) && !IsSpace(r[0].s[|r[0].s| - 1]))
  {
    [Str(Clean(modelResponse))]
  }

  // ---------------------------------------------------------------------
  // Properties

  /** r is s[i..i + |r|] and everything of s around it is whitespace. */
  ghost predicate StrippedAt(s: string, r: string, i: int)
  {
    && 0 <= i <= |s| - |r|
    && s[i..i + |r|] == r
    && forall k :: 0 <= k < |s| && (k < i || k >= i + |r|) ==> IsSpace(s[k])
  }

  /** Strip takes a slice of its input, drops only whitespace, and leaves no
      whitespace at either end. */
  lemma StripMeaning(s: string)
    ensures exists i :: StrippedAt(s, Strip(s), i)
    ensures Strip(s) == [] || (!IsSpace(Strip(s)[0]) && !IsSpace(Strip(s)[|Strip(s)| - 1]))
  {
    var t := TrimStart(s);
    var i := |s| - |t|;
    var r := Strip(s);
    assert s[i..i + |r|] == t[..|r|];
    forall k | 0 <= k < |s| && (k < i || k >= i + |r|) ensures IsSpace(s[k]) {
      if k >= i + |r| {
        assert s[k] == t[k - i];
      }
    }
    assert StrippedAt(s, r, i);
  }

  /** Strip leaves text without edge whitespace as it is. */
  lemma StripTrimmed(s: string)
    requires s == [] || (!IsSpace(s[0]) && !IsSpace(s[|s| - 1]))
    ensures Strip(s) == s
  {
  }

  /** A prefix inside which the opening tag never starts is copied
      unchanged, and the scan goes on after it. */
  lemma {:induction false} KeepBefore(a: string, b: string, open: string, close: string)
    requires |open| > 0
    requires forall k :: 0 <= k < |a| ==> !MatchAt(open, a + b, k)
    ensures RemoveSpans(a + b, open, close) == a + RemoveSpans(b, open, close)
    decreases |a|
  {
    if a != [] {
      var s := a + b;
      assert s[1..] == a[1..] + b;
      assert !MatchAt(open, s, 0);
      forall k | 0 <= k < |a[1..]| ensures !MatchAt(open, a[1..] + b, k) {
        if MatchAt(open, a[1..] + b, k) {
          TailMatch(open, s, k);
        }
      }
      KeepBefore(a[1..], b, open, close);
      assert a + RemoveSpans(b, open, close) == [a[0]] + (a[1..] + RemoveSpans(b, open, close));
    } else {
      assert a + b == b;
    }
  }

  /** A prefix without the opening tag's first character is copied
      unchanged. */
  lemma KeepPrefix(a: string, b: string, open: string, close: string)
    requires |open| > 0 && open[0] !in a
    ensures RemoveSpans(a + b, open, close) == a + RemoveSpans(b, open, close)
  {
    forall k | 0 <= k < |a| ensures !MatchAt(open, a + b, k) {
      if k + |open| <= |a + b| {
        assert (a + b)[k..k + |open|][0] == a[k] && a[k] in a;
      }
    }
    KeepBefore(a, b, open, close);
  }

  /** Text in which the opening tag does not occur is copied unchanged. */
  lemma {:induction false} NoOpenUnchanged(s: string, open: string, close: string)
    requires |open| > 0 && !Occurs(open, s)
    ensures RemoveSpans(s, open, close) == s
    decreases |s|
  {
    if s != [] {
      assert !MatchAt(open, s, 0);
      assert !Occurs(open, s[1..]) by {
        forall i | MatchAt(open, s[1..], i) ensures false {
          TailMatch(open, s, i);
        }
      }
      NoOpenUnchanged(s[1..], open, close);
    }
  }

  /** Text in which the closing tag never occurs is copied unchanged: an
      unclosed block stays. */
  lemma {:induction false} UnclosedUnchanged(s: string, open: string, close: string)
    requires |open| > 0 && !Occurs(close, s)
    ensures RemoveSpans(s, open, close) == s
    decreases |s|
  {
    if s != [] {
      if |open| <= |s| {
        var j := FindFrom(s, close, |open|);
        assert j >= 0 ==> MatchAt(close, s, j);
      }
      assert !Occurs(close, s[1..]) by {
        forall i | MatchAt(close, s[1..], i) ensures false {
          TailMatch(close, s, i);
        }
      }
      UnclosedUnchanged(s[1..], open, close);
    }
  }

  /** No opening tag of s is followed by a closing tag: s holds no complete
      block. */
  ghost predicate NoBlock(s: string, open: string, close: string)
  {
    forall i, j :: MatchAt(open, s, i) && MatchAt(close, s, j) ==> j < i + |open|
  }

  /** Text without a complete block is copied unchanged, whatever opening
      or closing tags it holds. */
  lemma {:induction false} NoBlockUnchanged(s: string, open: string, close: string)
    requires |open| > 0 && NoBlock(s, open, close)
    ensures RemoveSpans(s, open, close) == s
    decreases |s|
  {
    if s != [] {
      if MatchAt(open, s, 0) {
        var j := FindFrom(s, close, |open|);
        assert j >= 0 ==> MatchAt(close, s, j);
      }
      forall i, j | MatchAt(open, s[1..], i) && MatchAt(close, s[1..], j) ensures j < i + |open| {
        TailMatch(open, s, i);
        TailMatch(close, s, j);
      }
      NoBlockUnchanged(s[1..], open, close);
    }
  }

  /** A response with no complete <think> block and no complete <thinking>
      block is only stripped. */
  lemma NoPairsOnlyStripped(s: string)
    requires NoBlock(s, Think, ThinkEnd) && NoBlock(s, Thinking, ThinkingEnd)
    ensures Clean(s) == Strip(s)
  {
    NoBlockUnchanged(s, Think, ThinkEnd);
    NoBlockUnchanged(s, Thinking, ThinkingEnd);
  }

  /** A complete block is removed together with everything up to the first
      closing tag after the opening tag, and the scan goes on after it. */
  lemma Block(m: string, b: string, open: string, close: string)
    requires |open| > 0 && |close| > 0
    requires forall k :: 0 <= k < |m| ==> !MatchAt(close, m + close + b, k)
    ensures RemoveSpans(open + m + close + b, open, close) == RemoveSpans(b, open, close)
  {
    var s := open + m + close + b;
    var j := |open| + |m|;
    assert s == open + (m + close + b);
    assert s[0..|open|] == open;
    assert s[j..j + |close|] == close;
    forall k | |open| <= k < j ensures !MatchAt(close, s, k) {
      if k + |close| <= |s| {
        assert s[k..k + |close|] == (m + close + b)[k - |open|..k - |open| + |close|];
        assert !MatchAt(close, m + close + b, k - |open|);
      }
    }
    assert MatchAt(close, s, j);
    assert FindFrom(s, close, |open|) == j;
    assert s[j + |close|..] == b;
  }

  // ---------------------------------------------------------------------
  // Where the four tags can start

  /** tag starts with '<' and holds no other '<'. */
  predicate LoneAngle(tag: string)
  {
    |tag| > 0 && tag[0] == '<' && forall i :: 1 <= i < |tag| ==> tag[i] != '<'
  }

  lemma TagsLoneAngle()
    ensures LoneAngle(Think) && LoneAngle(ThinkEnd) && LoneAngle(Thinking) && LoneAngle(ThinkingEnd)
  {
  }

  /** A tag that does not occur in a cannot start inside a when what
      follows a starts with '<'. */
  lemma NoStraddle(tag: string, a: string, b: string)
    requires LoneAngle(tag) && !Occurs(tag, a) && (b == [] || b[0] == '<')
    ensures forall k :: 0 <= k < |a| ==> !MatchAt(tag, a + b, k)
  {
    forall k | 0 <= k < |a| ensures !MatchAt(tag, a + b, k) {
      if k + |tag| <= |a + b| {
        if k + |tag| <= |a| {
          assert (a + b)[k..k + |tag|] == a[k..k + |tag|];
          assert !MatchAt(tag, a, k);
        } else {
          assert (a + b)[k..k + |tag|][|a| - k] == (a + b)[|a|] == b[0] == '<';
          assert tag[|a| - k] != '<';
        }
      }
    }
  }

  /** A tag cannot start inside another tag u that does not begin with it. */
  lemma NotInsideTag(tag: string, u: string, y: string)
    requires LoneAngle(tag) && LoneAngle(u) && |tag| <= |u| && u[..|tag|] != tag
    ensures forall k :: 0 <= k < |u| ==> !MatchAt(tag, u + y, k)
  {
    forall k | 0 <= k < |u| ensures !MatchAt(tag, u + y, k) {
      if k + |tag| <= |u + y| {
        if k == 0 {
          assert (u + y)[0..|tag|] == u[..|tag|];
        } else {
          assert (u + y)[k..k + |tag|][0] == u[k] != '<';
        }
      }
    }
  }

  /** No occurrence in a + b when none starts inside a and none is in b. */
  lemma NoOccurConcat(tag: string, a: string, b: string)
    requires forall k :: 0 <= k < |a| ==> !MatchAt(tag, a + b, k)
    requires !Occurs(tag, b)
    ensures !Occurs(tag, a + b)
  {
    forall k | |a| <= k && k + |tag| <= |a + b| ensures !MatchAt(tag, a + b, k) {
      assert (a + b)[k..k + |tag|] == b[k - |a|..k - |a| + |tag|];
      assert !MatchAt(tag, b, k - |a|);
    }
  }

  /** Text free of '<' holds no tag. */
  lemma NoAngleNoTag(tag: string, s: string)
    requires LoneAngle(tag) && '<' !in s
    ensures !Occurs(tag, s)
  {
    forall k | 0 <= k && k + |tag| <= |s| ensures !MatchAt(tag, s, k) {
      assert s[k..k + |tag|][0] == s[k] && s[k] in s;
    }
  }

  /** The first pass leaves a <thinking> block alone: the <thinking> and
      </thinking> tags hold no "<think>", so when neither the text before
      it, nor its body, nor the text after it holds one, none occurs. */
  lemma ThinkNotInThinking(w: string, m2: string, t: string)
    requires !Occurs(Think, w) && !Occurs(Think, m2) && !Occurs(Think, t)
    ensures !Occurs(Think, w + Thinking + m2 + ThinkingEnd + t)
  {
    TagsLoneAngle();
    var x3 := ThinkingEnd + t;
    var x2 := m2 + x3;
    var x1 := Thinking + x2;
    assert ThinkingEnd[..7] == "</think";
    NotInsideTag(Think, ThinkingEnd, t);
    NoOccurConcat(Think, ThinkingEnd, t);
    NoStraddle(Think, m2, x3);
    NoOccurConcat(Think, m2, x3);
    assert Thinking[..7] == "<thinki";
    NotInsideTag(Think, Thinking, x2);
    NoOccurConcat(Think, Thinking, x2);
    NoStraddle(Think, w, x1);
    NoOccurConcat(Think, w, x1);
    assert w + Thinking + m2 + ThinkingEnd + t == w + x1;
  }

  /** The first pass removes a <think> block whose body holds no
      "</think>", and keeps the text after it when that holds no "<think>". */
  lemma ThinkPass(m1: string, rest: string)
    requires !Occurs(ThinkEnd, m1) && !Occurs(Think, rest)
    ensures RemoveSpans(Think + m1 + ThinkEnd + rest, Think, ThinkEnd) == rest
  {
    TagsLoneAngle();
    NoStraddle(ThinkEnd, m1, ThinkEnd + rest);
    assert m1 + ThinkEnd + rest == m1 + (ThinkEnd + rest);
    Block(m1, rest, Think, ThinkEnd);
    NoOpenUnchanged(rest, Think, ThinkEnd);
  }

  /** The second pass removes a <thinking> block whose body holds no
      "</thinking>" and keeps the text around it when that holds no
      "<thinking>". */
  lemma ThinkingPass(w: string, m2: string, t: string)
    requires !Occurs(Thinking, w) && !Occurs(ThinkingEnd, m2) && !Occurs(Thinking, t)
    ensures RemoveSpans(w + (Thinking + m2 + ThinkingEnd + t), Thinking, ThinkingEnd) == w + t
  {
    TagsLoneAngle();
    NoStraddle(Thinking, w, Thinking + m2 + ThinkingEnd + t);
    KeepBefore(w, Thinking + m2 + ThinkingEnd + t, Thinking, ThinkingEnd);
    NoStraddle(ThinkingEnd, m2, ThinkingEnd + t);
    assert m2 + ThinkingEnd + t == m2 + (ThinkingEnd + t);
    Block(m2, t, Thinking, ThinkingEnd);
    NoOpenUnchanged(t, Thinking, ThinkingEnd);
  }

  /** Text between and after blocks is kept: a response made of a <think>
      block, text, a <thinking> block and text loses exactly the two
      blocks, each up to its first closing tag, and the rest is stripped. */
  lemma TextBetweenBlocksKept(m1: string, w: string, m2: string, t: string)
    requires !Occurs(ThinkEnd, m1) && !Occurs(ThinkingEnd, m2)
    requires !Occurs(Think, w) && !Occurs(Think, m2) && !Occurs(Think, t)
    requires !Occurs(Thinking, w) && !Occurs(Thinking, t)
    ensures Clean(Think + m1 + ThinkEnd + w + Thinking + m2 + ThinkingEnd + t) == Strip(w + t)
  {
    var x := Thinking + m2 + ThinkingEnd + t;
    assert Think + m1 + ThinkEnd + w + Thinking + m2 + ThinkingEnd + t == Think + m1 + ThinkEnd + (w + x);
    ThinkNotInThinking(w, m2, t);
    assert w + Thinking + m2 + ThinkingEnd + t == w + x;
    ThinkPass(m1, w + x);
    ThinkingPass(w, m2, t);
  }

  /** A block body may hold '<' and even "<think>": "<think>a<b<think>c</think>ok"
      cleans to "ok". */
  lemma AngleInBlockBody()
    ensures Clean(Think + "a<b<think>c" + ThinkEnd + "ok") == "ok"
  {
    TagsLoneAngle();
    var m := "a<b" + Think + "c";
    assert "a<b<think>c" == m;
    assert !Occurs(ThinkEnd, m) by {
      forall k | 0 <= k && k + 8 <= |m| ensures !MatchAt(ThinkEnd, m, k) {
        assert m[k..k + 8][1] == m[k + 1];
        assert m[k + 1] != '/';
      }
    }
    NoAngleNoTag(Think, "ok");
    ThinkPass(m, "ok");
    NoAngleNoTag(Thinking, "ok");
    NoOpenUnchanged("ok", Thinking, ThinkingEnd);
    assert !IsSpace('o') && !IsSpace('k');
    StripTrimmed("ok");
  }

  /** The unit's documented example, "<think> This is a test </think>
      <thinking> This is another test </thinking> This is the cleanded
      respone": both blocks go, and the text between and after them is
      stripped. */
  lemma DocumentedExample(response: string)
    requires response == Think + " This is a test " + ThinkEnd + " " + Thinking + " This is another test "
                         + ThinkingEnd + " " + "This is the cleanded respone"
    ensures CleanOutputs(response) == [Str("This is the cleanded respone")]
  {
    var m1, m2, u := " This is a test ", " This is another test ", "This is the cleanded respone";
    ExampleText();
    TagsLoneAngle();
    NoAngleNoTag(ThinkEnd, m1);
    NoAngleNoTag(ThinkingEnd, m2);
    NoAngleNoTag(Think, m2);
    NoAngleNoTag(Think, " ");
    NoAngleNoTag(Thinking, " ");
    assert '<' !in " " + u;
    NoAngleNoTag(Think, " " + u);
    NoAngleNoTag(Thinking, " " + u);
    assert response == Think + m1 + ThinkEnd + " " + Thinking + m2 + ThinkingEnd + (" " + u);
    TextBetweenBlocksKept(m1, " ", m2, " " + u);
    StripPadded(u);
  }

  /** Facts about the text of the example above. */
  lemma ExampleText()
    ensures '<' !in " This is a test " && '<' !in " This is another test "
    ensures '<' !in " " && '<' !in "This is the cleanded respone"
    ensures !IsSpace("This is the cleanded respone"[0]) && !IsSpace("This is the cleanded respone"[27])
    ensures |"This is the cleanded respone"| == 28
  {
    assert !IsSpace('T') && !IsSpace('e');
  }

  /** Two leading spaces before trimmed text are stripped. */
  lemma StripPadded(u: string)
    requires u != [] && !IsSpace(u[0]) && !IsSpace(u[|u| - 1])
    ensures Strip(" " + (" " + u)) == u
  {
    assert (" " + (" " + u))[1..] == " " + u;
    assert (" " + u)[1..] == u;
  }

  /** The pieces the example below is made of. */
  lemma ExamplePieces()
    ensures "<thi" == "<" + "thi" && "<thi" + "nk>" == Think
    ensures ThinkEnd == "<" + "/think>" && "nk>y" == "nk>" + "y"
    ensures Think[1] == 't' && Think[4] == 'n'
    ensures '<' !in "thi" && '<' !in "nk>y" && '<' !in "/think>" && '<' !in "x"
  {
  }

  /** A closing tag alone is not a block and is kept. */
  lemma CloseTagKept()
    ensures RemoveSpans(ThinkEnd, Think, ThinkEnd) == ThinkEnd
  {
    ExamplePieces();
    assert !MatchAt(Think, ThinkEnd, 0) by { assert ThinkEnd[0..7][1] == '/'; }
    assert ThinkEnd[1..] == "/think>";
    KeepPrefix("/think>", [], Think, ThinkEnd);
    assert "/think>" + [] == "/think>";
  }

  /** One pass does not always leave the text free of blocks: removing the
      inner block of "<thi<think>x</think>nk>y</think>" joins the text
      around it into a new complete block. */
  lemma RemovalCanFormNewBlock(s: string)
    requires s == "<thi" + Think + "x" + ThinkEnd + "nk>y" + ThinkEnd
    ensures RemoveSpans(s, Think, ThinkEnd) == Think + "y" + ThinkEnd
  {
    ExamplePieces();
    var rest := "nk>y" + ThinkEnd;
    var inner := Think + "x" + ThinkEnd + rest;
    assert s == "<" + ("thi" + inner);
    assert !MatchAt(Think, s, 0) by { assert s[0..7][4] == s[4] == '<'; }
    assert s[1..] == "thi" + inner;
    KeepPrefix("thi", inner, Think, ThinkEnd);
    Block("x", rest, Think, ThinkEnd);
    KeepPrefix("nk>y", ThinkEnd, Think, ThinkEnd);
    CloseTagKept();
    Regroup("<", "thi", "nk>", "y", ThinkEnd);
  }

  lemma Regroup(a: string, b: string, c: string, d: string, e: string)
    ensures a + (b + ((c + d) + e)) == (a + b) + c + d + e
  {
  }
}
