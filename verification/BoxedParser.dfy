/** The two brace matchers that read a `\boxed{...}` answer, and when they agree. */
module BoxedParser {
  import opened Wrappers

  const LEFT := "\\boxed{"

  // ---------------------------------------------------------------- Python's string functions

  /** The pattern starts at index i. */
  predicate At(s: string, pattern: string, i: nat) {
    i + |pattern| <= |s| && s[i..i + |pattern|] == pattern
  }

  /** The greatest occurrence starting at or before n. */
  function LastAt(s: string, pattern: string, n: nat): (r: int)
    ensures r == -1 || (0 <= r <= n && At(s, pattern, r))
    ensures forall i: nat :: r < i <= n ==> !At(s, pattern, i)
  {
    if At(s, pattern, n) then n else if n == 0 then -1 else LastAt(s, pattern, n - 1)
  }

  /** `s.rfind(pattern)`. */
  function Rfind(s: string, pattern: string): (r: int)
    ensures r == -1 || (0 <= r <= |s| && At(s, pattern, r))
    ensures forall i: nat :: r < i ==> !At(s, pattern, i)
  {
    LastAt(s, pattern, |s|)
  }

  /** `s.find(c)`. */
  function Find(s: string, c: char): (r: int)
    ensures r == -1 <==> c !in s
    ensures r != -1 ==> 0 <= r < |s| && s[r] == c && c !in s[..r]
  {
    if s == "" then -1 else if s[0] == c then 0
    else
      var n := Find(s[1..], c);
      if n == -1 then -1 else assert s[..n + 1] == [s[0]] + s[1..][..n]; n + 1
  }

  function LeftStrip(space: char -> bool, s: string): string {
    if s != "" && space(s[0]) then LeftStrip(space, s[1..]) else s
  }

  function RightStrip(space: char -> bool, s: string): string {
    if s != "" && space(s[|s| - 1]) then RightStrip(space, s[..|s| - 1]) else s
  }

  /** `s.strip()`, for any notion of white space. */
  function Strip(space: char -> bool, s: string): string {
    RightStrip(space, LeftStrip(space, s))
  }

  ghost predicate AllSpace(space: char -> bool, s: string) {
    forall i :: 0 <= i < |s| ==> space(s[i])
  }

  lemma {:induction false} LeftStrips(space: char -> bool, s: string) returns (pre: string)
    ensures s == pre + LeftStrip(space, s) && AllSpace(space, pre)
    ensures LeftStrip(space, s) != "" ==> !space(LeftStrip(space, s)[0])
  {
    pre := "";
    if s != "" && space(s[0]) {
      var rest := LeftStrips(space, s[1..]);
      pre := [s[0]] + rest;
      assert s == [s[0]] + s[1..];
    }
  }

  lemma {:induction false} RightStrips(space: char -> bool, s: string) returns (post: string)
    ensures s == RightStrip(space, s) + post && AllSpace(space, post)
    ensures RightStrip(space, s) != "" ==> !space(RightStrip(space, s)[|RightStrip(space, s)| - 1])
  {
    post := "";
    if s != "" && space(s[|s| - 1]) {
      var rest := RightStrips(space, s[..|s| - 1]);
      post := rest + [s[|s| - 1]];
      assert s == s[..|s| - 1] + [s[|s| - 1]];
    }
  }

  /** `strip()` takes white space off both ends and nothing else, and leaves none there. */
  lemma {:induction false} StripsEnds(space: char -> bool, s: string) returns (pre: string, post: string)
    ensures s == pre + Strip(space, s) + post && AllSpace(space, pre) && AllSpace(space, post)
    ensures var r := Strip(space, s); r != "" ==> !space(r[0]) && !space(r[|r| - 1])
  {
    var mid := LeftStrip(space, s);
    pre := LeftStrips(space, s);
    post := RightStrips(space, mid);
    assert Strip(space, s) <= mid;
  }

  // ---------------------------------------------------------------- matching braces

  function Step(c: char, depth: int): int {
    if c == '{' then depth + 1 else if c == '}' then depth - 1 else depth
  }

  /** Where scanning from this depth first meets a brace that closes the outermost level. */
  function Close(s: string, depth: int): (r: Option<nat>)
    ensures r.Some? ==> r.value < |s| && s[r.value] == '}'
  {
    if s == "" then None
    else if s[0] == '}' && depth == 1 then Some(0)
    else
      var r := Close(s[1..], Step(s[0], depth));
      if r.None? then None else Some(r.value + 1)
  }

  function Shifted(r: Option<nat>, n: nat): Option<nat> {
    if r.None? then None else Some(r.value + n)
  }

  lemma CloseFrom(s: string, i: nat, depth: int)
    requires i <= |s|
    ensures i == |s| ==> Close(s[i..], depth) == None
    ensures i < |s| ==> Close(s[i..], depth) == if s[i] == '}' && depth == 1 then Some(0)
                                                else Shifted(Close(s[i + 1..], Step(s[i], depth)), 1)
  {
    if i < |s| {
      assert s[i..][1..] == s[i + 1..];
    }
  }

  /** Every brace has its partner, when `depth` braces are still open before the string. */
  predicate Nested(s: string, depth: nat) {
    if s == "" then depth == 0
    else if s[0] == '{' then Nested(s[1..], depth + 1)
    else if s[0] == '}' then depth > 0 && Nested(s[1..], depth - 1)
    else Nested(s[1..], depth)
  }

  predicate Balanced(s: string) { Nested(s, 0) }

  lemma {:induction false} NestedCloses(c: string, depth: nat, post: string)
    requires Nested(c, depth)
    ensures Close(c + "}" + post, depth + 1) == Some(|c|)
  {
    if c != "" {
      assert (c + "}" + post)[1..] == c[1..] + "}" + post;
      NestedCloses(c[1..], if c[0] == '{' then depth + 1 else if c[0] == '}' then depth - 1 else depth, post);
    }
  }

  lemma {:induction false} ClosedIsNested(s: string, depth: nat)
    requires Close(s, depth + 1).Some?
    ensures Nested(s[..Close(s, depth + 1).value], depth)
  {
    var n := Close(s, depth + 1).value;
    if n > 0 {
      assert s[..n][1..] == s[1..][..n - 1];
      ClosedIsNested(s[1..], if s[0] == '{' then depth + 1 else if s[0] == '}' then depth - 1 else depth);
    }
  }

  // ---------------------------------------------------------------- the code

  /** The last boxed expression; None when there is none or it is never closed. */
  function LastBoxed(s: string): Option<string> {
    var idx := Rfind(s, LEFT);
    if idx < 0 then None
    else
      var close := Close(s[idx..], 0);
      if close.None? then None else Some(s[idx..idx + close.value + 1])
  }

  /** `last_boxed_only_string`. */
  method LastBoxedOnlyString(s: string) returns (r: Option<string>)
    ensures r == LastBoxed(s)
  {
    var idx := Rfind(s, LEFT);
    if idx < 0 {
      return None;
    }
    var rightBrace := FindRightBrace(s, idx);
    r := if rightBrace.Some? then Some(s[idx..rightBrace.value + 1]) else None;
  }

  /** Its brace-counting loop. */
  method FindRightBrace(s: string, idx: nat) returns (rightBrace: Option<nat>)
    requires idx <= |s|
    ensures rightBrace == Shifted(Close(s[idx..], 0), idx)
  {
    hide Close;
    var i := idx;
    rightBrace := None;
    var open := 0;
    while i < |s|
      invariant idx <= i <= |s| && rightBrace == None
      invariant Close(s[idx..], 0) == Shifted(Close(s[i..], open), i - idx)
    {
      CloseFrom(s, i, open);
      if s[i] == '{' {
        open := open + 1;
      }
      if s[i] == '}' {
        open := open - 1;
        if open == 0 {
          rightBrace := Some(i);
          break;
        }
      }
      i := i + 1;
    }
    CloseFrom(s, i, open);
  }

  /** `remove_boxed`; None where an assertion fails. */
  function RemoveBoxed(s: string): Option<string> {
    if !At(s, LEFT, 0) || s[|s| - 1] != '}' then None else Some(s[|LEFT|..|s| - 1])
  }

  /** The closing brace, or else the first of the fallback terminators. */
  function EndOf(text: string): int {
    var close := Close(text, 1);
    if close.Some? then close.value
    else if '}' in text then Find(text, '}')
    else if '\n' in text then Find(text, '\n')
    else Find(text, '<')
  }

  /** What `extract_boxed_content` returns. */
  function Extracted(space: char -> bool, text: string): Option<string> {
    var end := EndOf(text);
    if end > 0 then Some(Strip(space, text[..end]))
    else if |Strip(space, text)| > 0 then Some(Strip(space, text))
    else None
  }

  /** `extract_boxed_content`. */
  method ExtractBoxedContent(space: char -> bool, text: string) returns (r: Option<string>)
    ensures r == Extracted(space, text)
  {
    var end := FindEnd(text);
    if end > 0 {
      return Some(Strip(space, text[..end]));
    } else if |Strip(space, text)| > 0 {
      return Some(Strip(space, text));
    }
    return None;
  }

  /** Its brace loop and its fallback. */
  method FindEnd(text: string) returns (end: int)
    ensures end == EndOf(text)
  {
    hide Close;
    var braces := 1;
    end := -1;
    var i := 0;
    assert text[0..] == text;
    while i < |text|
      invariant 0 <= i <= |text| && end == -1
      invariant Close(text, 1) == Shifted(Close(text[i..], braces), i)
    {
      CloseFrom(text, i, braces);
      if text[i] == '{' {
        braces := braces + 1;
      } else if text[i] == '}' {
        braces := braces - 1;
        if braces == 0 {
          end := i;
          break;
        }
      }
      i := i + 1;
    }
    CloseFrom(text, i, braces);
    if end == -1 {
      var terms := ['}', '\n', '<'];
      var k := 0;
      while k < |terms|
        invariant 0 <= k <= 3 && end == -1
        invariant (k >= 1 ==> '}' !in text) && (k >= 2 ==> '\n' !in text) && (k >= 3 ==> '<' !in text)
      {
        if terms[k] in text {
          end := Find(text, terms[k]);
          break;
        }
        k := k + 1;
      }
    }
  }

  // ---------------------------------------------------------------- what they compute

  /** s holds c in a box that is the last one to be opened. */
  ghost predicate LastBox(s: string, pre: string, c: string, post: string) {
    && s == pre + LEFT + c + "}" + post && Balanced(c)
    && forall i: nat :: |pre| < i ==> !At(s, LEFT, i)
  }

  lemma CloseAfterLeft(rest: string)
    ensures Close(LEFT + rest, 0) == Shifted(Close(rest, 1), |LEFT|)
  {
    PlainPrefix("\\boxed", "{" + rest, 0);
    assert LEFT + rest == "\\boxed" + ("{" + rest);
    assert ("{" + rest)[1..] == rest;
  }

  lemma {:induction false} PlainPrefix(plain: string, rest: string, depth: int)
    requires '{' !in plain && '}' !in plain
    ensures Close(plain + rest, depth) == Shifted(Close(rest, depth), |plain|)
  {
    if plain == "" {
      assert plain + rest == rest;
    } else {
      assert (plain + rest)[1..] == plain[1..] + rest;
      PlainPrefix(plain[1..], rest, depth);
    }
  }

  /** The content of the last box comes out, whatever surrounds it. */
  lemma BoxContent(s: string, pre: string, c: string, post: string)
    requires LastBox(s, pre, c, post)
    ensures LastBoxed(s) == Some(LEFT + c + "}") && RemoveBoxed(LEFT + c + "}") == Some(c)
  {
    assert s[|pre|..|pre| + |LEFT|] == LEFT;
    assert At(s, LEFT, |pre|);
    assert Rfind(s, LEFT) == |pre|;
    assert s[|pre|..] == LEFT + (c + "}" + post);
    CloseAfterLeft(c + "}" + post);
    NestedCloses(c, 0, post);
    assert s[|pre|..|pre| + |LEFT| + |c| + 1] == LEFT + c + "}";
    RemoveLeft(c);
  }

  /** Exactly then: what is returned is always the balanced content of the last box. */
  lemma OnlyBoxContent(s: string, c: string)
    requires LastBoxed(s).Some? && RemoveBoxed(LastBoxed(s).value) == Some(c)
    ensures exists pre, post :: LastBox(s, pre, c, post)
  {
    var idx := Rfind(s, LEFT);
    var pre, rest := s[..idx], s[idx + |LEFT|..];
    assert s == pre + LEFT + rest;
    BoxFound(s, pre, rest);
    var n := Close(rest, 1).value;
    ClosedIsNested(rest, 0);
    hide Close, Nested, LastBoxed, RemoveBoxed;
    RemoveLeft(rest[..n]);
    Reassemble(pre, LEFT, rest, n);
    assert LastBox(s, pre, c, rest[n + 1..]);
  }

  lemma RemoveLeft(c: string)
    ensures RemoveBoxed(LEFT + c + "}") == Some(c)
  {
    assert (LEFT + c + "}")[..|LEFT|] == LEFT;
  }

  lemma Reassemble(pre: string, left: string, rest: string, n: nat)
    requires n < |rest| && rest[n] == '}'
    ensures pre + left + rest == pre + left + rest[..n] + "}" + rest[n + 1..]
  {
    assert rest == rest[..n] + "}" + rest[n + 1..];
  }

  lemma BoxFound(s: string, pre: string, rest: string)
    requires s == pre + LEFT + rest && Rfind(s, LEFT) == |pre|
    ensures LastBoxed(s) == if Close(rest, 1).None? then None else Some(LEFT + rest[..Close(rest, 1).value] + "}")
  {
    assert s[|pre|..] == LEFT + rest;
    CloseAfterLeft(rest);
    if Close(rest, 1).Some? {
      var n := Close(rest, 1).value;
      assert rest[..n + 1] == rest[..n] + "}";
      assert s[|pre|..|pre| + |LEFT| + n + 1] == LEFT + rest[..n + 1];
      assert LEFT + rest[..n + 1] == LEFT + rest[..n] + "}";
    }
  }

  /** Whenever a boxed string is found, the box can be removed. */
  lemma FoundIsBoxed(s: string)
    requires LastBoxed(s).Some?
    ensures RemoveBoxed(LastBoxed(s).value).Some?
  {
    var idx := Rfind(s, LEFT);
    var close := Close(s[idx..], 0).value;
    CloseAfterLeft(s[idx + |LEFT|..]);
    assert s[idx..] == LEFT + s[idx + |LEFT|..];
    assert LastBoxed(s).value == s[idx..][..close + 1];
    assert LastBoxed(s).value[..|LEFT|] == LEFT;
  }

  /** The stripped text, if anything is left of it. */
  function Stripped(space: char -> bool, text: string): Option<string> {
    if |Strip(space, text)| > 0 then Some(Strip(space, text)) else None
  }

  /** On the text after the opening of the last box, the second matcher agrees with the first, up to strip(), except
      on the empty box, where the first finds nothing in it and the second takes the text from its brace on. */
  lemma MatchersAgree(space: char -> bool, s: string, pre: string, c: string, post: string)
    requires LastBox(s, pre, c, post)
    ensures LastBoxed(s).Some? && RemoveBoxed(LastBoxed(s).value).Some?
    ensures var first, second := RemoveBoxed(LastBoxed(s).value).value, Extracted(space, c + "}" + post);
            && first == c
            && (first != "" ==> second == Some(Strip(space, first)))
            && (first == "" ==> second == Stripped(space, "}" + post))
  {
    BoxContent(s, pre, c, post);
    NestedCloses(c, 0, post);
    assert (c + "}" + post)[..|c|] == c;
    assert c == "" ==> c + "}" + post == "}" + post;
  }

  /** The empty box followed by text. */
  lemma EmptyBox(s: string)
    requires s == LEFT + "}" + "x"
    ensures RemoveBoxed(LEFT + "}") == Some("") && Extracted(c => false, "}x") == Some("}x")
  {
    assert LEFT + "" + "}" == LEFT + "}";
    RemoveLeft("");
    assert "}x"[0] == '}';
    assert LeftStrip(c => false, "}x") == "}x";
  }

  /** No brace of the text closes a box opened before it. */
  ghost predicate NeverCloses(text: string) {
    forall n: nat :: n < |text| && text[n] == '}' ==> !Balanced(text[..n])
  }

  /** A scan finds no closing brace exactly when there is none. */
  lemma {:induction false} ClosesUnlessNever(text: string)
    ensures Close(text, 1).None? <==> NeverCloses(text)
  {
    if Close(text, 1).Some? {
      ClosedIsNested(text, 0);
    }
    forall n: nat | n < |text| && text[n] == '}' && Balanced(text[..n]) ensures Close(text, 1).Some? {
      NestedCloses(text[..n], 0, text[n + 1..]);
      assert text == text[..n] + "}" + text[n + 1..];
    }
  }

  /** On a box that is never closed the first matcher finds nothing; the second cuts at its first closing brace, or else
      at the end of its line, or else at the first '<', and takes all of it when that leaves nothing. */
  lemma MatchersOnOpenBox(space: char -> bool, s: string, pre: string, rest: string)
    requires s == pre + LEFT + rest && NeverCloses(rest) && forall i: nat :: |pre| < i ==> !At(s, LEFT, i)
    ensures LastBoxed(s) == None
    ensures var end := if '}' in rest then Find(rest, '}')
                       else if '\n' in rest then Find(rest, '\n')
                       else Find(rest, '<');
            Extracted(space, rest) == if end > 0 then Some(Strip(space, rest[..end])) else Stripped(space, rest)
  {
    assert s[|pre|..|pre| + |LEFT|] == LEFT;
    assert At(s, LEFT, |pre|) && Rfind(s, LEFT) == |pre|;
    ClosesUnlessNever(rest);
    BoxFound(s, pre, rest);
  }
}
