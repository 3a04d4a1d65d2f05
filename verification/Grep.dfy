/**
 The regular-expression matcher and the line loop of user/grep.c.

 The meaning of a pattern is declarative: a sequence of items, the set of
 strings it stands for, and whether it is tied to the start or the end of the
 text.  Patterns and texts hold no NUL.
 */
module Grep {

  // ---------- What a pattern means ----------

  /** One character, or a character any number of times; '.' fits every character. */
  datatype Item = One(c: char) | Many(c: char)

  predicate Fits(c: char, x: char) {
    c == '.' || c == x
  }

  ghost predicate AllFit(c: char, w: string) {
    forall i | 0 <= i < |w| :: Fits(c, w[i])
  }

  ghost predicate ItemMatches(x: Item, w: string) {
    match x
    case One(c) => |w| == 1 && Fits(c, w[0])
    case Many(c) => AllFit(c, w)
  }

  /** w is made of one string for each item, in order. */
  ghost predicate InLanguage(xs: seq<Item>, w: string) {
    if xs == [] then w == ""
    else exists k | 0 <= k <= |w| :: ItemMatches(xs[0], w[..k]) && InLanguage(xs[1..], w[k..])
  }

  /** The items of a pattern without its anchors. */
  function Items(re: string): seq<Item> {
    if re == "" then []
    else if 2 <= |re| && re[1] == '*' then [Many(re[0])] + Items(re[2..])
    else if re == "$" then []
    else [One(re[0])] + Items(re[1..])
  }

  /** The pattern ends in a "$" that is not starred. */
  predicate AtEnd(re: string) {
    if re == "" then false
    else if 2 <= |re| && re[1] == '*' then AtEnd(re[2..])
    else re == "$" || AtEnd(re[1..])
  }

  /** The text from its start up to j is a match. */
  ghost predicate MatchesTo(re: string, text: string, j: nat) {
    j <= |text| && InLanguage(Items(re), text[..j]) && (AtEnd(re) ==> j == |text|)
  }

  ghost predicate MatchesHere(re: string, text: string) {
    exists j: nat :: MatchesTo(re, text, j)
  }

  /** Some part of the text is a match: at its start if the pattern begins with "^". */
  ghost predicate Found(re: string, text: string) {
    if re != "" && re[0] == '^' then MatchesHere(re[1..], text)
    else exists i | 0 <= i <= |text| :: MatchesHere(re, text[i..])
  }

  // ---------- How the meaning unfolds ----------

  lemma EmptyPattern(text: string)
    ensures MatchesHere("", text)
  {
    assert MatchesTo("", text, 0);
  }

  lemma EndPattern(text: string)
    ensures MatchesHere("$", text) <==> text == ""
  {
    if text == "" {
      assert MatchesTo("$", text, 0);
    }
  }

  predicate IsStarred(re: string) {
    2 <= |re| && re[1] == '*'
  }

  lemma OnePattern(re: string, text: string)
    requires re != "" && !IsStarred(re) && re != "$"
    ensures MatchesHere(re, text) <==> text != "" && Fits(re[0], text[0]) && MatchesHere(re[1..], text[1..])
  {
    var rest := re[1..];
    if j: nat :| MatchesTo(re, text, j) {
      var w := text[..j];
      var k :| 0 <= k <= |w| && ItemMatches(Items(re)[0], w[..k]) && InLanguage(Items(re)[1..], w[k..]);
      assert Items(re)[1..] == Items(rest);
      assert w[k..] == text[1..][..j - 1];
      assert MatchesTo(rest, text[1..], j - 1);
    }
    if text != "" && Fits(re[0], text[0]) && MatchesHere(rest, text[1..]) {
      var j: nat :| MatchesTo(rest, text[1..], j);
      var w := text[..j + 1];
      assert w[1..] == text[1..][..j] && ItemMatches(One(re[0]), w[..1]) && Items(re)[1..] == Items(rest);
      assert MatchesTo(re, text, j + 1);
    }
  }

  /** A starred character may be taken k times. */
  ghost predicate StarMatches(c: char, rest: string, text: string, k: nat) {
    k <= |text| && AllFit(c, text[..k]) && MatchesHere(rest, text[k..])
  }

  lemma StarPattern(re: string, text: string)
    requires IsStarred(re)
    ensures MatchesHere(re, text) <==> exists k: nat :: StarMatches(re[0], re[2..], text, k)
  {
    var rest := re[2..];
    assert Items(re)[0] == Many(re[0]) && Items(re)[1..] == Items(rest);
    if j: nat :| MatchesTo(re, text, j) {
      var w := text[..j];
      var k :| 0 <= k <= |w| && ItemMatches(Items(re)[0], w[..k]) && InLanguage(Items(re)[1..], w[k..]);
      assert w[..k] == text[..k] && w[k..] == text[k..][..j - k];
      assert MatchesTo(rest, text[k..], j - k);
      assert StarMatches(re[0], rest, text, k);
    }
    if k: nat :| StarMatches(re[0], rest, text, k) {
      var j: nat :| MatchesTo(rest, text[k..], j);
      var w := text[..k + j];
      assert w[..k] == text[..k] && w[k..] == text[k..][..j];
      assert MatchesTo(re, text, k + j);
    }
  }

  // ---------- The matcher ----------

  /** match: terminates, and returns 1 if and only if the text holds a match. */
  method Match(re: string, text: string) returns (b: bool)
    ensures b == Found(re, text)
  {
    if re != "" && re[0] == '^' {
      b := Matchhere(re[1..], text);
      return;
    }
    var t := 0;
    while true
      invariant 0 <= t <= |text|
      invariant forall i | 0 <= i < t :: !MatchesHere(re, text[i..])
      decreases |text| - t
    {
      b := Matchhere(re, text[t..]);
      if b {
        return;
      }
      if t == |text| {
        return false;
      }
      t := t + 1;
    }
  }

  /** matchhere */
  method Matchhere(re: string, text: string) returns (b: bool)
    ensures b == MatchesHere(re, text)
    decreases |re|, 0
  {
    if re == "" {
      EmptyPattern(text);
      return true;
    }
    if 2 <= |re| && re[1] == '*' {
      StarPattern(re, text);
      b := Matchstar(re[0], re[2..], text);
      return;
    }
    if re == "$" {
      EndPattern(text);
      return text == "";
    }
    OnePattern(re, text);
    if text != "" && (re[0] == '.' || re[0] == text[0]) {
      b := Matchhere(re[1..], text[1..]);
      return;
    }
    return false;
  }

  /** matchstar: every number of repetitions is tried. */
  method Matchstar(c: char, re: string, text: string) returns (b: bool)
    ensures b == exists k: nat :: StarMatches(c, re, text, k)
    decreases |re|, 1
  {
    var t := 0;
    while true
      invariant 0 <= t <= |text| && AllFit(c, text[..t])
      invariant forall k | 0 <= k < t :: !MatchesHere(re, text[k..])
      decreases |text| - t
    {
      b := Matchhere(re, text[t..]);
      if b {
        assert StarMatches(c, re, text, t);
        return;
      }
      if t == |text| || !(text[t] == c || c == '.') {
        forall k: nat ensures !StarMatches(c, re, text, k) {
          assert t < k <= |text| ==> text[..k][t] == text[t];
        }
        return false;
      }
      assert text[..t + 1] == text[..t] + [text[t]];
      t := t + 1;
    }
  }

  // ---------- The line loop ----------

  /** The place of the first newline, or the length. */
  function LineEnd(s: string): (n: nat)
    ensures n <= |s| && (n < |s| ==> s[n] == '\n') && forall i | 0 <= i < n :: s[i] != '\n'
  {
    if s == "" || s[0] == '\n' then 0 else 1 + LineEnd(s[1..])
  }

  function Shown(found: bool, line: string): string {
    if found then line else ""
  }

  /**
   What grep prints: the matching lines, up to the first that with its newline does
   not fit in `cap` bytes, or has none.
   */
  ghost function Output(re: string, input: string, cap: nat): string
    decreases |input|
  {
    var n := LineEnd(input);
    if n == |input| || cap < n + 1 then "" else
      Shown(Found(re, input[..n]), input[..n + 1]) + Output(re, input[n + 1..], cap)
  }

  /**
   Line by line: a line that fits is printed, newline and all, if and only if it has
   a match; one that does not ends it.
   */
  lemma PrintsMatching(re: string, line: string, rest: string, cap: nat)
    requires '\n' !in line
    ensures Output(re, line, cap) == ""
    ensures |line| < cap ==>
              Output(re, line + "\n" + rest, cap) == (if Found(re, line) then line + "\n" else "")
                  + Output(re, rest, cap)
    ensures cap <= |line| ==> Output(re, line + "\n" + rest, cap) == ""
  {
    hide Found, LineEnd;
    var s := line + "\n" + rest;
    assert forall i | 0 <= i < |line| :: s[i] == line[i];
    assert s[|line|] == '\n';
    assert LineEnd(line) == |line| && LineEnd(s) == |line|;
    assert s[..|line|] == line && s[..|line| + 1] == line + "\n" && s[|line| + 1..] == rest;
  }

  lemma LineEndPrefix(a: string, b: string)
    ensures LineEnd(a) < |a| ==> LineEnd(a + b) == LineEnd(a)
    ensures LineEnd(a) == |a| ==> LineEnd(a + b) >= |a|
  {
    hide LineEnd;
    var n, m := LineEnd(a), LineEnd(a + b);
    assert n < |a| ==> (a + b)[n] == '\n';
    assert m < |a| ==> (a + b)[m] == a[m];
  }

  /** The first line, complete in the buffer, and the rest. */
  lemma FirstLine(re: string, a: string, rest: string, cap: nat)
    requires LineEnd(a) < |a| <= cap
    ensures var n := LineEnd(a);
            Output(re, a + rest, cap) == Shown(Found(re, a[..n]), a[..n + 1]) + Output(re, a[n + 1..] + rest, cap)
  {
    hide Found, LineEnd;
    LineEndPrefix(a, rest);
    var n, s := LineEnd(a), a + rest;
    assert s[..n] == a[..n] && s[..n + 1] == a[..n + 1] && s[n + 1..] == a[n + 1..] + rest;
  }

  /** A full buffer without a newline, or the end of the input, ends the output. */
  lemma NoMoreLines(re: string, a: string, rest: string, cap: nat)
    requires LineEnd(a) == |a| <= cap && (rest == "" || |a| == cap)
    ensures Output(re, a + rest, cap) == ""
  {
    hide Found, LineEnd;
    LineEndPrefix(a, rest);
    assert rest == "" ==> a + rest == a;
  }

  /** Of the input `seen`, `out` has been printed and `buf` is left over, whatever comes next. */
  ghost predicate Printed(re: string, cap: nat, seen: string, out: string, buf: string) {
    forall rest: string :: Output(re, seen + rest, cap) == out + Output(re, buf + rest, cap)
  }

  lemma PrintedAt(re: string, cap: nat, seen: string, out: string, buf: string, rest: string)
    requires Printed(re, cap, seen, out, buf)
    ensures Output(re, seen + rest, cap) == out + Output(re, buf + rest, cap)
  {
  }

  /** One line is taken out of the buffer. */
  lemma PrintedLine(re: string, cap: nat, buf: string)
    requires LineEnd(buf) < |buf| <= cap
    ensures var n := LineEnd(buf); Printed(re, cap, buf, Shown(Found(re, buf[..n]), buf[..n + 1]), buf[n + 1..])
  {
    hide Output, Found, LineEnd, Shown;
    var n := LineEnd(buf);
    var left, shown := buf[n + 1..], Shown(Found(re, buf[..n]), buf[..n + 1]);
    forall rest: string ensures Output(re, buf + rest, cap) == shown + Output(re, left + rest, cap) {
      FirstLine(re, buf, rest, cap);
    }
  }

  /** More input comes into the buffer. */
  lemma PrintedMore(re: string, cap: nat, seen: string, out: string, buf: string, more: string)
    requires Printed(re, cap, seen, out, buf)
    ensures Printed(re, cap, seen + more, out, buf + more)
  {
    hide Output;
    forall rest: string ensures Output(re, (seen + more) + rest, cap) == out + Output(re, (buf + more) + rest, cap) {
      PrintedAt(re, cap, seen, out, buf, more + rest);
      assert seen + (more + rest) == (seen + more) + rest && buf + (more + rest) == (buf + more) + rest;
    }
  }

  lemma NonePrinted(re: string, cap: nat, buf: string)
    ensures Printed(re, cap, buf, "", buf)
  {
    hide Output;
  }

  /** The lines that are complete in the buffer. */
  method Lines(re: string, buf: string, cap: nat) returns (out: string, left: string)
    requires |buf| <= cap
    ensures Printed(re, cap, buf, out, left) && LineEnd(left) == |left| && |left| <= |buf|
  {
    hide Output, Found, LineEnd, Shown, Printed;
    out, left := "", buf;
    NonePrinted(re, cap, buf);
    while true
      invariant |left| <= |buf| && Printed(re, cap, buf, out, left)
      decreases |left|
    {
      var n := LineEnd(left);
      if n == |left| {
        return;
      }
      PrintedLine(re, cap, left);
      var found := Match(re, left[..n]);
      PrintedChain(re, cap, buf, out, left, Shown(found, left[..n + 1]), left[n + 1..]);
      out := out + Shown(found, left[..n + 1]);
      left := left[n + 1..];
    }
  }

  lemma PrintedChain(re: string, cap: nat, seen: string, out: string, buf: string, more: string, left: string)
    requires Printed(re, cap, seen, out, buf) && Printed(re, cap, buf, more, left)
    ensures Printed(re, cap, seen, out + more, left)
  {
    hide Output;
    forall rest: string ensures Output(re, seen + rest, cap) == (out + more) + Output(re, left + rest, cap) {
      PrintedAt(re, cap, seen, out, buf, rest);
      PrintedAt(re, cap, buf, more, left, rest);
    }
  }

  /**
   grep with a buffer of cap + 1 bytes.  `sizes` says how much each read() returns,
   at least one byte while there is input and room, and `fails` which of them
   returns an error.  What is printed depends only on how much was read, and not at
   all if no read fails.
   */
  method Grep(re: string, input: string, cap: nat, sizes: nat -> nat, fails: nat -> bool)
    returns (out: string, pos: nat, failed: bool)
    ensures pos <= |input| && out == Output(re, input[..pos], cap)
    ensures failed ==> exists turn :: fails(turn)
    ensures !failed ==> out == Output(re, input, cap)
  {
    hide Output, Found, LineEnd, Printed;
    var buf, turn := "", 0;
    out, pos, failed := "", 0, false;
    NonePrinted(re, cap, "");
    NoNewline();
    assert input[..0] == "";
    while true
      invariant 0 <= pos <= |input| && |buf| <= cap && LineEnd(buf) == |buf| && !failed
      invariant Printed(re, cap, input[..pos], out, buf)
      decreases |input| - pos
    {
      PrintedEnd(re, cap, input[..pos], out, buf);
      if fails(turn) {
        failed := true;
        return;
      }
      var room := cap - |buf|;
      var most := if |input| - pos < room then |input| - pos else room;
      var n := if most == 0 then 0 else if sizes(turn) < 1 then 1 else if sizes(turn) < most then sizes(turn) else most;
      turn := turn + 1;
      if n == 0 {
        PrintedAt(re, cap, input[..pos], out, buf, input[pos..]);
        NoMoreLines(re, buf, input[pos..], cap);
        assert input[..pos] + input[pos..] == input;
        return;
      }
      PrintedMore(re, cap, input[..pos], out, buf, input[pos..pos + n]);
      assert input[..pos] + input[pos..pos + n] == input[..pos + n];
      var more, left := Lines(re, buf + input[pos..pos + n], cap);
      PrintedChain(re, cap, input[..pos + n], out, buf + input[pos..pos + n], more, left);
      buf := left;
      out := out + more;
      pos := pos + n;
    }
  }

  lemma NoNewline()
    ensures LineEnd("") == 0
  {
  }

  /** Without a complete line in the buffer, all there is to print of the input seen has been printed. */
  lemma PrintedEnd(re: string, cap: nat, seen: string, out: string, buf: string)
    requires Printed(re, cap, seen, out, buf) && LineEnd(buf) == |buf| <= cap
    ensures out == Output(re, seen, cap)
  {
    hide Output, LineEnd;
    PrintedAt(re, cap, seen, out, buf, "");
    NoMoreLines(re, buf, "", cap);
    assert seen + "" == seen;
  }
}
