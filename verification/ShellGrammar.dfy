/**
 What sh.c accepts, stated on the tokens of a line and not through its parser.

 The tokens of a line are its symbols and its words, with any white space between
 them.  A derivation relates the tokens to the command they stand for: lines are
 lists of backgrounds of pipes of simple commands and blocks, and the
 redirections of a simple command may stand anywhere among its words.
 */
module ShellGrammar {
  import opened Shell

  // ---------- Tokens ----------

  /** A token: 'a' is a word, '+' is >>, and any other kind is the symbol itself. */
  datatype Tok = Tok(kind: char, start: nat, end: nat)

  ghost predicate IsTok(t: string, x: Tok) {
    && x.start < x.end <= |t|
    && match x.kind
       case 'a' => IsWord(t, (x.start, x.end))
       case '+' => x.end == x.start + 2 && t[x.start] == '>' && t[x.start + 1] == '>'
       case '>' => x.end == x.start + 1 && t[x.start] == '>' && CharAt(t, x.end) != '>'
       case _ => x.end == x.start + 1 && IsSymbol(x.kind) && t[x.start] == x.kind
  }

  ghost predicate Blank(t: string, i: nat, j: nat) {
    i <= j <= |t| && forall k | i <= k < j :: IsSpace(t[k])
  }

  /** xs are the tokens of the line from i on: there is white space between them and nothing else. */
  ghost predicate Lexes(t: string, i: nat, xs: seq<Tok>)
    decreases |xs|
  {
    if xs == [] then Blank(t, i, |t|)
    else IsTok(t, xs[0]) && Blank(t, i, xs[0].start) && Lexes(t, xs[0].end, xs[1..])
  }

  /** The tokens that gettoken finds. */
  function Lexemes(t: string, i: nat): seq<Tok>
    requires i <= |t| && IsLine(t)
    decreases |t| - i
  {
    var tok := GetToken(t, i);
    if tok.kind == '\0' then [] else [Tok(tok.kind, tok.q, tok.eq)] + Lexemes(t, tok.next)
  }

  lemma {:induction false} SkipsBlank(t: string, i: nat)
    requires i <= |t|
    ensures Blank(t, i, SkipSpace(t, i))
    decreases |t| - i
  {
    if i < |t| && IsSpace(t[i]) {
      SkipsBlank(t, i + 1);
    }
  }

  lemma {:induction false} SkipOver(t: string, i: nat, j: nat)
    requires Blank(t, i, j)
    ensures SkipSpace(t, i) == SkipSpace(t, j)
    decreases j - i
  {
    if i < j {
      SkipOver(t, i + 1, j);
    }
  }

  lemma SkipTwice(t: string, i: nat)
    requires i <= |t|
    ensures SkipSpace(t, SkipSpace(t, i)) == SkipSpace(t, i)
  {
    SkipsBlank(t, i);
    SkipOver(t, i, SkipSpace(t, i));
  }

  lemma TokenIsTok(t: string, i: nat)
    requires i <= |t| && IsLine(t)
    ensures var tok := GetToken(t, i);
            && (tok.kind == '\0' ==> Blank(t, i, |t|))
            && (tok.kind != '\0' ==>
                  IsTok(t, Tok(tok.kind, tok.q, tok.eq)) && Blank(t, i, tok.q) && tok.next == SkipSpace(t, tok.eq))
  {
    hide SkipSpace, WordEnd, IsLine;
    SkipsBlank(t, i);
  }

  /** gettoken reads the token that stands at i. */
  lemma TokIsToken(t: string, i: nat, x: Tok)
    requires i <= |t| && IsLine(t) && IsTok(t, x) && Blank(t, i, x.start)
    ensures GetToken(t, i) == Token(x.kind, x.start, x.end, SkipSpace(t, x.end))
  {
    SkipOver(t, i, x.start);
    hide SkipSpace, WordEnd;
    StartIsNoSpace(t, x);
    if x.kind == 'a' {
      WordEnds(t, x.start, x.end);
    }
  }

  lemma StartIsNoSpace(t: string, x: Tok)
    requires IsTok(t, x)
    ensures SkipSpace(t, x.start) == x.start && (x.kind == 'a' ==> IsWordChar(t[x.start]))
  {
  }

  lemma {:induction false} LexesIsLexemes(t: string, i: nat, xs: seq<Tok>)
    requires i <= |t| && IsLine(t) && Lexes(t, i, xs)
    ensures xs == Lexemes(t, i)
    decreases |xs|
  {
    hide GetToken, SkipSpace;
    if xs == [] {
      BlankToken(t, i);
    } else {
      TokIsToken(t, i, xs[0]);
      LexesIsLexemes(t, xs[0].end, xs[1..]);
      SkipKeeps(t, xs[0].end);
    }
  }

  lemma BlankToken(t: string, i: nat)
    requires IsLine(t) && Blank(t, i, |t|)
    ensures GetToken(t, i).kind == '\0'
  {
    SkipOver(t, i, |t|);
  }

  /** White space before a token makes no difference. */
  lemma SkipKeeps(t: string, i: nat)
    requires i <= |t| && IsLine(t)
    ensures Lexemes(t, SkipSpace(t, i)) == Lexemes(t, i)
  {
    hide GetToken;
    SameToken(t, i);
  }

  lemma SameToken(t: string, i: nat)
    requires i <= |t| && IsLine(t)
    ensures GetToken(t, SkipSpace(t, i)) == GetToken(t, i)
  {
    SkipTwice(t, i);
    hide SkipSpace, WordEnd;
  }

  lemma {:induction false} LexemesLex(t: string, i: nat)
    requires i <= |t| && IsLine(t)
    ensures Lexes(t, i, Lexemes(t, i))
    decreases |t| - i
  {
    hide GetToken, SkipSpace, IsTok;
    TokenIsTok(t, i);
    var tok := GetToken(t, i);
    if tok.kind != '\0' {
      LexemesLex(t, tok.next);
      SkipKeeps(t, tok.eq);
      LexesFrom(t, tok.eq, tok.next);
    }
  }

  lemma LexesFrom(t: string, i: nat, j: nat)
    requires i <= |t| && IsLine(t) && j == SkipSpace(t, i) && Lexes(t, j, Lexemes(t, j))
    ensures Lexes(t, i, Lexemes(t, i))
  {
    hide GetToken, SkipSpace, IsTok;
    SkipsBlank(t, i);
    SkipKeeps(t, i);
  }

  /** gettoken splits a line into its tokens, whatever white space there is, and there is one way to do so. */
  lemma LexemesIff(t: string, i: nat, xs: seq<Tok>)
    requires i <= |t| && IsLine(t)
    ensures Lexes(t, i, xs) <==> xs == Lexemes(t, i)
  {
    LexemesLex(t, i);
    if Lexes(t, i, xs) {
      LexesIsLexemes(t, i, xs);
    }
  }

  // ---------- Derivations ----------

  predicate IsArrow(x: Tok) {
    x.kind == '<' || x.kind == '>' || x.kind == '+'
  }

  function WordOf(x: Tok): Span {
    (x.start, x.end)
  }

  /** Words and redirection symbols, and after each symbol a word. */
  ghost predicate IsSimple(xs: seq<Tok>) {
    && (forall k | 0 <= k < |xs| :: xs[k].kind == 'a' || IsArrow(xs[k]))
    && (forall k | 0 <= k < |xs| && IsArrow(xs[k]) :: k + 1 < |xs| && xs[k + 1].kind == 'a')
  }

  /** The words that follow no redirection symbol, in order; `after` says whether one stands before xs. */
  function Args(xs: seq<Tok>, after: bool): seq<Span> {
    if xs == [] then []
    else (if xs[0].kind == 'a' && !after then [WordOf(xs[0])] else []) + Args(xs[1..], IsArrow(xs[0]))
  }

  /** Each redirection symbol with the word after it, in order. */
  function Arrows(xs: seq<Tok>): seq<Redirection> {
    if |xs| < 2 then []
    else (if IsArrow(xs[0]) then [(WordOf(xs[1]), ModeOf(xs[0].kind))] else []) + Arrows(xs[1..])
  }

  /** The tokens stand for a list of commands. */
  ghost predicate DerivesLine(xs: seq<Tok>, c: Cmd<Span>)
    decreases |xs|, 4
  {
    || DerivesBack(xs, c)
    || (c.List? && exists m | 0 <= m < |xs| ::
          xs[m].kind == ';' && DerivesBack(xs[..m], c.left) && DerivesLine(xs[m + 1..], c.right))
  }

  ghost predicate DerivesBack(xs: seq<Tok>, c: Cmd<Span>)
    decreases |xs|, 3
  {
    || DerivesPipe(xs, c)
    || (c.Back? && xs != [] && xs[|xs| - 1].kind == '&' && DerivesBack(xs[..|xs| - 1], c.cmd))
  }

  ghost predicate DerivesPipe(xs: seq<Tok>, c: Cmd<Span>)
    decreases |xs|, 2
  {
    || DerivesExec(xs, c)
    || (c.Pipe? && exists m | 0 <= m < |xs| ::
          xs[m].kind == '|' && DerivesExec(xs[..m], c.left) && DerivesPipe(xs[m + 1..], c.right))
  }

  /** A simple command, or a line in parentheses with redirections after it. */
  ghost predicate DerivesExec(xs: seq<Tok>, c: Cmd<Span>)
    decreases |xs|, 1
  {
    || DerivesSimple(xs, c)
    || exists m, d | 0 < m < |xs| :: DerivesLine(xs[1..m], d) && IsBlock(xs, m, c, d)
  }

  ghost predicate DerivesSimple(xs: seq<Tok>, c: Cmd<Span>) {
    IsSimple(xs) && |Args(xs, false)| < MAXARGS && c == Wrap(Exec(Args(xs, false)), Arrows(xs))
  }

  ghost predicate IsBlock(xs: seq<Tok>, m: nat, c: Cmd<Span>, d: Cmd<Span>)
    requires m < |xs|
  {
    var rest := xs[m + 1..];
    && xs[0].kind == '(' && xs[m].kind == ')'
    && IsSimple(rest) && Args(rest, false) == [] && c == Wrap(d, Arrows(rest))
  }

  // ---------- The parser sees tokens ----------

  /** The first token and what comes after it. */
  lemma Front(t: string, i: nat)
    requires i <= |t| && IsLine(t)
    ensures var tok, xs := GetToken(t, i), Lexemes(t, i);
            && (tok.kind == '\0' <==> xs == [])
            && (xs != [] ==> xs[0] == Tok(tok.kind, tok.q, tok.eq) && xs[1..] == Lexemes(t, tok.next))
  {
    hide GetToken;
  }

  /** peek looks at the first character of the first token. */
  lemma SeesFront(t: string, i: nat)
    requires i <= |t| && IsLine(t)
    ensures var xs := Lexemes(t, i);
            && (Sees(t, i, "<>") <==> xs != [] && IsArrow(xs[0]))
            && (Sees(t, i, "|)&;") <==> xs != [] && xs[0].kind in "|)&;")
            && (Sees(t, i, "(") <==> xs != [] && xs[0].kind == '(')
            && (Sees(t, i, ")") <==> xs != [] && xs[0].kind == ')')
            && (Sees(t, i, "|") <==> xs != [] && xs[0].kind == '|')
            && (Sees(t, i, "&") <==> xs != [] && xs[0].kind == '&')
            && (Sees(t, i, ";") <==> xs != [] && xs[0].kind == ';')
  {
    hide Lexemes, SkipSpace, WordEnd;
    Front(t, i);
  }

  /** The tokens end, or go on with one of these symbols. */
  ghost predicate Ends(rest: seq<Tok>, toks: string) {
    rest == [] || rest[0].kind in toks
  }

  /** A simple command without its first word or its first redirection is one. */
  lemma SimpleDrop(xs: seq<Tok>)
    requires IsSimple(xs) && xs != []
    ensures xs[0].kind == 'a' ==> IsSimple(xs[1..])
    ensures xs[0].kind != 'a' ==> |xs| >= 2 && IsArrow(xs[0]) && xs[1].kind == 'a' && IsSimple(xs[2..])
  {
  }

  lemma {:induction false} WordFirst(xs: seq<Tok>)
    requires xs != [] && xs[0].kind == 'a'
    ensures Args(xs, false) == [WordOf(xs[0])] + Args(xs[1..], false) && Arrows(xs) == Arrows(xs[1..])
  {
  }

  lemma {:induction false} ArrowFirst(xs: seq<Tok>)
    requires |xs| >= 2 && IsArrow(xs[0]) && xs[1].kind == 'a'
    ensures Args(xs, false) == Args(xs[2..], false)
    ensures Arrows(xs) == [(WordOf(xs[1]), ModeOf(xs[0].kind))] + Arrows(xs[2..])
  {
    var ys := xs[1..];
    assert ys[0] == xs[1] && ys[1..] == xs[2..];
    assert Args(xs, false) == Args(ys, true) == Args(ys[1..], false);
    assert Arrows(ys) == Arrows(ys[1..]);
  }

  lemma {:induction false} SimpleTail(xs: seq<Tok>)
    requires IsSimple(xs) && xs != []
    ensures xs[0].kind == 'a' ==>
              && IsSimple(xs[1..]) && Args(xs, false) == [WordOf(xs[0])] + Args(xs[1..], false)
              && Arrows(xs) == Arrows(xs[1..])
    ensures xs[0].kind != 'a' ==>
              && |xs| >= 2 && IsArrow(xs[0]) && xs[1].kind == 'a' && IsSimple(xs[2..])
              && Args(xs, false) == Args(xs[2..], false)
              && Arrows(xs) == [(WordOf(xs[1]), ModeOf(xs[0].kind))] + Arrows(xs[2..])
  {
    hide IsSimple, Args, Arrows;
    SimpleDrop(xs);
    if xs[0].kind == 'a' {
      WordFirst(xs);
    } else {
      ArrowFirst(xs);
    }
  }

  lemma ParseRedirsEnd(t: string, i: nat)
    requires i <= |t| && IsLine(t) && !Sees(t, i, "<>")
    ensures ParseRedirs(t, i) == Ok([], SkipSpace(t, i))
  {
    hide GetToken, SkipSpace, Sees;
  }

  /** parseredirs takes the redirections that stand before the next word. */
  lemma {:induction false} RedirsTake(t: string, i: nat, xs: seq<Tok>, rest: seq<Tok>) returns (k: nat)
    requires i <= |t| && IsLine(t) && Lexemes(t, i) == xs + rest && IsSimple(xs) && Ends(rest, "|)&;")
    ensures k <= |xs| && IsSimple(xs[k..]) && (k < |xs| ==> xs[k].kind == 'a')
    ensures var r := ParseRedirs(t, i);
            && r.Ok? && Lexemes(t, r.next) == xs[k..] + rest
            && Args(xs, false) == Args(xs[k..], false) && Arrows(xs) == r.value + Arrows(xs[k..])
    decreases |xs|
  {
    hide Lexemes, GetToken, SkipSpace, Sees, ParseRedirs, IsSimple, Args, Arrows;
    SeesFront(t, i);
    if xs == [] || xs[0].kind == 'a' {
      k := 0;
      NotArrow(xs, rest);
      ParseRedirsEnd(t, i);
      SkipKeeps(t, i);
      assert xs[0..] == xs;
    } else {
      SimpleTail(xs);
      var tok := GetToken(t, i);
      Front(t, i);
      assert (xs + rest)[1..] == xs[1..] + rest && (xs[1..] + rest)[0] == xs[1];
      Front(t, tok.next);
      var file := GetToken(t, tok.next);
      assert (xs[1..] + rest)[1..] == xs[2..] + rest;
      ParseOne(t, i);
      k := RedirsTake(t, file.next, xs[2..], rest);
      assert xs[2..][k..] == xs[k + 2..];
      k := k + 2;
    }
  }

  lemma NotArrow(xs: seq<Tok>, rest: seq<Tok>)
    requires xs == [] || xs[0].kind == 'a'
    requires Ends(rest, "|)&;")
    ensures xs + rest == [] || !IsArrow((xs + rest)[0])
  {
  }

  lemma ParseArgsEnd(t: string, i: nat, argc: nat)
    requires i <= |t| && IsLine(t) && (Sees(t, i, "|)&;") || GetToken(t, i).kind == '\0')
    ensures var r := ParseArgs(t, i, argc);
            && r.Ok? && r.value == ([], [])
            && r.next == if Sees(t, i, "|)&;") then SkipSpace(t, i) else GetToken(t, i).next
  {
    hide GetToken, SkipSpace, Sees;
  }

  lemma ParseArgsStep(t: string, i: nat, argc: nat)
    requires i <= |t| && IsLine(t) && !Sees(t, i, "|)&;") && GetToken(t, i).kind == 'a' && argc + 1 < MAXARGS
    ensures var tok := GetToken(t, i);
            var rs := ParseRedirs(t, tok.next);
            rs.Ok? ==>
              var rest := ParseArgs(t, rs.next, argc + 1);
              rest.Ok? ==>
                ParseArgs(t, i, argc) == Ok(([(tok.q, tok.eq)] + rest.value.0, rs.value + rest.value.1), rest.next)
  {
    hide GetToken, SkipSpace, Sees, ParseRedirs;
  }

  lemma NoTokens(t: string, i: nat)
    requires i <= |t| && IsLine(t) && Lexemes(t, i) == []
    ensures Lexemes(t, GetToken(t, i).next) == []
  {
    Front(t, i);
    EndStays(t, i);
  }

  lemma EndStays(t: string, i: nat)
    requires i <= |t| && IsLine(t) && GetToken(t, i).kind == '\0'
    ensures GetToken(t, GetToken(t, i).next).kind == '\0'
  {
    SkipTwice(t, i);
    hide WordEnd;
  }

  /** The loop of parseexec takes all words of a simple command and all redirections after them. */
  lemma {:induction false} ArgsTake(t: string, i: nat, xs: seq<Tok>, rest: seq<Tok>, argc: nat)
    requires i <= |t| && IsLine(t) && Lexemes(t, i) == xs + rest && IsSimple(xs) && Ends(rest, "|)&;")
    requires (xs != [] ==> xs[0].kind == 'a') && argc + |Args(xs, false)| < MAXARGS
    ensures var r := ParseArgs(t, i, argc);
            r.Ok? && r.value == (Args(xs, false), Arrows(xs)) && Lexemes(t, r.next) == rest
    decreases |xs|
  {
    hide Lexemes, GetToken, SkipSpace, Sees, ParseRedirs, ParseArgs, IsSimple, Args, Arrows;
    SeesFront(t, i);
    Front(t, i);
    if xs == [] {
      NothingSimple(rest);
      ParseArgsEnd(t, i, argc);
      SkipKeeps(t, i);
      if rest == [] {
        NoTokens(t, i);
      }
    } else {
      SimpleTail(xs);
      assert (xs + rest)[0] == xs[0] && (xs + rest)[1..] == xs[1..] + rest;
      var tok := GetToken(t, i);
      var k := RedirsTake(t, tok.next, xs[1..], rest);
      var rs := ParseRedirs(t, tok.next);
      ArgsTake(t, rs.next, xs[1..][k..], rest, argc + 1);
      ParseArgsStep(t, i, argc);
    }
  }

  lemma NothingSimple(rest: seq<Tok>)
    ensures [] + rest == rest && Args([], false) == [] && Arrows([]) == []
  {
  }

  // ---------- What is derived is parsed ----------

  /** The parse gave command c and stands before the rest. */
  ghost predicate Gives(t: string, r: Result<Cmd<Span>>, c: Cmd<Span>, rest: seq<Tok>)
    requires IsLine(t)
  {
    r.Ok? && r.value == c && r.next <= |t| && Lexemes(t, r.next) == rest
  }

  lemma ExecIsSimple(t: string, i: nat)
    requires i <= |t| && IsLine(t) && !Sees(t, i, "(")
    ensures var rs := ParseRedirs(t, i);
            rs.Ok? ==>
              var rest := ParseArgs(t, rs.next, 0);
              rest.Ok? ==>
                var r := ParseExec(t, i);
                r.Ok? && r.value == Wrap(Exec(rest.value.0), rs.value + rest.value.1) && r.next == rest.next
  {
    hide GetToken, SkipSpace, Sees, ParseRedirs, ParseArgs, ParseBlock, Wrap;
  }

  lemma SimpleParses(t: string, i: nat, xs: seq<Tok>, rest: seq<Tok>, c: Cmd<Span>)
    requires i <= |t| && IsLine(t) && Lexemes(t, i) == xs + rest && DerivesSimple(xs, c) && Ends(rest, "|)&;")
    ensures Gives(t, ParseExec(t, i), c, rest)
  {
    hide Lexemes, GetToken, SkipSpace, Sees, ParseRedirs, ParseArgs, ParseExec, IsSimple, Args, Arrows, Wrap;
    SeesFront(t, i);
    NoParenthesis(xs, rest);
    var k := RedirsTake(t, i, xs, rest);
    var rs := ParseRedirs(t, i);
    ArgsTake(t, rs.next, xs[k..], rest, 0);
    ExecIsSimple(t, i);
  }

  lemma NoParenthesis(xs: seq<Tok>, rest: seq<Tok>)
    requires IsSimple(xs) && Ends(rest, "|)&;")
    ensures xs + rest == [] || (xs + rest)[0].kind != '('
  {
  }

  lemma ExecIsBlock(t: string, i: nat)
    requires i <= |t| && IsLine(t) && Sees(t, i, "(")
    ensures var line := ParseLine(t, GetToken(t, i).next);
            line.Ok? && Sees(t, line.next, ")") ==>
              var rs := ParseRedirs(t, GetToken(t, line.next).next);
              rs.Ok? ==>
                var r := ParseExec(t, i);
                r.Ok? && r.value == Wrap(line.value, rs.value) && r.next == rs.next
  {
    hide GetToken, SkipSpace, Sees, ParseRedirs, ParseLine, Wrap;
  }

  /** A word among redirections would be an argument. */
  lemma NoWordLeft(xs: seq<Tok>, k: nat)
    requires k <= |xs| && Args(xs[k..], false) == [] && (k < |xs| ==> xs[k].kind == 'a')
    ensures k == |xs|
  {
  }

  lemma BlockParses(t: string, i: nat, xs: seq<Tok>, rest: seq<Tok>, c: Cmd<Span>, m: nat, d: Cmd<Span>)
    requires i <= |t| && IsLine(t) && Lexemes(t, i) == xs + rest && Ends(rest, "|)&;")
    requires 0 < m < |xs| && DerivesLine(xs[1..m], d) && IsBlock(xs, m, c, d)
    ensures Gives(t, ParseExec(t, i), c, rest)
    decreases |xs|, 0
  {
    hide Lexemes, GetToken, SkipSpace, Sees, ParseRedirs, ParseLine, ParseExec, IsSimple, Args, Arrows, Wrap,
         DerivesLine;
    SeesFront(t, i);
    Front(t, i);
    var open := GetToken(t, i);
    SplitAt(xs, m, rest);
    assert (xs + rest)[0] == xs[0] && (xs + rest)[1..] == xs[1..m] + (xs[m..] + rest);
    LineParses(t, open.next, xs[1..m], xs[m..] + rest, d);
    var line := ParseLine(t, open.next);
    SeesFront(t, line.next);
    Front(t, line.next);
    var k := RedirsTake(t, GetToken(t, line.next).next, xs[m + 1..], rest);
    NoWordLeft(xs[m + 1..], k);
    NothingLeft(xs[m + 1..], k, rest);
    ExecIsBlock(t, i);
  }

  lemma NothingLeft(xs: seq<Tok>, k: nat, rest: seq<Tok>)
    requires k == |xs|
    ensures xs[k..] + rest == rest && Arrows(xs[k..]) == []
    ensures forall rs: seq<Redirection> :: rs + Arrows(xs[k..]) == rs
  {
  }

  lemma ExecParses(t: string, i: nat, xs: seq<Tok>, rest: seq<Tok>, c: Cmd<Span>)
    requires i <= |t| && IsLine(t) && Lexemes(t, i) == xs + rest && DerivesExec(xs, c) && Ends(rest, "|)&;")
    ensures Gives(t, ParseExec(t, i), c, rest)
    decreases |xs|, 1
  {
    hide Lexemes, ParseExec, DerivesLine, IsBlock, DerivesSimple, Gives;
    if DerivesSimple(xs, c) {
      SimpleParses(t, i, xs, rest, c);
    } else {
      var m, d :| 0 < m < |xs| && DerivesLine(xs[1..m], d) && IsBlock(xs, m, c, d);
      BlockParses(t, i, xs, rest, c, m, d);
    }
  }

  lemma SplitAt(xs: seq<Tok>, m: nat, rest: seq<Tok>)
    requires m < |xs|
    ensures xs + rest == xs[..m] + (xs[m..] + rest)
    ensures (xs[m..] + rest)[0] == xs[m] && (xs[m..] + rest)[1..] == xs[m + 1..] + rest
  {
  }

  lemma PipeIs(t: string, i: nat)
    requires i <= |t| && IsLine(t)
    ensures var left := ParseExec(t, i);
            && (left.Ok? && !Sees(t, left.next, "|") ==>
                  ParsePipe(t, i) == Ok(left.value, SkipSpace(t, left.next)))
            && (left.Ok? && Sees(t, left.next, "|") ==>
                  var right := ParsePipe(t, GetToken(t, left.next).next);
                  right.Ok? ==> ParsePipe(t, i) == Ok(Pipe(left.value, right.value), right.next))
  {
    hide GetToken, SkipSpace, Sees, ParseExec;
  }

  lemma PipeParses(t: string, i: nat, xs: seq<Tok>, rest: seq<Tok>, c: Cmd<Span>)
    requires i <= |t| && IsLine(t) && Lexemes(t, i) == xs + rest && DerivesPipe(xs, c) && Ends(rest, ")&;")
    ensures Gives(t, ParsePipe(t, i), c, rest)
    decreases |xs|, 2
  {
    hide Lexemes, GetToken, SkipSpace, Sees, ParseExec, ParsePipe, DerivesExec;
    PipeIs(t, i);
    if DerivesExec(xs, c) {
      ExecParses(t, i, xs, rest, c);
      var left := ParseExec(t, i);
      SeesFront(t, left.next);
      SkipKeeps(t, left.next);
    } else {
      var m :| 0 <= m < |xs| && xs[m].kind == '|' && DerivesExec(xs[..m], c.left) && DerivesPipe(xs[m + 1..], c.right);
      SplitAt(xs, m, rest);
      ExecParses(t, i, xs[..m], xs[m..] + rest, c.left);
      var left := ParseExec(t, i);
      SeesFront(t, left.next);
      Front(t, left.next);
      PipeParses(t, GetToken(t, left.next).next, xs[m + 1..], rest, c.right);
    }
  }

  lemma BacksIs(t: string, i: nat, cmd: Cmd<Span>)
    requires i <= |t| && IsLine(t) && WordsOk(t, cmd)
    ensures Sees(t, i, "&") ==> ParseBacks(t, i, cmd) == ParseBacks(t, GetToken(t, i).next, Back(cmd))
    ensures !Sees(t, i, "&") ==> ParseBacks(t, i, cmd) == Ok(cmd, SkipSpace(t, i))
  {
    hide GetToken, SkipSpace, Sees;
  }

  /** What parsepipe and the loop over & have read up to j. */
  lemma BackParses(t: string, i: nat, xs: seq<Tok>, rest: seq<Tok>, c: Cmd<Span>) returns (j: nat)
    requires i <= |t| && IsLine(t) && Lexemes(t, i) == xs + rest && DerivesBack(xs, c) && Ends(rest, ")&;")
    ensures j <= |t| && Lexemes(t, j) == rest && WordsOk(t, c)
    ensures var pipe := ParsePipe(t, i);
            pipe.Ok? && ParseBacks(t, pipe.next, pipe.value) == ParseBacks(t, j, c)
    decreases |xs|, 3
  {
    hide Lexemes, GetToken, SkipSpace, Sees, ParsePipe, ParseBacks, DerivesPipe, WordsOk;
    if DerivesPipe(xs, c) {
      PipeParses(t, i, xs, rest, c);
      j := ParsePipe(t, i).next;
    } else {
      var last := |xs| - 1;
      assert xs + rest == xs[..last] + ([xs[last]] + rest);
      var k := BackParses(t, i, xs[..last], [xs[last]] + rest, c.cmd);
      SeesFront(t, k);
      Front(t, k);
      assert ([xs[last]] + rest)[1..] == rest;
      BacksIs(t, k, c.cmd);
      BackWords(t, c);
      j := GetToken(t, k).next;
    }
  }

  lemma BackWords(t: string, c: Cmd<Span>)
    requires c.Back? && WordsOk(t, c.cmd)
    ensures WordsOk(t, c)
  {
  }

  lemma LineIs(t: string, i: nat)
    requires i <= |t| && IsLine(t)
    ensures var pipe := ParsePipe(t, i);
            pipe.Ok? ==>
              var cmd := ParseBacks(t, pipe.next, pipe.value);
              && (!Sees(t, cmd.next, ";") ==> ParseLine(t, i) == Ok(cmd.value, SkipSpace(t, cmd.next)))
              && (Sees(t, cmd.next, ";") ==>
                    var right := ParseLine(t, GetToken(t, cmd.next).next);
                    right.Ok? ==> ParseLine(t, i) == Ok(List(cmd.value, right.value), right.next))
  {
    hide GetToken, SkipSpace, Sees, ParsePipe, ParseBacks;
  }

  lemma LineParses(t: string, i: nat, xs: seq<Tok>, rest: seq<Tok>, c: Cmd<Span>)
    requires i <= |t| && IsLine(t) && Lexemes(t, i) == xs + rest && DerivesLine(xs, c) && Ends(rest, ")")
    ensures Gives(t, ParseLine(t, i), c, rest)
    decreases |xs|, 4
  {
    hide Lexemes, GetToken, SkipSpace, Sees, ParsePipe, ParseBacks, ParseLine, DerivesBack;
    LineIs(t, i);
    if DerivesBack(xs, c) {
      var j := BackParses(t, i, xs, rest, c);
      SeesFront(t, j);
      BacksIs(t, j, c);
      SkipKeeps(t, j);
      SeesFront(t, SkipSpace(t, j));
      SkipKeeps(t, SkipSpace(t, j));
    } else {
      var m :| 0 <= m < |xs| && xs[m].kind == ';' && DerivesBack(xs[..m], c.left) && DerivesLine(xs[m + 1..], c.right);
      SplitAt(xs, m, rest);
      var j := BackParses(t, i, xs[..m], xs[m..] + rest, c.left);
      SeesFront(t, j);
      BacksIs(t, j, c.left);
      SkipKeeps(t, j);
      SeesFront(t, SkipSpace(t, j));
      Front(t, SkipSpace(t, j));
      LineParses(t, GetToken(t, SkipSpace(t, j)).next, xs[m + 1..], rest, c.right);
    }
  }

  // ---------- What is parsed is derived ----------

  /** Redirections, or a word, put before a simple command. */
  lemma {:induction false} SimpleCons(xs: seq<Tok>, n: nat)
    requires n <= |xs| && IsSimple(xs[n..])
    requires (n == 1 && xs[0].kind == 'a') || (n == 2 && IsArrow(xs[0]) && xs[1].kind == 'a')
    ensures IsSimple(xs)
  {
    var ys := xs[n..];
    assert forall k | n <= k < |xs| :: xs[k] == ys[k - n];
    forall k | 0 <= k < |xs| && IsArrow(xs[k]) ensures k + 1 < |xs| && xs[k + 1].kind == 'a' {
      if n <= k {
        assert IsArrow(ys[k - n]);
        assert xs[k + 1] == ys[k - n + 1];
      }
    }
  }

  /** Redirections alone. */
  ghost predicate AllArrows(xs: seq<Tok>, rs: seq<Redirection>) {
    IsSimple(xs) && Args(xs, false) == [] && Arrows(xs) == rs
  }

  lemma ParseRedirsStep(t: string, i: nat)
    requires i <= |t| && IsLine(t) && Sees(t, i, "<>") && ParseRedirs(t, i).Ok?
    ensures var tok := GetToken(t, i);
            var file := GetToken(t, tok.next);
            file.kind == 'a' && ParseRedirs(t, file.next).Ok?
            && ParseRedirs(t, i) == Ok([((file.q, file.eq), ModeOf(tok.kind))] + ParseRedirs(t, file.next).value,
                                       ParseRedirs(t, file.next).next)
  {
    hide GetToken, SkipSpace, Sees, ModeOf;
  }

  lemma {:induction false} RedirsSound(t: string, i: nat) returns (xs: seq<Tok>)
    requires i <= |t| && IsLine(t) && ParseRedirs(t, i).Ok?
    ensures var r := ParseRedirs(t, i); Lexemes(t, i) == xs + Lexemes(t, r.next) && AllArrows(xs, r.value)
    decreases |t| - i
  {
    hide Lexemes, GetToken, SkipSpace, Sees, ParseRedirs, IsSimple, Args, Arrows;
    SeesFront(t, i);
    if Sees(t, i, "<>") {
      ParseRedirsStep(t, i);
      Front(t, i);
      var tok := GetToken(t, i);
      Front(t, tok.next);
      var file := GetToken(t, tok.next);
      var more := RedirsSound(t, file.next);
      var a, b := Lexemes(t, i)[0], Lexemes(t, tok.next)[0];
      xs := [a, b] + more;
      assert Lexemes(t, i) == [a] + Lexemes(t, tok.next);
      assert Lexemes(t, tok.next) == [b] + Lexemes(t, file.next);
      assert xs[2..] == more;
      SimpleCons(xs, 2);
      ArrowFirst(xs);
    } else {
      xs := [];
      ParseRedirsEnd(t, i);
      SkipKeeps(t, i);
      EmptyIsSimple();
    }
  }

  lemma EmptyIsSimple()
    ensures AllArrows([], [])
  {
  }

  lemma ParseArgsInv(t: string, i: nat, argc: nat)
    requires i <= |t| && IsLine(t) && ParseArgs(t, i, argc).Ok? && !Sees(t, i, "|)&;") && GetToken(t, i).kind != '\0'
    ensures var tok := GetToken(t, i);
            var rs := ParseRedirs(t, tok.next);
            tok.kind == 'a' && argc + 1 < MAXARGS && rs.Ok?
            && var rest := ParseArgs(t, rs.next, argc + 1);
               rest.Ok?
               && ParseArgs(t, i, argc) == Ok(([(tok.q, tok.eq)] + rest.value.0, rs.value + rest.value.1), rest.next)
  {
    hide GetToken, SkipSpace, Sees, ParseRedirs;
  }

  /** Redirections before a simple command belong to it. */
  lemma {:induction false} ArrowsBefore(xs: seq<Tok>, rs: seq<Redirection>, ys: seq<Tok>)
    requires AllArrows(xs, rs) && IsSimple(ys)
    ensures IsSimple(xs + ys) && Args(xs + ys, false) == Args(ys, false) && Arrows(xs + ys) == rs + Arrows(ys)
    decreases |xs|
  {
    hide Args, Arrows, IsSimple;
    if xs == [] {
      assert xs + ys == ys;
      NothingSimple([]);
    } else {
      SimpleTail(xs);
      assert (xs + ys)[2..] == xs[2..] + ys;
      ArrowsBefore(xs[2..], rs[1..], ys);
      SimpleCons(xs + ys, 2);
      ArrowFirst(xs + ys);
    }
  }

  lemma {:induction false} ArgsSound(t: string, i: nat, argc: nat) returns (xs: seq<Tok>)
    requires i <= |t| && IsLine(t) && ParseArgs(t, i, argc).Ok?
    ensures var r := ParseArgs(t, i, argc);
            Lexemes(t, i) == xs + Lexemes(t, r.next) && IsSimple(xs) && r.value == (Args(xs, false), Arrows(xs))
    decreases |t| - i
  {
    hide Lexemes, GetToken, SkipSpace, Sees, ParseRedirs, ParseArgs, IsSimple, Args, Arrows;
    Front(t, i);
    if Sees(t, i, "|)&;") || GetToken(t, i).kind == '\0' {
      xs := [];
      ParseArgsEnd(t, i, argc);
      SkipKeeps(t, i);
      NothingSimple([]);
      EmptyIsSimple();
      if !Sees(t, i, "|)&;") {
        NoTokens(t, i);
      }
    } else {
      ParseArgsInv(t, i, argc);
      var tok := GetToken(t, i);
      var rs := ParseRedirs(t, tok.next);
      var ys := RedirsSound(t, tok.next);
      var zs := ArgsSound(t, rs.next, argc + 1);
      var x := Lexemes(t, i)[0];
      xs := [x] + (ys + zs);
      ArrowsBefore(ys, rs.value, zs);
      assert xs[1..] == ys + zs;
      SimpleCons(xs, 1);
      WordFirst(xs);
      assert Lexemes(t, i) == [x] + Lexemes(t, tok.next);
    }
  }

  lemma ExecInv(t: string, i: nat)
    requires i <= |t| && IsLine(t) && ParseExec(t, i).Ok? && !Sees(t, i, "(")
    ensures ParseRedirs(t, i).Ok? && ParseArgs(t, ParseRedirs(t, i).next, 0).Ok?
  {
    hide GetToken, SkipSpace, Sees, ParseRedirs, ParseArgs, Wrap;
  }

  lemma BlockInv(t: string, i: nat)
    requires i <= |t| && IsLine(t) && ParseExec(t, i).Ok? && Sees(t, i, "(")
    ensures var line := ParseLine(t, GetToken(t, i).next);
            line.Ok? && Sees(t, line.next, ")") && ParseRedirs(t, GetToken(t, line.next).next).Ok?
            && GetToken(t, i).next <= line.next <= |t| && i < GetToken(t, i).next
  {
    hide SkipSpace, ParseRedirs, ParseLine, Wrap, WordEnd;
  }

  lemma ExecSound(t: string, i: nat) returns (xs: seq<Tok>)
    requires i <= |t| && IsLine(t) && ParseExec(t, i).Ok?
    ensures var r := ParseExec(t, i); Lexemes(t, i) == xs + Lexemes(t, r.next) && DerivesExec(xs, r.value)
    decreases |t| - i, 2
  {
    hide Lexemes, GetToken, SkipSpace, Sees, ParseRedirs, ParseArgs, ParseExec, ParseLine, IsSimple, Args, Arrows, Wrap,
         DerivesLine;
    SeesFront(t, i);
    Front(t, i);
    if Sees(t, i, "(") {
      BlockInv(t, i);
      ExecIsBlock(t, i);
      var open := GetToken(t, i);
      var line := ParseLine(t, open.next);
      var ys := LineSound(t, open.next);
      SeesFront(t, line.next);
      Front(t, line.next);
      var close := GetToken(t, line.next);
      var zs := RedirsSound(t, close.next);
      var x, y := Lexemes(t, i)[0], Lexemes(t, line.next)[0];
      xs := [x] + ys + [y] + zs;
      var m := 1 + |ys|;
      assert xs[1..m] == ys && xs[m] == y && xs[m + 1..] == zs;
      assert IsBlock(xs, m, ParseExec(t, i).value, line.value);
      assert Lexemes(t, i) == [x] + Lexemes(t, open.next);
      assert Lexemes(t, line.next) == [y] + Lexemes(t, close.next);
    } else {
      ExecInv(t, i);
      ExecIsSimple(t, i);
      var rs := ParseRedirs(t, i);
      var ys := RedirsSound(t, i);
      var zs := ArgsSound(t, rs.next, 0);
      ArrowsBefore(ys, rs.value, zs);
      xs := ys + zs;
      assert DerivesSimple(xs, ParseExec(t, i).value);
    }
  }

  lemma PipeInv(t: string, i: nat)
    requires i <= |t| && IsLine(t) && ParsePipe(t, i).Ok?
    ensures var left := ParseExec(t, i);
            left.Ok? && (Sees(t, left.next, "|") ==> ParsePipe(t, GetToken(t, left.next).next).Ok?)
  {
    hide GetToken, SkipSpace, Sees, ParseExec;
  }

  lemma TokenGoesOn(t: string, i: nat)
    requires i <= |t| && IsLine(t) && GetToken(t, i).kind != '\0'
    ensures i < GetToken(t, i).next <= |t|
  {
  }

  lemma PipeSound(t: string, i: nat) returns (xs: seq<Tok>)
    requires i <= |t| && IsLine(t) && ParsePipe(t, i).Ok?
    ensures var r := ParsePipe(t, i); Lexemes(t, i) == xs + Lexemes(t, r.next) && DerivesPipe(xs, r.value)
    decreases |t| - i, 3
  {
    hide Lexemes, GetToken, SkipSpace, Sees, ParseExec, ParsePipe, DerivesExec;
    PipeInv(t, i);
    PipeIs(t, i);
    var left := ParseExec(t, i);
    var ys := ExecSound(t, i);
    SeesFront(t, left.next);
    if Sees(t, left.next, "|") {
      Front(t, left.next);
      TokenGoesOn(t, left.next);
      var tok := GetToken(t, left.next);
      var zs := PipeSound(t, tok.next);
      var x := Lexemes(t, left.next)[0];
      xs := ys + [x] + zs;
      var m := |ys|;
      assert xs[..m] == ys && xs[m] == x && xs[m + 1..] == zs;
      assert Lexemes(t, left.next) == [x] + Lexemes(t, tok.next);
    } else {
      SkipKeeps(t, left.next);
      xs := ys;
    }
  }

  /** Each & puts the command before it in the background. */
  lemma {:induction false} BacksSound(t: string, i: nat, cmd: Cmd<Span>, ys: seq<Tok>) returns (xs: seq<Tok>)
    requires i <= |t| && IsLine(t) && WordsOk(t, cmd) && DerivesBack(ys, cmd)
    ensures var r := ParseBacks(t, i, cmd);
            ys + Lexemes(t, i) == xs + Lexemes(t, r.next) && DerivesBack(xs, r.value)
    decreases |t| - i
  {
    hide Lexemes, GetToken, SkipSpace, Sees, ParseBacks, DerivesPipe;
    SeesFront(t, i);
    BacksIs(t, i, cmd);
    if Sees(t, i, "&") {
      Front(t, i);
      TokenGoesOn(t, i);
      var x := Lexemes(t, i)[0];
      assert (ys + [x])[..|ys|] == ys;
      xs := BacksSound(t, GetToken(t, i).next, Back(cmd), ys + [x]);
      assert Lexemes(t, i) == [x] + Lexemes(t, GetToken(t, i).next);
    } else {
      SkipKeeps(t, i);
      xs := ys;
    }
  }

  lemma LineInv(t: string, i: nat)
    requires i <= |t| && IsLine(t) && ParseLine(t, i).Ok?
    ensures var pipe := ParsePipe(t, i);
            pipe.Ok?
            && var cmd := ParseBacks(t, pipe.next, pipe.value);
               Sees(t, cmd.next, ";") ==> ParseLine(t, GetToken(t, cmd.next).next).Ok?
  {
    hide GetToken, SkipSpace, Sees, ParsePipe, ParseBacks;
  }

  lemma LineSound(t: string, i: nat) returns (xs: seq<Tok>)
    requires i <= |t| && IsLine(t) && ParseLine(t, i).Ok?
    ensures var r := ParseLine(t, i); Lexemes(t, i) == xs + Lexemes(t, r.next) && DerivesLine(xs, r.value)
    decreases |t| - i, 4
  {
    hide Lexemes, GetToken, SkipSpace, Sees, ParsePipe, ParseBacks, ParseLine, DerivesPipe;
    LineInv(t, i);
    LineIs(t, i);
    var pipe := ParsePipe(t, i);
    var ps := PipeSound(t, i);
    var cmd := ParseBacks(t, pipe.next, pipe.value);
    var ys := BacksSound(t, pipe.next, pipe.value, ps);
    hide DerivesBack;
    SeesFront(t, cmd.next);
    if Sees(t, cmd.next, ";") {
      Front(t, cmd.next);
      TokenGoesOn(t, cmd.next);
      var tok := GetToken(t, cmd.next);
      var zs := LineSound(t, tok.next);
      var x := Lexemes(t, cmd.next)[0];
      xs := ys + [x] + zs;
      var m := |ys|;
      assert xs[..m] == ys && xs[m] == x && xs[m + 1..] == zs;
      assert Lexemes(t, cmd.next) == [x] + Lexemes(t, tok.next);
    } else {
      SkipKeeps(t, cmd.next);
      xs := ys;
    }
  }

  /**
   The shell accepts a line if and only if its tokens can be derived, and the command
   it builds is the one command they derive.
   */
  lemma AcceptsIff(t: string, c: Cmd<Span>)
    requires IsLine(t)
    ensures ParseCmd(t) == Ok(c, |t|) <==> DerivesLine(Lexemes(t, 0), c)
  {
    hide Lexemes, GetToken, SkipSpace, ParseLine, DerivesLine;
    var line := ParseLine(t, 0);
    if DerivesLine(Lexemes(t, 0), c) {
      assert Lexemes(t, 0) + [] == Lexemes(t, 0);
      LineParses(t, 0, Lexemes(t, 0), [], c);
      AtEnd(t, line.next);
    }
    if ParseCmd(t) == Ok(c, |t|) {
      var xs := LineSound(t, 0);
      AtEnd(t, line.next);
      assert xs + [] == xs;
    }
  }

  lemma AtEnd(t: string, i: nat)
    requires i <= |t| && IsLine(t)
    ensures SkipSpace(t, i) == |t| <==> Lexemes(t, i) == []
  {
    hide SkipSpace, WordEnd;
    Front(t, i);
  }

  /** The shell refuses a line exactly when its tokens derive no command. */
  lemma RefusesIff(t: string)
    requires IsLine(t)
    ensures ParseCmd(t).Panic? <==> forall c :: !DerivesLine(Lexemes(t, 0), c)
  {
    hide Lexemes, ParseLine, DerivesLine;
    if ParseCmd(t).Ok? {
      assert ParseCmd(t) == Ok(ParseCmd(t).value, |t|);
      AcceptsIff(t, ParseCmd(t).value);
    } else {
      forall c ensures !DerivesLine(Lexemes(t, 0), c) {
        AcceptsIff(t, c);
      }
    }
  }
}
