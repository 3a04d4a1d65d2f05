/**
 The shell's parser, user/sh.c.

 A command line is a string without NUL; reading at its end gives NUL.  A word
 of the parsed command is a pair of positions, as argv/eargv and file/efile
 are pairs of pointers into the line.  Where the shell panics the parse fails.
 */
module Shell {

  const MAXARGS := 10

  type Span = (nat, nat)

  datatype Mode = In | Out | Append            // <, >, >>

  /** A command whose words are of type W: spans of a line, or strings. */
  datatype Cmd<W> =
    | Exec(args: seq<W>)
    | Redir(cmd: Cmd<W>, file: W, mode: Mode)
    | Pipe(left: Cmd<W>, right: Cmd<W>)
    | List(left: Cmd<W>, right: Cmd<W>)
    | Back(cmd: Cmd<W>)

  datatype Result<T> = Ok(value: T, next: nat) | Panic

  // ---------- Tokens ----------

  predicate IsSpace(c: char) {
    c == ' ' || c == '\t' || c == '\r' || c == '\n' || c == '\U{0B}'
  }

  predicate IsSymbol(c: char) {
    c == '<' || c == '|' || c == '>' || c == '&' || c == ';' || c == '(' || c == ')'
  }

  predicate IsWordChar(c: char) {
    !IsSpace(c) && !IsSymbol(c) && c != '\0'
  }

  /** A line holds no NUL. */
  predicate IsLine(t: string) {
    forall i | 0 <= i < |t| :: t[i] != '\0'
  }

  function CharAt(t: string, i: nat): char {
    if i < |t| then t[i] else '\0'
  }

  function SkipSpace(t: string, i: nat): (j: nat)
    requires i <= |t|
    ensures i <= j <= |t| && !IsSpace(CharAt(t, j))
    decreases |t| - i
  {
    if i < |t| && IsSpace(t[i]) then SkipSpace(t, i + 1) else i
  }

  function WordEnd(t: string, i: nat): (j: nat)
    requires i <= |t| && IsLine(t)
    ensures i <= j <= |t| && !IsWordChar(CharAt(t, j)) && forall k | i <= k < j :: IsWordChar(t[k])
    decreases |t| - i
  {
    if i < |t| && IsWordChar(t[i]) then WordEnd(t, i + 1) else i
  }

  datatype Token = Token(kind: char, q: nat, eq: nat, next: nat)

  /** gettoken: the token at i, with 'a' for a word, '+' for >>, and NUL for the end. */
  function GetToken(t: string, i: nat): (r: Token)
    requires i <= |t| && IsLine(t)
    ensures i <= r.q <= r.eq <= r.next <= |t| && !IsSpace(CharAt(t, r.next))
    ensures r.kind != '\0' <==> r.q < |t|
    ensures r.kind != '\0' ==> r.q < r.eq
    ensures r.kind == 'a' ==> IsWord(t, (r.q, r.eq))
  {
    var q := SkipSpace(t, i);
    var c := CharAt(t, q);
    if c == '\0' then
      Token('\0', q, q, SkipSpace(t, q))
    else if c == '>' then
      if CharAt(t, q + 1) == '>' then Token('+', q, q + 2, SkipSpace(t, q + 2))
          else Token('>', q, q + 1, SkipSpace(t, q + 1))
    else if IsSymbol(c) then
      Token(c, q, q + 1, SkipSpace(t, q + 1))
    else
      Token('a', q, WordEnd(t, q), SkipSpace(t, WordEnd(t, q)))
  }

  /** A span is a whole word of the line. */
  predicate IsWord(t: string, s: Span) {
    s.0 < s.1 <= |t| && !IsWordChar(CharAt(t, s.1)) && forall k | s.0 <= k < s.1 :: IsWordChar(t[k])
  }

  /** peek, once the white space is skipped: is the next character one of toks? */
  predicate Sees(t: string, i: nat, toks: string)
    requires i <= |t|
  {
    CharAt(t, SkipSpace(t, i)) != '\0' && CharAt(t, SkipSpace(t, i)) in toks
  }

  // ---------- The parser ----------

  type Redirection = (Span, Mode)

  /** redircmd, for each redirection in turn. */
  function Wrap<W>(cmd: Cmd<W>, rs: seq<(W, Mode)>): Cmd<W>
    decreases |rs|
  {
    if rs == [] then cmd else Wrap(Redir(cmd, rs[0].0, rs[0].1), rs[1..])
  }

  /** Every word of the command is a whole word of the line, and no command has MAXARGS of them. */
  predicate WordsOk(t: string, cmd: Cmd<Span>) {
    match cmd
    case Exec(args) => |args| < MAXARGS && forall i | 0 <= i < |args| :: IsWord(t, args[i])
    case Redir(c, file, _) => WordsOk(t, c) && IsWord(t, file)
    case Pipe(l, r) => WordsOk(t, l) && WordsOk(t, r)
    case List(l, r) => WordsOk(t, l) && WordsOk(t, r)
    case Back(c) => WordsOk(t, c)
  }

  lemma {:induction false} WrapOk(t: string, cmd: Cmd<Span>, rs: seq<Redirection>)
    requires WordsOk(t, cmd) && forall i | 0 <= i < |rs| :: IsWord(t, rs[i].0)
    ensures WordsOk(t, Wrap(cmd, rs))
    decreases |rs|
  {
    if rs != [] {
      WrapOk(t, Redir(cmd, rs[0].0, rs[0].1), rs[1..]);
    }
  }

  function ModeOf(kind: char): Mode {
    if kind == '<' then In else if kind == '>' then Out else Append
  }

  function ParseRedirs(t: string, i: nat): (r: Result<seq<Redirection>>)
    requires i <= |t| && IsLine(t)
    ensures r.Ok? ==> i <= r.next <= |t| && forall k | 0 <= k < |r.value| :: IsWord(t, r.value[k].0)
    decreases |t| - i
  {
    if Sees(t, i, "<>") then
      var tok := GetToken(t, i);
      var file := GetToken(t, tok.next);
      if file.kind != 'a' then Panic else
        var rest := ParseRedirs(t, file.next);
        if rest.Panic? then Panic else Ok([((file.q, file.eq), ModeOf(tok.kind))] + rest.value, rest.next)
    else
      Ok([], SkipSpace(t, i))
  }

  /** The loop of parseexec, with argc arguments read so far. */
  function ParseArgs(t: string, i: nat, argc: nat): (r: Result<(seq<Span>, seq<Redirection>)>)
    requires i <= |t| && IsLine(t)
    ensures r.Ok? ==> i <= r.next <= |t| && (forall k | 0 <= k < |r.value.0| :: IsWord(t, r.value.0[k]))
    ensures r.Ok? ==> forall k | 0 <= k < |r.value.1| :: IsWord(t, r.value.1[k].0)
    ensures r.Ok? && argc < MAXARGS ==> argc + |r.value.0| < MAXARGS
    decreases |t| - i
  {
    if Sees(t, i, "|)&;") then
      Ok(([], []), SkipSpace(t, i))
    else
      var tok := GetToken(t, i);
      if tok.kind == '\0' then Ok(([], []), tok.next)
      else if tok.kind != 'a' || argc + 1 >= MAXARGS then Panic
      else
        var rs := ParseRedirs(t, tok.next);
        if rs.Panic? then Panic else
          var rest := ParseArgs(t, rs.next, argc + 1);
          if rest.Panic? then Panic else Ok(([(tok.q, tok.eq)] + rest.value.0, rs.value + rest.value.1), rest.next)
  }

  function ParseExec(t: string, i: nat): (r: Result<Cmd<Span>>)
    requires i <= |t| && IsLine(t)
    ensures r.Ok? ==> i <= r.next <= |t| && WordsOk(t, r.value)
    decreases |t| - i, 2
  {
    if Sees(t, i, "(") then
      ParseBlock(t, i)
    else
      var rs := ParseRedirs(t, i);
      if rs.Panic? then Panic else
        var rest := ParseArgs(t, rs.next, 0);
        if rest.Panic? then Panic else
          WrapOk(t, Exec(rest.value.0), rs.value + rest.value.1);
          Ok(Wrap(Exec(rest.value.0), rs.value + rest.value.1), rest.next)
  }

  function ParseBlock(t: string, i: nat): (r: Result<Cmd<Span>>)
    requires i <= |t| && IsLine(t)
    ensures r.Ok? ==> i <= r.next <= |t| && WordsOk(t, r.value)
    decreases |t| - i, 1
  {
    if !Sees(t, i, "(") then Panic else
      var open := GetToken(t, i);
      var line := ParseLine(t, open.next);
      if line.Panic? || !Sees(t, line.next, ")") then Panic else
        var close := GetToken(t, line.next);
        var rs := ParseRedirs(t, close.next);
        if rs.Panic? then Panic else
          WrapOk(t, line.value, rs.value);
          Ok(Wrap(line.value, rs.value), rs.next)
  }

  function ParsePipe(t: string, i: nat): (r: Result<Cmd<Span>>)
    requires i <= |t| && IsLine(t)
    ensures r.Ok? ==> i <= r.next <= |t| && WordsOk(t, r.value)
    decreases |t| - i, 3
  {
    var left := ParseExec(t, i);
    if left.Panic? then Panic
    else if Sees(t, left.next, "|") then
      var tok := GetToken(t, left.next);
      var right := ParsePipe(t, tok.next);
      if right.Panic? then Panic else Ok(Pipe(left.value, right.value), right.next)
    else
      Ok(left.value, SkipSpace(t, left.next))
  }

  /** The loop of parseline over "&". */
  function ParseBacks(t: string, i: nat, cmd: Cmd<Span>): (r: Result<Cmd<Span>>)
    requires i <= |t| && IsLine(t) && WordsOk(t, cmd)
    ensures r.Ok? && i <= r.next <= |t| && WordsOk(t, r.value)
    decreases |t| - i
  {
    if Sees(t, i, "&") then ParseBacks(t, GetToken(t, i).next, Back(cmd)) else Ok(cmd, SkipSpace(t, i))
  }

  function ParseLine(t: string, i: nat): (r: Result<Cmd<Span>>)
    requires i <= |t| && IsLine(t)
    ensures r.Ok? ==> i <= r.next <= |t| && WordsOk(t, r.value)
    decreases |t| - i, 4
  {
    var pipe := ParsePipe(t, i);
    if pipe.Panic? then Panic else
      var cmd := ParseBacks(t, pipe.next, pipe.value);
      if Sees(t, cmd.next, ";") then
        var tok := GetToken(t, cmd.next);
        var right := ParseLine(t, tok.next);
        if right.Panic? then Panic else Ok(List(cmd.value, right.value), right.next)
      else
        Ok(cmd.value, SkipSpace(t, cmd.next))
  }

  /** parsecmd, before nulterminate. */
  function ParseCmd(t: string): (r: Result<Cmd<Span>>)
    requires IsLine(t)
    ensures r.Ok? ==> WordsOk(t, r.value)
  {
    var line := ParseLine(t, 0);
    if line.Panic? || SkipSpace(t, line.next) != |t| then Panic else Ok(line.value, |t|)
  }

  // ---------- Printing ----------

  datatype Lexeme = Sym(c: char) | More | Word(w: string)    // More is >>

  function Text(x: Lexeme): string {
    match x
    case Sym(c) => [c]
    case More => ">>"
    case Word(w) => w
  }

  /** Every lexeme followed by one space. */
  function Print(xs: seq<Lexeme>): string {
    if xs == [] then "" else Text(xs[0]) + " " + Print(xs[1..])
  }

  predicate LexemeOk(x: Lexeme) {
    match x
    case Sym(c) => IsSymbol(c)
    case More => true
    case Word(w) => IsLegal(w)
  }

  predicate IsLegal(w: string) {
    w != "" && forall i | 0 <= i < |w| :: IsWordChar(w[i])
  }

  function Kind(x: Lexeme): char {
    match x
    case Sym(c) => c
    case More => '+'
    case Word(w) => 'a'
  }

  /** The line from i on is the print of xs. */
  ghost predicate At(t: string, i: nat, xs: seq<Lexeme>) {
    i <= |t| && IsLine(t) && t[i..] == Print(xs) && AllOk(xs)
  }

  predicate AllOk(xs: seq<Lexeme>) {
    forall k | 0 <= k < |xs| :: LexemeOk(xs[k])
  }

  lemma AtStart(t: string, i: nat, xs: seq<Lexeme>)
    requires At(t, i, xs)
    ensures SkipSpace(t, i) == i
    ensures xs == [] <==> i == |t|
    ensures xs != [] ==> CharAt(t, i) == Text(xs[0])[0] != '\0'
  {
    if xs != [] {
      assert t[i] == t[i..][0] == Text(xs[0])[0];
    }
  }

  lemma AtNext(t: string, i: nat, xs: seq<Lexeme>)
    requires At(t, i, xs) && xs != []
    ensures var j := i + |Text(xs[0])|;
            j + 1 <= |t| && t[i..j] == Text(xs[0]) && t[j] == ' ' && SkipSpace(t, j) == j + 1 && At(t, j + 1, xs[1..])
  {
    hide SkipSpace, Print, IsLine, AllOk, Text;
    PrintCons(xs);
    Suffix(t, i, Text(xs[0]), Print(xs[1..]));
    TailOk(xs);
    var j := i + |Text(xs[0])|;
    AtStart(t, j + 1, xs[1..]);
    SkipOne(t, j);
  }

  lemma TailOk(xs: seq<Lexeme>)
    requires AllOk(xs) && xs != []
    ensures LexemeOk(xs[0]) && AllOk(xs[1..])
  {
  }

  lemma PrintCons(xs: seq<Lexeme>)
    requires xs != []
    ensures Print(xs) == Text(xs[0]) + (" " + Print(xs[1..]))
  {
  }

  lemma Suffix(t: string, i: nat, x: string, r: string)
    requires i <= |t| && t[i..] == x + (" " + r)
    ensures var j := i + |x|; j + 1 <= |t| && t[i..j] == x && t[j] == ' ' && t[j + 1..] == r
  {
    var j := i + |x|;
    assert |t| == j + 1 + |r|;
    assert t[i..j] == t[i..][..|x|] == x;
    assert t[j] == t[i..][|x|] == ' ';
    assert t[j + 1..] == t[i..][|x| + 1..] == r;
  }

  lemma SkipOne(t: string, j: nat)
    requires j < |t| && t[j] == ' ' && SkipSpace(t, j + 1) == j + 1
    ensures SkipSpace(t, j) == j + 1
  {
  }

  /** gettoken reads a printed lexeme back and stands at the next one. */
  lemma AtToken(t: string, i: nat, xs: seq<Lexeme>)
    requires At(t, i, xs) && xs != []
    ensures var x := Text(xs[0]);
            i + |x| + 1 <= |t| && GetToken(t, i) == Token(Kind(xs[0]), i, i + |x|, i + |x| + 1) && t[i..i + |x|] == x
                && At(t, i + |x| + 1, xs[1..])
  {
    hide SkipSpace, WordEnd, Print, GetToken;
    var x := Text(xs[0]);
    AtStart(t, i, xs);
    AtNext(t, i, xs);
    TokenAt(t, i, xs[0]);
  }

  lemma TokenAt(t: string, i: nat, x: Lexeme)
    requires IsLine(t) && LexemeOk(x)
    requires var j := i + |Text(x)|;
             j < |t| && t[i..j] == Text(x) && t[j] == ' ' && SkipSpace(t, i) == i && SkipSpace(t, j) == j + 1
    ensures GetToken(t, i) == Token(Kind(x), i, i + |Text(x)|, i + |Text(x)| + 1)
  {
    hide SkipSpace, WordEnd;
    var j := i + |Text(x)|;
    assert t[i] == t[i..j][0];
    match x
    case Sym(c) =>
    case More =>
      assert t[i + 1] == t[i..j][1];
    case Word(w) =>
      forall k | i <= k < j ensures IsWordChar(t[k]) {
        assert t[k] == t[i..j][k - i];
      }
      WordEnds(t, i, j);
  }

  lemma {:induction false} WordEnds(t: string, i: nat, j: nat)
    requires IsLine(t) && i <= j <= |t| && !IsWordChar(CharAt(t, j)) && forall k | i <= k < j :: IsWordChar(t[k])
    ensures WordEnd(t, i) == j
    decreases j - i
  {
    if i < j {
      WordEnds(t, i + 1, j);
    }
  }

  // ---------- Words of a parsed command ----------

  function Spell(t: string, s: Span): string {
    if s.0 <= s.1 <= |t| then t[s.0..s.1] else ""
  }

  function SpellAll(t: string, args: seq<Span>): (r: seq<string>)
    ensures |r| == |args| && forall i | 0 <= i < |args| :: r[i] == Spell(t, args[i])
  {
    seq(|args|, i requires 0 <= i < |args| => Spell(t, args[i]))
  }

  function SpellRedirs(t: string, rs: seq<Redirection>): (r: seq<(string, Mode)>)
    ensures |r| == |rs| && forall i | 0 <= i < |rs| :: r[i] == (Spell(t, rs[i].0), rs[i].1)
  {
    seq(|rs|, i requires 0 <= i < |rs| => (Spell(t, rs[i].0), rs[i].1))
  }

  /** The command with its words written out. */
  function SpellCmd(t: string, cmd: Cmd<Span>): Cmd<string> {
    match cmd
    case Exec(args) => Exec(SpellAll(t, args))
    case Redir(c, file, m) => Redir(SpellCmd(t, c), Spell(t, file), m)
    case Pipe(l, r) => Pipe(SpellCmd(t, l), SpellCmd(t, r))
    case List(l, r) => List(SpellCmd(t, l), SpellCmd(t, r))
    case Back(c) => Back(SpellCmd(t, c))
  }

  lemma {:induction false} SpellWrap(t: string, cmd: Cmd<Span>, rs: seq<Redirection>)
    ensures SpellCmd(t, Wrap(cmd, rs)) == Wrap(SpellCmd(t, cmd), SpellRedirs(t, rs))
    decreases |rs|
  {
    if rs != [] {
      SpellWrap(t, Redir(cmd, rs[0].0, rs[0].1), rs[1..]);
      assert SpellRedirs(t, rs)[1..] == SpellRedirs(t, rs[1..]);
    }
  }

  // ---------- Commands as lexemes ----------

  function Size<W>(c: Cmd<W>): nat {
    match c
    case Exec(_) => 1
    case Redir(d, _, _) => 1 + Size(d)
    case Pipe(l, r) => 1 + Size(l) + Size(r)
    case List(l, r) => 1 + Size(l) + Size(r)
    case Back(d) => 1 + Size(d)
  }

  /** The command inside its redirections. */
  function Core<W>(c: Cmd<W>): (d: Cmd<W>)
    ensures !d.Redir? && Size(d) <= Size(c) && (c.Redir? ==> Size(d) < Size(c)) && (!c.Redir? ==> d == c)
  {
    if c.Redir? then Core(c.cmd) else c
  }

  function Redirs<W>(c: Cmd<W>): seq<(W, Mode)> {
    if c.Redir? then Redirs(c.cmd) + [(c.file, c.mode)] else []
  }

  lemma {:induction false} WrapCore<W>(c: Cmd<W>)
    ensures Wrap(Core(c), Redirs(c)) == c
    decreases c
  {
    if c.Redir? {
      WrapCore(c.cmd);
      WrapLast(Core(c), Redirs(c.cmd), (c.file, c.mode));
    }
  }

  lemma {:induction false} WrapLast<W>(c: Cmd<W>, rs: seq<(W, Mode)>, r: (W, Mode))
    ensures Wrap(c, rs + [r]) == Redir(Wrap(c, rs), r.0, r.1)
    decreases |rs|
  {
    if rs == [] {
      assert rs + [r] == [r];
    } else {
      assert (rs + [r])[1..] == rs[1..] + [r];
      WrapLast(Redir(c, rs[0].0, rs[0].1), rs[1..], r);
    }
  }

  /** Legal words, and fewer than MAXARGS arguments. */
  ghost predicate Printable(c: Cmd<string>) {
    match c
    case Exec(args) => |args| < MAXARGS && forall i | 0 <= i < |args| :: IsLegal(args[i])
    case Redir(d, file, _) => Printable(d) && IsLegal(file)
    case Pipe(l, r) => Printable(l) && Printable(r)
    case List(l, r) => Printable(l) && Printable(r)
    case Back(d) => Printable(d)
  }

  function ArgLexemes(args: seq<string>): (xs: seq<Lexeme>)
    ensures |xs| == |args| && forall i | 0 <= i < |args| :: xs[i] == Word(args[i])
  {
    seq(|args|, i requires 0 <= i < |args| => Word(args[i]))
  }

  function RedirLexemes(rs: seq<(string, Mode)>): seq<Lexeme> {
    if rs == [] then [] else
      [if rs[0].1.In? then Sym('<') else if rs[0].1.Out? then Sym('>') else More, Word(rs[0].0)] + RedirLexemes(rs[1..])
  }

  /**
   How many steps a command takes to reach the level of the grammar it belongs to:
   lines, backgrounds, pipes, simple commands.
   */
  function Rank<W>(c: Cmd<W>, level: nat): nat
    requires level < 4
  {
    var own := if c.List? then 0 else if c.Back? then 1 else if c.Pipe? then 2 else 3;
    if level <= own then own - level else own + 4 - level
  }

  function LineLexemes(c: Cmd<string>): seq<Lexeme>
    decreases Size(c), Rank(c, 0)
  {
    if c.List? then BackLexemes(c.left) + [Sym(';')] + LineLexemes(c.right) else BackLexemes(c)
  }

  function BackLexemes(c: Cmd<string>): seq<Lexeme>
    decreases Size(c), Rank(c, 1)
  {
    if c.Back? then BackLexemes(c.cmd) + [Sym('&')] else PipeLexemes(c)
  }

  function PipeLexemes(c: Cmd<string>): seq<Lexeme>
    decreases Size(c), Rank(c, 2)
  {
    if c.Pipe? then ExecLexemes(c.left) + [Sym('|')] + PipeLexemes(c.right) else ExecLexemes(c)
  }

  /** A simple command is its words; any other is put in parentheses.  Its redirections follow. */
  function ExecLexemes(c: Cmd<string>): seq<Lexeme>
    decreases Size(c), Rank(c, 3)
  {
    var core := Core(c);
    (if core.Exec? then ArgLexemes(core.args) else [Sym('(')] + LineLexemes(core) + [Sym(')')])
        + RedirLexemes(Redirs(c))
  }

  // ---------- Parsing undoes printing ----------

  /** The lexemes end, or go on with one of these symbols. */
  ghost predicate Stops(rest: seq<Lexeme>, toks: string) {
    rest == [] || (rest[0].Sym? && rest[0].c in toks)
  }

  /** The first character of the print of xs, NUL if there is none. */
  function First(xs: seq<Lexeme>): char {
    if xs == [] || Text(xs[0]) == "" then '\0' else Text(xs[0])[0]
  }

  lemma SeesAt(t: string, i: nat, xs: seq<Lexeme>, toks: string)
    requires At(t, i, xs) && forall k | 0 <= k < |toks| :: IsSymbol(toks[k])
    ensures i <= |t| && IsLine(t) && SkipSpace(t, i) == i && (Sees(t, i, toks) <==> First(xs) in toks)
  {
    hide SkipSpace;
    AtStart(t, i, xs);
  }

  lemma WordIsNoSymbol(w: string, xs: seq<Lexeme>, toks: string)
    requires IsLegal(w) && forall k | 0 <= k < |toks| :: IsSymbol(toks[k])
    ensures First([Word(w)] + xs) !in toks
  {
  }

  lemma AtWord(t: string, i: nat, w: string, xs: seq<Lexeme>)
    requires At(t, i, [Word(w)] + xs)
    ensures i + |w| + 1 <= |t| && IsLine(t) && GetToken(t, i) == Token('a', i, i + |w|, i + |w| + 1)
            && Spell(t, (i, i + |w|)) == w
    ensures At(t, i + |w| + 1, xs) && IsLegal(w)
  {
    hide GetToken, Print;
    AtToken(t, i, [Word(w)] + xs);
    assert ([Word(w)] + xs)[1..] == xs;
    assert LexemeOk(([Word(w)] + xs)[0]);
  }

  lemma AtSym(t: string, i: nat, x: Lexeme, xs: seq<Lexeme>)
    requires At(t, i, [x] + xs) && !x.Word?
    ensures var j := i + |Text(x)| + 1;
            j <= |t| && IsLine(t) && GetToken(t, i) == Token(Kind(x), i, j - 1, j) && At(t, j, xs)
  {
    hide GetToken, Print;
    AtToken(t, i, [x] + xs);
    assert ([x] + xs)[1..] == xs;
  }

  function RedirSym(m: Mode): Lexeme {
    if m.In? then Sym('<') else if m.Out? then Sym('>') else More
  }

  lemma RedirsStep(t: string, i: nat, x: Lexeme, w: string, xs: seq<Lexeme>)
    requires At(t, i, [x] + ([Word(w)] + xs)) && !x.Word? && First([x]) in "<>"
    ensures i <= |t| && IsLine(t)
    ensures var j := i + |Text(x)| + 1; var k := j + |w| + 1;
            && k <= |t| && At(t, k, xs) && Spell(t, (j, j + |w|)) == w
            && var rest := ParseRedirs(t, k);
               rest.Ok? ==> ParseRedirs(t, i) == Ok([((j, j + |w|), ModeOf(Kind(x)))] + rest.value, rest.next)
  {
    hide At, GetToken, SkipSpace, Sees, ParseRedirs, First, Spell;
    SeesRedir(x, [Word(w)] + xs);
    SeesAt(t, i, [x] + ([Word(w)] + xs), "<>");
    AtSym(t, i, x, [Word(w)] + xs);
    AtWord(t, i + |Text(x)| + 1, w, xs);
    ParseOne(t, i);
  }

  lemma SeesRedir(x: Lexeme, xs: seq<Lexeme>)
    ensures First([x] + xs) == First([x])
  {
  }

  /** A redirection symbol and a word are one redirection. */
  lemma ParseOne(t: string, i: nat)
    requires i <= |t| && IsLine(t) && Sees(t, i, "<>")
    requires GetToken(t, GetToken(t, i).next).kind == 'a'
    ensures var tok := GetToken(t, i);
            var file := GetToken(t, tok.next);
            var rest := ParseRedirs(t, file.next);
            rest.Ok? ==>
              ParseRedirs(t, i) == Ok([((file.q, file.eq), ModeOf(tok.kind))] + rest.value, rest.next)
  {
    hide GetToken, SkipSpace, Sees, ModeOf;
  }

  lemma {:induction false} RedirsRound(t: string, i: nat, rs: seq<(string, Mode)>, rest: seq<Lexeme>)
    requires At(t, i, RedirLexemes(rs) + rest) && First(rest) !in "<>"
    ensures i <= |t| && IsLine(t)
    ensures var r := ParseRedirs(t, i); r.Ok? && SpellRedirs(t, r.value) == rs && At(t, r.next, rest)
    decreases |rs|
  {
    hide At, GetToken, SkipSpace, Sees, ParseRedirs, Spell;
    var xs := RedirLexemes(rs) + rest;
    if rs == [] {
      assert xs == rest;
      RedirsEnd(t, i, rest);
    } else {
      var x, w, tail := RedirSym(rs[0].1), rs[0].0, RedirLexemes(rs[1..]) + rest;
      assert xs == [x] + ([Word(w)] + tail);
      RedirsStep(t, i, x, w, tail);
      var j := i + |Text(x)| + 1;
      var k := j + |w| + 1;
      RedirsRound(t, k, rs[1..], rest);
      assert SpellRedirs(t, [((j, j + |w|), rs[0].1)] + ParseRedirs(t, k).value) == [rs[0]]
          + SpellRedirs(t, ParseRedirs(t, k).value);
    }
  }

  lemma RedirsEnd(t: string, i: nat, rest: seq<Lexeme>)
    requires At(t, i, rest) && First(rest) !in "<>"
    ensures i <= |t| && IsLine(t) && ParseRedirs(t, i) == Ok([], i)
  {
    hide At;
    SeesAt(t, i, rest, "<>");
  }

  lemma ArgsStep(t: string, i: nat, w: string, xs: seq<Lexeme>, argc: nat)
    requires At(t, i, [Word(w)] + xs) && argc + 1 < MAXARGS
    ensures i <= |t| && IsLine(t)
    ensures var j := i + |w| + 1;
            && j <= |t| && At(t, j, xs) && Spell(t, (i, i + |w|)) == w
            && var rs := ParseRedirs(t, j);
               rs.Ok? ==> var rest := ParseArgs(t, rs.next, argc + 1);
               rest.Ok? ==>
                   ParseArgs(t, i, argc) == Ok(([(i, i + |w|)] + rest.value.0, rs.value + rest.value.1), rest.next)
  {
    hide At, GetToken, SkipSpace, Sees, ParseRedirs;
    AtWord(t, i, w, xs);
    WordIsNoSymbol(w, xs, "|)&;");
    SeesAt(t, i, [Word(w)] + xs, "|)&;");
  }

  lemma ArgsEnd(t: string, i: nat, rest: seq<Lexeme>, argc: nat)
    requires At(t, i, rest) && Stops(rest, "|)&;")
    ensures i <= |t| && IsLine(t) && ParseArgs(t, i, argc) == Ok(([], []), i)
  {
    SeesAt(t, i, rest, "|)&;");
    AtStart(t, i, rest);
  }

  /** The redirections a word is followed by: all of them if it is the last. */
  lemma {:induction false} ArgsRound(t: string, i: nat, args: seq<string>, rs: seq<(string, Mode)>, rest: seq<Lexeme>,
                                     argc: nat)
    requires At(t, i, ArgLexemes(args) + RedirLexemes(rs) + rest) && Stops(rest, "|)&;") && (args == [] ==> rs == [])
    requires argc + |args| < MAXARGS
    ensures i <= |t| && IsLine(t)
    ensures var r := ParseArgs(t, i, argc);
            r.Ok? && SpellAll(t, r.value.0) == args && SpellRedirs(t, r.value.1) == rs && At(t, r.next, rest)
    decreases |args|
  {
    hide At, ParseArgs, ParseRedirs, Spell, Stops, RedirLexemes, ArgLexemes, SpellAll, SpellRedirs;
    if args == [] {
      ArgsNone(rest);
      ArgsEnd(t, i, rest, argc);
    } else {
      var w := args[0];
      var now, later := if |args| == 1 then rs else [], if |args| == 1 then [] else rs;
      var more := ArgLexemes(args[1..]) + RedirLexemes(later) + rest;
      ArgSplit(args, rs, rest);
      ArgsStep(t, i, w, RedirLexemes(now) + more, argc);
      var j := i + |w| + 1;
      NotRedir(t, j, RedirLexemes(now), args[1..], RedirLexemes(later), rest);
      RedirsRound(t, j, now, more);
      var a := ParseRedirs(t, j);
      ArgsRound(t, a.next, args[1..], later, rest, argc + 1);
      var b := ParseArgs(t, a.next, argc + 1);
      SpellConcat(t, [(i, i + |w|)], b.value.0, a.value, b.value.1);
      SpellOne(t, (i, i + |w|));
      assert args == [w] + args[1..] && rs == now + later;
    }
  }

  lemma ArgsNone(rest: seq<Lexeme>)
    ensures RedirLexemes([]) == [] && ArgLexemes([]) + RedirLexemes([]) + rest == rest
  {
  }

  lemma ArgSplit(args: seq<string>, rs: seq<(string, Mode)>, rest: seq<Lexeme>)
    requires args != []
    ensures var now, later := if |args| == 1 then rs else [], if |args| == 1 then [] else rs;
            && ArgLexemes(args) + RedirLexemes(rs) + rest ==
               [Word(args[0])] + (RedirLexemes(now) + (ArgLexemes(args[1..]) + RedirLexemes(later) + rest))
            && (args[1..] == [] ==> later == [] && RedirLexemes(later) == [])
  {
    assert ArgLexemes(args) == [Word(args[0])] + ArgLexemes(args[1..]);
  }

  lemma SpellConcat(t: string, a: seq<Span>, b: seq<Span>, rs: seq<Redirection>, qs: seq<Redirection>)
    ensures SpellAll(t, a + b) == SpellAll(t, a) + SpellAll(t, b)
            && SpellRedirs(t, rs + qs) == SpellRedirs(t, rs) + SpellRedirs(t, qs)
  {
  }

  lemma SpellOne(t: string, s: Span)
    ensures SpellAll(t, [s]) == [Spell(t, s)]
  {
  }

  /** What follows the redirections of a word is a word or a stop. */
  lemma NotRedir(t: string, j: nat, pre: seq<Lexeme>, args: seq<string>, post: seq<Lexeme>, rest: seq<Lexeme>)
    requires At(t, j, pre + (ArgLexemes(args) + post + rest)) && Stops(rest, "|)&;") && (args == [] ==> post == [])
    ensures First(ArgLexemes(args) + post + rest) !in "<>"
  {
    hide Print;
    var more := ArgLexemes(args) + post + rest;
    if args != [] {
      assert (pre + more)[|pre|] == Word(args[0]);
      assert LexemeOk((pre + more)[|pre|]);
      assert more == [Word(args[0])] + more[1..];
      WordIsNoSymbol(args[0], more[1..], "<>");
    } else {
      assert more == rest;
    }
  }

  /** The parse gave command c and stands at the rest. */
  ghost predicate Parses(t: string, r: Result<Cmd<Span>>, c: Cmd<string>, rest: seq<Lexeme>) {
    r.Ok? && SpellCmd(t, r.value) == c && At(t, r.next, rest)
  }

  lemma {:induction false} PrintableCore(c: Cmd<string>)
    requires Printable(c)
    ensures Printable(Core(c))
    decreases c
  {
    if c.Redir? {
      PrintableCore(c.cmd);
    }
  }

  /** What ParseExec does with a simple command. */
  lemma SimpleRound(t: string, i: nat, args: seq<string>, rs: seq<(string, Mode)>, rest: seq<Lexeme>)
    requires At(t, i, ArgLexemes(args) + RedirLexemes(rs) + rest) && Stops(rest, "|)&;") && |args| < MAXARGS
    ensures i <= |t| && IsLine(t) && Parses(t, ParseExec(t, i), Wrap(Exec(args), rs), rest)
  {
    hide At, ParseArgs, ParseRedirs, Sees, SkipSpace, Spell, ArgLexemes, SpellAll, SpellRedirs, Wrap;
    NotOpen(t, i, args, rs, rest);
    SeesAt(t, i, ArgLexemes(args) + RedirLexemes(rs) + rest, "(");
    var first := if args == [] then rs else [];
    var later := if args == [] then [] else rs;
    SimpleSplit(args, rs, rest);
    NotRedir(t, i, RedirLexemes(first), args, RedirLexemes(later), rest);
    RedirsRound(t, i, first, ArgLexemes(args) + RedirLexemes(later) + rest);
    var a := ParseRedirs(t, i);
    ArgsRound(t, a.next, args, later, rest, 0);
    var b := ParseArgs(t, a.next, 0);
    SpellWrap(t, Exec(b.value.0), a.value + b.value.1);
    SpellConcat(t, [], [], a.value, b.value.1);
    assert first + later == rs;
  }

  lemma SimpleSplit(args: seq<string>, rs: seq<(string, Mode)>, rest: seq<Lexeme>)
    ensures var first, later := if args == [] then rs else [], if args == [] then [] else rs;
            && ArgLexemes(args) + RedirLexemes(rs) + rest == RedirLexemes(first)
                + (ArgLexemes(args) + RedirLexemes(later) + rest)
            && (args == [] ==> RedirLexemes(later) == [])
  {
  }

  lemma NotOpen(t: string, i: nat, args: seq<string>, rs: seq<(string, Mode)>, rest: seq<Lexeme>)
    requires At(t, i, ArgLexemes(args) + RedirLexemes(rs) + rest) && Stops(rest, "|)&;")
    ensures First(ArgLexemes(args) + RedirLexemes(rs) + rest) !in "("
  {
    hide Print;
    var xs := ArgLexemes(args) + RedirLexemes(rs) + rest;
    if args != [] {
      assert LexemeOk(xs[0]);
      assert xs == [Word(args[0])] + xs[1..];
      WordIsNoSymbol(args[0], xs[1..], "(");
    } else if rs != [] {
      assert xs[0] == RedirSym(rs[0].1);
    } else {
      assert xs == rest;
    }
  }

  lemma {:induction false} ExecRound(t: string, i: nat, c: Cmd<string>, rest: seq<Lexeme>)
    requires At(t, i, ExecLexemes(c) + rest) && Printable(c) && Stops(rest, "|)&;")
    ensures i <= |t| && IsLine(t) && Parses(t, ParseExec(t, i), c, rest)
    decreases Size(c), Rank(c, 3)
  {
    hide At, ParseArgs, ParseRedirs, Sees, SkipSpace, GetToken, Spell, ArgLexemes, RedirLexemes, LineLexemes, SpellCmd,
         Stops, ParseLine, ParseExec, Wrap;
    var core, rs := Core(c), Redirs(c);
    WrapCore(c);
    PrintableCore(c);
    if core.Exec? {
      assert ExecLexemes(c) + rest == ArgLexemes(core.args) + RedirLexemes(rs) + rest;
      SimpleRound(t, i, core.args, rs, rest);
    } else {
      var inner := [Sym(')')] + (RedirLexemes(rs) + rest);
      assert ExecLexemes(c) + rest == [Sym('(')] + (LineLexemes(core) + inner);
      AtSym(t, i, Sym('('), LineLexemes(core) + inner);
      StopsAt(inner);
      LineRound(t, i + 2, core, inner);
      BlockRound(t, i, core, rs, rest);
    }
  }

  lemma StopsAt(xs: seq<Lexeme>)
    requires xs != [] && xs[0] == Sym(')')
    ensures Stops(xs, ")")
  {
  }

  lemma BlockRound(t: string, i: nat, core: Cmd<string>, rs: seq<(string, Mode)>, rest: seq<Lexeme>)
    requires At(t, i, [Sym('(')] + (LineLexemes(core) + ([Sym(')')] + (RedirLexemes(rs) + rest))))
             && Stops(rest, "|)&;")
    requires i + 2 <= |t| && IsLine(t) && Parses(t, ParseLine(t, i + 2), core, [Sym(')')] + (RedirLexemes(rs) + rest))
    ensures Parses(t, ParseExec(t, i), Wrap(core, rs), rest)
  {
    hide At, ParseRedirs, Sees, SkipSpace, GetToken, Spell, SpellCmd, LineLexemes, ParseLine, Wrap, SpellRedirs;
    var inner := LineLexemes(core) + ([Sym(')')] + (RedirLexemes(rs) + rest));
    SeesAt(t, i, [Sym('(')] + inner, "(");
    AtSym(t, i, Sym('('), inner);
    var line := ParseLine(t, i + 2);
    SeesAt(t, line.next, [Sym(')')] + (RedirLexemes(rs) + rest), ")");
    AtSym(t, line.next, Sym(')'), RedirLexemes(rs) + rest);
    RedirsRound(t, line.next + 2, rs, rest);
    SpellWrap(t, line.value, ParseRedirs(t, line.next + 2).value);
  }

  lemma {:induction false} PipeRound(t: string, i: nat, c: Cmd<string>, rest: seq<Lexeme>)
    requires At(t, i, PipeLexemes(c) + rest) && Printable(c) && Stops(rest, ")&;")
    ensures i <= |t| && IsLine(t) && Parses(t, ParsePipe(t, i), c, rest)
    decreases Size(c), Rank(c, 2)
  {
    hide At, ParseExec, Sees, SkipSpace, GetToken, Spell, ExecLexemes;
    if c.Pipe? {
      var tail := PipeLexemes(c.right) + rest;
      assert PipeLexemes(c) + rest == ExecLexemes(c.left) + ([Sym('|')] + tail);
      ExecRound(t, i, c.left, [Sym('|')] + tail);
      var j := ParseExec(t, i).next;
      SeesAt(t, j, [Sym('|')] + tail, "|");
      AtSym(t, j, Sym('|'), tail);
      PipeRound(t, j + 2, c.right, rest);
    } else {
      ExecRound(t, i, c, rest);
      SeesAt(t, ParseExec(t, i).next, rest, "|");
    }
  }

  /** Back, k times. */
  function Backs<W>(c: Cmd<W>, k: nat): Cmd<W>
    decreases k
  {
    if k == 0 then c else Backs(Back(c), k - 1)
  }

  function Amps(k: nat): seq<Lexeme> {
    if k == 0 then [] else [Sym('&')] + Amps(k - 1)
  }

  /** A command in the background k times over. */
  lemma {:induction false} Backed(c: Cmd<string>) returns (d: Cmd<string>, k: nat)
    ensures !d.Back? && c == Backs(d, k) && BackLexemes(c) == PipeLexemes(d) + Amps(k)
            && (Printable(c) ==> Printable(d))
    ensures Size(d) <= Size(c) && (c.Back? ==> Size(d) < Size(c)) && (!c.Back? ==> d == c)
    decreases c
  {
    if c.Back? {
      var j;
      d, j := Backed(c.cmd);
      k := j + 1;
      BacksLast(d, j);
      AmpsLast(j);
      assert PipeLexemes(d) + Amps(j) + [Sym('&')] == PipeLexemes(d) + Amps(k);
    } else {
      d, k := c, 0;
      assert PipeLexemes(c) + Amps(0) == PipeLexemes(c);
    }
  }

  lemma {:induction false} BacksLast<W>(c: Cmd<W>, k: nat)
    ensures Backs(c, k + 1) == Back(Backs(c, k))
    decreases k
  {
    if k != 0 {
      BacksLast(Back(c), k - 1);
    }
  }

  lemma {:induction false} AmpsLast(k: nat)
    ensures Amps(k) + [Sym('&')] == Amps(k + 1)
  {
    if k != 0 {
      AmpsLast(k - 1);
    }
  }

  lemma {:induction false} BacksRound(t: string, i: nat, cmd: Cmd<Span>, k: nat, rest: seq<Lexeme>)
    requires At(t, i, Amps(k) + rest) && Stops(rest, ");") && WordsOk(t, cmd)
    ensures i <= |t| && IsLine(t) && Parses(t, ParseBacks(t, i, cmd), Backs(SpellCmd(t, cmd), k), rest)
    decreases k
  {
    hide At, Sees, SkipSpace, GetToken, Spell;
    var xs := Amps(k) + rest;
    SeesAt(t, i, xs, "&");
    if k == 0 {
      assert xs == rest;
    } else {
      assert xs == [Sym('&')] + (Amps(k - 1) + rest);
      AtSym(t, i, Sym('&'), Amps(k - 1) + rest);
      BacksRound(t, i + 2, Back(cmd), k - 1, rest);
    }
  }

  /** Parsing the print of a line gives the line back. */
  lemma {:induction false} LineRound(t: string, i: nat, c: Cmd<string>, rest: seq<Lexeme>)
    requires At(t, i, LineLexemes(c) + rest) && Printable(c) && Stops(rest, ")")
    ensures i <= |t| && IsLine(t) && Parses(t, ParseLine(t, i), c, rest)
    decreases Size(c), Rank(c, 0)
  {
    hide At, ParsePipe, ParseBacks, Sees, SkipSpace, GetToken, Spell, BackLexemes, PipeLexemes, Backs, Amps;
    if c.List? {
      var tail := LineLexemes(c.right) + rest;
      assert LineLexemes(c) + rest == BackLexemes(c.left) + ([Sym(';')] + tail);
      var d, k := Backed(c.left);
      assert BackLexemes(c.left) + ([Sym(';')] + tail) == PipeLexemes(d) + (Amps(k) + ([Sym(';')] + tail));
      AmpsStop(k, [Sym(';')] + tail);
      PipeRound(t, i, d, Amps(k) + ([Sym(';')] + tail));
      var p := ParsePipe(t, i);
      BacksRound(t, p.next, p.value, k, [Sym(';')] + tail);
      var j := ParseBacks(t, p.next, p.value).next;
      SeesAt(t, j, [Sym(';')] + tail, ";");
      AtSym(t, j, Sym(';'), tail);
      LineRound(t, j + 2, c.right, rest);
    } else {
      var d, k := Backed(c);
      assert LineLexemes(c) + rest == PipeLexemes(d) + (Amps(k) + rest);
      AmpsStop(k, rest);
      PipeRound(t, i, d, Amps(k) + rest);
      var p := ParsePipe(t, i);
      BacksRound(t, p.next, p.value, k, rest);
      SeesAt(t, ParseBacks(t, p.next, p.value).next, rest, ";");
    }
  }

  lemma AmpsStop(k: nat, rest: seq<Lexeme>)
    requires Stops(rest, ");")
    ensures Stops(Amps(k) + rest, ")&;")
  {
    if k == 0 {
      assert Amps(k) + rest == rest;
    } else {
      assert (Amps(k) + rest)[0] == Sym('&');
    }
  }

  lemma {:induction false} PrintIsLine(xs: seq<Lexeme>)
    requires AllOk(xs)
    ensures IsLine(Print(xs))
    decreases |xs|
  {
    if xs != [] {
      TailOk(xs);
      PrintIsLine(xs[1..]);
      var a, b := Text(xs[0]) + " ", Print(xs[1..]);
      assert forall k | 0 <= k < |a| :: a[k] != '\0';
      assert forall k | |a| <= k < |a + b| :: (a + b)[k] == b[k - |a|];
    }
  }

  /** The lexemes of a printable command, at each level of the grammar, are legal. */
  lemma {:induction false} LexemesLegal(c: Cmd<string>, level: nat)
    requires Printable(c) && level < 4
    ensures AllOk(if level == 0 then LineLexemes(c)
            else if level == 1 then BackLexemes(c) else if level == 2 then PipeLexemes(c) else ExecLexemes(c))
    decreases Size(c), Rank(c, level)
  {
    if level == 0 && c.List? {
      LexemesLegal(c.left, 1);
      LexemesLegal(c.right, 0);
    } else if level == 1 && c.Back? {
      LexemesLegal(c.cmd, 1);
    } else if level == 2 && c.Pipe? {
      LexemesLegal(c.left, 3);
      LexemesLegal(c.right, 2);
    } else if level < 3 {
      LexemesLegal(c, level + 1);
    } else {
      PrintableCore(c);
      RedirsLegal(c);
      if !Core(c).Exec? {
        LexemesLegal(Core(c), 0);
      }
    }
  }

  lemma {:induction false} RedirsLegal(c: Cmd<string>)
    requires Printable(c)
    ensures AllOk(RedirLexemes(Redirs(c)))
    decreases c
  {
    if c.Redir? {
      RedirsLegal(c.cmd);
      RedirsLast(Redirs(c.cmd), (c.file, c.mode));
    }
  }

  lemma {:induction false} RedirsLast(rs: seq<(string, Mode)>, r: (string, Mode))
    ensures RedirLexemes(rs + [r]) == RedirLexemes(rs) + [RedirSym(r.1), Word(r.0)]
    decreases |rs|
  {
    if rs == [] {
      assert rs + [r] == [r];
    } else {
      assert (rs + [r])[1..] == rs[1..] + [r];
      RedirsLast(rs[1..], r);
    }
  }

  /** For every command with legal words and few enough arguments, parsing its print gives it back. */
  lemma RoundTrip(c: Cmd<string>)
    requires Printable(c)
    ensures var t := Print(LineLexemes(c));
            IsLine(t) && ParseCmd(t).Ok? && SpellCmd(t, ParseCmd(t).value) == c
  {
    hide ParseLine, LineLexemes, Print, SpellCmd;
    var xs := LineLexemes(c);
    var t := Print(xs);
    LexemesLegal(c, 0);
    PrintIsLine(xs);
    assert t[0..] == t && xs + [] == xs;
    LineRound(t, 0, c, []);
    AtStart(t, ParseLine(t, 0).next, []);
  }

  // ---------- What is accepted ----------

  lemma WordIsLegal(t: string, s: Span)
    requires IsWord(t, s)
    ensures IsLegal(Spell(t, s))
  {
  }

  lemma {:induction false} SpelledIsPrintable(t: string, cmd: Cmd<Span>)
    requires WordsOk(t, cmd)
    ensures Printable(SpellCmd(t, cmd))
    decreases cmd
  {
    hide IsWord, IsLegal, Spell;
    match cmd
    case Exec(args) =>
      forall i | 0 <= i < |args| ensures IsLegal(Spell(t, args[i])) {
        WordIsLegal(t, args[i]);
      }
    case Redir(c, file, _) =>
      SpelledIsPrintable(t, c);
      WordIsLegal(t, file);
    case Pipe(l, r) =>
      SpelledIsPrintable(t, l);
      SpelledIsPrintable(t, r);
    case List(l, r) =>
      SpelledIsPrintable(t, l);
      SpelledIsPrintable(t, r);
    case Back(c) =>
      SpelledIsPrintable(t, c);
  }

  /**
   Every line that the shell accepts, with whatever white space, is a command that can
   be printed; and the print is accepted as the same command.
   */
  lemma AcceptedReprints(t: string)
    requires IsLine(t) && ParseCmd(t).Ok?
    ensures var c := SpellCmd(t, ParseCmd(t).value);
            && Printable(c)
            && var u := Print(LineLexemes(c));
               IsLine(u) && ParseCmd(u).Ok? && SpellCmd(u, ParseCmd(u).value) == c
  {
    hide ParseLine, LineLexemes, Print, SpellCmd, WordsOk, Printable;
    SpelledIsPrintable(t, ParseCmd(t).value);
    RoundTrip(SpellCmd(t, ParseCmd(t).value));
  }
}
