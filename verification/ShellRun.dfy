/**
 The parser of user/sh.c as it runs, with cursors and loops, against the
 functions of module Shell; and nulterminate, which writes into the line.
 */
module ShellRun {
  import opened Shell

  /** The white-space loop of gettoken and peek. */
  method Skip(t: string, i: nat) returns (s: nat)
    requires i <= |t|
    ensures s == SkipSpace(t, i)
  {
    s := i;
    while s < |t| && IsSpace(t[s])
      invariant i <= s <= |t| && SkipSpace(t, s) == SkipSpace(t, i)
    {
      s := s + 1;
    }
  }

  /** gettoken */
  method Gettoken(t: string, i: nat) returns (ret: char, q: nat, eq: nat, next: nat)
    requires i <= |t| && IsLine(t)
    ensures Token(ret, q, eq, next) == GetToken(t, i)
  {
    var s := Skip(t, i);
    q := s;
    ret := CharAt(t, s);
    if ret == '\0' {
    } else if ret == '|' || ret == '(' || ret == ')' || ret == ';' || ret == '&' || ret == '<' {
      s := s + 1;
    } else if ret == '>' {
      s := s + 1;
      if CharAt(t, s) == '>' {
        ret := '+';
        s := s + 1;
      }
    } else {
      ret := 'a';
      while s < |t| && !IsSpace(t[s]) && !IsSymbol(t[s])
        invariant q <= s <= |t| && WordEnd(t, s) == WordEnd(t, q)
      {
        s := s + 1;
      }
    }
    eq := s;
    next := Skip(t, s);
  }

  /** peek */
  method Peek(t: string, i: nat, toks: string) returns (b: bool, s: nat)
    requires i <= |t|
    ensures s == SkipSpace(t, i) && b == Sees(t, i, toks)
  {
    s := Skip(t, i);
    b := CharAt(t, s) != '\0' && CharAt(t, s) in toks;
  }

  lemma SkipTwice(t: string, i: nat)
    requires i <= |t|
    ensures SkipSpace(t, SkipSpace(t, i)) == SkipSpace(t, i)
  {
  }

  lemma SkipParsesSame(t: string, i: nat, toks: string)
    requires i <= |t| && IsLine(t)
    ensures var s := SkipSpace(t, i); Sees(t, s, toks) == Sees(t, i, toks) && GetToken(t, s) == GetToken(t, i)
  {
    SkipTwice(t, i);
  }

  /** parseredirs: the redirections, outermost last. */
  method Parseredirs(t: string, i: nat) returns (r: Result<seq<Redirection>>)
    requires i <= |t| && IsLine(t)
    ensures r == ParseRedirs(t, i)
  {
    hide GetToken, SkipSpace, Sees;
    var rs, s := [], i;
    AfterNone(ParseRedirs(t, i));
    var more, s' := Peek(t, s, "<>");
    while more
      invariant s <= |t| && more == Sees(t, s, "<>") && s' == SkipSpace(t, s)
      invariant ParseRedirs(t, i) == After(rs, ParseRedirs(t, s))
      decreases |t| - s
    {
      SkipParsesSame(t, s, "<>");
      var tok, _, _, j := Gettoken(t, s');
      var kind, q, eq, k := Gettoken(t, j);
      if kind != 'a' {
        return Panic;
      }
      assert ParseRedirs(t, s) == After([((q, eq), ModeOf(tok))], ParseRedirs(t, k));
      AfterAfter(rs, [((q, eq), ModeOf(tok))], ParseRedirs(t, k));
      rs := rs + [((q, eq), ModeOf(tok))];
      s := k;
      more, s' := Peek(t, s, "<>");
    }
    assert rs + [] == rs;
    return Ok(rs, s');
  }

  /** The result of parsing the rest, with rs already parsed. */
  ghost function After<T>(rs: seq<T>, r: Result<seq<T>>): Result<seq<T>> {
    if r.Panic? then Panic else Ok(rs + r.value, r.next)
  }

  lemma AfterNone<T>(r: Result<seq<T>>)
    ensures After([], r) == r
  {
    if r.Ok? {
      assert [] + r.value == r.value;
    }
  }

  lemma AfterArgsNone(r: Result<(seq<Span>, seq<Redirection>)>)
    ensures AfterArgs([], [], r) == r
  {
    if r.Ok? {
      assert [] + r.value.0 == r.value.0 && [] + r.value.1 == r.value.1;
    }
  }

  lemma AfterAfter<T>(a: seq<T>, b: seq<T>, r: Result<seq<T>>)
    ensures After(a, After(b, r)) == After(a + b, r)
  {
    if r.Ok? {
      assert a + (b + r.value) == a + b + r.value;
    }
  }

  ghost function AfterArgs(args: seq<Span>, rs: seq<Redirection>,
                           r: Result<(seq<Span>, seq<Redirection>)>): Result<(seq<Span>, seq<Redirection>)> {
    if r.Panic? then Panic else Ok((args + r.value.0, rs + r.value.1), r.next)
  }

  lemma AfterAfterArgs(a: seq<Span>, b: seq<Span>, x: seq<Redirection>, y: seq<Redirection>,
                       r: Result<(seq<Span>, seq<Redirection>)>)
    ensures AfterArgs(a, x, AfterArgs(b, y, r)) == AfterArgs(a + b, x + y, r)
  {
    if r.Ok? {
      assert a + (b + r.value.0) == a + b + r.value.0 && x + (y + r.value.1) == x + y + r.value.1;
    }
  }

  /** parseexec */
  method Parseexec(t: string, i: nat) returns (r: Result<Cmd<Span>>)
    requires i <= |t| && IsLine(t)
    ensures r == ParseExec(t, i)
    decreases |t| - i, 2
  {
    hide GetToken, SkipSpace, Sees, ParseRedirs, ParseLine, Wrap;
    var open, s := Peek(t, i, "(");
    if open {
      r := Parseblock(t, i);
      return;
    }
    var first := Parseredirs(t, i);
    if first.Panic? {
      return Panic;
    }
    var rest := Parseargs(t, first.next);
    if rest.Panic? {
      return Panic;
    }
    return Ok(Wrap(Exec(rest.value.0), first.value + rest.value.1), rest.next);
  }

  /** The loop of parseexec. */
  method Parseargs(t: string, i: nat) returns (r: Result<(seq<Span>, seq<Redirection>)>)
    requires i <= |t| && IsLine(t)
    ensures r == ParseArgs(t, i, 0)
  {
    hide GetToken, SkipSpace, Sees, ParseRedirs;
    var argc, args, rs, s := 0, [], [], i;
    AfterArgsNone(ParseArgs(t, i, 0));
    var stop, s' := Peek(t, s, "|)&;");
    while !stop
      invariant s <= |t| && stop == Sees(t, s, "|)&;") && s' == SkipSpace(t, s) && argc == |args|
      invariant ParseArgs(t, i, 0) == AfterArgs(args, rs, ParseArgs(t, s, argc))
      decreases |t| - s
    {
      SkipParsesSame(t, s, "|)&;");
      var tok, q, eq, j := Gettoken(t, s');
      assert args + [] == args && rs + [] == rs;
      if tok == '\0' {
        return Ok((args, rs), j);
      }
      if tok != 'a' {
        return Panic;
      }
      if argc + 1 >= MAXARGS {
        return Panic;
      }
      var more := Parseredirs(t, j);
      if more.Panic? {
        return Panic;
      }
      assert ParseArgs(t, s, argc) == AfterArgs([(q, eq)], more.value, ParseArgs(t, more.next, argc + 1));
      AfterAfterArgs(args, [(q, eq)], rs, more.value, ParseArgs(t, more.next, argc + 1));
      args, rs := args + [(q, eq)], rs + more.value;
      argc := argc + 1;
      s := more.next;
      stop, s' := Peek(t, s, "|)&;");
    }
    assert args + [] == args && rs + [] == rs;
    return Ok((args, rs), s');
  }

  /** parseblock */
  method Parseblock(t: string, i: nat) returns (r: Result<Cmd<Span>>)
    requires i <= |t| && IsLine(t)
    ensures r == ParseBlock(t, i)
    decreases |t| - i, 1
  {
    hide SkipSpace, ParseRedirs, ParseExec, Wrap;
    var open, s := Peek(t, i, "(");
    if !open {
      return Panic;
    }
    SkipParsesSame(t, i, "(");
    var _, _, _, j := Gettoken(t, s);
    var line := Parseline(t, j);
    if line.Panic? {
      return Panic;
    }
    var close, s2 := Peek(t, line.next, ")");
    if !close {
      return Panic;
    }
    SkipParsesSame(t, line.next, ")");
    var _, _, _, k := Gettoken(t, s2);
    var rs := Parseredirs(t, k);
    if rs.Panic? {
      return Panic;
    }
    return Ok(Wrap(line.value, rs.value), rs.next);
  }

  /** parsepipe */
  method Parsepipe(t: string, i: nat) returns (r: Result<Cmd<Span>>)
    requires i <= |t| && IsLine(t)
    ensures r == ParsePipe(t, i)
    decreases |t| - i, 3
  {
    hide SkipSpace, ParseExec;
    var left := Parseexec(t, i);
    if left.Panic? {
      return Panic;
    }
    var bar, s := Peek(t, left.next, "|");
    if bar {
      SkipParsesSame(t, left.next, "|");
      var _, _, _, j := Gettoken(t, s);
      var right := Parsepipe(t, j);
      if right.Panic? {
        return Panic;
      }
      return Ok(Pipe(left.value, right.value), right.next);
    }
    return Ok(left.value, s);
  }

  /** parseline */
  method Parseline(t: string, i: nat) returns (r: Result<Cmd<Span>>)
    requires i <= |t| && IsLine(t)
    ensures r == ParseLine(t, i)
    decreases |t| - i, 4
  {
    hide SkipSpace, ParsePipe;
    var pipe := Parsepipe(t, i);
    if pipe.Panic? {
      return Panic;
    }
    var cmd, s := pipe.value, pipe.next;
    var amp, s' := Peek(t, s, "&");
    while amp
      invariant s <= |t| && amp == Sees(t, s, "&") && s' == SkipSpace(t, s) && WordsOk(t, cmd)
      invariant pipe.next <= s && ParseBacks(t, s, cmd) == ParseBacks(t, pipe.next, pipe.value)
      decreases |t| - s
    {
      SkipParsesSame(t, s, "&");
      var _, _, _, j := Gettoken(t, s');
      cmd := Back(cmd);
      s := j;
      amp, s' := Peek(t, s, "&");
    }
    var semi, s2 := Peek(t, s', ";");
    SkipTwice(t, s);
    if semi {
      SkipParsesSame(t, s', ";");
      var _, _, _, j := Gettoken(t, s2);
      var right := Parseline(t, j);
      if right.Panic? {
        return Panic;
      }
      return Ok(List(cmd, right.value), right.next);
    }
    return Ok(cmd, s2);
  }

  // ---------- nulterminate ----------

  /** Where nulterminate writes. */
  predicate IsEnd(cmd: Cmd<Span>, k: nat) {
    match cmd
    case Exec(args) => exists i | 0 <= i < |args| :: args[i].1 == k
    case Redir(c, file, _) => IsEnd(c, k) || file.1 == k
    case Pipe(l, r) => IsEnd(l, k) || IsEnd(r, k)
    case List(l, r) => IsEnd(l, k) || IsEnd(r, k)
    case Back(c) => IsEnd(c, k)
  }

  /** The words of a command. */
  predicate HasWord(cmd: Cmd<Span>, s: Span) {
    match cmd
    case Exec(args) => s in args
    case Redir(c, file, _) => HasWord(c, s) || file == s
    case Pipe(l, r) => HasWord(l, s) || HasWord(r, s)
    case List(l, r) => HasWord(l, s) || HasWord(r, s)
    case Back(c) => HasWord(c, s)
  }

  /** nulterminate writes NUL only after words: on white space, a symbol, or the end of the line. */
  lemma {:induction false} EndsAreSafe(t: string, cmd: Cmd<Span>, k: nat)
    requires WordsOk(t, cmd) && IsEnd(cmd, k)
    ensures k <= |t| && !IsWordChar(CharAt(t, k))
    decreases cmd
  {
    match cmd
    case Exec(args) =>
      var i :| 0 <= i < |args| && args[i].1 == k;
      assert IsWord(t, args[i]);
    case Redir(c, file, _) =>
      if IsEnd(c, k) {
        EndsAreSafe(t, c, k);
      }
    case Pipe(l, r) =>
      if IsEnd(l, k) {
        EndsAreSafe(t, l, k);
      } else {
        EndsAreSafe(t, r, k);
      }
    case List(l, r) =>
      if IsEnd(l, k) {
        EndsAreSafe(t, l, k);
      } else {
        EndsAreSafe(t, r, k);
      }
    case Back(c) =>
      EndsAreSafe(t, c, k);
  }

  lemma {:induction false} WordHasEnd(t: string, cmd: Cmd<Span>, s: Span)
    requires WordsOk(t, cmd) && HasWord(cmd, s)
    ensures IsWord(t, s) && IsEnd(cmd, s.1)
    decreases cmd
  {
    match cmd
    case Exec(args) =>
      var i :| 0 <= i < |args| && args[i] == s;
      assert IsWord(t, args[i]);
    case Redir(c, file, _) =>
      if HasWord(c, s) {
        WordHasEnd(t, c, s);
      }
    case Pipe(l, r) =>
      if HasWord(l, s) {
        WordHasEnd(t, l, s);
      } else {
        WordHasEnd(t, r, s);
      }
    case List(l, r) =>
      if HasWord(l, s) {
        WordHasEnd(t, l, s);
      } else {
        WordHasEnd(t, r, s);
      }
    case Back(c) =>
      WordHasEnd(t, c, s);
  }

  /** A buffer that holds a line and its terminating NUL. */
  ghost predicate HoldsLine(b: seq<char>, t: string) {
    |b| == |t| + 1 && b[..|t|] == t && b[|t|] == '\0'
  }

  /** The buffer with NUL at the end of every word. */
  ghost predicate Terminated(b: seq<char>, b': seq<char>, cmd: Cmd<Span>) {
    |b'| == |b| && forall k | 0 <= k < |b| :: b'[k] == if IsEnd(cmd, k) then '\0' else b[k]
  }

  /** Read as a C string, each word of the terminated line is the word that was parsed. */
  lemma WordsSurvive(t: string, b: seq<char>, b': seq<char>, cmd: Cmd<Span>, s: Span)
    requires IsLine(t) && HoldsLine(b, t) && WordsOk(t, cmd) && Terminated(b, b', cmd) && HasWord(cmd, s)
    ensures s.0 < s.1 < |b'| && b'[s.0..s.1] == Spell(t, s) && '\0' !in b'[s.0..s.1] && b'[s.1] == '\0'
  {
    WordHasEnd(t, cmd, s);
    forall k | s.0 <= k < s.1 ensures b'[k] == t[k] != '\0' {
      if IsEnd(cmd, k) {
        EndsAreSafe(t, cmd, k);
      }
      assert b[k] == b[..|t|][k];
    }
    forall k | 0 <= k < s.1 - s.0 ensures b'[s.0..s.1][k] == t[s.0..s.1][k] {
      assert b'[s.0 + k] == t[s.0 + k];
    }
  }

  /** nulterminate */
  method Nulterminate(buf: array<char>, cmd: Cmd<Span>, ghost t: string)
    requires buf.Length == |t| + 1 && WordsOk(t, cmd)
    modifies buf
    ensures Terminated(old(buf[..]), buf[..], cmd)
    decreases cmd
  {
    match cmd
    case Exec(args) =>
      var i := 0;
      while i < |args|
        invariant 0 <= i <= |args|
        invariant forall k | 0 <= k < buf.Length ::
                  buf[k] == if exists j | 0 <= j < i :: args[j].1 == k then '\0' else old(buf[k])
      {
        assert IsWord(t, args[i]);
        buf[args[i].1] := '\0';
        i := i + 1;
      }
    case Redir(c, file, _) =>
      Nulterminate(buf, c, t);
      buf[file.1] := '\0';
    case Pipe(l, r) =>
      Nulterminate(buf, l, t);
      Nulterminate(buf, r, t);
    case List(l, r) =>
      Nulterminate(buf, l, t);
      Nulterminate(buf, r, t);
    case Back(c) =>
      Nulterminate(buf, c, t);
  }

  /** parsecmd on the line in buf: the command, and its words NUL-terminated in place. */
  method Parsecmd(buf: array<char>, t: string) returns (r: Result<Cmd<Span>>)
    requires IsLine(t) && HoldsLine(buf[..], t)
    modifies buf
    ensures r == ParseCmd(t)
    ensures r.Ok? ==> forall s: Span | HasWord(r.value, s) ::
              s.0 < s.1 < buf.Length && buf[s.0..s.1] == Spell(t, s) && '\0' !in buf[s.0..s.1] && buf[s.1] == '\0'
  {
    var line := Parseline(t, 0);
    if line.Panic? {
      return Panic;
    }
    var _, s := Peek(t, line.next, "");
    if s != |t| {
      return Panic;
    }
    Nulterminate(buf, line.value, t);
    r := Ok(line.value, |t|);
    forall s: Span | HasWord(r.value, s)
      ensures s.0 < s.1 < buf.Length && buf[s.0..s.1] == Spell(t, s) && '\0' !in buf[s.0..s.1] && buf[s.1] == '\0'
    {
      WordsSurvive(t, old(buf[..]), buf[..], r.value, s);
      assert buf[s.0..s.1] == buf[..][s.0..s.1];
    }
  }
}
