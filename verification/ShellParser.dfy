/**
 The shell's parser (user/sh.c) with its cursor into the line, and nulterminate(), which cuts the
 line into C strings.
 */
module ShellParser {
  import opened ShellGrammar

  /** A token in the line: from q up to eq. */
  datatype Span = Span(q: nat, eq: nat)

  datatype RedSpan = RedSpan(file: Span, mode: Mode)

  /** struct cmd and its kinds. */
  datatype Cmd =
    | ExecCmd(argv: seq<Span>)
    | RedirCmd(cmd: Cmd, red: RedSpan)
    | PipeCmd(left: Cmd, right: Cmd)
    | ListCmd(left: Cmd, right: Cmd)
    | BackCmd(cmd: Cmd)

  /** A word of the line, which ends where the line or the word characters end. */
  ghost predicate IsWord(line: string, p: Span) {
    && p.q < p.eq <= |line| && (forall k :: p.q <= k < p.eq ==> IsWordChar(line[k]))
    && (p.eq < |line| ==> !IsWordChar(line[p.eq]))
  }

  ghost predicate AllWords(line: string, ps: seq<Span>) {
    forall i :: 0 <= i < |ps| ==> IsWord(line, ps[i])
  }

  ghost predicate AllFiles(line: string, rs: seq<RedSpan>) {
    forall i :: 0 <= i < |rs| ==> IsWord(line, rs[i].file)
  }

  ghost predicate GoodCmd(line: string, c: Cmd) {
    match c
    case ExecCmd(argv) => AllWords(line, argv)
    case RedirCmd(cmd, red) => GoodCmd(line, cmd) && IsWord(line, red.file)
    case PipeCmd(left, right) => GoodCmd(line, left) && GoodCmd(line, right)
    case ListCmd(left, right) => GoodCmd(line, left) && GoodCmd(line, right)
    case BackCmd(cmd) => GoodCmd(line, cmd)
  }

  ghost function TextOf(line: string, p: Span): (w: string) {
    if p.q <= p.eq <= |line| then line[p.q..p.eq] else []
  }

  ghost function TextsOf(line: string, ps: seq<Span>): (ws: seq<string>) {
    seq(|ps|, i requires 0 <= i < |ps| => TextOf(line, ps[i]))
  }

  ghost function RedsOf(line: string, rs: seq<RedSpan>): (reds: seq<Red>) {
    seq(|rs|, i requires 0 <= i < |rs| => Red(TextOf(line, rs[i].file), rs[i].mode))
  }

  /** The command with its words spelled out. */
  ghost function TreeOf(line: string, c: Cmd): (t: Tree) {
    match c
    case ExecCmd(argv) => Exec(TextsOf(line, argv))
    case RedirCmd(cmd, red) => Redir(TreeOf(line, cmd), Red(TextOf(line, red.file), red.mode))
    case PipeCmd(left, right) => Pipe(TreeOf(line, left), TreeOf(line, right))
    case ListCmd(left, right) => List(TreeOf(line, left), TreeOf(line, right))
    case BackCmd(cmd) => Back(TreeOf(line, cmd))
  }

  function WrapCmd(c: Cmd, rs: seq<RedSpan>): (d: Cmd) {
    if rs == [] then c else RedirCmd(WrapCmd(c, rs[..|rs| - 1]), rs[|rs| - 1])
  }

  lemma {:induction false} WrapTree(line: string, c: Cmd, rs: seq<RedSpan>)
    ensures TreeOf(line, WrapCmd(c, rs)) == Wrap(TreeOf(line, c), RedsOf(line, rs))
    ensures GoodCmd(line, c) && AllFiles(line, rs) ==> GoodCmd(line, WrapCmd(c, rs))
    decreases |rs|
  {
    if rs != [] {
      var n := |rs| - 1;
      WrapTree(line, c, rs[..n]);
      assert RedsOf(line, rs)[..n] == RedsOf(line, rs[..n]);
    } else {
      assert RedsOf(line, rs) == [];
    }
  }

  class Parser {
    const line: string
    var ps: nat

    constructor (s: string)
      requires NUL !in s
      ensures line == s && ps == 0 && Valid()
    {
      line, ps := s, 0;
    }

    ghost predicate Valid()
      reads this
    {
      ps <= |line| && NUL !in line
    }

    ghost function Rest(): (t: string)
      requires ps <= |line|
      reads this
    {
      line[ps..]
    }

    /** The loop over whitespace that gettoken() and peek() share. */
    method SkipSpaces()
      requires Valid()
      modifies this
      ensures Valid() && ps >= old(ps) && Rest() == Skip(old(Rest()))
    {
      while ps < |line| && IsSpace(line[ps])
        invariant Valid() && ps >= old(ps) && Skip(Rest()) == Skip(old(Rest()))
      {
        assert Rest()[1..] == line[ps + 1..];
        ps := ps + 1;
      }
    }

    /** peek(). */
    method PeekFor(toks: string) returns (yes: bool)
      requires Valid() && NUL !in toks
      modifies this
      ensures Valid() && ps >= old(ps) && Rest() == Skip(old(Rest())) && yes == Peek(old(Rest()), toks)
    {
      SkipSpaces();
      yes := ps < |line| && line[ps] in toks;
    }

    /** The loop over a word in gettoken(). */
    method ScanWord() returns (eq: nat)
      requires Valid()
      ensures ps <= eq <= |line| && line[ps..eq] == Word(Rest())
    {
      eq := ps;
      while eq < |line| && IsWordChar(line[eq])
        invariant ps <= eq <= |line| && forall k :: ps <= k < eq ==> IsWordChar(line[k])
      {
        eq := eq + 1;
      }
      assert Rest() == line[ps..eq] + line[eq..];
      WordThen(line[ps..eq], line[eq..]);
    }

    /** The switch of gettoken(), on a token that is there. */
    method ScanToken() returns (kind: char)
      requires Valid() && ps < |line| && !IsSpace(line[ps])
      modifies this
      ensures Valid() && ps > old(ps) && Rest() == old(Rest())[ps - old(ps)..]
      ensures Starts(old(Rest()), kind, ps - old(ps))
      ensures kind == 'a' ==> IsWord(line, Span(old(ps), ps))
    {
      hide Word, IsWord;
      ghost var u, q := Rest(), ps;
      assert u[0] == line[ps];
      if line[ps] in "|();&<" {
        kind := line[ps];
        ps := ps + 1;
      } else if line[ps] == '>' {
        kind := '>';
        ps := ps + 1;
        if ps < |line| && line[ps] == '>' {
          kind := '+';
          ps := ps + 1;
        }
      } else {
        kind := 'a';
        var e := ScanWord();
        WordSpan(line, q, e);
        NotEmpty(u);
        ps := e;
      }
    }

    /** gettoken(). */
    method NextToken() returns (kind: char, p: Span)
      requires Valid()
      modifies this
      ensures Valid() && ps >= old(ps) && (Skip(old(Rest())) != [] ==> ps > old(ps))
      ensures var tok := GetToken(old(Rest()));
              kind == tok.kind && Rest() == tok.rest && p.q <= p.eq <= |line| && line[p.q..p.eq] == tok.text
      ensures kind == 'a' ==> IsWord(line, p)
    {
      hide Skip, Word, IsWord, GetToken, Starts;
      ghost var t := Rest();
      SkipSpaces();
      ghost var u := Rest();
      var q := ps;
      if ps == |line| {
        NoToken(t);
        return NUL, Span(q, q);
      }
      assert u[0] == line[ps] && u[0] in line;
      kind := ScanToken();
      p := Span(q, ps);
      TokenIs(t, u, kind, ps - q);
      assert u[..ps - q] == line[q..ps];
      SkipSpaces();
    }

    /** parseredirs(): the redirections here, after those in rs. */
    method ParseRedirs(rs: seq<RedSpan>) returns (ok: bool, more: seq<RedSpan>)
      requires Valid() && AllFiles(line, rs)
      modifies this
      ensures Valid() && ps >= old(ps) && AllFiles(line, more)
      ensures var r := Redirs(RedsOf(line, rs), old(Rest()));
              ok == r.Ok? && (ok ==> RedsOf(line, more) == r.value && Rest() == r.rest)
    {
      hide GetToken, IsWord, Skip;
      more := rs;
      while true
        invariant Valid() && ps >= old(ps) && AllFiles(line, more)
        invariant Redirs(RedsOf(line, more), Rest()) == Redirs(RedsOf(line, rs), old(Rest()))
        decreases |line| - ps
      {
        ghost var t := Rest();
        var yes := PeekFor("<>");
        SkipTwice(t);
        if !yes {
          return true, more;
        }
        var kind, p := NextToken();
        var file, w := NextToken();
        if file != 'a' {
          return false, more;
        }
        ghost var before := more;
        more := more + [RedSpan(w, ModeOf(kind))];
        assert RedsOf(line, more) == RedsOf(line, before) + [Red(TextOf(line, w), ModeOf(kind))];
      }
    }

    /** The command that was read and the place after it are those of the grammar; ok is whether the shell went on. */
    ghost predicate Read(r: Result<Tree>, ok: bool, c: Cmd)
      reads this
    {
      ok == r.Ok? && (ok ==> GoodCmd(line, c) && TreeOf(line, c) == r.value && ps <= |line| && Rest() == r.rest)
    }

    /** The loop of parseexec(). */
    method ParseArgs(rs: seq<RedSpan>) returns (ok: bool, c: Cmd)
      requires Valid() && AllFiles(line, rs)
      modifies this
      ensures Valid() && ps >= old(ps) && Read(Args([], RedsOf(line, rs), old(Rest())), ok, c)
    {
      hide GetToken, IsWord, Skip, Redirs;
      var argv: seq<Span>, reds := [], rs;
      c := ExecCmd([]);
      assert TextsOf(line, argv) == [];
      while true
        invariant Valid() && ps >= old(ps) && AllFiles(line, reds) && AllWords(line, argv)
        invariant Args(TextsOf(line, argv), RedsOf(line, reds), Rest()) == Args([], RedsOf(line, rs), old(Rest()))
        decreases |line| - ps
      {
        ghost var t, before := Rest(), argv;
        var yes := PeekFor("|)&;");
        SkipTwice(t);
        WrapTree(line, ExecCmd(argv), reds);
        if yes {
          return true, WrapCmd(ExecCmd(argv), reds);
        }
        var tok, p := NextToken();
        EndOrToken(t);
        if tok == NUL {
          return true, WrapCmd(ExecCmd(argv), reds);
        }
        if tok != 'a' {
          return false, c;
        }
        argv := argv + [p];
        if |argv| >= MAXARGS {
          return false, c;
        }
        assert TextsOf(line, argv) == TextsOf(line, before) + [TextOf(line, p)];
        var more;
        more, reds := ParseRedirs(reds);
        if !more {
          return false, c;
        }
      }
    }

    /** parseexec(). */
    method ParseExec() returns (ok: bool, c: Cmd)
      requires Valid()
      modifies this
      ensures Valid() && ps >= old(ps) && Read(ShellGrammar.ExecCmd(old(Rest())), ok, c)
      decreases |line| - ps, 1
    {
      hide GetToken, Skip, Redirs, Args, Block;
      ghost var t := Rest();
      var yes := PeekFor("(");
      SkipTwice(t);
      SameBlock(t);
      if yes {
        ok, c := ParseBlock();
        return;
      }
      var rs: seq<RedSpan> := [];
      c := ExecCmd([]);
      assert RedsOf(line, rs) == [];
      SameRedirs([], t);
      ok, rs := ParseRedirs(rs);
      if ok {
        ok, c := ParseArgs(rs);
      }
    }

    /** parseblock(). */
    method ParseBlock() returns (ok: bool, c: Cmd)
      requires Valid()
      modifies this
      ensures Valid() && ps >= old(ps) && Read(Block(old(Rest())), ok, c)
      decreases |line| - ps, 0
    {
      hide GetToken, Skip, Redirs, Line;
      c := ExecCmd([]);
      ghost var t := Rest();
      var yes := PeekFor("(");
      SkipTwice(t);
      if !yes {
        return false, c;
      }
      var tok, p := NextToken();
      ok, c := ParseLine();
      if !ok {
        return;
      }
      ghost var u := Rest();
      yes := PeekFor(")");
      SkipTwice(u);
      if !yes {
        return false, c;
      }
      tok, p := NextToken();
      var rs: seq<RedSpan> := [];
      assert RedsOf(line, rs) == [];
      ok, rs := ParseRedirs(rs);
      if ok {
        WrapTree(line, c, rs);
        c := WrapCmd(c, rs);
      }
    }

    /** parsepipe(). */
    method ParsePipe() returns (ok: bool, c: Cmd)
      requires Valid()
      modifies this
      ensures Valid() && ps >= old(ps) && Read(ShellGrammar.PipeCmd(old(Rest())), ok, c)
      decreases |line| - ps, 2
    {
      hide GetToken, Skip, ShellGrammar.ExecCmd;
      ok, c := ParseExec();
      if !ok {
        return;
      }
      ghost var u := Rest();
      var yes := PeekFor("|");
      SkipTwice(u);
      if yes {
        var tok, p := NextToken();
        var right;
        ok, right := ParsePipe();
        if ok {
          c := PipeCmd(c, right);
        }
      }
    }

    /** The loop of parseline() over '&'. */
    method ParseBacks(first: Cmd) returns (c: Cmd)
      requires Valid() && GoodCmd(line, first)
      modifies this
      ensures Valid() && ps >= old(ps) && Read(Backs(TreeOf(line, first), old(Rest())), true, c)
    {
      hide GetToken, Skip;
      c := first;
      while true
        invariant Valid() && ps >= old(ps) && GoodCmd(line, c)
        invariant Backs(TreeOf(line, c), Rest()) == Backs(TreeOf(line, first), old(Rest()))
        decreases |line| - ps
      {
        ghost var t := Rest();
        var yes := PeekFor("&");
        SkipTwice(t);
        if !yes {
          return;
        }
        var tok, p := NextToken();
        c := BackCmd(c);
      }
    }

    /** parseline(). */
    method ParseLine() returns (ok: bool, c: Cmd)
      requires Valid()
      modifies this
      ensures Valid() && ps >= old(ps) && Read(Line(old(Rest())), ok, c)
      decreases |line| - ps, 3
    {
      hide GetToken, Skip, ShellGrammar.PipeCmd, Backs;
      ok, c := ParsePipe();
      if !ok {
        return;
      }
      c := ParseBacks(c);
      ghost var u := Rest();
      var yes := PeekFor(";");
      SkipTwice(u);
      if yes {
        var tok, p := NextToken();
        var more;
        ok, more := ParseLine();
        if ok {
          c := ListCmd(c, more);
        }
      }
    }

    /** parsecmd() up to nulterminate(): on every line it ends, with the command of the grammar. */
    method ParseCmd() returns (ok: bool, c: Cmd)
      requires Valid() && ps == 0
      modifies this
      ensures ok == Command(line).Ok? && (ok ==> GoodCmd(line, c) && TreeOf(line, c) == Command(line).value)
    {
      hide Line;
      assert Rest() == line;
      ok, c := ParseLine();
      if ok {
        ghost var t := Rest();
        var yes := PeekFor("");
        ok := ps == |line|;
        assert Rest() == [] <==> ok;
      }
    }
  }

  /** A token of the given kind and length is at the start of u. */
  ghost predicate Starts(u: string, kind: char, n: nat)
    requires u != []
  {
    if u[0] in "|();&<" then kind == u[0] && n == 1
    else if u[0] == '>' then if |u| > 1 && u[1] == '>' then kind == '+' && n == 2 else kind == '>' && n == 1
    else kind == 'a' && n == |Word(u)|
  }

  lemma TokenIs(t: string, u: string, kind: char, n: nat)
    requires u == Skip(t) && u != [] && u[0] != NUL && Starts(u, kind, n)
    ensures n <= |u| && GetToken(t) == Token(kind, u[..n], Skip(u[n..]))
  {
    hide Skip;
  }

  lemma NotEmpty(u: string)
    requires u != [] && IsWordChar(u[0])
    ensures Word(u) != []
  {
  }

  lemma NoToken(t: string)
    requires Skip(t) == []
    ensures GetToken(t) == Token(NUL, [], [])
  {
  }

  lemma EndOrToken(t: string)
    ensures Skip(t) == [] ==> GetToken(t).kind == NUL
    ensures NUL !in t ==> (Skip(t) == [] <==> GetToken(t).kind == NUL)
  {
    SkipOf(t);
  }

  lemma {:induction false} SkipOf(t: string)
    ensures forall c :: c in Skip(t) ==> c in t
  {
    if t != [] && IsSpace(t[0]) {
      SkipOf(t[1..]);
    }
  }

  lemma SameBlock(t: string)
    ensures Block(Skip(t)) == Block(t)
  {
    SkipTwice(t);
  }

  lemma SameRedirs(reds: seq<Red>, t: string)
    ensures Redirs(reds, Skip(t)) == Redirs(reds, t)
  {
    SkipTwice(t);
  }

  lemma WordSpan(line: string, q: nat, e: nat)
    requires q <= e <= |line| && q < |line| && IsWordChar(line[q]) && line[q..e] == Word(line[q..])
    ensures IsWord(line, Span(q, e))
  {
    var u := line[q..];
    assert u[0] == line[q];
    assert forall k :: q <= k < e ==> line[k] == Word(u)[k - q];
    if e < |line| {
      assert u[e - q] == line[e];
    }
  }

  /** After whitespace is skipped, the next token is the same. */
  lemma SkipTwice(t: string)
    ensures Skip(Skip(t)) == Skip(t) && GetToken(Skip(t)) == GetToken(t)
  {
  }

  // ----- nulterminate -----

  /** Some word of the command ends at k. */
  ghost predicate EndsAt(c: Cmd, k: nat) {
    match c
    case ExecCmd(argv) => exists i :: 0 <= i < |argv| && argv[i].eq == k
    case RedirCmd(cmd, red) => EndsAt(cmd, k) || red.file.eq == k
    case PipeCmd(left, right) => EndsAt(left, k) || EndsAt(right, k)
    case ListCmd(left, right) => EndsAt(left, k) || EndsAt(right, k)
    case BackCmd(cmd) => EndsAt(cmd, k)
  }

  /** p is a word of the command. */
  ghost predicate Has(c: Cmd, p: Span) {
    match c
    case ExecCmd(argv) => p in argv
    case RedirCmd(cmd, red) => Has(cmd, p) || red.file == p
    case PipeCmd(left, right) => Has(left, p) || Has(right, p)
    case ListCmd(left, right) => Has(left, p) || Has(right, p)
    case BackCmd(cmd) => Has(cmd, p)
  }

  /**
   nulterminate(), on the buffer with the line and its NUL: the ends of words become NUL, and nothing else changes.
   */
  method NulTerminate(buf: array<char>, line: string, c: Cmd)
    requires buf.Length == |line| + 1 && GoodCmd(line, c)
    modifies buf
    ensures forall k :: 0 <= k < buf.Length ==> buf[k] == if EndsAt(c, k) then NUL else old(buf[k])
    decreases c
  {
    match c
    case ExecCmd(argv) =>
      for i := 0 to |argv|
        invariant forall k :: 0 <= k < buf.Length ==>
                    buf[k] == if EndsAt(ExecCmd(argv[..i]), k) then NUL else old(buf[k])
      {
        assert IsWord(line, argv[i]);
        buf[argv[i].eq] := NUL;
        forall k | 0 <= k < buf.Length
          ensures EndsAt(ExecCmd(argv[..i + 1]), k) <==> EndsAt(ExecCmd(argv[..i]), k) || k == argv[i].eq
        {
          OneMoreEnd(argv, i, k);
        }
      }
      assert argv[..|argv|] == argv;
    case RedirCmd(cmd, red) =>
      NulTerminate(buf, line, cmd);
      buf[red.file.eq] := NUL;
    case PipeCmd(left, right) =>
      NulTerminate(buf, line, left);
      NulTerminate(buf, line, right);
    case ListCmd(left, right) =>
      NulTerminate(buf, line, left);
      NulTerminate(buf, line, right);
    case BackCmd(cmd) =>
      NulTerminate(buf, line, cmd);
  }

  lemma OneMoreEnd(argv: seq<Span>, i: nat, k: nat)
    requires i < |argv|
    ensures EndsAt(ExecCmd(argv[..i + 1]), k) <==> EndsAt(ExecCmd(argv[..i]), k) || k == argv[i].eq
  {
    var a, b := argv[..i], argv[..i + 1];
    if EndsAt(ExecCmd(b), k) {
      var j :| 0 <= j < |b| && b[j].eq == k;
      assert j < i ==> a[j].eq == k;
    }
    if EndsAt(ExecCmd(a), k) {
      var j :| 0 <= j < |a| && a[j].eq == k;
      assert b[j].eq == k;
    }
    assert b[i].eq == argv[i].eq;
  }

  /** Only delimiters are overwritten: a word ends at the end of the line, at a space or at a symbol. */
  lemma {:induction false} EndsAtDelimiter(line: string, c: Cmd, k: nat)
    requires GoodCmd(line, c) && EndsAt(c, k)
    ensures k == |line| || (k < |line| && !IsWordChar(line[k]))
  {
    match c
    case ExecCmd(argv) =>
      var i :| 0 <= i < |argv| && argv[i].eq == k;
      assert IsWord(line, argv[i]);
    case RedirCmd(cmd, red) =>
      if EndsAt(cmd, k) {
        EndsAtDelimiter(line, cmd, k);
      }
    case PipeCmd(left, right) =>
      if EndsAt(left, k) {
        EndsAtDelimiter(line, left, k);
      } else {
        EndsAtDelimiter(line, right, k);
      }
    case ListCmd(left, right) =>
      if EndsAt(left, k) {
        EndsAtDelimiter(line, left, k);
      } else {
        EndsAtDelimiter(line, right, k);
      }
    case BackCmd(cmd) =>
      EndsAtDelimiter(line, cmd, k);
  }

  lemma {:induction false} WordsOfCmd(line: string, c: Cmd, p: Span)
    requires GoodCmd(line, c) && Has(c, p)
    ensures IsWord(line, p) && EndsAt(c, p.eq)
  {
    match c
    case ExecCmd(argv) =>
      var i :| 0 <= i < |argv| && argv[i] == p;
      assert IsWord(line, argv[i]) && argv[i].eq == p.eq;
    case RedirCmd(cmd, red) =>
      if Has(cmd, p) {
        WordsOfCmd(line, cmd, p);
      }
    case PipeCmd(left, right) =>
      if Has(left, p) {
        WordsOfCmd(line, left, p);
      } else {
        WordsOfCmd(line, right, p);
      }
    case ListCmd(left, right) =>
      if Has(left, p) {
        WordsOfCmd(line, left, p);
      } else {
        WordsOfCmd(line, right, p);
      }
    case BackCmd(cmd) =>
      WordsOfCmd(line, cmd, p);
  }

  /** The C string at q: up to the next NUL. */
  ghost function CString(buf: seq<char>, q: nat): (w: string)
    decreases |buf| - q
  {
    if q < |buf| && buf[q] != NUL then [buf[q]] + CString(buf, q + 1) else []
  }

  lemma {:induction false} CStringIs(buf: seq<char>, q: nat, e: nat)
    requires q <= e < |buf| && buf[e] == NUL && forall k :: q <= k < e ==> buf[k] != NUL
    ensures CString(buf, q) == buf[q..e]
    decreases e - q
  {
    if q < e {
      CStringIs(buf, q + 1, e);
      assert buf[q..e] == [buf[q]] + buf[q + 1..e];
    }
  }

  /** After nulterminate() every argv and file string is its token. */
  lemma StringsAreTokens(line: string, c: Cmd, buf: seq<char>, p: Span)
    requires NUL !in line && |buf| == |line| + 1 && GoodCmd(line, c) && Has(c, p)
    requires forall k :: 0 <= k < |buf| ==> buf[k] == if EndsAt(c, k) || k == |line| then NUL else line[k]
    ensures CString(buf, p.q) == TextOf(line, p)
  {
    WordsOfCmd(line, c, p);
    forall k | p.q <= k < p.eq ensures buf[k] == line[k] && buf[k] != NUL {
      if EndsAt(c, k) {
        EndsAtDelimiter(line, c, k);
      }
      assert line[k] in line;
    }
    CStringIs(buf, p.q, p.eq);
    assert buf[p.q..p.eq] == line[p.q..p.eq];
  }

  /** The command with the C strings that its pointers are to. */
  ghost function CTree(buf: seq<char>, c: Cmd): (t: Tree) {
    match c
    case ExecCmd(argv) => Exec(seq(|argv|, i requires 0 <= i < |argv| => CString(buf, argv[i].q)))
    case RedirCmd(cmd, red) => Redir(CTree(buf, cmd), Red(CString(buf, red.file.q), red.mode))
    case PipeCmd(left, right) => Pipe(CTree(buf, left), CTree(buf, right))
    case ListCmd(left, right) => List(CTree(buf, left), CTree(buf, right))
    case BackCmd(cmd) => Back(CTree(buf, cmd))
  }

  lemma {:induction false} CTreeIs(line: string, c: Cmd, buf: seq<char>)
    requires forall p :: Has(c, p) ==> CString(buf, p.q) == TextOf(line, p)
    ensures CTree(buf, c) == TreeOf(line, c)
  {
    match c
    case ExecCmd(argv) =>
      forall i | 0 <= i < |argv| ensures CString(buf, argv[i].q) == TextOf(line, argv[i]) {
        assert Has(c, argv[i]);
      }
    case RedirCmd(cmd, red) =>
      assert Has(c, red.file);
      CTreeIs(line, cmd, buf);
    case PipeCmd(left, right) =>
      CTreeIs(line, left, buf);
      CTreeIs(line, right, buf);
    case ListCmd(left, right) =>
      CTreeIs(line, left, buf);
      CTreeIs(line, right, buf);
    case BackCmd(cmd) =>
      CTreeIs(line, cmd, buf);
  }

  /**
   parsecmd() on the line buffer: it fails exactly on the lines that the grammar refuses, and
   otherwise the strings that the command points to spell the command that the line means.
   */
  method ParseBuffer(buf: array<char>) returns (ok: bool, c: Cmd)
    requires buf.Length > 0 && buf[buf.Length - 1] == NUL && NUL !in buf[..buf.Length - 1]
    modifies buf
    ensures ok == Command(old(buf[..buf.Length - 1])).Ok?
    ensures ok ==> CTree(buf[..], c) == Command(old(buf[..buf.Length - 1])).value
  {
    hide Command, TreeOf, CTree, CString, Has;
    var line := buf[..buf.Length - 1];
    var parser := new Parser(line);
    ok, c := parser.ParseCmd();
    if ok {
      NulTerminate(buf, line, c);
      forall k | 0 <= k < buf.Length ensures buf[..][k] == if EndsAt(c, k) || k == |line| then NUL else line[k] {
        assert k < |line| ==> line[k] == old(buf[k]);
      }
      forall p | Has(c, p) ensures CString(buf[..], p.q) == TextOf(line, p) {
        StringsAreTokens(line, c, buf[..], p);
      }
      CTreeIs(line, c, buf[..]);
    }
  }
}
