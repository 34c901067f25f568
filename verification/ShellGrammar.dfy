/**
 The grammar of the shell's command lines, as the parser of user/sh.c accepts them: each function
 here takes what is left of the line and gives the command it read and what is left then.
 */
module ShellGrammar {

  const MAXARGS: nat := 10
  const NUL: char := '\0'

  datatype Mode = Input | Truncate | Append

  datatype Red = Red(file: string, mode: Mode)

  /** A command, with the text of its words. */
  datatype Tree =
    | Exec(args: seq<string>)
    | Redir(cmd: Tree, red: Red)
    | Pipe(left: Tree, right: Tree)
    | List(left: Tree, right: Tree)
    | Back(cmd: Tree)

  /** Panic is where the shell gives up on the line. */
  datatype Result<+T> = Ok(value: T, rest: string) | Panic

  // ----- tokens -----

  predicate IsSpace(c: char) {
    c == ' ' || c == '\t' || c == '\r' || c == '\n' || c as int == 11
  }

  predicate IsSymbol(c: char) {
    c in "<|>&;()"
  }

  predicate IsWordChar(c: char) {
    !IsSpace(c) && !IsSymbol(c)
  }

  function Skip(t: string): (u: string)
    ensures |u| <= |t| && (u != [] ==> !IsSpace(u[0]))
  {
    if t != [] && IsSpace(t[0]) then Skip(t[1..]) else t
  }

  /** The longest prefix without spaces and symbols. */
  function Word(t: string): (w: string)
    ensures w <= t && (forall i :: 0 <= i < |w| ==> IsWordChar(w[i])) && (|w| < |t| ==> !IsWordChar(t[|w|]))
  {
    if t != [] && IsWordChar(t[0]) then
      var w := Word(t[1..]);
      assert t == [t[0]] + t[1..] && w <= t[1..];
      [t[0]] + w
    else []
  }

  /** peek(). */
  predicate Peek(t: string, toks: string) {
    Skip(t) != [] && Skip(t)[0] in toks
  }

  /** gettoken(): its kind, its text and what follows. */
  datatype Token = Token(kind: char, text: string, rest: string)

  function GetToken(t: string): (tok: Token)
    ensures |tok.rest| <= |t| && (Skip(t) != [] ==> |tok.rest| < |t|) && (tok.kind == NUL ==> tok.rest == [])
  {
    var u := Skip(t);
    if u == [] || u[0] == NUL then Token(NUL, [], [])
    else if u[0] in "|();&<" then Token(u[0], u[..1], Skip(u[1..]))
    else if u[0] == '>' then
      if |u| > 1 && u[1] == '>' then Token('+', u[..2], Skip(u[2..])) else Token('>', u[..1], Skip(u[1..]))
    else
      assert IsWordChar(u[0]);
      Token('a', Word(u), Skip(u[|Word(u)|..]))
  }

  function ModeOf(kind: char): (m: Mode) {
    if kind == '<' then Input else if kind == '>' then Truncate else Append
  }

  // ----- commands -----

  function Wrap(cmd: Tree, reds: seq<Red>): (t: Tree) {
    if reds == [] then cmd else Redir(Wrap(cmd, reds[..|reds| - 1]), reds[|reds| - 1])
  }

  /** parseredirs(): the redirections that follow, after those in reds. */
  function Redirs(reds: seq<Red>, t: string): (r: Result<seq<Red>>)
    ensures r.Ok? ==> |r.rest| <= |t|
    decreases |t|
  {
    if Peek(t, "<>") then
      var op := GetToken(t);
      var file := GetToken(op.rest);
      if file.kind != 'a' then Panic else Redirs(reds + [Red(file.text, ModeOf(op.kind))], file.rest)
    else Ok(reds, Skip(t))
  }

  /** The loop of parseexec(), after args and reds. */
  function Args(args: seq<string>, reds: seq<Red>, t: string): (r: Result<Tree>)
    ensures r.Ok? ==> |r.rest| <= |t|
    decreases |t|
  {
    if Peek(t, "|)&;") then Ok(Wrap(Exec(args), reds), Skip(t))
    else
      var tok := GetToken(t);
      if tok.kind == NUL then Ok(Wrap(Exec(args), reds), [])
      else if tok.kind != 'a' || |args| + 1 >= MAXARGS then Panic
      else
        var more := Redirs(reds, tok.rest);
        if more.Panic? then Panic else Args(args + [tok.text], more.value, more.rest)
  }

  /** parseexec(). */
  function ExecCmd(t: string): (r: Result<Tree>)
    ensures r.Ok? ==> |r.rest| <= |t|
    decreases |t|, 1
  {
    if Peek(t, "(") then Block(t)
    else
      var reds := Redirs([], t);
      if reds.Panic? then Panic else Args([], reds.value, reds.rest)
  }

  /** parseblock(). */
  function Block(t: string): (r: Result<Tree>)
    ensures r.Ok? ==> |r.rest| <= |t|
    decreases |t|, 0
  {
    if !Peek(t, "(") then Panic
    else
      var body := Line(GetToken(t).rest);
      if body.Panic? || !Peek(body.rest, ")") then Panic
      else
        var reds := Redirs([], GetToken(body.rest).rest);
        if reds.Panic? then Panic else Ok(Wrap(body.value, reds.value), reds.rest)
  }

  /** parsepipe(). */
  function PipeCmd(t: string): (r: Result<Tree>)
    ensures r.Ok? ==> |r.rest| <= |t|
    decreases |t|, 2
  {
    var left := ExecCmd(t);
    if left.Panic? then Panic
    else if Peek(left.rest, "|") then
      var right := PipeCmd(GetToken(left.rest).rest);
      if right.Panic? then Panic else Ok(Pipe(left.value, right.value), right.rest)
    else Ok(left.value, Skip(left.rest))
  }

  /** The loop of parseline(): a Back for each '&'. */
  function Backs(cmd: Tree, t: string): (r: Result<Tree>)
    ensures r.Ok? && |r.rest| <= |t|
    decreases |t|
  {
    if Peek(t, "&") then Backs(Back(cmd), GetToken(t).rest) else Ok(cmd, Skip(t))
  }

  /** parseline(). */
  function Line(t: string): (r: Result<Tree>)
    ensures r.Ok? ==> |r.rest| <= |t|
    decreases |t|, 3
  {
    var first := PipeCmd(t);
    if first.Panic? then Panic
    else
      var cmd := Backs(first.value, first.rest);
      if Peek(cmd.rest, ";") then
        var more := Line(GetToken(cmd.rest).rest);
        if more.Panic? then Panic else Ok(List(cmd.value, more.value), more.rest)
      else Ok(cmd.value, Skip(cmd.rest))
  }

  /** parsecmd(): the whole line must be one command. */
  function Command(t: string): (r: Result<Tree>) {
    var line := Line(t);
    if line.Ok? && Skip(line.rest) == [] then line else Panic
  }

  // ----- printing -----

  function PrintArgs(args: seq<string>): (s: string) {
    if args == [] then [] else if |args| == 1 then args[0] else args[0] + " " + PrintArgs(args[1..])
  }

  function Operator(m: Mode): (s: string) {
    match m
    case Input => "<"
    case Truncate => ">"
    case Append => ">>"
  }

  /** Every part of a compound command is in parentheses. */
  function Print(t: Tree): (s: string) {
    match t
    case Exec(args) => PrintArgs(args)
    case Redir(cmd, red) => "(" + Print(cmd) + ")" + Operator(red.mode) + red.file
    case Pipe(left, right) => "(" + Print(left) + ")|(" + Print(right) + ")"
    case List(left, right) => "(" + Print(left) + ");(" + Print(right) + ")"
    case Back(cmd) => "(" + Print(cmd) + ")&"
  }

  ghost predicate GoodWord(w: string) {
    w != [] && forall i :: 0 <= i < |w| ==> IsWordChar(w[i]) && w[i] != NUL
  }

  /** Words are not empty and hold no spaces, symbols or NULs, and there are at most 9 arguments. */
  ghost predicate GoodTree(t: Tree) {
    match t
    case Exec(args) => |args| < MAXARGS && forall i :: 0 <= i < |args| ==> GoodWord(args[i])
    case Redir(cmd, red) => GoodTree(cmd) && GoodWord(red.file)
    case Pipe(left, right) => GoodTree(left) && GoodTree(right)
    case List(left, right) => GoodTree(left) && GoodTree(right)
    case Back(cmd) => GoodTree(cmd)
  }

  /** The end of the line or of a block. */
  predicate Ends(r: string) {
    r == [] || r[0] == ')'
  }

  // ----- tokens of printed text -----

  lemma SkipNothing(t: string)
    requires t == [] || !IsSpace(t[0])
    ensures Skip(t) == t
  {
  }

  lemma {:induction false} WordThen(w: string, x: string)
    requires (forall i :: 0 <= i < |w| ==> IsWordChar(w[i])) && (x == [] || !IsWordChar(x[0]))
    ensures Word(w + x) == w
  {
    if w == [] {
      assert w + x == x;
    } else {
      WordThen(w[1..], x);
      assert (w + x)[1..] == w[1..] + x;
      assert w == [w[0]] + w[1..];
    }
  }

  lemma TokenWord(w: string, x: string)
    requires GoodWord(w) && (x == [] || !IsWordChar(x[0]))
    ensures GetToken(w + x) == Token('a', w, Skip(x))
  {
    SkipNothing(w + x);
    WordThen(w, x);
    assert (w + x)[0] == w[0] && IsWordChar(w[0]);
    assert (w + x)[|w|..] == x;
  }

  lemma TokenSymbol(c: char, x: string)
    requires c in "|();&<"
    ensures GetToken([c] + x) == Token(c, [c], Skip(x)) && Skip([c] + x) == [c] + x
  {
    SkipNothing([c] + x);
    assert ([c] + x)[1..] == x && ([c] + x)[..1] == [c];
  }

  lemma TokenOperator(m: Mode, x: string)
    requires x == [] || x[0] != '>'
    ensures GetToken(Operator(m) + x).rest == Skip(x) && ModeOf(GetToken(Operator(m) + x).kind) == m
    ensures Peek(Operator(m) + x, "<>")
  {
    var t := Operator(m) + x;
    SkipNothing(t);
    match m
    case Input => TokenSymbol('<', x);
    case Truncate => assert t[1..] == x;
    case Append => assert t[2..] == x;
  }

  // ----- parsing it back -----

  /** One argument w, and after it y, which starts with no redirection. */
  lemma ArgsStep(done: seq<string>, w: string, x: string, y: string)
    requires |done| + 1 < MAXARGS && GoodWord(w) && (x == [] || !IsWordChar(x[0])) && Skip(x) == y
    requires y == [] || (y[0] != '<' && y[0] != '>')
    ensures Args(done, [], w + x) == Args(done + [w], [], y)
  {
    TokenWord(w, x);
    SkipNothing(w + x);
    assert (w + x)[0] == w[0] && IsWordChar(w[0]);
    SkipNothing(y);
    assert Redirs([], y) == Ok([], y);
  }

  lemma ArgsEnd(done: seq<string>, r: string)
    requires Ends(r)
    ensures Args(done, [], r) == Ok(Exec(done), r)
  {
    SkipNothing(r);
    assert Wrap(Exec(done), []) == Exec(done);
  }

  lemma {:induction false} ArgsOf(done: seq<string>, args: seq<string>, r: string)
    requires |done| + |args| < MAXARGS && (forall i :: 0 <= i < |args| ==> GoodWord(args[i])) && Ends(r)
    ensures Args(done, [], PrintArgs(args) + r) == Ok(Exec(done + args), r)
    decreases |args|
  {
    hide Args, Skip, GoodWord;
    if args == [] {
      assert PrintArgs(args) + r == r && done + args == done;
      ArgsEnd(done, r);
    } else {
      var w, rest := args[0], args[1..];
      var y := PrintArgs(rest) + r;
      var x := if rest == [] then r else " " + y;
      assert PrintArgs(args) + r == w + x;
      StartsPlain(rest, r);
      SkipNothing(y);
      SkipSpace(y);
      assert rest == [] ==> y == r;
      ArgsStep(done, w, x, y);
      ArgsOf(done + [w], rest, r);
      assert done + [w] + rest == done + args;
    }
  }

  lemma SkipSpace(y: string)
    requires Skip(y) == y
    ensures Skip(" " + y) == y
  {
    assert (" " + y)[1..] == y;
  }

  /** Arguments start with neither a space nor a redirection nor a block. */
  lemma StartsPlain(args: seq<string>, r: string)
    requires (forall i :: 0 <= i < |args| ==> GoodWord(args[i])) && Ends(r)
    ensures var y := PrintArgs(args) + r; y == [] || (!IsSpace(y[0]) && y[0] != '<' && y[0] != '>' && y[0] != '(')
  {
    if args != [] {
      assert (PrintArgs(args) + r)[0] == args[0][0] && IsWordChar(args[0][0]);
    } else {
      assert PrintArgs(args) + r == r;
    }
  }

  lemma ExecOf(args: seq<string>, r: string)
    requires |args| < MAXARGS && (forall i :: 0 <= i < |args| ==> GoodWord(args[i])) && Ends(r)
    ensures ExecCmd(PrintArgs(args) + r) == Ok(Exec(args), r)
  {
    var t := PrintArgs(args) + r;
    StartsPlain(args, r);
    SkipNothing(t);
    assert Redirs([], t) == Ok([], t);
    ArgsOf([], args, r);
    assert [] + args == args;
  }

  /** A block whose body parses to c, followed by x. */
  lemma BlockOf(body: string, c: Tree, x: string)
    requires Line(body + ")" + x) == Ok(c, ")" + x) && (body + ")" + x == [] || !IsSpace((body + ")" + x)[0]))
    ensures Peek("(" + body + ")" + x, "(")
    ensures Block("(" + body + ")" + x)
            == var reds := Redirs([], Skip(x)); if reds.Panic? then Panic else Ok(Wrap(c, reds.value), reds.rest)
  {
    hide Line, Redirs, Wrap;
    var t := "(" + body + ")" + x;
    var u := body + ")" + x;
    assert t == ['('] + u;
    TokenSymbol('(', u);
    SkipNothing(u);
    assert ")" + x == [')'] + x;
    TokenSymbol(')', x);
  }

  /** And nothing of a redirection after it. */
  lemma PlainBlock(body: string, c: Tree, x: string)
    requires Line(body + ")" + x) == Ok(c, ")" + x) && !IsSpace((body + ")" + x)[0])
    requires x == [] || (!IsSpace(x[0]) && x[0] != '<' && x[0] != '>')
    ensures ExecCmd("(" + body + ")" + x) == Ok(c, x)
  {
    BlockOf(body, c, x);
    SkipNothing(x);
    assert Redirs([], x) == Ok([], x);
  }

  lemma NoSpaceFirst(t: Tree, r: string)
    requires GoodTree(t) && Ends(r)
    ensures var s := Print(t) + r; s == [] || !IsSpace(s[0])
  {
    if t.Exec? {
      StartsPlain(t.args, r);
    }
  }

  // What follows a command decides how parsepipe() and parseline() go on.

  lemma PipePlain(t: string, c: Tree, x: string)
    requires ExecCmd(t) == Ok(c, x) && (x == [] || (!IsSpace(x[0]) && x[0] != '|'))
    ensures PipeCmd(t) == Ok(c, x)
  {
    SkipNothing(x);
  }

  lemma PipeThen(t: string, c: Tree, y: string, d: Tree, r: string)
    requires ExecCmd(t) == Ok(c, "|" + y) && Skip(y) == y && PipeCmd(y) == Ok(d, r)
    ensures PipeCmd(t) == Ok(Pipe(c, d), r)
  {
    assert "|" + y == ['|'] + y;
    TokenSymbol('|', y);
  }

  lemma LinePlain(t: string, c: Tree, r: string)
    requires PipeCmd(t) == Ok(c, r) && Ends(r)
    ensures Line(t) == Ok(c, r)
  {
    SkipNothing(r);
    assert Backs(c, r) == Ok(c, r);
  }

  lemma LineBack(t: string, c: Tree, r: string)
    requires PipeCmd(t) == Ok(c, "&" + r) && Ends(r)
    ensures Line(t) == Ok(Back(c), r)
  {
    SkipNothing(r);
    assert "&" + r == ['&'] + r;
    TokenSymbol('&', r);
    assert Backs(c, "&" + r) == Backs(Back(c), r) == Ok(Back(c), r);
  }

  lemma LineList(t: string, c: Tree, y: string, d: Tree, r: string)
    requires PipeCmd(t) == Ok(c, ";" + y) && Skip(y) == y && Line(y) == Ok(d, r)
    ensures Line(t) == Ok(List(c, d), r)
  {
    assert ";" + y == [';'] + y;
    TokenSymbol(';', y);
    assert Backs(c, ";" + y) == Ok(c, ";" + y);
  }

  lemma RedirThen(red: Red, r: string)
    requires GoodWord(red.file) && Ends(r)
    ensures Redirs([], Operator(red.mode) + red.file + r) == Ok([red], r)
    ensures Skip(Operator(red.mode) + red.file + r) == Operator(red.mode) + red.file + r
  {
    var y := red.file + r;
    var x := Operator(red.mode) + y;
    assert x == Operator(red.mode) + red.file + r;
    SkipNothing(r);
    assert y[0] == red.file[0] && IsWordChar(y[0]);
    TokenOperator(red.mode, y);
    SkipNothing(x);
    SkipNothing(y);
    TokenWord(red.file, r);
    RedirsOne(red, x, y, r);
  }

  lemma RedirsOne(red: Red, x: string, y: string, r: string)
    requires Peek(x, "<>") && GetToken(x).rest == y && ModeOf(GetToken(x).kind) == red.mode && Ends(r)
    requires GetToken(y) == Token('a', red.file, r)
    ensures Redirs([], x) == Ok([red], r)
  {
    SkipNothing(r);
    assert Redirs([red], r) == Ok([red], r);
    assert [] + [red] == [red];
  }

  /** Printing and parsing a command gives it back. */
  lemma {:induction false} LineOf(t: Tree, r: string)
    requires GoodTree(t) && Ends(r)
    ensures Line(Print(t) + r) == Ok(t, r)
    decreases t, 2
  {
    hide Line, PipeCmd, ExecCmd;
    match t
    case Exec(args) =>
      ExecOf(args, r);
      PipePlain(Print(t) + r, t, r);
      LinePlain(Print(t) + r, t, r);
    case Redir(cmd, red) =>
      RedirOf(cmd, red, r);
    case Pipe(left, right) =>
      PipeOf(left, right, r);
    case List(left, right) =>
      ListOf(left, right, r);
    case Back(cmd) =>
      BackOf(cmd, r);
  }

  /** A command in parentheses, followed by x. */
  lemma Nested(t: Tree, x: string)
    requires GoodTree(t) && (x == [] || (!IsSpace(x[0]) && x[0] != '<' && x[0] != '>'))
    ensures ExecCmd("(" + Print(t) + ")" + x) == Ok(t, x)
    decreases t, 4
  {
    hide Line, ExecCmd, Block, GoodTree, Print;
    Inside(t, x);
    PlainBlock(Print(t), t, x);
  }

  lemma Inside(t: Tree, x: string)
    requires GoodTree(t)
    ensures Line(Print(t) + ")" + x) == Ok(t, ")" + x) && !IsSpace((Print(t) + ")" + x)[0])
    decreases t, 3
  {
    hide Line, GoodTree, Print;
    assert Print(t) + ")" + x == Print(t) + (")" + x);
    LineOf(t, ")" + x);
    NoSpaceFirst(t, ")" + x);
  }

  lemma BackOf(cmd: Tree, r: string)
    requires GoodTree(cmd) && Ends(r)
    ensures Line(Print(Back(cmd)) + r) == Ok(Back(cmd), r)
    decreases Back(cmd), 1
  {
    hide Line, PipeCmd, ExecCmd, GoodTree;
    var x := "&" + r;
    var t := "(" + Print(cmd) + ")" + x;
    assert Print(Back(cmd)) + r == t;
    Nested(cmd, x);
    PipePlain(t, cmd, x);
    LineBack(t, cmd, r);
  }

  lemma PrintedPipe(left: Tree, right: Tree, r: string)
    ensures Print(Pipe(left, right)) + r == "(" + Print(left) + ")" + ("|" + ("(" + Print(right) + ")" + r))
  {
    Parted(Print(left), Print(right), '|', r);
    assert ")|(" == ")" + ['|'] + "(" && "|" == ['|'];
  }

  lemma PrintedList(left: Tree, right: Tree, r: string)
    ensures Print(List(left, right)) + r == "(" + Print(left) + ")" + (";" + ("(" + Print(right) + ")" + r))
  {
    Parted(Print(left), Print(right), ';', r);
    assert ");(" == ")" + [';'] + "(" && ";" == [';'];
  }

  lemma Parted(a: string, b: string, op: char, r: string)
    ensures "(" + a + (")" + [op] + "(") + b + ")" + r == "(" + a + ")" + ([op] + ("(" + b + ")" + r))
  {
  }

  lemma PipeOf(left: Tree, right: Tree, r: string)
    requires GoodTree(left) && GoodTree(right) && Ends(r)
    ensures Line(Print(Pipe(left, right)) + r) == Ok(Pipe(left, right), r)
    decreases Pipe(left, right), 1
  {
    hide Line, PipeCmd, ExecCmd, GoodTree, Print, Skip;
    var y := "(" + Print(right) + ")" + r;
    var t := "(" + Print(left) + ")" + ("|" + y);
    PrintedPipe(left, right, r);
    Nested(left, "|" + y);
    Nested(right, r);
    PipePlain(y, right, r);
    SkipNothing(y);
    PipeThen(t, left, y, right, r);
    LinePlain(t, Pipe(left, right), r);
  }

  lemma ListOf(left: Tree, right: Tree, r: string)
    requires GoodTree(left) && GoodTree(right) && Ends(r)
    ensures Line(Print(List(left, right)) + r) == Ok(List(left, right), r)
    decreases List(left, right), 1
  {
    hide Line, PipeCmd, ExecCmd, GoodTree, Print, Skip;
    var y := "(" + Print(right) + ")" + r;
    var t := "(" + Print(left) + ")" + (";" + y);
    PrintedList(left, right, r);
    Nested(left, ";" + y);
    PipePlain(t, left, ";" + y);
    Nested(right, r);
    PipePlain(y, right, r);
    LinePlain(y, right, r);
    SkipNothing(y);
    LineList(t, left, y, right, r);
  }

  lemma RedirOf(cmd: Tree, red: Red, r: string)
    requires GoodTree(cmd) && GoodWord(red.file) && Ends(r)
    ensures Line(Print(Redir(cmd, red)) + r) == Ok(Redir(cmd, red), r)
    decreases Redir(cmd, red), 1
  {
    hide Line, PipeCmd, GoodTree, Redirs, GoodWord, Block;
    var x := Operator(red.mode) + red.file + r;
    var t := "(" + Print(cmd) + ")" + x;
    assert Print(Redir(cmd, red)) + r == t;
    Inside(cmd, x);
    BlockOf(Print(cmd), cmd, x);
    RedirThen(red, r);
    WrapOne(cmd, red);
    assert ExecCmd(t) == Block(t) == Ok(Redir(cmd, red), r);
    hide ExecCmd;
    PipePlain(t, Redir(cmd, red), r);
    LinePlain(t, Redir(cmd, red), r);
  }

  lemma WrapOne(cmd: Tree, red: Red)
    ensures Wrap(cmd, [red]) == Redir(cmd, red)
  {
  }

  /** The whole line. */
  lemma RoundTrip(t: Tree)
    requires GoodTree(t)
    ensures Command(Print(t)) == Ok(t, [])
  {
    LineOf(t, []);
    assert Print(t) + [] == Print(t);
  }

  // ----- what the parser accepts -----

  lemma {:induction false} SkipClean(t: string)
    requires NUL !in t
    ensures NUL !in Skip(t)
  {
    if t != [] && IsSpace(t[0]) {
      SkipClean(t[1..]);
    }
  }

  lemma TokenClean(t: string)
    requires NUL !in t
    ensures NUL !in GetToken(t).rest && (GetToken(t).kind == 'a' ==> GoodWord(GetToken(t).text))
  {
    SkipClean(t);
    var u := Skip(t);
    forall k | 0 <= k <= |u| ensures NUL !in Skip(u[k..]) {
      SkipClean(u[k..]);
    }
    if u != [] && IsWordChar(u[0]) {
      var w := Word(u);
      forall i | 0 <= i < |w| ensures w[i] != NUL {
        assert w[i] == u[i];
      }
    }
  }

  ghost predicate GoodReds(reds: seq<Red>) {
    forall i :: 0 <= i < |reds| ==> GoodWord(reds[i].file)
  }

  ghost predicate Fine(r: Result<Tree>) {
    r.Ok? ==> GoodTree(r.value) && NUL !in r.rest
  }

  lemma {:induction false} WrapGood(cmd: Tree, reds: seq<Red>)
    requires GoodTree(cmd) && GoodReds(reds)
    ensures GoodTree(Wrap(cmd, reds))
    decreases |reds|
  {
    if reds != [] {
      WrapGood(cmd, reds[..|reds| - 1]);
    }
  }

  lemma {:induction false} RedirsGood(reds: seq<Red>, t: string)
    requires NUL !in t && GoodReds(reds)
    ensures Redirs(reds, t).Ok? ==> GoodReds(Redirs(reds, t).value) && NUL !in Redirs(reds, t).rest
    decreases |t|
  {
    SkipClean(t);
    if Peek(t, "<>") {
      var op := GetToken(t);
      TokenClean(t);
      var file := GetToken(op.rest);
      TokenClean(op.rest);
      if file.kind == 'a' {
        RedirsGood(reds + [Red(file.text, ModeOf(op.kind))], file.rest);
      }
    }
  }

  lemma {:induction false} ArgsGood(args: seq<string>, reds: seq<Red>, t: string)
    requires NUL !in t && GoodTree(Exec(args)) && GoodReds(reds)
    ensures Fine(Args(args, reds, t))
    decreases |t|
  {
    SkipClean(t);
    WrapGood(Exec(args), reds);
    if !Peek(t, "|)&;") {
      var tok := GetToken(t);
      TokenClean(t);
      if tok.kind == 'a' && |args| + 1 < MAXARGS {
        var more := Redirs(reds, tok.rest);
        RedirsGood(reds, tok.rest);
        if more.Ok? {
          ArgsGood(args + [tok.text], more.value, more.rest);
        }
      }
    }
  }

  lemma {:induction false} ExecGood(t: string)
    requires NUL !in t
    ensures Fine(ExecCmd(t))
    decreases |t|, 1
  {
    if Peek(t, "(") {
      BlockGood(t);
    } else {
      var reds := Redirs([], t);
      RedirsGood([], t);
      if reds.Ok? {
        ArgsGood([], reds.value, reds.rest);
      }
    }
  }

  lemma {:induction false} BlockGood(t: string)
    requires NUL !in t
    ensures Fine(Block(t))
    decreases |t|, 0
  {
    if Peek(t, "(") {
      TokenClean(t);
      var body := Line(GetToken(t).rest);
      LineGood(GetToken(t).rest);
      if body.Ok? && Peek(body.rest, ")") {
        TokenClean(body.rest);
        var reds := Redirs([], GetToken(body.rest).rest);
        RedirsGood([], GetToken(body.rest).rest);
        if reds.Ok? {
          WrapGood(body.value, reds.value);
        }
      }
    }
  }

  lemma {:induction false} PipeGood(t: string)
    requires NUL !in t
    ensures Fine(PipeCmd(t))
    decreases |t|, 2
  {
    var left := ExecCmd(t);
    ExecGood(t);
    if left.Ok? {
      SkipClean(left.rest);
      if Peek(left.rest, "|") {
        TokenClean(left.rest);
        PipeGood(GetToken(left.rest).rest);
      }
    }
  }

  lemma {:induction false} BacksGood(cmd: Tree, t: string)
    requires NUL !in t && GoodTree(cmd)
    ensures Fine(Backs(cmd, t))
    decreases |t|
  {
    SkipClean(t);
    if Peek(t, "&") {
      TokenClean(t);
      BacksGood(Back(cmd), GetToken(t).rest);
    }
  }

  lemma {:induction false} LineGood(t: string)
    requires NUL !in t
    ensures Fine(Line(t))
    decreases |t|, 3
  {
    var first := PipeCmd(t);
    PipeGood(t);
    if first.Ok? {
      var cmd := Backs(first.value, first.rest);
      BacksGood(first.value, first.rest);
      SkipClean(cmd.rest);
      if Peek(cmd.rest, ";") {
        TokenClean(cmd.rest);
        LineGood(GetToken(cmd.rest).rest);
      }
    }
  }

  lemma {:induction false} PrintArgsClean(args: seq<string>)
    requires forall i :: 0 <= i < |args| ==> GoodWord(args[i])
    ensures NUL !in PrintArgs(args)
    decreases |args|
  {
    if |args| > 1 {
      assert GoodWord(args[0]);
      PrintArgsClean(args[1..]);
    }
  }

  lemma {:induction false} PrintClean(t: Tree)
    requires GoodTree(t)
    ensures NUL !in Print(t)
  {
    match t
    case Exec(args) => PrintArgsClean(args);
    case Redir(cmd, red) => PrintClean(cmd);
    case Pipe(left, right) => PrintClean(left); PrintClean(right);
    case List(left, right) => PrintClean(left); PrintClean(right);
    case Back(cmd) => PrintClean(cmd);
  }

  /** Every line that is accepted has the same meaning as the printing of its command. */
  lemma Normalised(line: string)
    requires NUL !in line && Command(line).Ok?
    ensures Command(Print(Command(line).value)).Ok? && Command(Print(Command(line).value)).value == Command(line).value
  {
    LineGood(line);
    RoundTrip(Command(line).value);
  }

  ghost predicate Means(line: string, t: Tree) {
    NUL !in line && Command(line).Ok? && Command(line).value == t
  }

  /** The commands that some line means are exactly those with good words and at most 9 arguments each. */
  lemma AcceptedIff(t: Tree)
    ensures (exists line :: Means(line, t)) <==> GoodTree(t)
  {
    if GoodTree(t) {
      PrintClean(t);
      RoundTrip(t);
      assert Means(Print(t), t);
    }
    if line :| Means(line, t) {
      LineGood(line);
    }
  }
}
