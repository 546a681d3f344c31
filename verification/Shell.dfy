/** The command language of sh.c: its recursive-descent parser, on the rest of the line, and a printer. */
module Shell {

  const MAXARGS: nat := 10

  /** `output` stands for `>` and `>>`, which build the same node, and its absence for `<`. */
  datatype Redirection = Redirection(file: string, output: bool)

  datatype Cmd =
    | Exec(args: seq<string>)
    | Redir(cmd: Cmd, to: Redirection)
    | Pipe(left: Cmd, right: Cmd)
    | List(left: Cmd, right: Cmd)
    | Back(cmd: Cmd)

  // ---------- tokens ----------

  predicate White(c: char) {
    c == ' ' || c == '\t' || c == '\r' || c == '\n' || c == '\U{000B}'
  }

  predicate Symbol(c: char) {
    c == '<' || c == '|' || c == '>' || c == '&' || c == ';' || c == '(' || c == ')'
  }

  predicate WordChar(c: char) {
    c != '\0' && !White(c) && !Symbol(c)
  }

  function Skip(s: string): (r: string)
    ensures |r| <= |s|
    ensures r == "" || !White(r[0])
  {
    if s != "" && White(s[0]) then Skip(s[1..]) else s
  }

  /** The length of the word that s starts with. */
  function WordEnd(s: string): (n: nat)
    ensures n <= |s|
    ensures forall i | 0 <= i < n :: WordChar(s[i])
  {
    if s == "" || !WordChar(s[0]) then 0 else 1 + WordEnd(s[1..])
  }

  datatype Kind = End | Sym(c: char) | Append | Word(w: string)

  datatype Token = Token(kind: Kind, rest: string)

  function GetToken(s: string): (t: Token)
    ensures |t.rest| <= |s|
    ensures !t.kind.End? ==> |t.rest| < |s|
    ensures t.kind.Word? ==> ValidWord(t.kind.w)
  {
    var t := Skip(s);
    if t == "" || t[0] == '\0' then Token(End, t)
    else if t[0] == '>' then
      if |t| > 1 && t[1] == '>' then Token(Append, Skip(t[2..])) else Token(Sym('>'), Skip(t[1..]))
    else if Symbol(t[0]) then Token(Sym(t[0]), Skip(t[1..]))
    else
      var n := WordEnd(t);
      Token(Word(t[..n]), Skip(t[n..]))
  }

  predicate Peek(s: string, toks: string) {
    var t := Skip(s);
    t != "" && t[0] != '\0' && t[0] in toks
  }

  predicate ValidWord(w: string) {
    w != "" && forall i | 0 <= i < |w| :: WordChar(w[i])
  }

  // ---------- the parser ----------

  datatype Parsed = Ok(cmd: Cmd, rest: string) | Err(why: string)

  datatype Redirs = Redirections(list: seq<Redirection>, after: string) | BadRedirection(why: string)

  /** The first redirection is the innermost. */
  function Wrap(c: Cmd, list: seq<Redirection>): Cmd
    decreases |list|
  {
    if list == [] then c else Wrap(Redir(c, list[0]), list[1..])
  }

  function ParseRedirs(s: string): (r: Redirs)
    ensures r.Redirections? ==> |r.after| <= |s|
    decreases |s|
  {
    if !Peek(s, "<>") then Redirections([], Skip(s)) else
    var tok := GetToken(s);
    var file := GetToken(tok.rest);
    if !file.kind.Word? then BadRedirection("missing file for redirection") else
    var more := ParseRedirs(file.rest);
    if more.BadRedirection? then more else
    Redirections([Redirection(file.kind.w, tok.kind != Sym('<'))] + more.list, more.after)
  }

  /** The loop of `parseexec`, with what it has gathered so far. */
  function ParseArgs(args: seq<string>, list: seq<Redirection>, s: string): (r: Parsed)
    ensures r.Ok? ==> |r.rest| <= |s|
    decreases |s|
  {
    if Peek(s, "|)&;") then Ok(Wrap(Exec(args), list), Skip(s)) else
    var tok := GetToken(s);
    if tok.kind.End? then Ok(Wrap(Exec(args), list), tok.rest)
    else if !tok.kind.Word? then Err("syntax")
    else if |args| + 1 >= MAXARGS then Err("too many args")
    else
      var more := ParseRedirs(tok.rest);
      if more.BadRedirection? then Err(more.why)
      else ParseArgs(args + [tok.kind.w], list + more.list, more.after)
  }

  function ParseExec(s: string): (r: Parsed)
    ensures r.Ok? ==> |r.rest| <= |s|
    decreases |s|, 2
  {
    if Peek(s, "(") then ParseBlock(Skip(s)) else
    var first := ParseRedirs(s);
    if first.BadRedirection? then Err(first.why)
    else ParseArgs([], first.list, first.after)
  }

  function ParseBlock(s: string): (r: Parsed)
    ensures r.Ok? ==> |r.rest| <= |s|
    decreases |s|, 1
  {
    if !Peek(s, "(") then Err("parseblock") else
    var inner := ParseLine(GetToken(s).rest);
    if inner.Err? then inner
    else if !Peek(inner.rest, ")") then Err("syntax - missing )")
    else
      var list := ParseRedirs(GetToken(inner.rest).rest);
      if list.BadRedirection? then Err(list.why) else Ok(Wrap(inner.cmd, list.list), list.after)
  }

  function ParsePipe(s: string): (r: Parsed)
    ensures r.Ok? ==> |r.rest| <= |s|
    decreases |s|, 3
  {
    var left := ParseExec(s);
    if left.Err? then left
    else if Peek(left.rest, "|") then
      var right := ParsePipe(GetToken(left.rest).rest);
      if right.Err? then right else Ok(Pipe(left.cmd, right.cmd), right.rest)
    else Ok(left.cmd, Skip(left.rest))
  }

  /** The loop over `&` in `parseline`. */
  function ParseBacks(c: Cmd, s: string): (r: Parsed)
    ensures r.Ok? && |r.rest| <= |s|
    decreases |s|
  {
    if Peek(s, "&") then ParseBacks(Back(c), GetToken(s).rest) else Ok(c, Skip(s))
  }

  function ParseLine(s: string): (r: Parsed)
    ensures r.Ok? ==> |r.rest| <= |s|
    decreases |s|, 4
  {
    var first := ParsePipe(s);
    if first.Err? then first else
    var left := ParseBacks(first.cmd, first.rest);
    if Peek(left.rest, ";") then
      var right := ParseLine(GetToken(left.rest).rest);
      if right.Err? then right else Ok(List(left.cmd, right.cmd), right.rest)
    else Ok(left.cmd, Skip(left.rest))
  }

  function ParseCmd(s: string): Parsed {
    var r := ParseLine(s);
    if r.Err? then r
    else if Skip(r.rest) != "" then Err("syntax")
    else Ok(r.cmd, Skip(r.rest))
  }

  // ---------- the printer ----------

  function Join(args: seq<string>): string {
    if args == [] then "" else if |args| == 1 then args[0] else args[0] + " " + Join(args[1..])
  }

  function PrintRedir(r: Redirection): string {
    (if r.output then ">" else "<") + r.file
  }

  predicate Simple(c: Cmd) {
    c.Exec? || c.Redir?
  }

  /** A line prints its parts without parentheses, a part of a higher level with them. */
  function PrintLine(c: Cmd): string
    decreases c, if Simple(c) then 3 else if c.Pipe? then 2 else if c.Back? then 1 else 0
  {
    match c
    case List(l, r) => PrintBack(l) + ";" + PrintLine(r)
    case _ => PrintBack(c)
  }

  function PrintBack(c: Cmd): string
    decreases c, if Simple(c) then 2 else if c.Pipe? then 1 else if c.Back? then 0 else 3
  {
    match c
    case Back(x) => PrintBack(x) + "&"
    case _ => PrintPipe(c)
  }

  function PrintPipe(c: Cmd): string
    decreases c, if Simple(c) then 1 else if c.Pipe? then 0 else if c.Back? then 3 else 2
  {
    match c
    case Pipe(l, r) => PrintExec(l) + "|" + PrintPipe(r)
    case _ => PrintExec(c)
  }

  function PrintExec(c: Cmd): string
    decreases c, if Simple(c) then 0 else if c.Pipe? then 3 else if c.Back? then 2 else 1
  {
    match c
    case Exec(args) => Join(args)
    case Redir(x, to) => PrintExec(x) + PrintRedir(to)
    case _ => "(" + PrintLine(c) + ")"
  }

  /** Every word is one the tokeniser can return. */
  predicate WordsOk(c: Cmd) {
    match c
    case Exec(args) => forall i | 0 <= i < |args| :: ValidWord(args[i])
    case Redir(x, to) => WordsOk(x) && ValidWord(to.file)
    case Pipe(l, r) => WordsOk(l) && WordsOk(r)
    case List(l, r) => WordsOk(l) && WordsOk(r)
    case Back(x) => WordsOk(x)
  }

  predicate FewArgs(c: Cmd) {
    match c
    case Exec(args) => |args| < MAXARGS
    case Redir(x, _) => FewArgs(x)
    case Pipe(l, r) => FewArgs(l) && FewArgs(r)
    case List(l, r) => FewArgs(l) && FewArgs(r)
    case Back(x) => FewArgs(x)
  }

  // ---------- tokens read back ----------

  /** What may follow a printed command: nothing, or one of the given symbols. */
  predicate Stops(rest: string, toks: string) {
    rest == "" || (rest[0] in toks && Symbol(rest[0]))
  }

  /** Nothing is skipped at the start of s. */
  predicate Tidy(s: string) {
    s == "" || (!White(s[0]) && s[0] != '\0')
  }

  lemma {:induction false} WordEndOf(w: string, rest: string)
    requires forall i | 0 <= i < |w| :: WordChar(w[i])
    requires rest == "" || !WordChar(rest[0])
    ensures WordEnd(w + rest) == |w|
  {
    if w == "" {
      assert w + rest == rest;
    } else {
      assert (w + rest)[1..] == w[1..] + rest;
      WordEndOf(w[1..], rest);
    }
  }

  lemma WordToken(w: string, rest: string)
    requires ValidWord(w) && (rest == "" || !WordChar(rest[0]))
    ensures GetToken(w + rest) == Token(Word(w), Skip(rest)) && Tidy(w + rest)
  {
    var s := w + rest;
    assert s[0] == w[0] && WordChar(w[0]);
    WordEndOf(w, rest);
    assert s[..|w|] == w && s[|w|..] == rest;
  }

  lemma SymToken(c: char, rest: string)
    requires Symbol(c) && (c == '>' ==> rest == "" || rest[0] != '>')
    ensures GetToken([c] + rest) == Token(Sym(c), Skip(rest)) && Tidy([c] + rest)
    ensures forall toks: string :: Peek([c] + rest, toks) == (c in toks)
  {
    var s := [c] + rest;
    assert s[1..] == rest;
  }

  lemma PeekTidy(s: string, toks: string)
    requires Tidy(s)
    ensures Skip(s) == s && Peek(s, toks) == (s != "" && s[0] in toks)
  {
  }

  // ---------- printed forms start tidily ----------

  lemma {:induction false} JoinTidy(args: seq<string>, rest: string)
    requires (forall i | 0 <= i < |args| :: ValidWord(args[i])) && Tidy(rest)
    ensures Tidy(Join(args) + rest)
    ensures args != [] ==> Join(args) != "" && WordChar(Join(args)[0])
  {
    if args == [] {
      assert Join(args) + rest == rest;
    } else {
      assert WordChar(args[0][0]);
      assert Join(args)[0] == args[0][0];
    }
  }

  function Size(c: Cmd): nat {
    match c
    case Exec(_) => 1
    case Redir(x, _) => 1 + Size(x)
    case Pipe(l, r) => 1 + Size(l) + Size(r)
    case List(l, r) => 1 + Size(l) + Size(r)
    case Back(x) => 1 + Size(x)
  }

  lemma {:induction false} LineTidy(c: Cmd, rest: string)
    requires WordsOk(c) && Tidy(rest)
    ensures Tidy(PrintLine(c) + rest)
    decreases Size(c), if Simple(c) then 3 else if c.Pipe? then 2 else if c.Back? then 1 else 0
  {
    if c.List? {
      assert PrintLine(c) + rest == PrintBack(c.left) + (";" + PrintLine(c.right) + rest);
      BackTidy(c.left, ";" + PrintLine(c.right) + rest);
    } else {
      BackTidy(c, rest);
    }
  }

  lemma {:induction false} BackTidy(c: Cmd, rest: string)
    requires WordsOk(c) && Tidy(rest)
    ensures Tidy(PrintBack(c) + rest)
    decreases Size(c), if Simple(c) then 2 else if c.Pipe? then 1 else if c.Back? then 0 else 3
  {
    if c.Back? {
      assert PrintBack(c) + rest == PrintBack(c.cmd) + ("&" + rest);
      BackTidy(c.cmd, "&" + rest);
    } else {
      PipeTidy(c, rest);
    }
  }

  lemma {:induction false} PipeTidy(c: Cmd, rest: string)
    requires WordsOk(c) && Tidy(rest)
    ensures Tidy(PrintPipe(c) + rest)
    decreases Size(c), if Simple(c) then 1 else if c.Pipe? then 0 else if c.Back? then 3 else 2
  {
    if c.Pipe? {
      assert PrintPipe(c) + rest == PrintExec(c.left) + ("|" + PrintPipe(c.right) + rest);
      ExecTidy(c.left, "|" + PrintPipe(c.right) + rest);
    } else {
      ExecTidy(c, rest);
    }
  }

  lemma {:induction false} ExecTidy(c: Cmd, rest: string)
    requires WordsOk(c) && Tidy(rest)
    ensures Tidy(PrintExec(c) + rest)
    decreases Size(c), if Simple(c) then 0 else if c.Pipe? then 3 else if c.Back? then 2 else 1
  {
    if c.Exec? {
      JoinTidy(c.args, rest);
    } else if c.Redir? {
      assert PrintExec(c) + rest == PrintExec(c.cmd) + (PrintRedir(c.to) + rest);
      ExecTidy(c.cmd, PrintRedir(c.to) + rest);
    }
  }

  // ---------- redirections read back ----------

  function PrintRedirs(list: seq<Redirection>): string {
    if list == [] then "" else PrintRedir(list[0]) + PrintRedirs(list[1..])
  }

  predicate FilesOk(list: seq<Redirection>) {
    forall i | 0 <= i < |list| :: ValidWord(list[i].file)
  }

  lemma {:induction false} WrapPrints(c: Cmd, list: seq<Redirection>)
    ensures PrintExec(Wrap(c, list)) == PrintExec(c) + PrintRedirs(list)
    decreases |list|
  {
    if list == [] {
    } else {
      WrapPrints(Redir(c, list[0]), list[1..]);
      assert PrintExec(Redir(c, list[0])) == PrintExec(c) + PrintRedir(list[0]);
    }
  }

  function BaseOf(c: Cmd): Cmd {
    if c.Redir? then BaseOf(c.cmd) else c
  }

  function RedirsOf(c: Cmd): seq<Redirection> {
    if c.Redir? then RedirsOf(c.cmd) + [c.to] else []
  }

  lemma {:induction false} WrapLast(c: Cmd, list: seq<Redirection>, r: Redirection)
    ensures Wrap(c, list + [r]) == Redir(Wrap(c, list), r)
    decreases |list|
  {
    if list == [] {
      assert list + [r] == [r];
    } else {
      assert (list + [r])[1..] == list[1..] + [r];
      WrapLast(Redir(c, list[0]), list[1..], r);
    }
  }

  lemma {:induction false} Decomposed(c: Cmd)
    requires WordsOk(c)
    ensures c == Wrap(BaseOf(c), RedirsOf(c)) && !BaseOf(c).Redir? && WordsOk(BaseOf(c)) && FilesOk(RedirsOf(c))
    ensures FewArgs(BaseOf(c)) == FewArgs(c) && Size(BaseOf(c)) <= Size(c)
    ensures c.Redir? ==> Size(BaseOf(c)) < Size(c)
  {
    if c.Redir? {
      Decomposed(c.cmd);
      WrapLast(BaseOf(c.cmd), RedirsOf(c.cmd), c.to);
    }
  }

  lemma RedirStarts(list: seq<Redirection>, rest: string)
    requires FilesOk(list) && Stops(rest, "|)&;")
    ensures Tidy(PrintRedirs(list) + rest)
    ensures PrintRedirs(list) + rest == "" || !WordChar((PrintRedirs(list) + rest)[0])
    ensures Stops(PrintRedirs(list) + rest, "|)&;<>")
    ensures PrintRedirs(list) + rest != "" ==> (PrintRedirs(list) + rest)[0] != '('
  {
    if list == [] {
      assert PrintRedirs(list) + rest == rest;
    }
  }

  lemma RedirFirst(c: char, file: string, tail: string)
    requires (c == '<' || c == '>') && ValidWord(file) && Tidy(tail) && (tail == "" || !WordChar(tail[0]))
    ensures var more := ParseRedirs(tail);
            ParseRedirs([c] + (file + tail)) ==
              if more.BadRedirection? then more else Redirections([Redirection(file, c == '>')] + more.list, more.after)
  {
    hide GetToken, Skip, Peek, White, Symbol;
    assert file[0] != '>' by { assert WordChar(file[0]); Symbols(file[0]); }
    Symbols(c);
    SymToken(c, file + tail);
    WordToken(file, tail);
    PeekTidy(file + tail, "");
    PeekTidy(tail, "");
  }

  lemma RedirShape(list: seq<Redirection>, rest: string)
    requires list != []
    ensures PrintRedirs(list) + rest == [if list[0].output then '>' else '<']
              + (list[0].file + (PrintRedirs(list[1..]) + rest))
  {
  }

  lemma Symbols(c: char)
    ensures c == '<' || c == '>' || c == '&' || c == ';' || c == '|' || c == '(' || c == ')' ==>
              Symbol(c) && !WordChar(c) && !White(c)
  {
  }

  lemma {:induction false} RedirsBack(list: seq<Redirection>, rest: string)
    requires FilesOk(list) && Stops(rest, "|)&;")
    ensures ParseRedirs(PrintRedirs(list) + rest) == Redirections(list, rest)
    decreases |list|
  {
    hide GetToken, Skip, Peek, White, Symbol, WordChar, ParseRedirs, ValidWord;
    if list == [] {
      assert PrintRedirs(list) + rest == rest;
      NoRedirs(rest);
    } else {
      var c := if list[0].output then '>' else '<';
      var tail := PrintRedirs(list[1..]) + rest;
      RedirShape(list, rest);
      RedirStarts(list[1..], rest);
      RedirFirst(c, list[0].file, tail);
      RedirsBack(list[1..], rest);
      assert list == [list[0]] + list[1..];
    }
  }

  lemma NoRedirs(s: string)
    requires Tidy(s) || Stops(s, "|)&;")
    requires s == "" || (s[0] != '<' && s[0] != '>')
    ensures ParseRedirs(s) == Redirections([], s)
  {
    PeekTidy(s, "<>");
  }

  // ---------- simple commands read back ----------

  lemma ArgsStop(args: seq<string>, list: seq<Redirection>, rest: string)
    requires Stops(rest, "|)&;")
    ensures ParseArgs(args, list, rest) == Ok(Wrap(Exec(args), list), rest)
  {
    PeekTidy(rest, "|)&;");
  }

  /** One more word, followed by what ParseRedirs finds next. */
  lemma ArgFirst(done: seq<string>, list: seq<Redirection>, w: string, tail: string)
    requires ValidWord(w) && (tail == "" || !WordChar(tail[0])) && |done| + 1 < MAXARGS
    ensures var more := ParseRedirs(Skip(tail));
            more.Redirections? ==>
              ParseArgs(done, list, w + tail)
              == ParseArgs(done + [w], list + more.list, more.after)
  {
    hide GetToken, Skip, Peek, White, Symbol, ParseRedirs, Wrap;
    WordToken(w, tail);
    assert WordChar(w[0]);
    NotStop(w + tail);
  }

  lemma NotStop(s: string)
    requires s != "" && WordChar(s[0])
    ensures !Peek(s, "|)&;") && !Peek(s, "(") && !Peek(s, "<>") && Tidy(s) && Skip(s) == s
  {
  }

  lemma {:induction false} ArgsBack(done: seq<string>, args: seq<string>, list: seq<Redirection>, rest: string)
    requires args != [] && (forall i | 0 <= i < |args| :: ValidWord(args[i])) && FilesOk(list) && Stops(rest, "|)&;")
    requires |done| + |args| < MAXARGS
    ensures ParseArgs(done, [], Join(args) + PrintRedirs(list) + rest) == Ok(Wrap(Exec(done + args), list), rest)
    decreases |args|
  {
    hide GetToken, Skip, Peek, White, Symbol, WordChar, ParseRedirs, ParseArgs, ValidWord, Wrap, PrintRedirs, FilesOk;
    var tail := PrintRedirs(list) + rest;
    RedirStarts(list, rest);
    JoinShape(args, PrintRedirs(list), rest);
    if |args| == 1 {
      PeekTidy(tail, "");
      ArgFirst(done, [], args[0], tail);
      RedirsBack(list, rest);
      assert [] + list == list && args == [args[0]];
      ArgsStop(done + args, list, rest);
    } else {
      var more := Join(args[1..]) + PrintRedirs(list) + rest;
      SpaceBefore(args[1..], tail, more);
      ArgFirst(done, [], args[0], " " + more);
      var none: seq<Redirection> := [];
      assert none + none == none;
      assert done + [args[0]] + args[1..] == done + args;
      ArgsBack(done + [args[0]], args[1..], list, rest);
    }
  }

  lemma JoinShape(args: seq<string>, redirs: string, rest: string)
    requires args != []
    ensures |args| == 1 ==> Join(args) + redirs + rest == args[0] + (redirs + rest)
    ensures |args| > 1 ==> Join(args) + redirs + rest == args[0] + (" " + (Join(args[1..]) + redirs + rest))
    ensures Join(args[1..]) + redirs + rest == Join(args[1..]) + (redirs + rest)
  {
    var more := Join(args[1..]);
    Assoc(args[0], redirs, rest);
    Assoc(more, redirs, rest);
    if |args| > 1 {
      assert Join(args) == args[0] + " " + more;
      Assoc(args[0] + " " + more, redirs, rest);
      Assoc(args[0] + " ", more, redirs + rest);
      Assoc(args[0], " ", more + (redirs + rest));
    }
  }

  lemma Assoc(a: string, b: string, c: string)
    ensures a + b + c == a + (b + c)
  {
  }

  /** After the space between two words comes the next word, not a redirection. */
  lemma SpaceBefore(args: seq<string>, tail: string, s: string)
    requires args != [] && (forall i | 0 <= i < |args| :: ValidWord(args[i])) && Tidy(tail) && s == Join(args) + tail
    ensures Skip(" " + s) == s && ParseRedirs(s) == Redirections([], s) && !WordChar((" " + s)[0])
  {
    hide Peek, GetToken, ValidWord, Join;
    JoinTidy(args, tail);
    NotStop(s);
    OneSpace(s);
  }

  lemma OneSpace(s: string)
    requires Skip(s) == s
    ensures Skip(" " + s) == s && !WordChar((" " + s)[0])
  {
    assert (" " + s)[1..] == s;
  }

  lemma ExecBack(args: seq<string>, list: seq<Redirection>, rest: string)
    requires (forall i | 0 <= i < |args| :: ValidWord(args[i])) && |args| < MAXARGS && FilesOk(list)
               && Stops(rest, "|)&;")
    ensures ParseExec(Join(args) + PrintRedirs(list) + rest) == Ok(Wrap(Exec(args), list), rest)
  {
    hide GetToken, Skip, Peek, White, Symbol, WordChar, ParseRedirs, ParseArgs, ValidWord, Wrap, PrintRedirs, FilesOk;
    var s := Join(args) + PrintRedirs(list) + rest;
    var tail := PrintRedirs(list) + rest;
    assert s == Join(args) + tail;
    RedirStarts(list, rest);
    if args == [] {
      assert s == tail;
      PeekTidy(s, "(");
      RedirsBack(list, rest);
      ArgsStop([], list, rest);
    } else {
      JoinTidy(args, tail);
      NotStop(s);
      SpaceBefore(args, tail, s);
      ArgsBack([], args, list, rest);
      assert [] + args == args;
    }
  }

  // ---------- every command reads back ----------

  /** A block: a parenthesised line and its redirections, given that the line reads back. */
  lemma BlockReads(base: Cmd, list: seq<Redirection>, rest: string)
    requires WordsOk(base) && FilesOk(list) && Stops(rest, "|)&;")
    requires ParseLine(PrintLine(base) + (")" + (PrintRedirs(list) + rest))) ==
               Ok(base, ")" + (PrintRedirs(list) + rest))
    ensures ParseExec("(" + PrintLine(base) + ")" + PrintRedirs(list) + rest) == Ok(Wrap(base, list), rest)
  {
    hide GetToken, Skip, Peek, White, Symbol, WordChar, ParseRedirs, ParseArgs, ParseLine, Wrap, PrintRedirs,
      PrintLine, FilesOk, WordsOk;
    var tail := ")" + (PrintRedirs(list) + rest);
    var s := "(" + PrintLine(base) + ")" + PrintRedirs(list) + rest;
    assert s == "(" + (PrintLine(base) + tail);
    Symbols('(');
    Symbols(')');
    SymToken('(', PrintLine(base) + tail);
    SymToken(')', PrintRedirs(list) + rest);
    PeekTidy(s, "");
    LineTidy(base, tail);
    PeekTidy(PrintLine(base) + tail, "");
    RedirStarts(list, rest);
    PeekTidy(PrintRedirs(list) + rest, "");
    RedirsBack(list, rest);
  }

  lemma {:induction false} ExecReads(c: Cmd, rest: string)
    requires WordsOk(c) && FewArgs(c) && Stops(rest, "|)&;")
    ensures ParseExec(PrintExec(c) + rest) == Ok(c, rest)
    decreases Size(c), if Simple(c) then 0 else if c.Pipe? then 3 else if c.Back? then 2 else 1
  {
    hide ParseExec, ParseLine, Wrap, PrintRedirs, FilesOk, PrintLine, Stops, Join;
    var base, list := BaseOf(c), RedirsOf(c);
    Decomposed(c);
    WrapPrints(base, list);
    if base.Exec? {
      ExecBack(base.args, list, rest);
    } else {
      CloseStops(PrintRedirs(list) + rest);
      LineReads(base, ")" + (PrintRedirs(list) + rest));
      BlockReads(base, list, rest);
    }
  }

  lemma CloseStops(rest: string)
    ensures Stops(")" + rest, ")")
  {
  }

  lemma {:induction false} PipeReads(c: Cmd, rest: string)
    requires WordsOk(c) && FewArgs(c) && Stops(rest, ")&;")
    ensures ParsePipe(PrintPipe(c) + rest) == Ok(c, rest)
    decreases Size(c), if Simple(c) then 1 else if c.Pipe? then 0 else if c.Back? then 3 else 2
  {
    hide ParseExec, GetToken, Skip, Peek, White, Symbol, PrintExec, Stops;
    StopsWider(rest);
    if c.Pipe? {
      var tail := PrintPipe(c.right) + rest;
      assert PrintPipe(c) + rest == PrintExec(c.left) + ("|" + tail);
      SymbolStops('|', tail);
      ExecReads(c.left, "|" + tail);
      SymToken('|', tail);
      PipeTidy(c.right, rest);
      PeekTidy(tail, "");
      PipeReads(c.right, rest);
    } else {
      ExecReads(c, rest);
      PeekTidy(rest, "|");
    }
  }

  lemma StopsWider(rest: string)
    ensures Stops(rest, ")&;") ==> Stops(rest, "|)&;") && Tidy(rest) && !Peek(rest, "|") && Skip(rest) == rest
    ensures Stops(rest, ");") ==> Stops(rest, ")&;") && !Peek(rest, "&")
    ensures Stops(rest, ")") ==> Stops(rest, ");") && !Peek(rest, ";")
  {
  }

  lemma SymbolStops(c: char, rest: string)
    ensures c == '|' || c == '&' || c == ';' ==> Symbol(c) && Stops([c] + rest, "|)&;") && Peek([c] + rest, [c])
    ensures c == '&' || c == ';' ==> Stops([c] + rest, ")&;")
    ensures c == ';' ==> Stops([c] + rest, ");")
  {
  }

  /** A command and its `&`s are read like the command followed by its `&`s. */
  lemma {:induction false} BacksRead(c: Cmd, rest: string)
    requires WordsOk(c) && FewArgs(c) && Stops(rest, ")&;")
    ensures var p := ParsePipe(PrintBack(c) + rest);
            p.Ok? && ParseBacks(p.cmd, p.rest) == ParseBacks(c, rest)
    decreases Size(c), if Simple(c) then 2 else if c.Pipe? then 1 else if c.Back? then 0 else 3
  {
    hide ParsePipe, GetToken, Skip, Peek, White, Symbol, PrintPipe, Stops;
    if c.Back? {
      assert PrintBack(c) + rest == PrintBack(c.cmd) + ("&" + rest);
      SymbolStops('&', rest);
      BacksRead(c.cmd, "&" + rest);
      SymToken('&', rest);
      StopsWider(rest);
    } else {
      PipeReads(c, rest);
    }
  }

  lemma {:induction false} LineReads(c: Cmd, rest: string)
    requires WordsOk(c) && FewArgs(c) && Stops(rest, ")")
    ensures ParseLine(PrintLine(c) + rest) == Ok(c, rest)
    decreases Size(c), if Simple(c) then 3 else if c.Pipe? then 2 else if c.Back? then 1 else 0
  {
    hide ParsePipe, GetToken, Skip, Peek, White, Symbol, PrintBack, Stops;
    StopsWider(rest);
    if c.List? {
      var tail := PrintLine(c.right) + rest;
      assert PrintLine(c) + rest == PrintBack(c.left) + (";" + tail);
      SymbolStops(';', tail);
      BacksRead(c.left, ";" + tail);
      SymToken(';', tail);
      PeekTidy(";" + tail, "&");
      LineTidy(c.right, rest);
      PeekTidy(tail, "");
      LineReads(c.right, rest);
    } else {
      BacksRead(c, rest);
    }
  }

  // ---------- what the parser can return ----------

  lemma {:induction false} WrapOk(c: Cmd, list: seq<Redirection>)
    ensures WordsOk(Wrap(c, list)) <==> WordsOk(c) && FilesOk(list)
    ensures FewArgs(Wrap(c, list)) == FewArgs(c)
    decreases |list|
  {
    if list != [] {
      WrapOk(Redir(c, list[0]), list[1..]);
      assert list == [list[0]] + list[1..];
    }
  }

  lemma {:induction false} RedirsOk(s: string)
    ensures ParseRedirs(s).Redirections? ==> FilesOk(ParseRedirs(s).list)
    decreases |s|
  {
    hide GetToken, Skip, Peek, WordChar;
    if Peek(s, "<>") && GetToken(GetToken(s).rest).kind.Word? {
      TokenShrinks(s);
      RedirsOk(GetToken(GetToken(s).rest).rest);
    }
  }

  lemma TokenShrinks(s: string)
    ensures Peek(s, "<>") || Peek(s, "|") || Peek(s, "(") || Peek(s, ")") || Peek(s, ";") ==> |GetToken(s).rest| < |s|
  {
  }

  lemma {:induction false} ArgsOk(args: seq<string>, list: seq<Redirection>, s: string)
    requires (forall i | 0 <= i < |args| :: ValidWord(args[i])) && |args| < MAXARGS && FilesOk(list)
    ensures var r := ParseArgs(args, list, s); r.Ok? ==> WordsOk(r.cmd) && FewArgs(r.cmd)
    decreases |s|
  {
    hide GetToken, Skip, Peek, WordChar, ParseRedirs, Wrap, ValidWord;
    WrapOk(Exec(args), list);
    var tok := GetToken(s);
    if !Peek(s, "|)&;") && tok.kind.Word? && |args| + 1 < MAXARGS && ParseRedirs(tok.rest).Redirections? {
      var more := ParseRedirs(tok.rest);
      RedirsOk(tok.rest);
      ArgsOk(args + [tok.kind.w], list + more.list, more.after);
    }
  }

  lemma {:induction false} ExecOk(s: string)
    ensures var r := ParseExec(s); r.Ok? ==> WordsOk(r.cmd) && FewArgs(r.cmd)
    decreases |s|, 2
  {
    hide GetToken, Skip, Peek, WordChar, ParseRedirs, ParseArgs, ParseBlock, WordsOk, FewArgs;
    if Peek(s, "(") {
      BlockOk(Skip(s));
    } else if ParseRedirs(s).Redirections? {
      RedirsOk(s);
      ArgsOk([], ParseRedirs(s).list, ParseRedirs(s).after);
    }
  }

  lemma {:induction false} BlockOk(s: string)
    ensures var r := ParseBlock(s); r.Ok? ==> WordsOk(r.cmd) && FewArgs(r.cmd)
    decreases |s|, 1
  {
    hide GetToken, Skip, Peek, WordChar, ParseRedirs, ParseLine, Wrap, WordsOk, FewArgs, FilesOk;
    if Peek(s, "(") {
      TokenShrinks(s);
      var inner := ParseLine(GetToken(s).rest);
      LineOk(GetToken(s).rest);
      if inner.Ok? && Peek(inner.rest, ")") && ParseRedirs(GetToken(inner.rest).rest).Redirections? {
        RedirsOk(GetToken(inner.rest).rest);
        WrapOk(inner.cmd, ParseRedirs(GetToken(inner.rest).rest).list);
      }
    }
  }

  lemma {:induction false} PipeOk(s: string)
    ensures var r := ParsePipe(s); r.Ok? ==> WordsOk(r.cmd) && FewArgs(r.cmd)
    decreases |s|, 3
  {
    hide GetToken, Skip, Peek, WordChar, ParseExec;
    ExecOk(s);
    var left := ParseExec(s);
    if left.Ok? && Peek(left.rest, "|") {
      TokenShrinks(left.rest);
      PipeOk(GetToken(left.rest).rest);
    }
  }

  lemma {:induction false} BacksOk(c: Cmd, s: string)
    requires WordsOk(c) && FewArgs(c)
    ensures WordsOk(ParseBacks(c, s).cmd) && FewArgs(ParseBacks(c, s).cmd)
    decreases |s|
  {
    if Peek(s, "&") {
      BacksOk(Back(c), GetToken(s).rest);
    }
  }

  lemma {:induction false} LineOk(s: string)
    ensures var r := ParseLine(s); r.Ok? ==> WordsOk(r.cmd) && FewArgs(r.cmd)
    decreases |s|, 4
  {
    hide GetToken, Skip, Peek, WordChar, ParsePipe, ParseBacks;
    PipeOk(s);
    var first := ParsePipe(s);
    if first.Ok? {
      BacksOk(first.cmd, first.rest);
      var left := ParseBacks(first.cmd, first.rest);
      if Peek(left.rest, ";") {
        TokenShrinks(left.rest);
        LineOk(GetToken(left.rest).rest);
      }
    }
  }

  // ---------- the round trip ----------

  /** A command whose words the tokeniser can return is rebuilt from its printed form exactly if no simple command
      has more than nine arguments. */
  lemma RoundTrip(c: Cmd)
    requires WordsOk(c)
    ensures ParseCmd(PrintLine(c)) == Ok(c, "") <==> FewArgs(c)
  {
    hide ParseLine, PrintLine, WordsOk, FewArgs;
    assert PrintLine(c) + "" == PrintLine(c);
    LineOk(PrintLine(c));
    if FewArgs(c) {
      LineReads(c, "");
    }
  }

  /** Whatever a line parses to, printing that and parsing again gives the same command. */
  lemma Normalised(s: string)
    requires ParseCmd(s).Ok?
    ensures ParseCmd(PrintLine(ParseCmd(s).cmd)) == Ok(ParseCmd(s).cmd, "")
  {
    hide ParseLine, PrintLine, WordsOk, FewArgs;
    LineOk(s);
    RoundTrip(ParseCmd(s).cmd);
  }
}
