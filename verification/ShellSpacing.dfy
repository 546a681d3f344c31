/** The parser of sh.c depends on the tokens of a line only, not on how they are spaced. The characters are written out
    here, apart from the parser's own tests. */
module ShellSpacing {
  import opened Shell

  const BLANKS: string := " \t\r\n\U{000B}"
  const SYMBOLS: string := "<|>&;()"

  lemma CharClasses(c: char)
    ensures White(c) <==> c in BLANKS
    ensures Symbol(c) <==> c in SYMBOLS
    ensures White(c) ==> !Symbol(c) && c != '\0'
  {
  }

  // ---------- the tokens of a line ----------

  /** `>` and `>>` build the same node. */
  function Norm(k: Kind): Kind {
    if k.Append? then Sym('>') else k
  }

  function Toks(s: string): seq<Kind>
    decreases |s|
  {
    var t := GetToken(s);
    if t.kind.End? then [] else [Norm(t.kind)] + Toks(t.rest)
  }

  /** A string as C has them, up to its terminating zero. */
  predicate Terminated(s: string) {
    forall i | 0 <= i < |s| :: s[i] != '\0'
  }

  predicate Same(s: string, t: string) {
    Toks(s) == Toks(t) && Terminated(s) && Terminated(t)
  }

  predicate SymbolsOnly(toks: string) {
    forall i | 0 <= i < |toks| :: Symbol(toks[i])
  }

  lemma {:induction false} SkipKeeps(s: string)
    requires Terminated(s)
    ensures Terminated(Skip(s)) && Skip(Skip(s)) == Skip(s)
    decreases |s|
  {
    if s != "" && White(s[0]) {
      SkipKeeps(s[1..]);
    }
  }

  lemma SkipToks(s: string)
    requires Terminated(s)
    ensures Toks(Skip(s)) == Toks(s) && GetToken(Skip(s)) == GetToken(s)
  {
    hide Skip, White, Symbol;
    SkipKeeps(s);
  }

  lemma TokenKeeps(s: string)
    requires Terminated(s)
    ensures Terminated(GetToken(s).rest)
    ensures GetToken(s).kind.End? ==> Skip(s) == "" && GetToken(s).rest == ""
  {
    hide Skip, White, Symbol, WordEnd, WordChar;
    SkipKeeps(s);
    var t := Skip(s);
    if t != "" {
      SkipKeeps(t[1..]);
      if |t| > 1 {
        SkipKeeps(t[2..]);
      }
      SkipKeeps(t[WordEnd(t)..]);
    }
  }

  /** A peek sees the first token. */
  lemma PeekSees(s: string, toks: string)
    requires Terminated(s) && SymbolsOnly(toks)
    ensures Peek(s, toks) <==> Toks(s) != [] && Toks(s)[0].Sym? && Toks(s)[0].c in toks
  {
    hide Skip, White, WordEnd, WordChar;
    SkipKeeps(s);
    TokenKeeps(s);
  }

  lemma ToksNext(s: string)
    requires Terminated(s)
    ensures GetToken(s).kind.End? <==> Toks(s) == []
    ensures Toks(s) != [] ==> Norm(GetToken(s).kind) == Toks(s)[0] && Toks(GetToken(s).rest) == Toks(s)[1..]
  {
    hide GetToken;
  }

  /** The parser's three ways to look at a line see the same on both. */
  lemma SameStep(s: string, t: string)
    requires Same(s, t)
    ensures Same(Skip(s), Skip(t)) && Same(GetToken(s).rest, GetToken(t).rest)
    ensures Norm(GetToken(s).kind) == Norm(GetToken(t).kind)
    ensures GetToken(s).kind.End? ==> GetToken(s).kind == GetToken(t).kind
  {
    hide GetToken, Skip, Toks, Terminated;
    SkipKeeps(s);
    SkipKeeps(t);
    SkipToks(s);
    SkipToks(t);
    TokenKeeps(s);
    TokenKeeps(t);
    ToksNext(s);
    ToksNext(t);
    if Toks(s) == [] {
      assert GetToken(s).rest == GetToken(t).rest;
    }
  }

  lemma SamePeek(s: string, t: string, toks: string)
    requires Same(s, t) && SymbolsOnly(toks)
    ensures Peek(s, toks) == Peek(t, toks)
  {
    hide Peek, Toks, Terminated;
    PeekSees(s, toks);
    PeekSees(t, toks);
  }

  // ---------- the parser sees the tokens only ----------

  predicate SameParsed(a: Parsed, b: Parsed) {
    if a.Ok? then b.Ok? && a.cmd == b.cmd && Same(a.rest, b.rest) else a == b
  }

  predicate SameRedirs(a: Redirs, b: Redirs) {
    if a.Redirections? then b.Redirections? && a.list == b.list && Same(a.after, b.after) else a == b
  }

  lemma {:induction false} RedirsSame(s: string, t: string)
    requires Same(s, t)
    ensures SameRedirs(ParseRedirs(s), ParseRedirs(t))
    decreases |s|
  {
    hide GetToken, Skip, Peek, Same, Symbol;
    assert SymbolsOnly("<>") by { AllSymbols(); }
    SamePeek(s, t, "<>");
    SameStep(s, t);
    if Peek(s, "<>") {
      var a, b := GetToken(s), GetToken(t);
      SameStep(a.rest, b.rest);
      if GetToken(a.rest).kind.Word? {
        RedirsSame(GetToken(a.rest).rest, GetToken(b.rest).rest);
      }
    }
  }

  lemma AllSymbols()
    ensures SymbolsOnly("<>") && SymbolsOnly("|)&;") && SymbolsOnly("(") && SymbolsOnly(")") && SymbolsOnly("|")
    ensures SymbolsOnly("&") && SymbolsOnly(";")
  {
  }

  lemma {:induction false} ArgsSame(args: seq<string>, list: seq<Redirection>, s: string, t: string)
    requires Same(s, t)
    ensures SameParsed(ParseArgs(args, list, s), ParseArgs(args, list, t))
    decreases |s|
  {
    hide GetToken, Skip, Peek, Same, Symbol, ParseRedirs, Wrap;
    assert SymbolsOnly("|)&;") by { AllSymbols(); }
    SamePeek(s, t, "|)&;");
    SameStep(s, t);
    var a, b := GetToken(s), GetToken(t);
    if !Peek(s, "|)&;") && a.kind.Word? && |args| + 1 < MAXARGS {
      RedirsSame(a.rest, b.rest);
      var more := ParseRedirs(a.rest);
      if more.Redirections? {
        ArgsSame(args + [a.kind.w], list + more.list, more.after, ParseRedirs(b.rest).after);
      }
    }
  }

  lemma {:induction false} ExecSame(s: string, t: string)
    requires Same(s, t)
    ensures SameParsed(ParseExec(s), ParseExec(t))
    decreases |s|, 2
  {
    hide GetToken, Skip, Peek, Same, Symbol, ParseRedirs, ParseArgs, ParseBlock;
    assert SymbolsOnly("(") by { AllSymbols(); }
    SamePeek(s, t, "(");
    SameStep(s, t);
    if Peek(s, "(") {
      BlockSame(Skip(s), Skip(t));
    } else {
      RedirsSame(s, t);
      if ParseRedirs(s).Redirections? {
        ArgsSame([], ParseRedirs(s).list, ParseRedirs(s).after, ParseRedirs(t).after);
      }
    }
  }

  lemma {:induction false} BlockSame(s: string, t: string)
    requires Same(s, t)
    ensures SameParsed(ParseBlock(s), ParseBlock(t))
    decreases |s|, 1
  {
    hide GetToken, Skip, Peek, Same, Symbol, ParseRedirs, ParseLine, Wrap;
    assert SymbolsOnly("(") && SymbolsOnly(")") by { AllSymbols(); }
    SamePeek(s, t, "(");
    SameStep(s, t);
    if Peek(s, "(") {
      TokenShrinks(s);
      LineSame(GetToken(s).rest, GetToken(t).rest);
      var a, b := ParseLine(GetToken(s).rest), ParseLine(GetToken(t).rest);
      if a.Ok? {
        SamePeek(a.rest, b.rest, ")");
        SameStep(a.rest, b.rest);
        RedirsSame(GetToken(a.rest).rest, GetToken(b.rest).rest);
      }
    }
  }

  lemma {:induction false} PipeSame(s: string, t: string)
    requires Same(s, t)
    ensures SameParsed(ParsePipe(s), ParsePipe(t))
    decreases |s|, 3
  {
    hide GetToken, Skip, Peek, Same, Symbol, ParseExec;
    assert SymbolsOnly("|") by { AllSymbols(); }
    ExecSame(s, t);
    var a, b := ParseExec(s), ParseExec(t);
    if a.Ok? {
      SamePeek(a.rest, b.rest, "|");
      SameStep(a.rest, b.rest);
      if Peek(a.rest, "|") {
        TokenShrinks(a.rest);
        PipeSame(GetToken(a.rest).rest, GetToken(b.rest).rest);
      }
    }
  }

  lemma {:induction false} BacksSame(c: Cmd, s: string, t: string)
    requires Same(s, t)
    ensures SameParsed(ParseBacks(c, s), ParseBacks(c, t))
    decreases |s|
  {
    hide GetToken, Skip, Peek, Same, Symbol;
    assert SymbolsOnly("&") by { AllSymbols(); }
    SamePeek(s, t, "&");
    SameStep(s, t);
    if Peek(s, "&") {
      AndShrinks(s);
      BacksSame(Back(c), GetToken(s).rest, GetToken(t).rest);
    }
  }

  lemma AndShrinks(s: string)
    requires Peek(s, "&")
    ensures |GetToken(s).rest| < |s|
  {
  }

  lemma {:induction false} LineSame(s: string, t: string)
    requires Same(s, t)
    ensures SameParsed(ParseLine(s), ParseLine(t))
    decreases |s|, 4
  {
    hide GetToken, Skip, Peek, Same, Symbol, ParsePipe, ParseBacks;
    assert SymbolsOnly(";") by { AllSymbols(); }
    PipeSame(s, t);
    var a, b := ParsePipe(s), ParsePipe(t);
    if a.Ok? {
      BacksSame(a.cmd, a.rest, b.rest);
      var x, y := ParseBacks(a.cmd, a.rest), ParseBacks(b.cmd, b.rest);
      SamePeek(x.rest, y.rest, ";");
      SameStep(x.rest, y.rest);
      if Peek(x.rest, ";") {
        TokenShrinks(x.rest);
        LineSame(GetToken(x.rest).rest, GetToken(y.rest).rest);
      }
    }
  }

  /** Lines with the same tokens parse to the same command, or fail in the same way. */
  lemma SameTokens(s: string, t: string)
    requires Same(s, t)
    ensures ParseCmd(s) == ParseCmd(t)
  {
    hide ParseLine, Skip, Toks, Terminated;
    LineSame(s, t);
    if ParseLine(s).Ok? {
      NothingLeft(ParseLine(s).rest);
      NothingLeft(ParseLine(t).rest);
    }
  }

  lemma NothingLeft(s: string)
    requires Terminated(s)
    ensures Skip(s) == "" <==> Toks(s) == []
  {
    hide Skip, White, Symbol, WordEnd, WordChar;
    SkipKeeps(s);
  }

  // ---------- tokens with any spacing ----------

  predicate Blank(g: string) {
    forall i | 0 <= i < |g| :: g[i] in BLANKS
  }

  predicate PlainWord(w: string) {
    w != "" && forall i | 0 <= i < |w| :: w[i] != '\0' && w[i] !in BLANKS && w[i] !in SYMBOLS
  }

  predicate PlainToken(k: Kind) {
    match k
    case End => false
    case Sym(c) => c in SYMBOLS
    case Append => true
    case Word(w) => PlainWord(w)
  }

  function TextOf(k: Kind): string {
    match k
    case End => ""
    case Sym(c) => [c]
    case Append => ">>"
    case Word(w) => w
  }

  /** The text of the tokens with the given gaps before, between and after them. */
  function Spell(ks: seq<Kind>, gaps: seq<string>): string
    requires |gaps| == |ks| + 1
  {
    if ks == [] then gaps[0] else gaps[0] + (TextOf(ks[0]) + Spell(ks[1..], gaps[1..]))
  }

  /** Written without a gap the two tokens would be read as others. */
  predicate Merge(a: Kind, b: Kind) {
    (a.Word? && b.Word?) || (a == Sym('>') && (b == Sym('>') || b == Append))
  }

  /** The gaps are blanks, and not empty between two tokens that would merge. */
  predicate Apart(ks: seq<Kind>, gaps: seq<string>) {
    && |gaps| == |ks| + 1
    && (forall i | 0 <= i < |gaps| :: Blank(gaps[i]))
    && (forall i | 0 <= i < |ks| :: PlainToken(ks[i]))
    && (forall i | 1 <= i < |ks| :: gaps[i] == "" ==> !Merge(ks[i - 1], ks[i]))
  }

  function Norms(ks: seq<Kind>): (r: seq<Kind>)
    ensures |r| == |ks| && forall i | 0 <= i < |ks| :: r[i] == Norm(ks[i])
  {
    seq(|ks|, i requires 0 <= i < |ks| => Norm(ks[i]))
  }

  lemma {:induction false} GapSkipped(g: string, s: string)
    requires Blank(g)
    ensures Skip(g + s) == Skip(s)
  {
    if g == "" {
      assert g + s == s;
    } else {
      CharClasses(g[0]);
      assert (g + s)[1..] == g[1..] + s;
      GapSkipped(g[1..], s);
    }
  }

  lemma GapToks(g: string, s: string)
    requires Blank(g) && Terminated(s)
    ensures Terminated(g + s) && Toks(g + s) == Toks(s)
  {
    hide Toks, Skip;
    GapSkipped(g, s);
    assert Terminated(g + s) by {
      BlankTerminated(g);
    }
    SkipToks(g + s);
    SkipToks(s);
  }

  lemma BlankTerminated(g: string)
    requires Blank(g)
    ensures Terminated(g)
  {
    forall i | 0 <= i < |g|
      ensures g[i] != '\0'
    {
      CharClasses(g[i]);
    }
  }

  lemma PlainIsValid(w: string)
    ensures PlainWord(w) <==> ValidWord(w)
  {
    forall i | 0 <= i < |w|
      ensures WordChar(w[i]) <==> w[i] != '\0' && w[i] !in BLANKS && w[i] !in SYMBOLS
    {
      CharClasses(w[i]);
    }
  }

  /** A token is read back, and what follows it is left. */
  lemma TokenSpelled(k: Kind, rest: string)
    requires PlainToken(k) && Terminated(rest)
    requires k.Word? ==> rest == "" || !WordChar(rest[0])
    requires k == Sym('>') ==> rest == "" || rest[0] != '>'
    ensures Terminated(TextOf(k) + rest) && Toks(TextOf(k) + rest) == [Norm(k)] + Toks(rest)
  {
    hide Skip, White, Symbol, WordChar;
    var s := TextOf(k) + rest;
    SkipToks(rest);
    SkipKeeps(rest);
    match k {
      case Word(w) =>
        PlainIsValid(w);
        WordToken(w, rest);
      case Sym(c) =>
        CharClasses(c);
        SymToken(c, rest);
        assert c != '\0' by { SymbolNotNul(c); }
      case Append =>
        AppendToken(rest);
    }
  }

  lemma SymbolNotNul(c: char)
    requires Symbol(c)
    ensures c != '\0'
  {
  }

  lemma AppendToken(rest: string)
    ensures GetToken(">>" + rest) == Token(Append, Skip(rest))
  {
    var s := ">>" + rest;
    assert s[2..] == rest;
  }

  lemma SpellStarts(ks: seq<Kind>, gaps: seq<string>)
    requires Apart(ks, gaps) && Spell(ks, gaps) != ""
    ensures gaps[0] != "" ==> Spell(ks, gaps)[0] in BLANKS
    ensures gaps[0] == "" ==> ks != [] && TextOf(ks[0]) != "" && Spell(ks, gaps)[0] == TextOf(ks[0])[0]
  {
    if ks != [] {
      assert PlainToken(ks[0]);
    }
  }

  lemma ApartTail(ks: seq<Kind>, gaps: seq<string>)
    requires Apart(ks, gaps) && ks != []
    ensures Apart(ks[1..], gaps[1..])
  {
    hide Blank, PlainToken, Merge;
    forall i | 1 <= i < |ks[1..]|
      ensures gaps[1..][i] == "" ==> !Merge(ks[1..][i - 1], ks[1..][i])
    {
      assert gaps[1..][i] == gaps[i + 1] && ks[1..][i - 1] == ks[i] && ks[1..][i] == ks[i + 1];
    }
  }

  /** What follows the first token does not run into it. */
  lemma TailApart(ks: seq<Kind>, gaps: seq<string>)
    requires Apart(ks, gaps) && ks != []
    ensures var rest := Spell(ks[1..], gaps[1..]);
            && (ks[0].Word? ==> rest == "" || !WordChar(rest[0]))
            && (ks[0] == Sym('>') ==> rest == "" || rest[0] != '>')
  {
    ApartTail(ks, gaps);
    var rest := Spell(ks[1..], gaps[1..]);
    if rest != "" {
      SpellStarts(ks[1..], gaps[1..]);
      CharClasses(rest[0]);
      if gaps[1] == "" {
        FirstChar(ks[1]);
        assert !Merge(ks[0], ks[1]);
      }
    }
  }

  lemma FirstChar(k: Kind)
    requires PlainToken(k)
    ensures TextOf(k) != ""
    ensures !k.Word? ==> !WordChar(TextOf(k)[0])
    ensures TextOf(k)[0] == '>' ==> k == Sym('>') || k == Append
  {
    CharClasses(TextOf(k)[0]);
  }

  lemma {:induction false} SpellTokens(ks: seq<Kind>, gaps: seq<string>)
    requires Apart(ks, gaps)
    ensures Terminated(Spell(ks, gaps)) && Toks(Spell(ks, gaps)) == Norms(ks)
    decreases |ks|
  {
    hide Toks, Terminated, Blank, PlainToken, Merge, TextOf, WordChar, Norm;
    if ks == [] {
      NoTokens(gaps[0]);
    } else {
      ApartTail(ks, gaps);
      TailApart(ks, gaps);
      var rest := Spell(ks[1..], gaps[1..]);
      SpellTokens(ks[1..], gaps[1..]);
      TokenSpelled(ks[0], rest);
      GapToks(gaps[0], TextOf(ks[0]) + rest);
      assert Norms(ks) == [Norm(ks[0])] + Norms(ks[1..]);
    }
  }

  lemma NoTokens(g: string)
    requires Blank(g)
    ensures Terminated(g) && Toks(g) == []
  {
    GapToks(g, "");
    assert g + "" == g;
  }

  // ---------- the tokens of a command ----------

  function LineToks(c: Cmd): seq<Kind>
    decreases c, if Simple(c) then 3 else if c.Pipe? then 2 else if c.Back? then 1 else 0
  {
    match c
    case List(l, r) => BackToks(l) + [Sym(';')] + LineToks(r)
    case _ => BackToks(c)
  }

  function BackToks(c: Cmd): seq<Kind>
    decreases c, if Simple(c) then 2 else if c.Pipe? then 1 else if c.Back? then 0 else 3
  {
    match c
    case Back(x) => BackToks(x) + [Sym('&')]
    case _ => PipeToks(c)
  }

  function PipeToks(c: Cmd): seq<Kind>
    decreases c, if Simple(c) then 1 else if c.Pipe? then 0 else if c.Back? then 3 else 2
  {
    match c
    case Pipe(l, r) => ExecToks(l) + [Sym('|')] + PipeToks(r)
    case _ => ExecToks(c)
  }

  function ExecToks(c: Cmd): seq<Kind>
    decreases c, if Simple(c) then 0 else if c.Pipe? then 3 else if c.Back? then 2 else 1
  {
    match c
    case Exec(args) => Words(args)
    case Redir(x, to) => ExecToks(x) + [Sym(if to.output then '>' else '<'), Word(to.file)]
    case _ => [Sym('(')] + LineToks(c) + [Sym(')')]
  }

  function Words(args: seq<string>): seq<Kind> {
    if args == [] then [] else [Word(args[0])] + Words(args[1..])
  }

  /** What follows does not run into a word. */
  predicate Follows(rest: string) {
    Terminated(rest) && (rest == "" || !WordChar(rest[0]))
  }

  lemma SymToks(c: char, rest: string)
    requires c in SYMBOLS && Terminated(rest) && (c == '>' ==> rest == "" || rest[0] != '>')
    ensures Follows([c] + rest) && Toks([c] + rest) == [Sym(c)] + Toks(rest)
  {
    hide Toks;
    TokenSpelled(Sym(c), rest);
    CharClasses(c);
  }

  lemma WordToks(w: string, rest: string)
    requires ValidWord(w) && Follows(rest)
    ensures Terminated(w + rest) && Toks(w + rest) == [Word(w)] + Toks(rest)
  {
    hide Toks, WordChar;
    PlainIsValid(w);
    TokenSpelled(Word(w), rest);
  }

  lemma {:induction false} JoinToks(args: seq<string>, rest: string)
    requires (forall i | 0 <= i < |args| :: ValidWord(args[i])) && Follows(rest)
    ensures Terminated(Join(args) + rest) && Toks(Join(args) + rest) == Words(args) + Toks(rest)
    decreases |args|
  {
    hide Toks, ValidWord, WordChar, Terminated;
    if args == [] {
      assert Join(args) + rest == rest && Words(args) + Toks(rest) == Toks(rest);
    } else if |args| == 1 {
      assert Words(args) == [Word(args[0])];
      WordToks(args[0], rest);
    } else {
      var more := Join(args[1..]) + rest;
      assert Join(args) + rest == args[0] + (" " + more);
      JoinToks(args[1..], rest);
      SpaceFollows(more);
      WordToks(args[0], " " + more);
      Assoc3(Word(args[0]), Words(args[1..]), Toks(rest));
    }
  }

  lemma Assoc3(k: Kind, a: seq<Kind>, b: seq<Kind>)
    ensures [k] + (a + b) == [k] + a + b
  {
  }

  lemma SpaceFollows(s: string)
    requires Terminated(s)
    ensures Follows(" " + s) && Toks(" " + s) == Toks(s)
  {
    hide Toks;
    CharClasses(' ');
    GapToks(" ", s);
  }

  lemma RedirToks(to: Redirection, rest: string)
    requires ValidWord(to.file) && Follows(rest)
    ensures Follows(PrintRedir(to) + rest)
    ensures Toks(PrintRedir(to) + rest) == [Sym(if to.output then '>' else '<'), Word(to.file)] + Toks(rest)
  {
    hide Toks, WordChar, Terminated;
    var c := if to.output then '>' else '<';
    var tail := to.file + rest;
    assert PrintRedir(to) + rest == [c] + tail;
    WordToks(to.file, rest);
    assert tail[0] != '>' by { WordNotSymbol(to.file); }
    SymToks(c, tail);
  }

  lemma WordNotSymbol(w: string)
    requires ValidWord(w)
    ensures w[0] != '>'
  {
    assert WordChar(w[0]);
  }

  lemma {:induction false} LineToksBack(c: Cmd, rest: string)
    requires WordsOk(c) && Follows(rest)
    ensures Terminated(PrintLine(c) + rest) && Toks(PrintLine(c) + rest) == LineToks(c) + Toks(rest)
    decreases Size(c), if Simple(c) then 3 else if c.Pipe? then 2 else if c.Back? then 1 else 0
  {
    hide Toks, Follows, Terminated, BackToks, PrintBack;
    if c.List? {
      var tail := PrintLine(c.right) + rest;
      assert PrintLine(c) + rest == PrintBack(c.left) + (";" + tail);
      LineToksBack(c.right, rest);
      SymToks(';', tail);
      BackToksBack(c.left, ";" + tail);
      Assoc4(BackToks(c.left), [Sym(';')], LineToks(c.right), Toks(rest));
    } else {
      BackToksBack(c, rest);
    }
  }

  lemma Assoc4(a: seq<Kind>, b: seq<Kind>, c: seq<Kind>, d: seq<Kind>)
    ensures a + (b + (c + d)) == a + b + c + d
  {
  }

  lemma {:induction false} BackToksBack(c: Cmd, rest: string)
    requires WordsOk(c) && Follows(rest)
    ensures Terminated(PrintBack(c) + rest) && Toks(PrintBack(c) + rest) == BackToks(c) + Toks(rest)
    decreases Size(c), if Simple(c) then 2 else if c.Pipe? then 1 else if c.Back? then 0 else 3
  {
    hide Toks, Terminated, PipeToks, PrintPipe;
    if c.Back? {
      assert PrintBack(c) + rest == PrintBack(c.cmd) + ("&" + rest);
      SymToks('&', rest);
      BackToksBack(c.cmd, "&" + rest);
      Assoc4(BackToks(c.cmd), [Sym('&')], [], Toks(rest));
    } else {
      PipeToksBack(c, rest);
    }
  }

  lemma {:induction false} PipeToksBack(c: Cmd, rest: string)
    requires WordsOk(c) && Follows(rest)
    ensures Terminated(PrintPipe(c) + rest) && Toks(PrintPipe(c) + rest) == PipeToks(c) + Toks(rest)
    decreases Size(c), if Simple(c) then 1 else if c.Pipe? then 0 else if c.Back? then 3 else 2
  {
    hide Toks, Follows, Terminated, ExecToks, PrintExec;
    if c.Pipe? {
      var tail := PrintPipe(c.right) + rest;
      assert PrintPipe(c) + rest == PrintExec(c.left) + ("|" + tail);
      PipeToksBack(c.right, rest);
      SymToks('|', tail);
      ExecToksBack(c.left, "|" + tail);
      Assoc4(ExecToks(c.left), [Sym('|')], PipeToks(c.right), Toks(rest));
    } else {
      ExecToksBack(c, rest);
    }
  }

  lemma {:induction false} ExecToksBack(c: Cmd, rest: string)
    requires WordsOk(c) && Follows(rest)
    ensures Terminated(PrintExec(c) + rest) && Toks(PrintExec(c) + rest) == ExecToks(c) + Toks(rest)
    decreases Size(c), if Simple(c) then 0 else if c.Pipe? then 3 else if c.Back? then 2 else 1
  {
    hide Toks, Terminated, WordChar, LineToks, PrintLine, PrintRedir;
    if c.Exec? {
      JoinToks(c.args, rest);
    } else if c.Redir? {
      assert PrintExec(c) + rest == PrintExec(c.cmd) + (PrintRedir(c.to) + rest);
      RedirToks(c.to, rest);
      ExecToksBack(c.cmd, PrintRedir(c.to) + rest);
      Assoc4(ExecToks(c.cmd), [Sym(if c.to.output then '>' else '<'), Word(c.to.file)], [], Toks(rest));
    } else {
      var tail := PrintLine(c) + (")" + rest);
      assert PrintExec(c) + rest == "(" + tail;
      SymToks(')', rest);
      LineToksBack(c, ")" + rest);
      SymToks('(', tail);
      Assoc4([Sym('(')], LineToks(c), [Sym(')')], Toks(rest));
    }
  }

  // ---------- any spacing parses ----------

  predicate PlainWords(c: Cmd) {
    match c
    case Exec(args) => forall i | 0 <= i < |args| :: PlainWord(args[i])
    case Redir(x, to) => PlainWords(x) && PlainWord(to.file)
    case Pipe(l, r) => PlainWords(l) && PlainWords(r)
    case List(l, r) => PlainWords(l) && PlainWords(r)
    case Back(x) => PlainWords(x)
  }

  lemma {:induction false} PlainIsOk(c: Cmd)
    ensures PlainWords(c) <==> WordsOk(c)
  {
    hide PlainWord, ValidWord;
    match c {
      case Exec(args) =>
        forall i | 0 <= i < |args|
          ensures PlainWord(args[i]) <==> ValidWord(args[i])
        {
          PlainIsValid(args[i]);
        }
      case Redir(x, to) =>
        PlainIsOk(x);
        PlainIsValid(to.file);
      case Pipe(l, r) =>
        PlainIsOk(l);
        PlainIsOk(r);
      case List(l, r) =>
        PlainIsOk(l);
        PlainIsOk(r);
      case Back(x) => PlainIsOk(x);
    }
  }

  /** Whatever blanks stand before, between and after the tokens of a command, and whichever of `>` and `>>` is written,
      the text parses to that command, if and only if no simple command has more than nine arguments. */
  lemma AnySpacing(c: Cmd, ks: seq<Kind>, gaps: seq<string>)
    requires PlainWords(c) && Norms(ks) == LineToks(c) && Apart(ks, gaps)
    ensures ParseCmd(Spell(ks, gaps)) == Ok(c, "") <==> FewArgs(c)
  {
    hide ParseCmd, PrintLine, PlainWords, WordsOk, FewArgs, Toks, Terminated, LineToks, Blank, PlainToken, Merge;
    PlainIsOk(c);
    SpellTokens(ks, gaps);
    assert PrintLine(c) + "" == PrintLine(c);
    EmptyFollows();
    LineToksBack(c, "");
    assert LineToks(c) + Toks("") == LineToks(c);
    SameTokens(Spell(ks, gaps), PrintLine(c));
    RoundTrip(c);
  }

  lemma EmptyFollows()
    ensures Follows("") && Toks("") == []
  {
  }

  /** A line as `gets` returns it, with its newline. */
  lemma WithNewline(c: Cmd)
    requires PlainWords(c)
    ensures ParseCmd(PrintLine(c) + "\n") == Ok(c, "") <==> FewArgs(c)
  {
    hide ParseCmd, PrintLine, PlainWords, WordsOk, FewArgs, Toks, Terminated, LineToks;
    PlainIsOk(c);
    assert PrintLine(c) + "" == PrintLine(c);
    EmptyFollows();
    LineToksBack(c, "");
    assert Blank("\n");
    NoTokens("\n");
    CharClasses('\n');
    assert Follows("\n");
    LineToksBack(c, "\n");
    SameTokens(PrintLine(c) + "\n", PrintLine(c));
    RoundTrip(c);
  }

  // ---------- blanks around any line ----------

  lemma {:induction false} SkipBefore(s: string, h: string)
    requires Blank(h)
    ensures Skip(s) == "" ==> Skip(s + h) == ""
    ensures Skip(s) != "" ==> Skip(s + h) == Skip(s) + h
    decreases |s|
  {
    if s == "" {
      assert s + h == h && h + "" == h;
      GapSkipped(h, "");
    } else if White(s[0]) {
      assert (s + h)[1..] == s[1..] + h;
      SkipBefore(s[1..], h);
    }
  }

  lemma {:induction false} WordBefore(t: string, h: string)
    requires Blank(h)
    ensures WordEnd(t + h) == WordEnd(t)
    decreases |t|
  {
    if t == "" {
      assert t + h == h;
      if h != "" {
        CharClasses(h[0]);
      }
    } else if WordChar(t[0]) {
      assert (t + h)[1..] == t[1..] + h;
      WordBefore(t[1..], h);
    }
  }

  /** The first token of a line with blanks after it. */
  lemma TokenBefore(s: string, h: string)
    requires Terminated(s) && Blank(h)
    ensures var a, b := GetToken(s), GetToken(s + h);
            && a.kind == b.kind
            && (!a.kind.End? ==> a.rest != "" ==> b.rest == a.rest + h)
            && (!a.kind.End? ==> a.rest == "" ==> b.rest == "")
  {
    hide White, Symbol, WordChar, Skip, WordEnd;
    SkipBefore(s, h);
    SkipKeeps(s);
    var t := Skip(s);
    if t != "" {
      var u := t + h;
      assert u[1..] == t[1..] + h;
      SkipBefore(t[1..], h);
      if |t| > 1 {
        assert u[2..] == t[2..] + h;
        SkipBefore(t[2..], h);
      } else if h != "" {
        NotMore(h[0]);
      }
      WordBefore(t, h);
      var n := WordEnd(t);
      assert u[..n] == t[..n] && u[n..] == t[n..] + h;
      SkipBefore(t[n..], h);
    }
  }

  lemma NotMore(c: char)
    requires c in BLANKS
    ensures c != '>'
  {
  }

  lemma {:induction false} ToksBefore(s: string, h: string)
    requires Terminated(s) && Blank(h)
    ensures Terminated(s + h) && Toks(s + h) == Toks(s)
    decreases |s|
  {
    hide GetToken, Blank;
    BlankTerminated(h);
    TokenBefore(s, h);
    TokenKeeps(s);
    var a := GetToken(s);
    if !a.kind.End? {
      if a.rest == "" {
        NoTokens("") by {
          assert Blank("") by { NoBlanks(); }
        }
      } else {
        ToksBefore(a.rest, h);
      }
    }
  }

  lemma NoBlanks()
    ensures Blank("")
  {
  }

  /** Blanks before and after a line change nothing, whether it parses or not. */
  lemma BlanksAround(g: string, s: string, h: string)
    requires Blank(g) && Blank(h) && Terminated(s)
    ensures ParseCmd(g + (s + h)) == ParseCmd(s)
  {
    hide ParseCmd, Toks, Terminated, Blank;
    ToksBefore(s, h);
    GapToks(g, s + h);
    SameTokens(g + (s + h), s);
  }
}
