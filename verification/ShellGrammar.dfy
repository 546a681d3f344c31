/** The parser of sh.c accepts exactly the sentences of a grammar, and builds the tree the sentence stands for. */
module ShellGrammar {
  import opened Shell
  import opened ShellSpacing

  // ---------- the grammar ----------

  datatype Item = Arg(word: string) | To(redir: Redirection)

  /** How a command is written: arguments and redirections in any order, a parenthesised line with redirections
      after it, and the three operators. */
  datatype Source =
    | Plain(items: seq<Item>)
    | Group(body: Source, redirs: seq<Redirection>)
    | Piped(first: Source, rest: Source)
    | Amp(body: Source)
    | Then(first: Source, rest: Source)

  const EXEC: nat := 0
  const PIPE: nat := 1
  const BACK: nat := 2
  const LINE: nat := 3

  /** The source is a phrase of the level: `|` and `;` group to the right, `&` follows what it puts in the
      background, and a plain command has at most nine arguments. */
  predicate Phrase(x: Source, level: nat) {
    match x
    case Plain(items) => |Words(items)| <= 9
    case Group(body, _) => Phrase(body, LINE)
    case Piped(first, rest) => level >= PIPE && Phrase(first, EXEC) && Phrase(rest, PIPE)
    case Amp(body) => level >= BACK && Phrase(body, BACK)
    case Then(first, rest) => level >= LINE && Phrase(first, BACK) && Phrase(rest, LINE)
  }

  function Words(items: seq<Item>): seq<string> {
    if items == [] then []
    else if items[0].Arg? then [items[0].word] + Words(items[1..])
    else Words(items[1..])
  }

  function Reds(items: seq<Item>): seq<Redirection> {
    if items == [] then []
    else if items[0].Arg? then Reds(items[1..])
    else [items[0].redir] + Reds(items[1..])
  }

  function RedirText(r: Redirection): seq<Kind> {
    [Sym(if r.output then '>' else '<'), Word(r.file)]
  }

  function RedirsText(rs: seq<Redirection>): seq<Kind> {
    if rs == [] then [] else RedirText(rs[0]) + RedirsText(rs[1..])
  }

  function ItemsText(items: seq<Item>): seq<Kind> {
    if items == [] then []
    else (if items[0].Arg? then [Word(items[0].word)] else RedirText(items[0].redir)) + ItemsText(items[1..])
  }

  function Text(x: Source): seq<Kind> {
    match x
    case Plain(items) => ItemsText(items)
    case Group(body, rs) => [Sym('(')] + (Text(body) + ([Sym(')')] + RedirsText(rs)))
    case Piped(first, rest) => Text(first) + ([Sym('|')] + Text(rest))
    case Amp(body) => Text(body) + [Sym('&')]
    case Then(first, rest) => Text(first) + ([Sym(';')] + Text(rest))
  }

  /** The command the source stands for. */
  function Tree(x: Source): Cmd {
    match x
    case Plain(items) => Wrap(Exec(Words(items)), Reds(items))
    case Group(body, rs) => Wrap(Tree(body), rs)
    case Piped(first, rest) => Pipe(Tree(first), Tree(rest))
    case Amp(body) => Back(Tree(body))
    case Then(first, rest) => List(Tree(first), Tree(rest))
  }

  /** x is a way to write c with the tokens of s. */
  predicate Sentence(x: Source, s: string, c: Cmd) {
    Phrase(x, LINE) && Text(x) == Toks(s) && Tree(x) == c
  }

  // ---------- one token ----------

  predicate Starts(ks: seq<Kind>, toks: string) {
    ks != [] && ks[0].Sym? && ks[0].c in toks
  }

  lemma Sees(s: string)
    requires Terminated(s)
    ensures Peek(s, "<>") == Starts(Toks(s), "<>")
    ensures Peek(s, "|)&;") == Starts(Toks(s), "|)&;")
    ensures Peek(s, "(") == Starts(Toks(s), "(")
    ensures Peek(s, ")") == Starts(Toks(s), ")")
    ensures Peek(s, "|") == Starts(Toks(s), "|")
    ensures Peek(s, "&") == Starts(Toks(s), "&")
    ensures Peek(s, ";") == Starts(Toks(s), ";")
  {
    hide Peek, Toks, Terminated, SymbolsOnly;
    AllSymbols();
    PeekSees(s, "<>");
    PeekSees(s, "|)&;");
    PeekSees(s, "(");
    PeekSees(s, ")");
    PeekSees(s, "|");
    PeekSees(s, "&");
    PeekSees(s, ";");
  }

  lemma Skipped(s: string)
    requires Terminated(s)
    ensures Terminated(Skip(s)) && Toks(Skip(s)) == Toks(s) && |Skip(s)| <= |s|
  {
    hide Skip, Toks;
    SkipKeeps(s);
    SkipToks(s);
  }

  /** The token a line starts with, and what is left. */
  lemma Takes(s: string)
    requires Terminated(s)
    ensures Terminated(GetToken(s).rest)
    ensures GetToken(s).kind.End? <==> Toks(s) == []
    ensures Toks(s) != [] ==>
              && |GetToken(s).rest| < |s|
              && Norm(GetToken(s).kind) == Toks(s)[0] && Toks(s) == [Toks(s)[0]] + Toks(GetToken(s).rest)
    ensures Toks(s) == [] ==> Toks(GetToken(s).rest) == []
  {
    hide GetToken, Terminated;
    TokenKeeps(s);
    ToksNext(s);
    if Toks(s) == [] {
      assert Toks("") == [] by { EmptyToks(); }
    }
  }

  lemma TakesOne(s: string, k: Kind, more: seq<Kind>)
    requires Terminated(s) && Toks(s) == [k] + more
    ensures Terminated(GetToken(s).rest) && Toks(GetToken(s).rest) == more && Norm(GetToken(s).kind) == k
  {
    hide GetToken, Terminated, Toks;
    Takes(s);
    assert ([k] + more)[1..] == more;
    assert ([Toks(s)[0]] + Toks(GetToken(s).rest))[1..] == Toks(GetToken(s).rest);
  }

  lemma EmptyToks()
    ensures Toks("") == []
  {
  }

  // ---------- what the parser accepts is a sentence ----------

  lemma {:induction false} RedirsSound(s: string)
    requires Terminated(s) && ParseRedirs(s).Redirections?
    ensures var r := ParseRedirs(s);
            Terminated(r.after) && Toks(s) == RedirsText(r.list) + Toks(r.after)
    decreases |s|
  {
    hide GetToken, Skip, Peek, Toks, Terminated;
    Sees(s);
    Skipped(s);
    var r := ParseRedirs(s);
    if Peek(s, "<>") {
      Takes(s);
      var t := GetToken(s).rest;
      Takes(t);
      var u := GetToken(t).rest;
      RedirsSound(u);
      var more := ParseRedirs(u);
      assert r.list[1..] == more.list;
      assert RedirText(r.list[0]) == [Toks(s)[0]] + [Toks(t)[0]];
    } else {
      assert RedirsText(r.list) == [];
    }
  }

  /** Redirections as items. */
  function Tos(rs: seq<Redirection>): seq<Item> {
    if rs == [] then [] else [To(rs[0])] + Tos(rs[1..])
  }

  lemma FirstItem(i: Item, items: seq<Item>)
    ensures Words([i] + items) == (if i.Arg? then [i.word] else []) + Words(items)
    ensures Reds([i] + items) == (if i.Arg? then [] else [i.redir]) + Reds(items)
    ensures ItemsText([i] + items) == (if i.Arg? then [Word(i.word)] else RedirText(i.redir)) + ItemsText(items)
  {
    hide RedirText;
    assert ([i] + items)[0] == i && ([i] + items)[1..] == items;
  }

  lemma {:induction false} TosAre(rs: seq<Redirection>, items: seq<Item>)
    ensures Words(Tos(rs) + items) == Words(items)
    ensures Reds(Tos(rs) + items) == rs + Reds(items)
    ensures ItemsText(Tos(rs) + items) == RedirsText(rs) + ItemsText(items)
    decreases |rs|
  {
    hide Words, Reds, ItemsText, RedirText;
    if rs == [] {
      assert Tos(rs) + items == items;
    } else {
      TosAre(rs[1..], items);
      FirstItem(To(rs[0]), Tos(rs[1..]) + items);
      assert Tos(rs) + items == [To(rs[0])] + (Tos(rs[1..]) + items);
      assert RedirText(rs[0]) + (RedirsText(rs[1..]) + ItemsText(items)) == RedirsText(rs) + ItemsText(items);
      assert [rs[0]] + (rs[1..] + Reds(items)) == rs + Reds(items);
    }
  }

  lemma {:induction false} ArgsSound(args: seq<string>, list: seq<Redirection>, s: string) returns (items: seq<Item>)
    requires Terminated(s) && |args| < MAXARGS && ParseArgs(args, list, s).Ok?
    ensures var r := ParseArgs(args, list, s);
            && Terminated(r.rest) && Toks(s) == ItemsText(items) + Toks(r.rest)
            && r.cmd == Wrap(Exec(args + Words(items)), list + Reds(items)) && |args| + |Words(items)| < MAXARGS
    decreases |s|
  {
    hide GetToken, Skip, Peek, Toks, Terminated, ParseRedirs, Wrap;
    Sees(s);
    Skipped(s);
    Takes(s);
    var tok := GetToken(s);
    if Peek(s, "|)&;") || tok.kind.End? {
      items := [];
      assert args + [] == args && list + [] == list;
      assert ItemsText(items) + Toks(s) == Toks(s);
    } else {
      RedirsSound(tok.rest);
      var more := ParseRedirs(tok.rest);
      var rest := ArgsSound(args + [tok.kind.w], list + more.list, more.after);
      items := [Arg(tok.kind.w)] + (Tos(more.list) + rest);
      ArgsStep(args, list, tok.kind.w, more.list, rest);
      assert Toks(s) == [Word(tok.kind.w)] + (RedirsText(more.list) + Toks(more.after));
      var r := ParseArgs(args, list, s);
      assert [Word(tok.kind.w)] + (RedirsText(more.list) + (ItemsText(rest) + Toks(r.rest)))
          == [Word(tok.kind.w)] + (RedirsText(more.list) + ItemsText(rest)) + Toks(r.rest);
    }
  }

  /** A word, the redirections after it, and the rest. */
  lemma ArgsStep(args: seq<string>, list: seq<Redirection>, w: string, rs: seq<Redirection>, rest: seq<Item>)
    ensures var items := [Arg(w)] + (Tos(rs) + rest);
            && ItemsText(items) == [Word(w)] + (RedirsText(rs) + ItemsText(rest))
            && args + Words(items) == args + [w] + Words(rest) && |Words(items)| == 1 + |Words(rest)|
            && list + Reds(items) == list + rs + Reds(rest)
  {
    hide Words, Reds, ItemsText, RedirsText, Tos;
    TosAre(rs, rest);
    FirstItem(Arg(w), Tos(rs) + rest);
    assert args + ([w] + Words(rest)) == args + [w] + Words(rest);
    assert list + (rs + Reds(rest)) == list + rs + Reds(rest);
  }

  /** The rest of a parse, and the source of what it read. */
  predicate Reads(x: Source, s: string, r: Parsed) {
    r.Ok? && r.cmd == Tree(x) && Terminated(r.rest) && Toks(s) == Text(x) + Toks(r.rest)
  }

  lemma {:induction false} ExecSound(s: string) returns (x: Source)
    requires Terminated(s) && ParseExec(s).Ok?
    ensures Phrase(x, EXEC) && Reads(x, s, ParseExec(s))
    decreases |s|, 2
  {
    hide GetToken, Skip, Peek, Toks, Terminated, ParseRedirs, ParseArgs, ParseBlock, Wrap;
    Sees(s);
    Skipped(s);
    if Peek(s, "(") {
      x := BlockSound(Skip(s));
    } else {
      RedirsSound(s);
      var first := ParseRedirs(s);
      var items := ArgsSound([], first.list, first.after);
      x := Plain(Tos(first.list) + items);
      TosAre(first.list, items);
      assert [] + Words(items) == Words(items);
      var r := ParseExec(s);
      assert RedirsText(first.list) + (ItemsText(items) + Toks(r.rest))
          == RedirsText(first.list) + ItemsText(items) + Toks(r.rest);
    }
  }

  lemma {:induction false} BlockSound(s: string) returns (x: Source)
    requires Terminated(s) && ParseBlock(s).Ok?
    ensures Phrase(x, EXEC) && Reads(x, s, ParseBlock(s))
    decreases |s|, 1
  {
    hide GetToken, Skip, Peek, Toks, Terminated, ParseRedirs, ParseLine, Wrap;
    Sees(s);
    Takes(s);
    var t := GetToken(s).rest;
    var body := LineSound(t);
    var u := ParseLine(t).rest;
    Sees(u);
    Takes(u);
    var v := GetToken(u).rest;
    RedirsSound(v);
    var list := ParseRedirs(v);
    x := Group(body, list.list);
    var end := RedirsText(list.list) + Toks(list.after);
    assert Toks(s) == [Sym('(')] + (Text(body) + ([Sym(')')] + end));
    assert [Sym('(')] + (Text(body) + ([Sym(')')] + end))
        == [Sym('(')] + (Text(body) + ([Sym(')')] + RedirsText(list.list))) + Toks(list.after);
  }

  lemma {:induction false} PipeSound(s: string) returns (x: Source)
    requires Terminated(s) && ParsePipe(s).Ok?
    ensures Phrase(x, PIPE) && Reads(x, s, ParsePipe(s))
    decreases |s|, 3
  {
    hide GetToken, Skip, Peek, Toks, Terminated, ParseExec;
    var first := ExecSound(s);
    PhraseUp(first, EXEC, PIPE);
    var t := ParseExec(s).rest;
    Sees(t);
    Skipped(t);
    if Peek(t, "|") {
      Takes(t);
      var rest := PipeSound(GetToken(t).rest);
      x := Piped(first, rest);
      var end := Toks(ParsePipe(s).rest);
      assert Text(first) + ([Sym('|')] + (Text(rest) + end)) == Text(first) + ([Sym('|')] + Text(rest)) + end;
    } else {
      x := first;
    }
  }

  lemma PhraseUp(x: Source, a: nat, b: nat)
    requires Phrase(x, a) && a <= b
    ensures Phrase(x, b)
  {
  }

  lemma {:induction false} BacksSound(x: Source, s: string) returns (y: Source)
    requires Terminated(s) && Phrase(x, BACK)
    ensures var r := ParseBacks(Tree(x), s);
            && Phrase(y, BACK) && r.cmd == Tree(y) && Terminated(r.rest)
            && Text(x) + Toks(s) == Text(y) + Toks(r.rest)
    decreases |s|
  {
    hide GetToken, Skip, Peek, Toks, Terminated;
    Sees(s);
    Skipped(s);
    if Peek(s, "&") {
      Takes(s);
      var t := GetToken(s).rest;
      y := BacksSound(Amp(x), t);
      assert Text(x) + ([Sym('&')] + Toks(t)) == Text(x) + [Sym('&')] + Toks(t);
    } else {
      y := x;
    }
  }

  lemma {:induction false} LineSound(s: string) returns (x: Source)
    requires Terminated(s) && ParseLine(s).Ok?
    ensures Phrase(x, LINE) && Reads(x, s, ParseLine(s))
    decreases |s|, 4
  {
    hide GetToken, Skip, Peek, Toks, Terminated, ParsePipe, ParseBacks;
    var p := PipeSound(s);
    PhraseUp(p, PIPE, BACK);
    var a := ParsePipe(s);
    var first := BacksSound(p, a.rest);
    PhraseUp(first, BACK, LINE);
    var t := ParseBacks(a.cmd, a.rest).rest;
    Sees(t);
    Skipped(t);
    if Peek(t, ";") {
      Takes(t);
      var rest := LineSound(GetToken(t).rest);
      x := Then(first, rest);
      var end := Toks(ParseLine(s).rest);
      assert Text(first) + ([Sym(';')] + (Text(rest) + end)) == Text(first) + ([Sym(';')] + Text(rest)) + end;
    } else {
      x := first;
    }
  }

  // ---------- every sentence is accepted ----------

  /** What may follow a command. */
  predicate Stops(more: seq<Kind>) {
    more == [] || Starts(more, "|)&;")
  }

  lemma {:induction false} RedirsComplete(rs: seq<Redirection>, s: string, more: seq<Kind>)
    requires Terminated(s) && Toks(s) == RedirsText(rs) + more && !Starts(more, "<>")
    ensures var r := ParseRedirs(s);
            r.Redirections? && r.list == rs && Terminated(r.after) && Toks(r.after) == more
    decreases |rs|
  {
    hide GetToken, Skip, Peek, Toks, Terminated;
    Sees(s);
    Skipped(s);
    if rs == [] {
      assert RedirsText(rs) + more == more;
    } else {
      var end := RedirsText(rs[1..]) + more;
      assert Toks(s) == [RedirText(rs[0])[0]] + ([Word(rs[0].file)] + end);
      TakesOne(s, RedirText(rs[0])[0], [Word(rs[0].file)] + end);
      var t := GetToken(s).rest;
      TakesOne(t, Word(rs[0].file), end);
      RedirsComplete(rs[1..], GetToken(t).rest, more);
      assert [rs[0]] + rs[1..] == rs;
    }
  }

  /** The redirections a command starts with, and the rest of it. */
  lemma {:induction false} Leading(items: seq<Item>) returns (rs: seq<Redirection>, rest: seq<Item>)
    ensures items == Tos(rs) + rest && (rest == [] || rest[0].Arg?) && |rest| <= |items|
    decreases |items|
  {
    if items == [] || items[0].Arg? {
      rs, rest := [], items;
    } else {
      var more;
      more, rest := Leading(items[1..]);
      rs := [items[0].redir] + more;
      assert rs[1..] == more;
      assert items == [items[0]] + (Tos(more) + rest);
    }
  }

  lemma {:induction false} ArgsComplete(
      args: seq<string>, list: seq<Redirection>, items: seq<Item>, s: string, more: seq<Kind>)
    requires Terminated(s) && Toks(s) == ItemsText(items) + more && Stops(more)
    requires (items == [] || items[0].Arg?) && |args| + |Words(items)| < MAXARGS
    ensures var r := ParseArgs(args, list, s);
            && r.Ok? && r.cmd == Wrap(Exec(args + Words(items)), list + Reds(items))
            && Terminated(r.rest) && Toks(r.rest) == more
    decreases |items|
  {
    hide GetToken, Skip, Peek, Toks, Terminated, ParseRedirs, Wrap, Words, Reds, ItemsText;
    Sees(s);
    Skipped(s);
    Takes(s);
    if items == [] {
      NoItems();
      assert [] + more == more && args + [] == args && list + [] == list;
    } else {
      var w := items[0].word;
      var rs, rest := Leading(items[1..]);
      assert items == [Arg(w)] + (Tos(rs) + rest);
      ArgsStep(args, list, w, rs, rest);
      assert Toks(s) == [Word(w)] + (RedirsText(rs) + (ItemsText(rest) + more));
      TakesOne(s, Word(w), RedirsText(rs) + (ItemsText(rest) + more));
      var t := GetToken(s).rest;
      ItemsStart(rest, more);
      RedirsComplete(rs, t, ItemsText(rest) + more);
      ArgsComplete(args + [w], list + rs, rest, ParseRedirs(t).after, more);
    }
  }

  lemma NoItems()
    ensures Words([]) == [] && Reds([]) == [] && ItemsText([]) == []
  {
  }

  lemma ItemsStart(items: seq<Item>, more: seq<Kind>)
    requires (items == [] || items[0].Arg?) && Stops(more)
    ensures !Starts(ItemsText(items) + more, "<>") && !Starts(ItemsText(items) + more, "(")
  {
    if items == [] {
      assert ItemsText(items) + more == more;
    }
  }

  /** A plain command does not start like a group. */
  lemma PlainStart(items: seq<Item>, more: seq<Kind>)
    requires Stops(more)
    ensures !Starts(ItemsText(items) + more, "(")
  {
    if items == [] {
      assert ItemsText(items) + more == more;
    }
  }

  predicate Leaves(x: Source, r: Parsed, more: seq<Kind>) {
    r.Ok? && r.cmd == Tree(x) && Terminated(r.rest) && Toks(r.rest) == more
  }

  lemma {:induction false} ExecComplete(x: Source, s: string, more: seq<Kind>)
    requires Terminated(s) && Phrase(x, EXEC) && Toks(s) == Text(x) + more && Stops(more)
    ensures Leaves(x, ParseExec(s), more)
    decreases x, 0
  {
    hide GetToken, Skip, Peek, Toks, Terminated, ParseRedirs, ParseArgs, ParseBlock, Wrap, Words, Reds, ItemsText;
    Sees(s);
    Skipped(s);
    match x {
      case Plain(items) =>
        PlainStart(items, more);
        var rs, rest := Leading(items);
        TosAre(rs, rest);
        assert Toks(s) == RedirsText(rs) + (ItemsText(rest) + more);
        ItemsStart(rest, more);
        RedirsComplete(rs, s, ItemsText(rest) + more);
        assert [] + Words(rest) == Words(rest);
        ArgsComplete([], rs, rest, ParseRedirs(s).after, more);
      case Group(body, rs) =>
        GroupComplete(body, rs, Skip(s), more);
    }
  }

  lemma {:induction false} GroupComplete(body: Source, rs: seq<Redirection>, s: string, more: seq<Kind>)
    requires Terminated(s) && Phrase(body, LINE) && Toks(s) == Text(Group(body, rs)) + more && Stops(more)
    ensures Leaves(Group(body, rs), ParseBlock(s), more)
    decreases body, 5
  {
    hide GetToken, Skip, Peek, Toks, Terminated, ParseRedirs, ParseLine, Wrap, Phrase;
    Sees(s);
    var end := [Sym(')')] + (RedirsText(rs) + more);
    assert Toks(s) == [Sym('(')] + (Text(body) + end);
    TakesOne(s, Sym('('), Text(body) + end);
    var t := GetToken(s).rest;
    LineComplete(body, t, end);
    var u := ParseLine(t).rest;
    Sees(u);
    TakesOne(u, Sym(')'), RedirsText(rs) + more);
    RedirsComplete(rs, GetToken(u).rest, more);
  }

  lemma {:induction false} PipeComplete(x: Source, s: string, more: seq<Kind>)
    requires Terminated(s) && Phrase(x, PIPE) && Toks(s) == Text(x) + more && Stops(more) && !Starts(more, "|")
    ensures Leaves(x, ParsePipe(s), more)
    decreases x, 1
  {
    hide GetToken, Skip, Peek, Toks, Terminated, ParseExec;
    var first := if x.Piped? then x.first else x;
    var end := if x.Piped? then [Sym('|')] + (Text(x.rest) + more) else more;
    assert Toks(s) == Text(first) + end;
    ExecComplete(first, s, end);
    var t := ParseExec(s).rest;
    Sees(t);
    Skipped(t);
    if x.Piped? {
      TakesOne(t, Sym('|'), Text(x.rest) + more);
      PipeComplete(x.rest, GetToken(t).rest, more);
    }
  }

  /** The loop over `&` comes to the whole of x, with the rest of the line before it. */
  lemma {:induction false} BacksComplete(x: Source, s: string, more: seq<Kind>) returns (t: string)
    requires Terminated(s) && Phrase(x, BACK) && Toks(s) == Text(x) + more && Stops(more) && !Starts(more, "|")
    ensures ParsePipe(s).Ok? && Terminated(t) && Toks(t) == more
    ensures ParseBacks(ParsePipe(s).cmd, ParsePipe(s).rest) == ParseBacks(Tree(x), t)
    decreases x, 2
  {
    hide GetToken, Skip, Peek, Toks, Terminated, ParsePipe;
    if x.Amp? {
      var end := [Sym('&')] + more;
      assert Toks(s) == Text(x.body) + end;
      var u := BacksComplete(x.body, s, end);
      Sees(u);
      TakesOne(u, Sym('&'), more);
      t := GetToken(u).rest;
    } else {
      PipeComplete(x, s, more);
      t := ParsePipe(s).rest;
    }
  }

  lemma {:induction false} LineComplete(x: Source, s: string, more: seq<Kind>)
    requires Terminated(s) && Phrase(x, LINE) && Toks(s) == Text(x) + more && (more == [] || Starts(more, ")"))
    ensures Leaves(x, ParseLine(s), more)
    decreases x, 3
  {
    hide GetToken, Skip, Peek, Toks, Terminated, ParsePipe;
    var first := if x.Then? then x.first else x;
    var end := if x.Then? then [Sym(';')] + (Text(x.rest) + more) else more;
    assert Toks(s) == Text(first) + end;
    var t := BacksComplete(first, s, end);
    Sees(t);
    Skipped(t);
    Sees(Skip(t));
    Skipped(Skip(t));
    if x.Then? {
      TakesOne(Skip(t), Sym(';'), Text(x.rest) + more);
      LineComplete(x.rest, GetToken(Skip(t)).rest, more);
    }
  }

  // ---------- the theorem ----------

  /** The parser returns a command exactly when some sentence of the grammar writes it with the tokens of the line, and
      fails exactly when there is none. */
  lemma Recognises(s: string)
    requires Terminated(s)
    ensures forall c :: ParseCmd(s) == Ok(c, "") <==> exists x :: Sentence(x, s, c)
    ensures ParseCmd(s).Err? <==> !exists x, c :: Sentence(x, s, c)
  {
    hide ParseLine, Skip, Toks, Terminated, Phrase, Text, Tree, Sentence;
    if ParseCmd(s).Ok? {
      var x := Accepted(s);
      assert ParseCmd(s) == Ok(ParseCmd(s).cmd, "");
    }
    forall x, c | Sentence(x, s, c)
      ensures ParseCmd(s) == Ok(c, "")
    {
      Accepts(x, s, c);
    }
  }

  lemma Accepted(s: string) returns (x: Source)
    requires Terminated(s) && ParseCmd(s).Ok?
    ensures Sentence(x, s, ParseCmd(s).cmd)
  {
    hide ParseLine, Skip, Toks, Terminated, Phrase, Text, Tree;
    x := LineSound(s);
    NothingLeft(ParseLine(s).rest);
    assert Text(x) + [] == Text(x);
  }

  lemma Accepts(x: Source, s: string, c: Cmd)
    requires Terminated(s) && Sentence(x, s, c)
    ensures ParseCmd(s) == Ok(c, "")
  {
    hide ParseLine, Skip, Toks, Terminated, Phrase, Text, Tree;
    assert Text(x) + [] == Text(x);
    LineComplete(x, s, []);
    NothingLeft(ParseLine(s).rest);
  }
}
