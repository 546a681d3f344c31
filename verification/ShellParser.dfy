/** The parser of sh.c as it works: one line, one cursor that every routine advances. */
module ShellParser {
  import opened Shell

  /** A routine returns a command or panics. */
  datatype Outcome = Good(cmd: Cmd) | Panic(why: string)

  /** The outcome and the cursor are what the grammar functions say. */
  predicate Agrees(o: Outcome, rest: string, p: Parsed) {
    match o
    case Good(c) => p == Ok(c, rest)
    case Panic(why) => p == Err(why)
  }

  lemma DropOne(line: string, pos: nat)
    requires pos < |line|
    ensures line[pos..] != "" && line[pos..][0] == line[pos] && line[pos..][1..] == line[pos + 1..]
  {
  }

  lemma {:induction false} WordEndIs(line: string, from: nat, to: nat)
    requires from <= to <= |line| && (forall i | from <= i < to :: WordChar(line[i]))
               && (to == |line| || !WordChar(line[to]))
    ensures WordEnd(line[from..]) == to - from
  {
    assert line[from..] == line[from..to] + line[to..];
    WordEndOf(line[from..to], line[to..]);
  }

  /** The token that the tidy text t starts with is of kind k and n characters long. */
  predicate Starts(t: string, k: Kind, n: nat) {
    && t != "" && t[0] != '\0' && n <= |t|
    && if t[0] == '>' then (if |t| > 1 && t[1] == '>' then k == Append && n == 2 else k == Sym('>') && n == 1)
       else if Symbol(t[0]) then k == Sym(t[0]) && n == 1
       else n == WordEnd(t) && k == Word(t[..n])
  }

  lemma TokenIs(s: string, t: string, k: Kind, n: nat)
    requires t == Skip(s) && Starts(t, k, n)
    ensures GetToken(s) == Token(k, Skip(t[n..]))
  {
  }

  class Parser {
    const line: string
    var pos: nat

    ghost predicate Valid()
      reads this
    {
      pos <= |line| && '\0' !in line
    }

    ghost function Rest(): string
      requires Valid()
      reads this
    {
      line[pos..]
    }

    constructor (s: string)
      requires '\0' !in s
      ensures line == s && Valid() && Rest() == s
    {
      line := s;
      pos := 0;
    }

    /** The character under the cursor, 0 at the end of the line. */
    function Cur(): char
      requires pos <= |line|
      reads this
    {
      if pos < |line| then line[pos] else '\0'
    }

    method SkipWhite()
      requires Valid()
      modifies this
      ensures Valid() && old(pos) <= pos && Rest() == Skip(old(Rest()))
    {
      while pos < |line| && White(line[pos])
        invariant Valid() && old(pos) <= pos && Skip(Rest()) == Skip(old(Rest()))
        decreases |line| - pos
      {
        DropOne(line, pos);
        pos := pos + 1;
      }
      if pos < |line| {
        DropOne(line, pos);
      }
    }

    method Peeks(toks: string) returns (b: bool)
      requires Valid() && '\0' !in toks
      modifies this
      ensures Valid() && old(pos) <= pos
      ensures Rest() == Skip(old(Rest())) && b == Peek(old(Rest()), toks)
    {
      SkipWhite();
      b := Cur() != '\0' && Cur() in toks;
      if pos < |line| {
        DropOne(line, pos);
      }
    }

    method Gettoken() returns (k: Kind)
      requires Valid()
      modifies this
      ensures Valid() && old(pos) <= pos && (!k.End? ==> old(pos) < pos)
      ensures GetToken(old(Rest())) == Token(k, Rest())
    {
      hide GetToken, Skip, WordEnd, Starts;
      SkipWhite();
      if Cur() == '\0' {
        assert Rest() == "";
        EmptyToken(old(Rest()));
        return End;
      }
      ghost var q := pos;
      k := Advance();
      TokenIs(old(Rest()), line[q..], k, pos - q);
      assert line[q..][pos - q..] == line[pos..];
      SkipWhite();
    }

    /** The middle of `gettoken`: past one token, without the white space around it. */
    method Advance() returns (k: Kind)
      requires Valid() && pos < |line| && !White(line[pos])
      modifies this
      ensures Valid() && old(pos) < pos && Starts(line[old(pos)..], k, pos - old(pos))
    {
      hide GetToken, Skip, WordEnd;
      var q := pos;
      assert line[q] != '\0';
      DropOne(line, q);
      if line[pos] == '>' {
        k := Sym('>');
        pos := pos + 1;
        if Cur() == '>' {
          k := Append;
          pos := pos + 1;
        }
        assert |line[q..]| > 1 ==> line[q..][1] == line[q + 1];
      } else if Symbol(line[pos]) {
        k := Sym(line[pos]);
        pos := pos + 1;
      } else {
        while pos < |line| && !White(line[pos]) && !Symbol(line[pos])
          invariant Valid() && q <= pos && forall i | q <= i < pos :: WordChar(line[i])
          invariant pos == q ==> pos < |line| && !White(line[pos]) && !Symbol(line[pos])
          decreases |line| - pos
        {
          pos := pos + 1;
        }
        WordEndIs(line, q, pos);
        assert line[q..][..pos - q] == line[q..pos];
        k := Word(line[q..pos]);
      }
    }

    method Parseredirs(cmd: Cmd) returns (o: Outcome)
      requires Valid()
      modifies this
      ensures Valid() && old(pos) <= pos
      ensures Agrees(o, Rest(), Wrapped(cmd, ParseRedirs(old(Rest()))))
    {
      hide GetToken, Skip, Peek, ParseRedirs, Wrap;
      var c := cmd;
      ghost var done: seq<Redirection> := [];
      WrapNone(cmd, ParseRedirs(Rest()));
      SkipAgain(Rest());
      var more := Peeks("<>");
      while more
        invariant Valid() && old(pos) <= pos && c == Wrap(cmd, done)
        invariant Rest() == Skip(Rest()) && more == Peek(Rest(), "<>")
        invariant ParseRedirs(old(Rest())) == Prepend(done, ParseRedirs(Rest()))
        decreases |line| - pos
      {
        RedirRound(Rest());
        var tok := Gettoken();
        var file := Gettoken();
        if !file.Word? {
          return Panic("missing file for redirection");
        }
        ghost var r := Redirection(file.w, tok != Sym('<'));
        c := Redir(c, Redirection(file.w, tok != Sym('<')));
        WrapLast(cmd, done, r);
        PrependOne(done, r, ParseRedirs(Rest()));
        done := done + [r];
        SkipAgain(Rest());
        more := Peeks("<>");
      }
      RedirRound(Rest());
      assert done + [] == done;
      return Good(c);
    }

    method Parseexec() returns (o: Outcome)
      requires Valid()
      modifies this
      ensures Valid() && old(pos) <= pos
      ensures Agrees(o, Rest(), ParseExec(old(Rest())))
      decreases |line| - pos, 2
    {
      hide GetToken, Skip, Peek, ParseRedirs, ParseBlock, ParseArgs, Wrap;
      SkipAgain(Rest());
      var block := Peeks("(");
      if block {
        o := Parseblock();
        return;
      }
      ghost var first := ParseRedirs(Rest());
      o := Parseredirs(Exec([]));
      if o.Panic? {
        return;
      }
      o := Arguments(o.cmd, first.list);
    }

    /** The loop of `parseexec`; `ret` wraps the command whose arguments are being gathered. */
    method Arguments(ret: Cmd, ghost list: seq<Redirection>) returns (o: Outcome)
      requires Valid() && ret == Wrap(Exec([]), list)
      modifies this
      ensures Valid() && old(pos) <= pos
      ensures Agrees(o, Rest(), ParseArgs([], list, old(Rest())))
    {
      hide GetToken, Skip, Peek, ParseRedirs, ParseArgs, Wrap, WithBase;
      var argv := new string[MAXARGS];
      var argc, ret' := 0, ret;
      ghost var list' := list;
      SkipAgain(Rest());
      ArgsSkip([], list, Rest());
      assert argv[..0] == [];
      var stop := Peeks("|)&;");
      while !stop
        invariant Valid() && old(pos) <= pos && fresh(argv) && argc < MAXARGS && ret' == Wrap(Exec([]), list')
        invariant Rest() == Skip(Rest()) && stop == Peek(Rest(), "|)&;")
        invariant ParseArgs([], list, old(Rest())) == ParseArgs(argv[..argc], list', Rest())
        decreases |line| - pos
      {
        ArgsRound(argv[..argc], list', Rest());
        ghost var args := argv[..argc];
        var tok := Gettoken();
        if tok.End? {
          WithBaseWrap(list', argv[..argc]);
          return Good(WithBase(ret', Exec(argv[..argc])));
        }
        if !tok.Word? {
          return Panic("syntax");
        }
        argv[argc] := tok.w;
        argc := argc + 1;
        assert argv[..argc] == args + [tok.w];
        if argc >= MAXARGS {
          return Panic("too many args");
        }
        ghost var more := ParseRedirs(Rest());
        o := Parseredirs(ret');
        if o.Panic? {
          return;
        }
        WrapTwice(Exec([]), list', more.list);
        ret', list' := o.cmd, list' + more.list;
        SkipAgain(Rest());
        ArgsSkip(argv[..argc], list', Rest());
        stop := Peeks("|)&;");
      }
      ArgsRound(argv[..argc], list', Rest());
      WithBaseWrap(list', argv[..argc]);
      return Good(WithBase(ret', Exec(argv[..argc])));
    }

    method Parseblock() returns (o: Outcome)
      requires Valid()
      modifies this
      ensures Valid() && old(pos) <= pos
      ensures Agrees(o, Rest(), ParseBlock(old(Rest())))
      decreases |line| - pos, 1
    {
      hide GetToken, Skip, Peek, ParseRedirs, ParseLine, Wrap;
      SkipAgain(Rest());
      var open := Peeks("(");
      if !open {
        return Panic("parseblock");
      }
      PeekedNotEnd(Rest(), "(");
      var t := Gettoken();
      o := Parseline();
      if o.Panic? {
        return;
      }
      SkipAgain(Rest());
      var close := Peeks(")");
      if !close {
        return Panic("syntax - missing )");
      }
      t := Gettoken();
      o := Parseredirs(o.cmd);
    }

    method Parsepipe() returns (o: Outcome)
      requires Valid()
      modifies this
      ensures Valid() && old(pos) <= pos
      ensures Agrees(o, Rest(), ParsePipe(old(Rest())))
      decreases |line| - pos, 3
    {
      hide GetToken, Skip, Peek, ParseExec;
      o := Parseexec();
      if o.Panic? {
        return;
      }
      SkipAgain(Rest());
      var more := Peeks("|");
      if more {
        PeekedNotEnd(Rest(), "|");
        var t := Gettoken();
        var right := Parsepipe();
        o := if right.Panic? then right else Good(Pipe(o.cmd, right.cmd));
      }
    }

    method Parseline() returns (o: Outcome)
      requires Valid()
      modifies this
      ensures Valid() && old(pos) <= pos
      ensures Agrees(o, Rest(), ParseLine(old(Rest())))
      decreases |line| - pos, 4
    {
      hide GetToken, Skip, Peek, ParsePipe, ParseBacks;
      o := Parsepipe();
      if o.Panic? {
        return;
      }
      var c := Ampersands(o.cmd);
      SkipAgain(Rest());
      var more := Peeks(";");
      if more {
        PeekedNotEnd(Rest(), ";");
        var t := Gettoken();
        var right := Parseline();
        o := if right.Panic? then right else Good(List(c, right.cmd));
      } else {
        o := Good(c);
      }
    }

    /** The loop over `&` of `parseline`. */
    method Ampersands(cmd: Cmd) returns (c: Cmd)
      requires Valid()
      modifies this
      ensures Valid() && old(pos) <= pos
      ensures ParseBacks(cmd, old(Rest())) == Ok(c, Rest())
    {
      hide GetToken, Skip, Peek;
      c := cmd;
      SkipAgain(Rest());
      var more := Peeks("&");
      while more
        invariant Valid() && old(pos) <= pos && Rest() == Skip(Rest()) && more == Peek(Rest(), "&")
        invariant ParseBacks(cmd, old(Rest())) == ParseBacks(c, Rest())
        decreases |line| - pos
      {
        PeekedNotEnd(Rest(), "&");
        var t := Gettoken();
        c := Back(c);
        SkipAgain(Rest());
        more := Peeks("&");
      }
    }

    /** The whole line, or a panic on what is left over. */
    method Parsecmd() returns (o: Outcome)
      requires Valid() && pos == 0
      modifies this
      ensures Valid() && Agrees(o, Rest(), ParseCmd(line))
    {
      hide GetToken, Skip, Peek, ParseLine;
      assert Rest() == line;
      o := Parseline();
      if o.Panic? {
        return;
      }
      var b := Peeks("");
      if pos != |line| {
        return Panic("syntax");
      }
    }
  }

  lemma EmptyToken(s: string)
    requires Skip(s) == ""
    ensures GetToken(s) == Token(End, "")
  {
  }

  // ---------- rounds of the loops ----------

  function Wrapped(cmd: Cmd, r: Redirs): Parsed {
    if r.BadRedirection? then Err(r.why) else Ok(Wrap(cmd, r.list), r.after)
  }

  function Prepend(done: seq<Redirection>, r: Redirs): Redirs {
    if r.BadRedirection? then r else Redirections(done + r.list, r.after)
  }

  lemma WrapNone(c: Cmd, r: Redirs)
    ensures Wrap(c, []) == c && Prepend([], r) == r
  {
  }

  lemma PrependOne(done: seq<Redirection>, x: Redirection, r: Redirs)
    ensures Prepend(done, Prepend([x], r)) == Prepend(done + [x], r)
  {
    if r.Redirections? {
      assert done + ([x] + r.list) == done + [x] + r.list;
    }
  }

  /** Skipping white space first changes nothing. */
  lemma SkipAgain(s: string)
    ensures Skip(Skip(s)) == Skip(s) && GetToken(Skip(s)) == GetToken(s)
    ensures forall toks: string :: Peek(Skip(s), toks) == Peek(s, toks)
    ensures ParseRedirs(Skip(s)) == ParseRedirs(s)
    ensures forall c :: ParseBacks(c, Skip(s)) == ParseBacks(c, s)
  {
    assert Skip(Skip(s)) == Skip(s);
  }

  lemma ArgsSkip(args: seq<string>, list: seq<Redirection>, s: string)
    ensures ParseArgs(args, list, Skip(s)) == ParseArgs(args, list, s)
  {
    hide ParseRedirs, Wrap, GetToken, Peek, Skip;
    SkipAgain(s);
  }

  lemma PeekedNotEnd(s: string, toks: string)
    requires Peek(s, toks)
    ensures !GetToken(s).kind.End?
  {
  }

  lemma RedirRound(s: string)
    ensures
      if !Peek(s, "<>") then ParseRedirs(s) == Redirections([], Skip(s))
      else
        var tok := GetToken(s);
        var file := GetToken(tok.rest);
        && !tok.kind.End?
        && ParseRedirs(s) == if file.kind.Word? then Prepend([Redirection(file.kind.w, tok.kind != Sym('<'))],
             ParseRedirs(file.rest))
                             else BadRedirection("missing file for redirection")
  {
  }

  lemma ArgsRound(args: seq<string>, list: seq<Redirection>, s: string)
    ensures Peek(s, "|)&;") ==> ParseArgs(args, list, s) == Ok(Wrap(Exec(args), list), Skip(s))
    ensures !Peek(s, "|)&;") ==>
      var tok := GetToken(s);
      && (tok.kind.End? ==> ParseArgs(args, list, s) == Ok(Wrap(Exec(args), list), tok.rest))
      && (tok.kind.Sym? || tok.kind.Append? ==> ParseArgs(args, list, s) == Err("syntax"))
      && (tok.kind.Word? && |args| + 1 >= MAXARGS ==> ParseArgs(args, list, s) == Err("too many args"))
      && (tok.kind.Word? && |args| + 1 < MAXARGS && ParseRedirs(tok.rest).BadRedirection? ==>
            ParseArgs(args, list, s) == Err(ParseRedirs(tok.rest).why))
      && (tok.kind.Word? && |args| + 1 < MAXARGS && ParseRedirs(tok.rest).Redirections? ==>
            ParseArgs(args, list, s) == ParseArgs(args + [tok.kind.w], list + ParseRedirs(tok.rest).list,
              ParseRedirs(tok.rest).after))
  {
    hide GetToken, Skip, Peek, ParseRedirs, Wrap;
  }

  /** The innermost command of a chain of redirections replaced. */
  function WithBase(c: Cmd, base: Cmd): Cmd {
    if c.Redir? then Redir(WithBase(c.cmd, base), c.to) else base
  }

  lemma {:induction false} WithBaseOf(c: Cmd, list: seq<Redirection>, base: Cmd)
    ensures WithBase(Wrap(c, list), base) == Wrap(WithBase(c, base), list)
    decreases |list|
  {
    if list != [] {
      WithBaseOf(Redir(c, list[0]), list[1..], base);
    }
  }

  lemma WithBaseWrap(list: seq<Redirection>, args: seq<string>)
    ensures WithBase(Wrap(Exec([]), list), Exec(args)) == Wrap(Exec(args), list)
  {
    WithBaseOf(Exec([]), list, Exec(args));
  }

  lemma {:induction false} WrapTwice(c: Cmd, a: seq<Redirection>, b: seq<Redirection>)
    ensures Wrap(Wrap(c, a), b) == Wrap(c, a + b)
    decreases |a|
  {
    if a == [] {
      assert a + b == b;
    } else {
      assert (a + b)[1..] == a[1..] + b;
      WrapTwice(Redir(c, a[0]), a[1..], b);
    }
  }
}
