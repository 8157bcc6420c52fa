/** The command language of sh.c: tokens, grammar, and the tree a line stands for. */
module ShellSpec {
  const MAXARGS := 10
  const NUL := '\0'

  // < opens for reading as descriptor 0; > and >> both open for writing as descriptor 1.
  datatype Mode = In | Out

  // A command over words of some kind.
  datatype Cmd<W> =
    | Exec(argv: seq<W>)
    | Redir(cmd: Cmd<W>, file: W, mode: Mode)
    | Pipe(left: Cmd<W>, right: Cmd<W>)
    | List(left: Cmd<W>, right: Cmd<W>)
    | Back(cmd: Cmd<W>)

  // A symbol stands for itself, and '+' for >>.
  datatype Token<W> = Word(w: W) | Symbol(c: char)

  datatype Parsed<V, W> = Ok(v: V, rest: seq<Token<W>>) | Panic

  // ---- the grammar, over tokens ----

  function FirstChar(c: char): char { if c == '+' then '>' else c }

  // The next token begins with one of the characters cs.
  predicate Peeks<W>(ks: seq<Token<W>>, cs: set<char>) { ks != [] && ks[0].Symbol? && FirstChar(ks[0].c) in cs }

  function ModeOf(c: char): Mode { if c == '<' then In else Out }

  function Wrap<W>(c: Cmd<W>, rs: seq<(W, Mode)>): Cmd<W> {
    if rs == [] then c else Redir(Wrap(c, rs[..|rs| - 1]), rs[|rs| - 1].0, rs[|rs| - 1].1)
  }

  function ParseRedirs<W>(ks: seq<Token<W>>, rs: seq<(W, Mode)>): (r: Parsed<seq<(W, Mode)>, W>)
    ensures r.Ok? ==> |r.rest| <= |ks|
    decreases |ks|
  {
    if !Peeks(ks, {'<', '>'}) then Ok(rs, ks)
    else if |ks| < 2 || !ks[1].Word? then Panic
    else ParseRedirs(ks[2..], rs + [(ks[1].w, ModeOf(ks[0].c))])
  }

  // Command c with the redirections read after it.
  function Redirected<W>(c: Cmd<W>, r: Parsed<seq<(W, Mode)>, W>): Parsed<Cmd<W>, W> {
    if r.Ok? then Ok(Wrap(c, r.v), r.rest) else Panic
  }

  const ENDS: set<char> := {'|', ')', '&', ';'}

  // The words and redirections of a simple command.
  function ParseArgs<W>(ks: seq<Token<W>>, argv: seq<W>, rs: seq<(W, Mode)>): (r: Parsed<Cmd<W>, W>)
    ensures r.Ok? ==> |r.rest| <= |ks|
    decreases |ks|
  {
    if ks == [] || Peeks(ks, ENDS) then Ok(Wrap(Exec(argv), rs), ks)
    else if !ks[0].Word? then Panic
    else if |argv| + 1 >= MAXARGS then Panic
    else
      match ParseRedirs(ks[1..], rs)
      case Panic => Panic
      case Ok(rs', rest) => ParseArgs(rest, argv + [ks[0].w], rs')
  }

  function ParseExec<W>(ks: seq<Token<W>>): (r: Parsed<Cmd<W>, W>)
    ensures r.Ok? ==> |r.rest| <= |ks|
    decreases |ks|, 1
  {
    if Peeks(ks, {'('}) then ParseBlock(ks)
    else
      match ParseRedirs(ks, [])
      case Panic => Panic
      case Ok(rs, rest) => ParseArgs(rest, [], rs)
  }

  function ParseBlock<W>(ks: seq<Token<W>>): (r: Parsed<Cmd<W>, W>)
    ensures r.Ok? ==> |r.rest| <= |ks|
    decreases |ks|, 0
  {
    if !Peeks(ks, {'('}) then Panic
    else
      match ParseLine(ks[1..])
      case Panic => Panic
      case Ok(c, rest) =>
        if !Peeks(rest, {')'}) then Panic
        else
          Redirected(c, ParseRedirs(rest[1..], []))
  }

  function ParsePipe<W>(ks: seq<Token<W>>): (r: Parsed<Cmd<W>, W>)
    ensures r.Ok? ==> |r.rest| <= |ks|
    decreases |ks|, 2
  {
    match ParseExec(ks)
    case Panic => Panic
    case Ok(c, rest) =>
      if !Peeks(rest, {'|'}) then Ok(c, rest)
      else
        match ParsePipe(rest[1..])
        case Panic => Panic
        case Ok(d, rest') => Ok(Pipe(c, d), rest')
  }

  function ParseBacks<W>(ks: seq<Token<W>>, c: Cmd<W>): (r: (Cmd<W>, seq<Token<W>>))
    ensures |r.1| <= |ks|
    decreases |ks|
  { if !Peeks(ks, {'&'}) then (c, ks) else ParseBacks(ks[1..], Back(c)) }

  function ParseLine<W>(ks: seq<Token<W>>): (r: Parsed<Cmd<W>, W>)
    ensures r.Ok? ==> |r.rest| <= |ks|
    decreases |ks|, 3
  {
    match ParsePipe(ks)
    case Panic => Panic
    case Ok(c, rest) =>
      var (d, rest') := ParseBacks(rest, c);
      if !Peeks(rest', {';'}) then Ok(d, rest')
      else
        match ParseLine(rest'[1..])
        case Panic => Panic
        case Ok(e, rest'') => Ok(List(d, e), rest'')
  }

  // parsecmd: the whole line is one command.
  function ParseCmd<W>(ks: seq<Token<W>>): (r: Parsed<Cmd<W>, W>)
    ensures r.Ok? ==> r.rest == []
  {
    match ParseLine(ks)
    case Panic => Panic
    case Ok(c, rest) => if rest == [] then Ok(c, rest) else Panic
  }

  // ---- the parser inverts a fully parenthesised writing ----

  // No command has more words than the parser has room for.
  predicate Small<W>(c: Cmd<W>) {
    match c
    case Exec(argv) => |argv| < MAXARGS
    case Redir(d, _, _) => Small(d)
    case Pipe(l, r) => Small(l) && Small(r)
    case List(l, r) => Small(l) && Small(r)
    case Back(d) => Small(d)
  }

  function WordTokens<W>(ws: seq<W>): (ks: seq<Token<W>>)
    ensures |ks| == |ws| && forall i :: 0 <= i < |ws| ==> ks[i] == Word(ws[i])
  { seq(|ws|, i requires 0 <= i < |ws| => Word(ws[i])) }

  function Op(m: Mode): char { if m.In? then '<' else '>' }

  function RedirTokens<W>(rs: seq<(W, Mode)>): seq<Token<W>> {
    if rs == [] then [] else [Symbol(Op(rs[0].1)), Word(rs[0].0)] + RedirTokens(rs[1..])
  }

  // A command in tokens.
  function Tokens<W>(c: Cmd<W>): seq<Token<W>>
    decreases c, 1
  {
    match c
    case Exec(argv) => WordTokens(argv)
    case Redir(d, f, m) => Tokens(d) + [Symbol(Op(m)), Word(f)]
    case _ => [Symbol('(')] + Inside(c) + [Symbol(')')]
  }

  // A pipe, list or background command without its parentheses.
  function Inside<W>(c: Cmd<W>): seq<Token<W>>
    requires !c.Exec? && !c.Redir?
    decreases c, 0
  {
    match c
    case Pipe(l, r) => Tokens(l) + [Symbol('|')] + Tokens(r)
    case List(l, r) => Tokens(l) + [Symbol(';')] + Tokens(r)
    case Back(d) => Tokens(d) + [Symbol('&')]
  }

  // What may follow a command.
  predicate Stops<W>(rest: seq<Token<W>>) { rest == [] || Peeks(rest, ENDS) }

  // The command under the outer redirections, and those.
  function Core<W>(c: Cmd<W>): (d: Cmd<W>)
    ensures !d.Redir?
  { if c.Redir? then Core(c.cmd) else c }

  function Redirs<W>(c: Cmd<W>): seq<(W, Mode)> {
    if c.Redir? then Redirs(c.cmd) + [(c.file, c.mode)] else []
  }

  lemma {:induction false} RedirTokensLast<W>(rs: seq<(W, Mode)>, f: W, m: Mode)
    ensures RedirTokens(rs + [(f, m)]) == RedirTokens(rs) + [Symbol(Op(m)), Word(f)]
    decreases |rs|
  {
    if rs != [] {
      RedirTokensLast(rs[1..], f, m);
      assert (rs + [(f, m)])[1..] == rs[1..] + [(f, m)];
    }
  }

  lemma {:induction false} Spine<W>(c: Cmd<W>)
    ensures c == Wrap(Core(c), Redirs(c)) && Tokens(c) == Tokens(Core(c)) + RedirTokens(Redirs(c)) &&
            (Small(c) <==> Small(Core(c)))
  {
    if c.Redir? {
      Spine(c.cmd);
      var rs := Redirs(c.cmd);
      RedirTokensLast(rs, c.file, c.mode);
      assert (rs + [(c.file, c.mode)])[..|rs|] == rs;
    } else {
      assert Tokens(c) + [] == Tokens(c);
    }
  }

  lemma {:induction false} RedirsInverse<W>(rs: seq<(W, Mode)>, acc: seq<(W, Mode)>, rest: seq<Token<W>>)
    requires !Peeks(rest, {'<', '>'})
    ensures ParseRedirs(RedirTokens(rs) + rest, acc) == Ok(acc + rs, rest)
    decreases |rs|
  {
    var ks := RedirTokens(rs) + rest;
    if rs == [] {
      assert ks == rest && acc + rs == acc;
    } else {
      RedirsInverse(rs[1..], acc + [rs[0]], rest);
      assert ks[2..] == RedirTokens(rs[1..]) + rest;
      assert acc + [rs[0]] + rs[1..] == acc + rs;
    }
  }

  // Words ws and redirections rs, when argv has been read.
  lemma {:induction false} ArgsInverse<W>(ws: seq<W>, rs: seq<(W, Mode)>, argv: seq<W>, rest: seq<Token<W>>)
    requires ws != [] && Stops(rest)
    ensures ParseArgs(WordTokens(ws) + RedirTokens(rs) + rest, argv, []) ==
            if |argv| + |ws| < MAXARGS then Ok(Wrap(Exec(argv + ws), rs), rest) else Panic
    decreases |ws|
  {
    var ks := WordTokens(ws) + RedirTokens(rs) + rest;
    assert ks[0] == Word(ws[0]);
    assert ks[1..] == WordTokens(ws[1..]) + RedirTokens(rs) + rest;
    assert argv + [ws[0]] + ws[1..] == argv + ws;
    if |ws| == 1 {
      assert ks[1..] == RedirTokens(rs) + rest;
      RedirsInverse(rs, [], rest);
      assert [] + rs == rs && argv + ws == argv + [ws[0]];
    } else {
      assert ks[1..][0] == Word(ws[1]);
      assert ParseRedirs(ks[1..], []) == Ok([], ks[1..]);
      ArgsInverse(ws[1..], rs, argv + [ws[0]], rest);
    }
  }

  lemma ExecInverse<W>(ws: seq<W>, rs: seq<(W, Mode)>, rest: seq<Token<W>>)
    requires Stops(rest)
    ensures ParseExec(WordTokens(ws) + RedirTokens(rs) + rest) == if |ws| < MAXARGS then Ok(Wrap(Exec(ws), rs), rest)
            else Panic
  {
    var ks := WordTokens(ws) + RedirTokens(rs) + rest;
    if ws == [] {
      assert ks == RedirTokens(rs) + rest;
      if rs != [] { assert ks[0] == Symbol(Op(rs[0].1)); } else { assert ks == rest; }
      RedirsInverse(rs, [], rest);
      assert [] + rs == rs;
    } else {
      assert ks[0] == Word(ws[0]);
      ArgsInverse(ws, rs, [], rest);
      assert [] + ws == ws;
    }
  }

  // Every command, before anything that may follow one, is read back whole exactly when no simple
  // command in it has ten words or more; if one has, the parser gives up.
  lemma {:induction false} CommandInverse<W>(c: Cmd<W>, rest: seq<Token<W>>)
    requires Stops(rest)
    ensures ParseExec(Tokens(c) + rest) == if Small(c) then Ok(c, rest) else Panic
    decreases c, 2
  {
    Spine(c);
    var d, rs := Core(c), Redirs(c);
    if d.Exec? {
      ExecInverse(d.argv, rs, rest);
    } else {
      CoreSmaller(c);
      assert Tokens(c) + rest == Tokens(d) + (RedirTokens(rs) + rest);
      BlockInverse(d, rs, rest);
    }
  }

  lemma {:induction false} CoreSmaller<W>(c: Cmd<W>)
    ensures c == Core(c) || Core(c) < c
  {
    if c.Redir? { CoreSmaller(c.cmd); }
  }

  // What a line is, by what its first command is and what follows that.
  lemma PipeOf<W>(ks: seq<Token<W>>)
    ensures ParseExec(ks) == Panic ==> ParsePipe(ks) == Panic
    ensures ParseExec(ks).Ok? && !Peeks(ParseExec(ks).rest, {'|'}) ==> ParsePipe(ks) == ParseExec(ks)
  {}

  lemma LineOfOne<W>(ks: seq<Token<W>>)
    ensures ParseExec(ks) == Panic ==> ParseLine(ks) == Panic
    ensures ParseExec(ks).Ok? && (ParseExec(ks).rest == [] || Peeks(ParseExec(ks).rest, {')'})) ==>
            ParseLine(ks) == ParseExec(ks)
  {
    PipeOf(ks);
    if ParseExec(ks).Ok? && (ParseExec(ks).rest == [] || Peeks(ParseExec(ks).rest, {')'})) {
      assert ParseBacks(ParseExec(ks).rest, ParseExec(ks).v) == (ParseExec(ks).v, ParseExec(ks).rest);
    }
  }

  lemma LineOfPipe<W>(ks: seq<Token<W>>, c: Cmd<W>, rest: seq<Token<W>>)
    requires ParseExec(ks) == Ok(c, rest) && Peeks(rest, {'|'})
    ensures ParseExec(rest[1..]) == Panic ==> ParseLine(ks) == Panic
    ensures ParseExec(rest[1..]).Ok? && Peeks(ParseExec(rest[1..]).rest, {')'}) ==>
              ParseLine(ks) == Ok(Pipe(c, ParseExec(rest[1..]).v), ParseExec(rest[1..]).rest)
  {
    PipeOf(rest[1..]);
    var r := ParseExec(rest[1..]);
    if r.Ok? && Peeks(r.rest, {')'}) {
      assert ParsePipe(ks) == Ok(Pipe(c, r.v), r.rest);
      assert ParseBacks(r.rest, Pipe(c, r.v)) == (Pipe(c, r.v), r.rest);
    } else if r == Panic {
      assert ParsePipe(ks) == Panic;
    }
  }

  lemma LineOfList<W>(ks: seq<Token<W>>, c: Cmd<W>, rest: seq<Token<W>>)
    requires ParseExec(ks) == Ok(c, rest) && Peeks(rest, {';'})
    ensures ParseExec(rest[1..]) == Panic ==> ParseLine(ks) == Panic
    ensures ParseExec(rest[1..]).Ok? && Peeks(ParseExec(rest[1..]).rest, {')'}) ==>
              ParseLine(ks) == Ok(List(c, ParseExec(rest[1..]).v), ParseExec(rest[1..]).rest)
  {
    PipeOf(ks);
    LineOfOne(rest[1..]);
    assert ParseBacks(rest, c) == (c, rest);
  }

  lemma LineOfBack<W>(ks: seq<Token<W>>, c: Cmd<W>, rest: seq<Token<W>>)
    requires ParseExec(ks) == Ok(c, rest) && Peeks(rest, {'&'}) && Peeks(rest[1..], {')'})
    ensures ParseLine(ks) == Ok(Back(c), rest[1..])
  {
    PipeOf(ks);
    assert ParseBacks(rest[1..], Back(c)) == (Back(c), rest[1..]);
    assert ParseBacks(rest, c) == (Back(c), rest[1..]);
  }

  // The part of a pipe, list or background command between its parentheses.
  lemma {:induction false} InsideInverse<W>(d: Cmd<W>, end: seq<Token<W>>)
    requires !d.Exec? && !d.Redir? && Peeks(end, {')'})
    ensures ParseLine(Inside(d) + end) == if Small(d) then Ok(d, end) else Panic
    decreases d, 0
  {
    var ks := Inside(d) + end;
    match d
    case Pipe(l, r) =>
      var rest := [Symbol('|')] + Tokens(r) + end;
      assert ks == Tokens(l) + rest && rest[1..] == Tokens(r) + end;
      CommandInverse(l, rest);
      CommandInverse(r, end);
      LineOfOne(ks);
      if Small(l) { LineOfPipe(ks, l, rest); }
    case List(l, r) =>
      var rest := [Symbol(';')] + Tokens(r) + end;
      assert ks == Tokens(l) + rest && rest[1..] == Tokens(r) + end;
      CommandInverse(l, rest);
      CommandInverse(r, end);
      LineOfOne(ks);
      if Small(l) { LineOfList(ks, l, rest); }
    case Back(e) =>
      var rest := [Symbol('&')] + end;
      assert ks == Tokens(e) + rest && rest[1..] == end;
      CommandInverse(e, rest);
      LineOfOne(ks);
      if Small(e) { LineOfBack(ks, e, rest); }
  }

  lemma ExecOfBlock<W>(ks: seq<Token<W>>)
    requires Peeks(ks, {'('})
    ensures ParseLine(ks[1..]) == Panic ==> ParseExec(ks) == Panic
    ensures ParseLine(ks[1..]).Ok? && Peeks(ParseLine(ks[1..]).rest, {')'}) ==>
              ParseExec(ks) == Redirected(ParseLine(ks[1..]).v, ParseRedirs(ParseLine(ks[1..]).rest[1..], []))
  {}

  lemma BlockTokens<W>(inside: seq<Token<W>>, after: seq<Token<W>>)
    ensures var ks := [Symbol('(')] + inside + [Symbol(')')] + after; var end := [Symbol(')')] + after;
            ks[0] == Symbol('(') && ks[1..] == inside + end && end[0] == Symbol(')') && end[1..] == after
  {}

  lemma BlockInverse<W>(d: Cmd<W>, rs: seq<(W, Mode)>, rest: seq<Token<W>>)
    requires !d.Exec? && !d.Redir? && Stops(rest)
    ensures ParseExec(Tokens(d) + (RedirTokens(rs) + rest)) == if Small(d) then Ok(Wrap(d, rs), rest) else Panic
    decreases d, 1
  {
    var after := RedirTokens(rs) + rest;
    BlockTokens(Inside(d), after);
    InsideInverse(d, [Symbol(')')] + after);
    ExecOfBlock(Tokens(d) + after);
    RedirsInverse(rs, [], rest);
    assert [] + rs == rs;
  }

  // The round trip on tokens.
  lemma TokensRoundTripIff<W>(c: Cmd<W>)
    ensures ParseCmd(Tokens(c)) == if Small(c) then Ok(c, []) else Panic
  {
    CommandInverse(c, []);
    assert Tokens(c) + [] == Tokens(c);
    LineOfOne(Tokens(c));
  }
}

/** From characters to tokens and back. Positions index the line; the NUL after it is at its length. */
module ShellLex {
  import opened ShellSpec

  // Where a word is in the line: from q to just before eq.
  datatype Range = Range(q: nat, eq: nat)

  predicate IsSpace(c: char) { c == ' ' || c == '\t' || c == '\r' || c == '\n' || c == '\U{B}' }
  predicate IsSymbol(c: char) { c == '<' || c == '|' || c == '>' || c == '&' || c == ';' || c == '(' || c == ')' }
  predicate IsWordChar(c: char) { c != NUL && !IsSpace(c) && !IsSymbol(c) }

  function Skip(t: string, s: nat): (r: nat)
    requires s <= |t|
    ensures s <= r <= |t| && (r < |t| ==> !IsSpace(t[r]))
    decreases |t| - s
  { if s < |t| && IsSpace(t[s]) then Skip(t, s + 1) else s }

  function WordEnd(t: string, s: nat): (r: nat)
    requires s <= |t|
    ensures s <= r <= |t| && (r < |t| ==> IsSpace(t[r]) || IsSymbol(t[r]))
    decreases |t| - s
  { if s < |t| && !IsSpace(t[s]) && !IsSymbol(t[s]) then WordEnd(t, s + 1) else s }

  predicate DoubleAt(t: string, q: nat) { q + 1 < |t| && t[q] == '>' && t[q + 1] == '>' }

  // The token that begins at q, and where it ends.
  function TokenAt(t: string, q: nat): Token<Range>
    requires q < |t|
  {
    if DoubleAt(t, q) then Symbol('+')
    else if IsSymbol(t[q]) then Symbol(t[q])
    else Word(Range(q, WordEnd(t, q)))
  }

  function EndAt(t: string, q: nat): (e: nat)
    requires q < |t| && !IsSpace(t[q])
    ensures q < e <= |t|
  {
    if DoubleAt(t, q) then q + 2
    else if IsSymbol(t[q]) then q + 1
    else WordEnd(t, q)
  }

  // The tokens of the line from s on.
  function Lex(t: string, s: nat): seq<Token<Range>>
    requires s <= |t|
    decreases |t| - s
  {
    var q := Skip(t, s);
    if q == |t| then [] else [TokenAt(t, q)] + Lex(t, EndAt(t, q))
  }

  lemma SkipTwice(t: string, s: nat)
    requires s <= |t|
    ensures Skip(t, Skip(t, s)) == Skip(t, s) && Lex(t, Skip(t, s)) == Lex(t, s)
  {}

  // ---- the text of a command ----

  predicate GoodWord(w: string) { w != [] && forall i :: 0 <= i < |w| ==> IsWordChar(w[i]) }

  predicate GoodWords(c: Cmd<string>) {
    match c
    case Exec(argv) => forall i :: 0 <= i < |argv| ==> GoodWord(argv[i])
    case Redir(d, f, _) => GoodWords(d) && GoodWord(f)
    case Pipe(l, r) => GoodWords(l) && GoodWords(r)
    case List(l, r) => GoodWords(l) && GoodWords(r)
    case Back(d) => GoodWords(d)
  }

  function WordsText(ws: seq<string>): string {
    if ws == [] then [] else ws[0] + " " + WordsText(ws[1..])
  }

  // Fully parenthesised, with a space after every word.
  function Text(c: Cmd<string>): string {
    match c
    case Exec(argv) => WordsText(argv)
    case Redir(d, f, m) => Text(d) + [Op(m)] + (f + " ")
    case Pipe(l, r) => "(" + Text(l) + "|" + Text(r) + ")"
    case List(l, r) => "(" + Text(l) + ";" + Text(r) + ")"
    case Back(d) => "(" + Text(d) + "&" + ")"
  }

  // ---- what ranges stand for ----

  function ReadWord(t: string, r: Range): string { if r.q <= r.eq <= |t| then t[r.q..r.eq] else [] }

  function ReadWords(t: string, rs: seq<Range>): seq<string> {
    if rs == [] then [] else [ReadWord(t, rs[0])] + ReadWords(t, rs[1..])
  }

  function Read(t: string, c: Cmd<Range>): Cmd<string> {
    match c
    case Exec(argv) => Exec(ReadWords(t, argv))
    case Redir(d, f, m) => Redir(Read(t, d), ReadWord(t, f), m)
    case Pipe(l, r) => Pipe(Read(t, l), Read(t, r))
    case List(l, r) => List(Read(t, l), Read(t, r))
    case Back(d) => Back(Read(t, d))
  }

  // ---- lexing a text gives its command's tokens ----

  // x stands in t at s.
  predicate At(t: string, s: nat, x: string) {
    s + |x| <= |t| && forall i {:trigger x[i]} :: 0 <= i < |x| ==> t[s + i] == x[i]
  }

  lemma AtSplit(t: string, s: nat, x: string, y: string)
    requires At(t, s, x + y)
    ensures At(t, s, x) && At(t, s + |x|, y)
  {
    forall i | 0 <= i < |x| ensures t[s + i] == x[i] { assert (x + y)[i] == x[i]; }
    forall i | 0 <= i < |y| ensures t[s + |x| + i] == y[i] { assert (x + y)[|x| + i] == y[i]; }
  }

  lemma {:induction false} WordEndAt(t: string, s: nat, w: string, i: nat)
    requires GoodWord(w) && At(t, s, w) && s + |w| < |t| && t[s + |w|] == ' ' && i <= |w|
    ensures WordEnd(t, s + i) == s + |w|
    decreases |w| - i
  {
    if i < |w| {
      assert IsWordChar(w[i]) && t[s + i] == w[i];
      WordEndAt(t, s, w, i + 1);
    }
  }

  lemma LexWord(t: string, s: nat, w: string)
    requires GoodWord(w) && At(t, s, w + " ")
    ensures s + |w| + 1 <= |t| && Lex(t, s) == [Word(Range(s, s + |w|))] + Lex(t, s + |w| + 1) &&
            ReadWord(t, Range(s, s + |w|)) == w
  {
    AtSplit(t, s, w, " ");
    assert " "[0] == ' ' && t[s + |w|] == ' ';
    assert IsWordChar(w[0]) && t[s] == w[0];
    WordEndAt(t, s, w, 0);
    assert TokenAt(t, s) == Word(Range(s, s + |w|)) && EndAt(t, s) == s + |w|;
    SkipTwice(t, s + |w|);
    SkipTwice(t, s + |w| + 1);
    assert Lex(t, s + |w|) == Lex(t, s + |w| + 1);
    assert t[s..s + |w|] == w;
  }

  lemma LexSymbol(t: string, s: nat, c: char)
    requires IsSymbol(c) && s < |t| && t[s] == c && !DoubleAt(t, s)
    ensures Lex(t, s) == [Symbol(c)] + Lex(t, s + 1)
  {}

  lemma LexSymbolText(t: string, s: nat, c: char)
    requires IsSymbol(c) && c != '>' && At(t, s, [c])
    ensures s < |t| && Lex(t, s) == [Symbol(c)] + Lex(t, s + 1)
  {
    assert [c][0] == c;
    LexSymbol(t, s, c);
  }

  lemma {:induction false} LexWords(t: string, s: nat, ws: seq<string>, x: string) returns (rs: seq<Range>)
    requires (forall i :: 0 <= i < |ws| ==> GoodWord(ws[i])) && x == WordsText(ws) && At(t, s, x)
    ensures LexesTo(t, s, s + |x|, WordTokens(rs)) == true
    ensures ReadWords(t, rs) == ws
    decreases |ws|, 0
  {
    if ws == [] {
      rs := [];
      assert WordTokens(rs) + Lex(t, s) == Lex(t, s);
    } else {
      rs := LexWordsFrom(t, s, ws[0], ws[1..], WordsText(ws[1..]), x);
      assert ws == [ws[0]] + ws[1..];
    }
  }

  lemma LexWordsFrom(t: string, s: nat, w: string, ws: seq<string>, y: string, x: string) returns (rs: seq<Range>)
    requires GoodWord(w) && (forall i :: 0 <= i < |ws| ==> GoodWord(ws[i])) && y == WordsText(ws) &&
             x == w + " " + y && At(t, s, x)
    ensures LexesTo(t, s, s + |x|, WordTokens(rs)) == true
    ensures ReadWords(t, rs) == [w] + ws
    decreases |ws|, 1
  {
    AtSplit(t, s, w + " ", y);
    LexWord(t, s, w);
    var rest := LexWords(t, s + |w| + 1, ws, y);
    rs := WordsCons(t, Lex(t, s), w, Range(s, s + |w|), Lex(t, s + |w| + 1), ws, rest, Lex(t, s + |x|));
  }

  lemma WordsCons(t: string, a: seq<Token<Range>>, w: string, r: Range, b: seq<Token<Range>>, ws: seq<string>,
      rest: seq<Range>, c: seq<Token<Range>>)
    returns (rs: seq<Range>)
    requires a == [Word(r)] + b && b == WordTokens(rest) + c && ReadWord(t, r) == w && ReadWords(t, rest) == ws
    ensures a == WordTokens(rs) + c && ReadWords(t, rs) == [w] + ws
  {
    rs := [r] + rest;
    assert WordTokens(rs) == [Word(r)] + WordTokens(rest);
    assert rs[1..] == rest;
  }

  lemma LexRedir(t: string, s: nat, f: string, m: Mode)
    requires GoodWord(f) && At(t, s, [Op(m)] + (f + " "))
    ensures s + |f| + 2 <= |t| && Lex(t, s) == [Symbol(Op(m)), Word(Range(s + 1, s + 1 + |f|))] + Lex(t, s + |f| + 2)
    ensures ReadWord(t, Range(s + 1, s + 1 + |f|)) == f
  {
    AtSplit(t, s, [Op(m)], f + " ");
    assert [Op(m)][0] == Op(m);
    assert (f + " ")[0] == f[0] && IsWordChar(f[0]);
    LexSymbol(t, s, Op(m));
    LexWord(t, s + 1, f);
  }

  lemma AtTwo(t: string, s: nat, x: string, c: char, y: string)
    requires At(t, s, "(" + x + [c] + y + ")")
    ensures At(t, s, "(") && At(t, s + 1, x) && At(t, s + 1 + |x|, [c]) && At(t, s + 1 + |x| + 1, y) &&
            At(t, s + 1 + |x| + 1 + |y|, ")")
  {
    AtSplit(t, s, "(" + x + [c] + y, ")");
    AtSplit(t, s, "(" + x + [c], y);
    AtSplit(t, s, "(" + x, [c]);
    AtSplit(t, s, "(", x);
  }

  lemma Chain<T>(a: seq<T>, p: T, b: seq<T>, l: seq<T>, c: seq<T>, q: T, d: seq<T>, r: seq<T>, e: seq<T>, z: T,
      f: seq<T>)
    requires a == [p] + b && b == l + c && c == [q] + d && d == r + e && e == [z] + f
    ensures a == [p] + (l + [q] + r) + [z] + f
  {}

  // Two stretches of tokens in parentheses with a symbol between them.
  lemma LexTwo(t: string, s: nat, l: seq<Token<Range>>, s1: nat, c: char, r: seq<Token<Range>>, s2: nat)
    requires s < s1 < s2 < |t| && IsSymbol(c) && c != '>' && At(t, s, "(") && At(t, s1, [c]) && At(t, s2, ")")
    requires Lex(t, s + 1) == l + Lex(t, s1) && Lex(t, s1 + 1) == r + Lex(t, s2)
    ensures Lex(t, s) == [Symbol('(')] + (l + [Symbol(c)] + r) + [Symbol(')')] + Lex(t, s2 + 1)
  {
    LexSymbolText(t, s, '(');
    LexSymbolText(t, s1, c);
    LexSymbolText(t, s2, ')');
    Chain(Lex(t, s), Symbol('('), Lex(t, s + 1), l, Lex(t, s1), Symbol(c), Lex(t, s1 + 1), r, Lex(t, s2), Symbol(')'),
        Lex(t, s2 + 1));
  }

  lemma TokensOf<W>(l: Cmd<W>, r: Cmd<W>, f: W, m: Mode)
    ensures Tokens(Pipe(l, r)) == [Symbol('(')] + (Tokens(l) + [Symbol('|')] + Tokens(r)) + [Symbol(')')]
    ensures Tokens(List(l, r)) == [Symbol('(')] + (Tokens(l) + [Symbol(';')] + Tokens(r)) + [Symbol(')')]
    ensures Tokens(Back(l)) == [Symbol('(')] + (Tokens(l) + [Symbol('&')] + []) + [Symbol(')')]
    ensures Tokens(Redir(l, f, m)) == Tokens(l) + [Symbol(Op(m)), Word(f)]
  {
    assert Tokens(l) + [Symbol('&')] + [] == Tokens(l) + [Symbol('&')];
  }

  // From s to e, the line lexes to the tokens ks.
  predicate LexesTo(t: string, s: nat, e: nat, ks: seq<Token<Range>>) {
    s <= e <= |t| && Lex(t, s) == ks + Lex(t, e)
  }

  lemma LexBoth(t: string, s: nat, x: string, l: seq<Token<Range>>, c: char, y: string, r: seq<Token<Range>>)
    requires At(t, s, "(" + x + [c] + y + ")") && IsSymbol(c) && c != '>'
    requires LexesTo(t, s + 1, s + 1 + |x|, l) && LexesTo(t, s + 1 + |x| + 1, s + 1 + |x| + 1 + |y|, r)
    ensures LexesTo(t, s, s + |"(" + x + [c] + y + ")"|, [Symbol('(')] + (l + [Symbol(c)] + r) + [Symbol(')')]) == true
  {
    AtTwo(t, s, x, c, y);
    LexTwo(t, s, l, s + 1 + |x|, c, r, s + 1 + |x| + 1 + |y|);
  }

  lemma LexThen(t: string, s: nat, x: string, l: seq<Token<Range>>, f: string, m: Mode)
    requires GoodWord(f) && At(t, s + |x|, [Op(m)] + (f + " ")) && LexesTo(t, s, s + |x|, l)
    ensures LexesTo(t, s, s + |x + [Op(m)] + (f + " ")|,
            l + [Symbol(Op(m)), Word(Range(s + |x| + 1, s + |x| + 1 + |f|))])
    ensures ReadWord(t, Range(s + |x| + 1, s + |x| + 1 + |f|)) == f
  {
    LexRedir(t, s + |x|, f, m);
    Assoc(l, [Symbol(Op(m)), Word(Range(s + |x| + 1, s + |x| + 1 + |f|))], Lex(t, s + |x| + |f| + 2));
  }

  lemma Assoc<T>(a: seq<T>, b: seq<T>, c: seq<T>)
    ensures a + (b + c) == a + b + c
  {}

  ghost function Size<W>(c: Cmd<W>): nat {
    match c
    case Exec(_) => 0
    case Redir(d, _, _) => Size(d) + 1
    case Pipe(l, r) => Size(l) + Size(r) + 1
    case List(l, r) => Size(l) + Size(r) + 1
    case Back(d) => Size(d) + 1
  }

  // The text x of c at s lexes to the tokens of c with ranges for words.
  lemma {:induction false} LexText(t: string, s: nat, c: Cmd<string>, x: string) returns (d: Cmd<Range>)
    requires GoodWords(c) && x == Text(c) && At(t, s, x)
    ensures LexesTo(t, s, s + |x|, Tokens(d)) == true
    ensures Read(t, d) == c
    decreases Size(c), 1
  {
    match c
    case Exec(argv) =>
      var rs := LexWords(t, s, argv, x);
      d := Exec(rs);
    case Redir(e, f, m) => d := LexRedirected(t, s, e, f, m, Text(e), x);
    case Pipe(l, r) =>
      var l', r' := LexPair(t, s, l, Text(l), '|', r, Text(r), x);
      d := Pipe(l', r');
      TokensOf(l', r', Range(0, 0), In);
    case List(l, r) =>
      var l', r' := LexPair(t, s, l, Text(l), ';', r, Text(r), x);
      d := List(l', r');
      TokensOf(l', r', Range(0, 0), In);
    case Back(e) =>
      var e' := LexSingle(t, s, e, Text(e), x);
      d := Back(e');
      TokensOf(e', e', Range(0, 0), In);
  }

  lemma LexRedirected(t: string, s: nat, e: Cmd<string>, f: string, m: Mode, y: string, x: string)
      returns (d: Cmd<Range>)
    requires GoodWords(e) && GoodWord(f) && y == Text(e) && x == y + [Op(m)] + (f + " ") && At(t, s, x)
    ensures LexesTo(t, s, s + |x|, Tokens(d)) == true
    ensures Read(t, d) == Redir(e, f, m)
    decreases Size(e) + 1, 0
  {
    assert x == y + ([Op(m)] + (f + " "));
    AtSplit(t, s, y, [Op(m)] + (f + " "));
    var e' := LexText(t, s, e, y);
    LexThen(t, s, y, Tokens(e'), f, m);
    d := Redir(e', Range(s + |y| + 1, s + |y| + 1 + |f|), m);
    TokensOf(e', e', d.file, m);
  }

  lemma LexPair(t: string, s: nat, l: Cmd<string>, y: string, c: char, r: Cmd<string>, z: string, x: string)
      returns (l': Cmd<Range>, r': Cmd<Range>)
    requires GoodWords(l) && GoodWords(r) && y == Text(l) && z == Text(r) && IsSymbol(c) && c != '>'
    requires x == "(" + y + [c] + z + ")" && At(t, s, x)
    ensures LexesTo(t, s, s + |x|, [Symbol('(')] + (Tokens(l') + [Symbol(c)] + Tokens(r')) + [Symbol(')')]) == true
    ensures Read(t, l') == l && Read(t, r') == r
    decreases Size(l) + Size(r) + 1, 0
  {
    AtTwo(t, s, y, c, z);
    l' := LexText(t, s + 1, l, y);
    r' := LexText(t, s + 1 + |y| + 1, r, z);
    LexBoth(t, s, y, Tokens(l'), c, z, Tokens(r'));
  }

  lemma LexSingle(t: string, s: nat, e: Cmd<string>, y: string, x: string) returns (e': Cmd<Range>)
    requires GoodWords(e) && y == Text(e) && x == "(" + y + "&" + ")" && At(t, s, x)
    ensures LexesTo(t, s, s + |x|, [Symbol('(')] + (Tokens(e') + [Symbol('&')] + []) + [Symbol(')')]) == true
    ensures Read(t, e') == e
    decreases Size(e) + 1, 0
  {
    assert x == "(" + y + ['&'] + [] + ")";
    AtTwo(t, s, y, '&', []);
    e' := LexText(t, s + 1, e, y);
    LexBoth(t, s, y, Tokens(e'), '&', [], []);
  }

  lemma {:induction false} ReadSmall(t: string, d: Cmd<Range>)
    ensures Small(Read(t, d)) <==> Small(d)
  {
    match d
    case Exec(argv) => ReadWordsLength(t, argv);
    case Redir(e, _, _) => ReadSmall(t, e);
    case Pipe(l, r) => ReadSmall(t, l); ReadSmall(t, r);
    case List(l, r) => ReadSmall(t, l); ReadSmall(t, r);
    case Back(e) => ReadSmall(t, e);
  }

  lemma {:induction false} ReadWordsLength(t: string, rs: seq<Range>)
    ensures |ReadWords(t, rs)| == |rs|
  {
    if rs != [] { ReadWordsLength(t, rs[1..]); }
  }

  // Every command over ordinary words is read back from its text exactly when no simple command in
  // it has ten words or more; otherwise the parser gives up.
  lemma RoundTripIff(c: Cmd<string>)
    requires GoodWords(c)
    ensures var r := ParseCmd(Lex(Text(c), 0)); if Small(c) then r.Ok? && Read(Text(c), r.v) == c else r == Panic
  {
    var t := Text(c);
    var d := LexText(t, 0, c, t);
    assert Lex(t, |t|) == [];
    assert Lex(t, 0) == Tokens(d);
    TokensRoundTripIff(d);
    ReadSmall(t, d);
  }

  // ---- NUL-terminating the words ----

  // A whole word of the line: ordinary characters up to one that is not.
  predicate WordRange(t: string, r: Range) {
    && r.q < r.eq <= |t| && (forall i :: r.q <= i < r.eq ==> IsWordChar(t[i]))
    && (r.eq < |t| ==> !IsWordChar(t[r.eq]))
  }

  predicate GoodTokens(t: string, ks: seq<Token<Range>>) {
    forall i :: 0 <= i < |ks| && ks[i].Word? ==> WordRange(t, ks[i].w)
  }

  predicate GoodRanges(t: string, c: Cmd<Range>) {
    match c
    case Exec(argv) => forall i :: 0 <= i < |argv| ==> WordRange(t, argv[i])
    case Redir(d, f, _) => GoodRanges(t, d) && WordRange(t, f)
    case Pipe(l, r) => GoodRanges(t, l) && GoodRanges(t, r)
    case List(l, r) => GoodRanges(t, l) && GoodRanges(t, r)
    case Back(d) => GoodRanges(t, d)
  }

  predicate GoodRedirs(t: string, rs: seq<(Range, Mode)>) { forall i :: 0 <= i < |rs| ==> WordRange(t, rs[i].0) }

  lemma {:induction false} WordEndChars(t: string, s: nat, i: nat)
    requires s <= i < |t| && i < WordEnd(t, s)
    ensures !IsSpace(t[i]) && !IsSymbol(t[i])
    decreases |t| - s
  {
    if i > s { WordEndChars(t, s + 1, i); }
  }

  lemma {:induction false} LexGood(t: string, s: nat)
    requires NUL !in t && s <= |t|
    ensures GoodTokens(t, Lex(t, s))
    decreases |t| - s
  {
    var q := Skip(t, s);
    if q < |t| {
      LexGood(t, EndAt(t, q));
      if TokenAt(t, q).Word? {
        var e := WordEnd(t, q);
        forall i | q <= i < e ensures IsWordChar(t[i]) { WordEndChars(t, q, i); }
      }
    }
  }

  // The parser makes its commands of the words it is given.
  lemma {:induction false} WrapGood(t: string, c: Cmd<Range>, rs: seq<(Range, Mode)>)
    requires GoodRanges(t, c) && GoodRedirs(t, rs)
    ensures GoodRanges(t, Wrap(c, rs))
    decreases |rs|
  {
    if rs != [] { WrapGood(t, c, rs[..|rs| - 1]); }
  }

  lemma {:induction false} RedirsGood(t: string, ks: seq<Token<Range>>, rs: seq<(Range, Mode)>)
    requires GoodTokens(t, ks) && GoodRedirs(t, rs)
    ensures var r := ParseRedirs(ks, rs); r.Ok? ==> GoodRedirs(t, r.v) && GoodTokens(t, r.rest)
    decreases |ks|
  {
    if Peeks(ks, {'<', '>'}) && |ks| >= 2 && ks[1].Word? {
      RedirsGood(t, ks[2..], rs + [(ks[1].w, ModeOf(ks[0].c))]);
    }
  }

  lemma {:induction false} ArgsGood(t: string, ks: seq<Token<Range>>, argv: seq<Range>, rs: seq<(Range, Mode)>)
    requires GoodTokens(t, ks) && (forall i :: 0 <= i < |argv| ==> WordRange(t, argv[i])) && GoodRedirs(t, rs)
    ensures var r := ParseArgs(ks, argv, rs); r.Ok? ==> GoodRanges(t, r.v) && GoodTokens(t, r.rest)
    decreases |ks|
  {
    if ks == [] || Peeks(ks, ENDS) {
      WrapGood(t, Exec(argv), rs);
    } else if ks[0].Word? && |argv| + 1 < MAXARGS {
      RedirsGood(t, ks[1..], rs);
      var r := ParseRedirs(ks[1..], rs);
      if r.Ok? { ArgsGood(t, r.rest, argv + [ks[0].w], r.v); }
    }
  }

  lemma {:induction false} ExecGood(t: string, ks: seq<Token<Range>>)
    requires GoodTokens(t, ks)
    ensures var r := ParseExec(ks); r.Ok? ==> GoodRanges(t, r.v) && GoodTokens(t, r.rest)
    decreases |ks|, 0
  {
    if Peeks(ks, {'('}) {
      LineGood(t, ks[1..]);
      var r := ParseLine(ks[1..]);
      if r.Ok? && Peeks(r.rest, {')'}) {
        RedirsGood(t, r.rest[1..], []);
        var q := ParseRedirs(r.rest[1..], []);
        if q.Ok? { WrapGood(t, r.v, q.v); }
      }
    } else {
      RedirsGood(t, ks, []);
      var r := ParseRedirs(ks, []);
      if r.Ok? { ArgsGood(t, r.rest, [], r.v); }
    }
  }

  lemma {:induction false} PipeGood(t: string, ks: seq<Token<Range>>)
    requires GoodTokens(t, ks)
    ensures var r := ParsePipe(ks); r.Ok? ==> GoodRanges(t, r.v) && GoodTokens(t, r.rest)
    decreases |ks|, 1
  {
    ExecGood(t, ks);
    var r := ParseExec(ks);
    if r.Ok? && Peeks(r.rest, {'|'}) { PipeGood(t, r.rest[1..]); }
  }

  lemma {:induction false} BacksGood(t: string, ks: seq<Token<Range>>, c: Cmd<Range>)
    requires GoodTokens(t, ks) && GoodRanges(t, c)
    ensures var r := ParseBacks(ks, c); GoodRanges(t, r.0) && GoodTokens(t, r.1)
    decreases |ks|
  {
    if Peeks(ks, {'&'}) { BacksGood(t, ks[1..], Back(c)); }
  }

  lemma {:induction false} LineGood(t: string, ks: seq<Token<Range>>)
    requires GoodTokens(t, ks)
    ensures var r := ParseLine(ks); r.Ok? ==> GoodRanges(t, r.v) && GoodTokens(t, r.rest)
    decreases |ks|, 2
  {
    PipeGood(t, ks);
    var r := ParsePipe(ks);
    if r.Ok? {
      BacksGood(t, r.rest, r.v);
      var b := ParseBacks(r.rest, r.v);
      if Peeks(b.1, {';'}) { LineGood(t, b.1[1..]); }
    }
  }

  // nulterminate: a NUL after every word.
  function CutWords(b: seq<char>, rs: seq<Range>): (r: seq<char>)
    requires forall i :: 0 <= i < |rs| ==> rs[i].eq < |b|
    ensures |r| == |b|
    decreases |rs|
  { if rs == [] then b else CutWords(b[rs[0].eq := NUL], rs[1..]) }

  function Cut(b: seq<char>, t: string, c: Cmd<Range>): (r: seq<char>)
    requires GoodRanges(t, c) && |b| == |t| + 1
    ensures |r| == |b|
    decreases c
  {
    match c
    case Exec(argv) => CutWords(b, argv)
    case Redir(d, f, _) => Cut(b, t, d)[f.eq := NUL]
    case Pipe(l, r) => Cut(Cut(b, t, l), t, r)
    case List(l, r) => Cut(Cut(b, t, l), t, r)
    case Back(d) => Cut(b, t, d)
  }

  predicate HasWord(c: Cmd<Range>, r: Range) {
    match c
    case Exec(argv) => r in argv
    case Redir(d, f, _) => r == f || HasWord(d, r)
    case Pipe(l, q) => HasWord(l, r) || HasWord(q, r)
    case List(l, q) => HasWord(l, r) || HasWord(q, r)
    case Back(d) => HasWord(d, r)
  }

  // Cutting writes NUL and nothing else, and not into a word.
  lemma {:induction false} CutWordsAt(b: seq<char>, t: string, rs: seq<Range>, i: nat)
    requires (forall k :: 0 <= k < |rs| ==> WordRange(t, rs[k]) && rs[k].eq < |b|) && |b| == |t| + 1 && i < |b|
    ensures var r := CutWords(b, rs)[i]; (r == NUL || r == b[i]) && (i < |t| && IsWordChar(t[i]) ==> r == b[i])
    ensures b[i] == NUL || (exists k :: 0 <= k < |rs| && rs[k].eq == i) ==> CutWords(b, rs)[i] == NUL
    decreases |rs|
  {
    if rs != [] {
      var b' := b[rs[0].eq := NUL];
      CutWordsAt(b', t, rs[1..], i);
      if k :| 0 <= k < |rs| && rs[k].eq == i {
        if k > 0 { assert rs[1..][k - 1] == rs[k]; } else { assert b'[i] == NUL; }
      }
    }
  }

  lemma {:induction false} CutAt(b: seq<char>, t: string, c: Cmd<Range>, i: nat)
    requires GoodRanges(t, c) && |b| == |t| + 1 && i < |b|
    ensures var r := Cut(b, t, c)[i];
            (r == NUL || r == b[i]) && (i < |t| && IsWordChar(t[i]) ==> r == b[i]) && (b[i] == NUL ==> r == NUL)
    decreases c
  {
    match c
    case Exec(argv) => CutWordsAt(b, t, argv, i);
    case Redir(d, f, _) => CutAt(b, t, d, i);
    case Pipe(l, r) => CutAt(b, t, l, i); CutAt(Cut(b, t, l), t, r, i);
    case List(l, r) => CutAt(b, t, l, i); CutAt(Cut(b, t, l), t, r, i);
    case Back(d) => CutAt(b, t, d, i);
  }

  lemma {:induction false} CutEnds(b: seq<char>, t: string, c: Cmd<Range>, r: Range)
    requires GoodRanges(t, c) && |b| == |t| + 1 && HasWord(c, r)
    ensures WordRange(t, r) && Cut(b, t, c)[r.eq] == NUL
    decreases Size(c), 1
  {
    match c
    case Exec(argv) => CutWordsAt(b, t, argv, r.eq);
    case Redir(d, f, _) => if r != f { CutEnds(b, t, d, r); }
    case Pipe(l, q) => CutBoth(b, t, l, q, r);
    case List(l, q) => CutBoth(b, t, l, q, r);
    case Back(d) => CutEnds(b, t, d, r);
  }

  lemma CutBoth(b: seq<char>, t: string, l: Cmd<Range>, q: Cmd<Range>, r: Range)
    requires GoodRanges(t, l) && GoodRanges(t, q) && |b| == |t| + 1 && (HasWord(l, r) || HasWord(q, r))
    ensures WordRange(t, r) && Cut(Cut(b, t, l), t, q)[r.eq] == NUL
    decreases Size(l) + Size(q) + 1, 0
  {
    if HasWord(q, r) {
      CutEnds(Cut(b, t, l), t, q, r);
    } else {
      CutEnds(b, t, l, r);
      CutAt(Cut(b, t, l), t, q, r.eq);
    }
  }

  // The C string at q.
  function StringAt(b: seq<char>, q: nat): string
    requires q < |b| && b[|b| - 1] == NUL
    decreases |b| - q
  { if b[q] == NUL || q + 1 == |b| then [] else [b[q]] + StringAt(b, q + 1) }

  lemma {:induction false} StringAtWord(b: seq<char>, t: string, q: nat, eq: nat)
    requires |b| == |t| + 1 && b[|b| - 1] == NUL && q <= eq <= |t| && b[eq] == NUL
    requires forall i :: q <= i < eq ==> b[i] == t[i] != NUL
    ensures StringAt(b, q) == t[q..eq]
    decreases eq - q
  {
    if q < eq {
      StringAtWord(b, t, q + 1, eq);
      assert t[q..eq] == [t[q]] + t[q + 1..eq];
    }
  }

  // For every line that parses, each word of the command is, after nulterminate, a C string of its
  // own: exactly the characters of the line it was recognised in.
  lemma WordsReadBack(t: string, r: Range)
    requires NUL !in t && ParseCmd(Lex(t, 0)).Ok? && HasWord(ParseCmd(Lex(t, 0)).v, r)
    ensures var c := ParseCmd(Lex(t, 0)).v;
            && GoodRanges(t, c) && r.q < r.eq <= |t|
            && var b := Cut(t + [NUL], t, c); b[|b| - 1] == NUL && StringAt(b, r.q) == t[r.q..r.eq]
  {
    var c, b0 := ParseCmd(Lex(t, 0)).v, t + [NUL];
    LexGood(t, 0);
    LineGood(t, Lex(t, 0));
    var b := Cut(b0, t, c);
    CutEnds(b0, t, c, r);
    CutAt(b0, t, c, |t|);
    forall i | r.q <= i < r.eq ensures b[i] == t[i] != NUL { CutAt(b0, t, c, i); }
    StringAtWord(b, t, r.q, r.eq);
  }
}

/** The parser as sh.c has it: positions moving along the line, and a buffer cut up in place. */
module Shell {
  import opened ShellSpec
  import opened ShellLex

  // The token gettoken() has found.
  function Found(ret: char, q: nat, eq: nat): Token<Range> { if ret == 'a' then Word(Range(q, eq)) else Symbol(ret) }

  method SkipSpace(t: string, ps: nat) returns (s: nat)
    requires ps <= |t|
    ensures s == Skip(t, ps)
  {
    s := ps;
    while s < |t| && IsSpace(t[s])
      invariant ps <= s <= |t| && Skip(t, s) == Skip(t, ps)
    {
      s := s + 1;
    }
  }

  // The next token: its kind, where it is, and where to go on. The kind is NUL at the end.
  method GetToken(t: string, ps: nat) returns (ret: char, q: nat, eq: nat, s: nat)
    requires ps <= |t| && NUL !in t
    ensures ps <= q <= eq <= s <= |t| && (ret == NUL <==> Lex(t, ps) == []) && (ret == NUL ==> Lex(t, s) == [])
    ensures ret != NUL ==> ps < s && Lex(t, ps) == [Found(ret, q, eq)] + Lex(t, s)
  {
    q := SkipSpace(t, ps);
    s := q;
    if q == |t| {
      ret := NUL;
    } else if t[s] == '>' {
      ret := '>';
      s := s + 1;
      if s < |t| && t[s] == '>' {
        ret := '+';
        s := s + 1;
      }
    } else if IsSymbol(t[s]) {
      ret := t[s];
      s := s + 1;
    } else {
      ret := 'a';
      while s < |t| && !IsSpace(t[s]) && !IsSymbol(t[s])
        invariant q <= s <= |t| && WordEnd(t, s) == WordEnd(t, q)
      {
        s := s + 1;
      }
    }
    eq := s;
    SkipTwice(t, eq);
    s := SkipSpace(t, eq);
  }

  // Whether the next token begins with one of toks; s is where it is.
  method Peek(t: string, ps: nat, toks: set<char>) returns (r: bool, s: nat)
    requires ps <= |t| && forall c :: c in toks ==> IsSymbol(c)
    ensures ps <= s <= |t| && Lex(t, s) == Lex(t, ps) && (r <==> Peeks(Lex(t, ps), toks))
  {
    s := SkipSpace(t, ps);
    SkipTwice(t, ps);
    r := s < |t| && t[s] in toks;
  }

  // What a parse method has made of the line from ps on.
  predicate Agrees<V(==)>(t: string, ps: nat, r: Parsed<V, Range>, ok: bool, v: V, s: nat) {
    ok == r.Ok? && (ok ==> v == r.v && ps <= s <= |t| && Lex(t, s) == r.rest)
  }

  method ParseRedirs(t: string, ps: nat, rs0: seq<(Range, Mode)>) returns (ok: bool, rs: seq<(Range, Mode)>, s: nat)
    requires ps <= |t| && NUL !in t
    ensures Agrees(t, ps, ShellSpec.ParseRedirs(Lex(t, ps), rs0), ok, rs, s)
  {
    ok, rs, s := true, rs0, ps;
    ghost var all := ShellSpec.ParseRedirs(Lex(t, ps), rs0);
    while true
      invariant ok && ps <= s <= |t| && ShellSpec.ParseRedirs(Lex(t, s), rs) == all
      decreases |t| - s
    {
      var more, tok, q, eq, ret;
      more, s := Peek(t, s, {'<', '>'});
      if !more { return; }
      ghost var ks := Lex(t, s);
      tok, q, eq, s := GetToken(t, s);
      assert ks[1..] == Lex(t, s);
      ret, q, eq, s := GetToken(t, s);
      if ret != 'a' { return false, rs, s; }
      assert ks[2..] == Lex(t, s) && ks[1] == Word(Range(q, eq));
      rs := rs + [(Range(q, eq), ModeOf(tok))];
    }
  }

  method ParseArgs(t: string, ps: nat, rs0: seq<(Range, Mode)>) returns (ok: bool, c: Cmd<Range>, s: nat)
    requires ps <= |t| && NUL !in t
    ensures Agrees(t, ps, ShellSpec.ParseArgs(Lex(t, ps), [], rs0), ok, c, s)
  {
    var argv, rs := [], rs0;
    ok, c, s := true, Exec([]), ps;
    ghost var all := ShellSpec.ParseArgs(Lex(t, ps), [], rs0);
    while true
      invariant ok && ps <= s <= |t| && ShellSpec.ParseArgs(Lex(t, s), argv, rs) == all
      decreases |t| - s
    {
      var end, tok, q, eq;
      end, s := Peek(t, s, ENDS);
      if end { break; }
      ghost var ks := Lex(t, s);
      tok, q, eq, s := GetToken(t, s);
      if tok == NUL { break; }
      assert ks[1..] == Lex(t, s) && ks[0] == Found(tok, q, eq);
      if tok != 'a' { return false, c, s; }
      if |argv| + 1 >= MAXARGS { return false, c, s; }
      argv := argv + [Range(q, eq)];
      ok, rs, s := ParseRedirs(t, s, rs);
      if !ok { return; }
    }
    c := Wrap(Exec(argv), rs);
  }

  method ParseExec(t: string, ps: nat) returns (ok: bool, c: Cmd<Range>, s: nat)
    requires ps <= |t| && NUL !in t
    ensures Agrees(t, ps, ShellSpec.ParseExec(Lex(t, ps)), ok, c, s)
    decreases |t| - ps, 1
  {
    var block, rs;
    c := Exec([]);
    block, s := Peek(t, ps, {'('});
    if block {
      ok, c, s := ParseBlock(t, s);
      return;
    }
    ok, rs, s := ParseRedirs(t, s, []);
    if ok { ok, c, s := ParseArgs(t, s, rs); }
  }

  method ParseBlock(t: string, ps: nat) returns (ok: bool, c: Cmd<Range>, s: nat)
    requires ps <= |t| && NUL !in t
    ensures Agrees(t, ps, ShellSpec.ParseBlock(Lex(t, ps)), ok, c, s)
    decreases |t| - ps, 0
  {
    var r, tok, q, eq, rs;
    c := Exec([]);
    r, s := Peek(t, ps, {'('});
    if !r { return false, c, s; }
    ghost var ks := Lex(t, s);
    tok, q, eq, s := GetToken(t, s);
    assert ks[1..] == Lex(t, s);
    ok, c, s := ParseLine(t, s);
    if !ok { return; }
    r, s := Peek(t, s, {')'});
    if !r { return false, c, s; }
    ghost var ks1 := Lex(t, s);
    tok, q, eq, s := GetToken(t, s);
    assert ks1[1..] == Lex(t, s);
    ok, rs, s := ParseRedirs(t, s, []);
    if ok { c := Wrap(c, rs); }
  }

  method ParsePipe(t: string, ps: nat) returns (ok: bool, c: Cmd<Range>, s: nat)
    requires ps <= |t| && NUL !in t
    ensures Agrees(t, ps, ShellSpec.ParsePipe(Lex(t, ps)), ok, c, s)
    decreases |t| - ps, 2
  {
    var r, tok, q, eq, d;
    ok, c, s := ParseExec(t, ps);
    if !ok { return; }
    r, s := Peek(t, s, {'|'});
    if r {
      ghost var ks := Lex(t, s);
      tok, q, eq, s := GetToken(t, s);
      assert ks[1..] == Lex(t, s);
      ok, d, s := ParsePipe(t, s);
      if ok { c := Pipe(c, d); }
    }
  }

  method ParseBacks(t: string, ps: nat, c0: Cmd<Range>) returns (c: Cmd<Range>, s: nat)
    requires ps <= |t| && NUL !in t
    ensures ps <= s <= |t| && (c, Lex(t, s)) == ShellSpec.ParseBacks(Lex(t, ps), c0)
  {
    c, s := c0, ps;
    ghost var all := ShellSpec.ParseBacks(Lex(t, ps), c0);
    while true
      invariant ps <= s <= |t| && ShellSpec.ParseBacks(Lex(t, s), c) == all
      decreases |t| - s
    {
      var r, tok, q, eq;
      r, s := Peek(t, s, {'&'});
      if !r { return; }
      ghost var ks := Lex(t, s);
      tok, q, eq, s := GetToken(t, s);
      assert ks[1..] == Lex(t, s);
      c := Back(c);
    }
  }

  method ParseLine(t: string, ps: nat) returns (ok: bool, c: Cmd<Range>, s: nat)
    requires ps <= |t| && NUL !in t
    ensures Agrees(t, ps, ShellSpec.ParseLine(Lex(t, ps)), ok, c, s)
    decreases |t| - ps, 3
  {
    var r, tok, q, eq, d;
    ok, c, s := ParsePipe(t, ps);
    if !ok { return; }
    c, s := ParseBacks(t, s, c);
    r, s := Peek(t, s, {';'});
    if r {
      ghost var ks := Lex(t, s);
      tok, q, eq, s := GetToken(t, s);
      assert ks[1..] == Lex(t, s);
      ok, d, s := ParseLine(t, s);
      if ok { c := List(c, d); }
    }
  }

  // parsecmd, up to the cutting: the command a whole line stands for, or a panic.
  method ParseCmd(t: string) returns (ok: bool, c: Cmd<Range>)
    requires NUL !in t
    ensures ok == ShellSpec.ParseCmd(Lex(t, 0)).Ok? && (ok ==> c == ShellSpec.ParseCmd(Lex(t, 0)).v)
  {
    var s;
    ok, c, s := ParseLine(t, 0);
    if ok {
      SkipTwice(t, s);
      s := SkipSpace(t, s);
      ok := s == |t|;
    }
  }

  // nulterminate, in the buffer the line is in.
  method NulTerminate(b: array<char>, ghost t: string, c: Cmd<Range>)
    requires GoodRanges(t, c) && b.Length == |t| + 1
    modifies b
    ensures b[..] == Cut(old(b[..]), t, c)
    decreases c
  {
    match c
    case Exec(argv) =>
      var i := 0;
      while i < |argv|
        invariant i <= |argv| && CutWords(b[..], argv[i..]) == CutWords(old(b[..]), argv)
        modifies b
      {
        ghost var rest, v := argv[i..], b[..];
        b[argv[i].eq] := NUL;
        assert b[..] == v[rest[0].eq := NUL] && rest[1..] == argv[i + 1..];
        i := i + 1;
      }
    case Redir(d, f, _) =>
      NulTerminate(b, t, d);
      b[f.eq] := NUL;
    case Pipe(l, r) =>
      NulTerminate(b, t, l);
      NulTerminate(b, t, r);
    case List(l, r) =>
      NulTerminate(b, t, l);
      NulTerminate(b, t, r);
    case Back(d) =>
      NulTerminate(b, t, d);
  }
}
