/** The documented grammar of connection rules, its meaning, and what the parser makes of it. */
module CruleGrammar {
  import opened Common
  import opened Masks
  import opened Crule

  // ---------------------------------------------------------------- grammar

  /** Derivations, one constructor per production; both operators recurse on the right.  A call
      has the function name as written and, for each argument, its words. */
  datatype OrExpr = OrOne(a: AndExpr) | OrMore(a: AndExpr, o: OrExpr)
  datatype AndExpr = AndOne(p: Primary) | AndMore(p: Primary, a: AndExpr)
  datatype Primary = Function(name: string, args: seq<seq<string>>) | Negation(p: Primary) | Group(o: OrExpr)

  predicate IsWord(w: string) {
    1 <= |w| <= MAX_WORD && WordStart(w[0]) && forall i :: 0 <= i < |w| ==> WordChar(w[i])
  }

  /** The words of an argument with one space between them. */
  function Spaced(ws: seq<string>): string {
    if ws == [] then "" else if |ws| == 1 then ws[0] else Spaced(ws[..|ws| - 1]) + " " + ws[|ws| - 1]
  }

  predicate GoodArg(ws: seq<string>) {
    ws != [] && (forall i :: 0 <= i < |ws| ==> IsWord(ws[i])) && |Spaced(ws)| <= MAX_WORD
  }

  predicate GoodOr(o: OrExpr) {
    match o case OrOne(a) => GoodAnd(a) case OrMore(a, rest) => GoodAnd(a) && GoodOr(rest)
  }

  predicate GoodAnd(a: AndExpr) {
    match a case AndOne(p) => GoodPrimary(p) case AndMore(p, rest) => GoodPrimary(p) && GoodAnd(rest)
  }

  /** Known functions, the right number of arguments, words of legal length. */
  predicate GoodPrimary(p: Primary) {
    match p
    case Function(name, args) =>
      && IsWord(name) && Lookup(name).Some? && |args| == Arity(Lookup(name).value)
      && forall i :: 0 <= i < |args| ==> GoodArg(args[i])
    case Negation(q) => GoodPrimary(q)
    case Group(o) => GoodOr(o)
  }

  // ---------------------------------------------------------------- text of a derivation

  function Skip(s: string, i: nat): (j: nat)
    requires i <= |s|
    ensures i <= j <= |s| && (j < |s| ==> !Blank(s[j])) && forall k :: i <= k < j ==> Blank(s[k])
    decreases |s| - i
  {
    if i < |s| && Blank(s[i]) then Skip(s, i + 1) else i
  }

  /** After any blanks, `s` goes on with `t` at `i`; the place behind it. */
  function ReadText(s: string, i: nat, t: string): (r: Option<nat>)
    requires i <= |s|
    ensures r.Some? ==> i <= r.value <= |s|
  {
    var b := Skip(s, i);
    if b + |t| <= |s| && s[b..b + |t|] == t then Some(b + |t|) else None
  }

  /** The same for a whole word: the word does not go on. */
  function ReadWord(s: string, i: nat, w: string): (r: Option<nat>)
    requires i <= |s|
    ensures r.Some? ==> i <= r.value <= |s|
  {
    var j :- ReadText(s, i, w);
    if j < |s| && WordChar(s[j]) then None else Some(j)
  }

  function ReadWords(s: string, i: nat, ws: seq<string>): (r: Option<nat>)
    requires i <= |s|
    ensures r.Some? ==> i <= r.value <= |s|
    decreases |ws|
  {
    if ws == [] then Some(i)
    else
      var j :- ReadWord(s, i, ws[0]);
      ReadWords(s, j, ws[1..])
  }

  /** Arguments separated by commas. */
  function ReadArgs(s: string, i: nat, args: seq<seq<string>>): (r: Option<nat>)
    requires i <= |s|
    ensures r.Some? ==> i <= r.value <= |s|
    decreases |args|
  {
    if args == [] then Some(i)
    else
      var j :- ReadWords(s, i, args[0]);
      if |args| == 1 then Some(j)
      else
        var k :- ReadText(s, j, ",");
        ReadArgs(s, k, args[1..])
  }

  /** `s` from `i` on, with blanks allowed before every token, is the text of the derivation; the
      place behind it. */
  function ReadOr(s: string, i: nat, o: OrExpr): (r: Option<nat>)
    requires i <= |s|
    ensures r.Some? ==> i <= r.value <= |s|
    decreases o
  {
    match o
    case OrOne(a) => ReadAnd(s, i, a)
    case OrMore(a, rest) =>
      var j :- ReadAnd(s, i, a);
      var k :- ReadText(s, j, "||");
      ReadOr(s, k, rest)
  }

  function ReadAnd(s: string, i: nat, a: AndExpr): (r: Option<nat>)
    requires i <= |s|
    ensures r.Some? ==> i <= r.value <= |s|
    decreases a
  {
    match a
    case AndOne(p) => ReadPrimary(s, i, p)
    case AndMore(p, rest) =>
      var j :- ReadPrimary(s, i, p);
      var k :- ReadText(s, j, "&&");
      ReadAnd(s, k, rest)
  }

  function ReadPrimary(s: string, i: nat, p: Primary): (r: Option<nat>)
    requires i <= |s|
    ensures r.Some? ==> i <= r.value <= |s|
    decreases p
  {
    match p
    case Function(name, args) =>
      var j :- ReadWord(s, i, name);
      var k :- ReadText(s, j, "(");
      var l :- ReadArgs(s, k, args);
      ReadText(s, l, ")")
    case Negation(q) =>
      var j :- ReadText(s, i, "!");
      ReadPrimary(s, j, q)
    case Group(o) =>
      var j :- ReadText(s, i, "(");
      var k :- ReadOr(s, j, o);
      ReadText(s, k, ")")
  }

  /** The whole input is the text of the derivation: the end or a colon follows. */
  predicate IsRule(s: string, o: OrExpr) {
    ReadOr(s, 0, o).Some? &&
    var e := Skip(s, ReadOr(s, 0, o).value);
    At(s, e) == '\0' || At(s, e) == ':'
  }

  // ---------------------------------------------------------------- meaning

  function ArgValue(ws: seq<string>): string { Collapse(Spaced(ws)) }

  function ArgValues(args: seq<seq<string>>): (r: seq<string>)
    ensures |r| == |args| && forall i :: 0 <= i < |args| ==> r[i] == ArgValue(args[i])
  {
    if args == [] then [] else [ArgValue(args[0])] + ArgValues(args[1..])
  }

  predicate DenoteOr(o: OrExpr, v: Valuation)
    requires GoodOr(o)
  {
    match o case OrOne(a) => DenoteAnd(a, v) case OrMore(a, rest) => DenoteAnd(a, v) || DenoteOr(rest, v)
  }

  predicate DenoteAnd(a: AndExpr, v: Valuation)
    requires GoodAnd(a)
  {
    match a case AndOne(p) => DenotePrimary(p, v) case AndMore(p, rest) => DenotePrimary(p, v) && DenoteAnd(rest, v)
  }

  predicate DenotePrimary(p: Primary, v: Valuation)
    requires GoodPrimary(p)
  {
    match p
    case Function(name, args) => v(Lookup(name).value, ArgValues(args))
    case Negation(q) => !DenotePrimary(q, v)
    case Group(o) => DenoteOr(o, v)
  }

  // ---------------------------------------------------------------- the tree that is built

  /** Chains nest to the left; `left` is the part of the chain already built. */
  function TreeOfOr(o: OrExpr, left: Option<Tree>): Tree
    requires GoodOr(o)
  {
    match o
    case OrOne(a) => Join(left, TreeOfAnd(a, None), true)
    case OrMore(a, rest) => TreeOfOr(rest, Some(Join(left, TreeOfAnd(a, None), true)))
  }

  function TreeOfAnd(a: AndExpr, left: Option<Tree>): Tree
    requires GoodAnd(a)
  {
    match a
    case AndOne(p) => Join(left, TreeOfPrimary(p), false)
    case AndMore(p, rest) => TreeOfAnd(rest, Some(Join(left, TreeOfPrimary(p), false)))
  }

  function TreeOfPrimary(p: Primary): Tree
    requires GoodPrimary(p)
  {
    match p
    case Function(name, args) => Call(Lookup(name).value, ArgValues(args))
    case Negation(q) => NotNode(TreeOfPrimary(q))
    case Group(o) => TreeOfOr(o, None)
  }

  // Evaluating the left-nested tree gives the meaning of the right-recursive derivation.

  lemma {:induction false} OrTreeMeans(o: OrExpr, left: Option<Tree>, v: Valuation)
    requires GoodOr(o) && (left.Some? ==> NoNull(left.value))
    ensures NoNull(TreeOfOr(o, left))
    ensures Eval(TreeOfOr(o, left), v) == ((left.Some? && Eval(left.value, v)) || DenoteOr(o, v))
  {
    AndTreeMeans(o.a, None, v);
    if o.OrMore? { OrTreeMeans(o.o, Some(Join(left, TreeOfAnd(o.a, None), true)), v); }
  }

  lemma {:induction false} AndTreeMeans(a: AndExpr, left: Option<Tree>, v: Valuation)
    requires GoodAnd(a) && (left.Some? ==> NoNull(left.value))
    ensures NoNull(TreeOfAnd(a, left))
    ensures Eval(TreeOfAnd(a, left), v) == ((left.None? || Eval(left.value, v)) && DenoteAnd(a, v))
  {
    PrimaryTreeMeans(a.p, v);
    if a.AndMore? { AndTreeMeans(a.a, Some(Join(left, TreeOfPrimary(a.p), false)), v); }
  }

  lemma {:induction false} PrimaryTreeMeans(p: Primary, v: Valuation)
    requires GoodPrimary(p)
    ensures NoNull(TreeOfPrimary(p)) && Eval(TreeOfPrimary(p), v) == DenotePrimary(p, v)
  {
    match p
    case Function(_, _) =>
    case Negation(q) => PrimaryTreeMeans(q, v);
    case Group(o) => OrTreeMeans(o, None, v);
  }

  // ---------------------------------------------------------------- scanning the text of a derivation

  function TextOf(tok: Token): string {
    match tok
    case And => "&&" case Or => "||" case Not => "!" case Open => "(" case Close => ")" case Comma => ","
    case _ => ""
  }

  /** No NUL and no colon in between: the end of the input lies further on. */
  lemma StopBeyond(s: string, i: nat, j: nat)
    requires i <= Stop(s) && i <= j <= |s| && forall k :: i <= k < j ==> s[k] != '\0' && s[k] != ':'
    ensures j <= Stop(s)
  {
    hide StopFrom;
    var e := Stop(s);
    assert e < |s| ==> At(s, e) == s[e];
  }

  lemma {:induction false} ScanSkips(s: string, i: nat)
    requires i <= Stop(s)
    ensures Skip(s, i) <= Stop(s) && GetToken(s, i, '\0') == GetToken(s, Skip(s, i), '\0')
    decreases |s| - i
  {
    hide Stop;
    if i < |s| && Blank(s[i]) {
      StopBeyond(s, i, i + 1);
      ScanSkips(s, i + 1);
    }
  }

  /** Text that has been read holds its characters, and ends before the end of the input. */
  lemma ReadTextIs(s: string, i: nat, t: string)
    requires i <= Stop(s) && ReadText(s, i, t).Some? && forall k :: 0 <= k < |t| ==> t[k] != '\0' && t[k] != ':'
    ensures var b := Skip(s, i); b + |t| == ReadText(s, i, t).value <= Stop(s)
    ensures var b := Skip(s, i); forall k :: 0 <= k < |t| ==> s[b + k] == t[k]
  {
    hide Stop, GetToken;
    var b := Skip(s, i);
    ScanSkips(s, i);
    forall k | 0 <= k < |t| ensures s[b + k] == t[k] { assert s[b + k] == s[b..b + |t|][k]; }
    assert forall k :: b <= k < b + |t| ==> s[k] == t[k - b];
    StopBeyond(s, b, b + |t|);
  }

  lemma ScanOne(s: string, b: nat, tok: Token)
    requires b < Stop(s) && |TextOf(tok)| == 1 && s[b] == TextOf(tok)[0]
    ensures GetToken(s, b, '\0') == Got(tok, b + 1)
  {
    hide Stop;
  }

  lemma ScanTwo(s: string, b: nat, tok: Token)
    requires b + 1 < Stop(s) && |TextOf(tok)| == 2 && s[b] == s[b + 1] == TextOf(tok)[0]
    ensures GetToken(s, b, '\0') == Got(tok, b + 2)
  {
    hide Stop;
    assert GetToken(s, b, '\0') == GetToken(s, b + 1, s[b]);
  }

  /** A token of the text is what the scanner finds. */
  lemma ScanText(s: string, i: nat, tok: Token)
    requires i <= Stop(s) && TextOf(tok) != "" && ReadText(s, i, TextOf(tok)).Some?
    ensures ReadText(s, i, TextOf(tok)).value <= Stop(s)
    ensures GetToken(s, i, '\0') == Got(tok, ReadText(s, i, TextOf(tok)).value)
  {
    hide Stop, GetToken, ReadText;
    var b, t := Skip(s, i), TextOf(tok);
    ScanSkips(s, i);
    ReadTextIs(s, i, t);
    if |t| == 1 {
      assert s[b + 0] == t[0];
      ScanOne(s, b, tok);
    } else {
      assert s[b + 0] == t[0] && s[b + 1] == t[1];
      ScanTwo(s, b, tok);
    }
  }

  lemma WordHasNoEnd(w: string)
    requires forall k :: 0 <= k < |w| ==> WordChar(w[k])
    ensures forall k :: 0 <= k < |w| ==> w[k] != '\0' && w[k] != ':'
  {
  }

  lemma ScanWordStart(s: string, b: nat)
    requires b < Stop(s) && WordStart(s[b])
    ensures GetToken(s, b, '\0') == Got(Word, b)
  {
    hide Stop;
  }

  /** A word that has been read: where it lies, and that it is maximal. */
  lemma ReadWordIs(s: string, i: nat, w: string)
    requires i <= Stop(s) && IsWord(w) && ReadWord(s, i, w).Some?
    ensures var b, j := Skip(s, i), ReadWord(s, i, w).value;
      b + |w| == j <= Stop(s) && s[b..j] == w && (j < |s| ==> !WordChar(s[j]))
  {
    hide Stop, Skip, WordChar, WordStart, ReadText;
    WordHasNoEnd(w);
    ReadTextIs(s, i, w);
    var b := Skip(s, i);
    forall k | 0 <= k < |w| ensures s[b..b + |w|][k] == w[k] { assert s[b + k] == w[k]; }
  }

  lemma ScanWord(s: string, i: nat, w: string)
    requires i <= Stop(s) && IsWord(w) && ReadWord(s, i, w).Some?
    ensures var b, j := Skip(s, i), ReadWord(s, i, w).value;
      && j <= Stop(s) && j == b + |w| && GetToken(s, i, '\0') == Got(Word, b) && WordAt(s, b) == w
  {
    hide Stop, GetToken, ReadWord, WordEnd, WordChar, WordStart, Skip;
    var b := Skip(s, i);
    var j := b + |w|;
    ScanSkips(s, i);
    ReadWordIs(s, i, w);
    assert s[b] == s[b..j][0] && forall k :: b <= k < j ==> s[k] == s[b..j][k - b];
    ScanWordStart(s, b);
    WordEndIs(s, b, j, MAX_WORD);
  }

  lemma {:induction false} WordEndIs(s: string, p: nat, j: nat, max: nat)
    requires p <= j <= |s| && j <= p + max && (forall k :: p <= k < j ==> WordChar(s[k])) && (j < |s| ==> !WordChar(s[j]))
    ensures WordEnd(s, p, max) == j
    decreases max
  {
    if p < j { WordEndIs(s, p + 1, j, max - 1); }
  }

  // ---------------------------------------------------------------- arguments

  lemma {:induction false} CollapseNotEmpty(a: string, star: bool)
    requires a != "" || star
    ensures CollapseText(a, star) != ""
  {
    if a != "" && a[0] == '*' { CollapseNotEmpty(a[1..], true); }
  }

  lemma SpacedLast(ws: seq<string>, k: nat)
    requires GoodArg(ws) && k < |ws|
    ensures Spaced(ws[..k + 1]) == Gather(Spaced(ws[..k]), ws[k])
    ensures Spaced(ws[..k]) == "" <==> k == 0
  {
    SpacedGrows(ws, k + 1);
    SpacedGrows(ws, k);
    assert ws[..k + 1][..k] == ws[..k];
  }

  lemma {:induction false} SpacedGrows(ws: seq<string>, k: nat)
    requires ws != [] && k <= |ws| && forall i :: 0 <= i < |ws| ==> ws[i] != ""
    ensures |Spaced(ws[..k])| <= |Spaced(ws)| && (Spaced(ws[..k]) == "" <==> k == 0)
    decreases |ws|
  {
    if k == |ws| {
      assert ws[..k] == ws;
    } else if |ws| > 1 {
      SpacedGrows(ws[..|ws| - 1], k);
      assert ws[..|ws| - 1][..k] == ws[..k];
    }
  }

  lemma {:induction false} ReadWordsStop(s: string, i: nat, ws: seq<string>)
    requires i <= Stop(s) && (forall k :: 0 <= k < |ws| ==> IsWord(ws[k])) && ReadWords(s, i, ws).Some?
    ensures ReadWords(s, i, ws).value <= Stop(s)
    decreases |ws|
  {
    hide Stop, GetToken, ReadWord;
    if ws != [] {
      ScanWord(s, i, ws[0]);
      ReadWordsStop(s, ReadWord(s, i, ws[0]).value, ws[1..]);
    }
  }

  lemma ParseArgsWord(s: string, pos: nat, args: seq<string>, cur: string, next: Scanned)
    requires Legal(s, Word, pos) && next == GetToken(s, pos + |WordAt(s, pos)|, '\0') && next.Got?
    ensures ParseArgs(s, Word, pos, args, cur) == ParseArgs(s, next.tok, next.pos, args, Gather(cur, WordAt(s, pos)))
  {
    hide Stop, GetToken, WordAt, Gather;
  }

  /** The words of one argument, from word `k` on: `at` is the token they start with, `end` the one behind them. */
  lemma {:induction false} ArgWords(s: string, i: nat, ws: seq<string>, k: nat, args: seq<string>, at: Scanned, end: Scanned)
    requires i <= Stop(s) && GoodArg(ws) && k <= |ws| && ReadWords(s, i, ws[k..]).Some?
    requires at == GetToken(s, i, '\0') && end.Got?
    requires var j := ReadWords(s, i, ws[k..]).value; j <= Stop(s) && end == GetToken(s, j, '\0')
    ensures at.Got? && ParseArgs(s, at.tok, at.pos, args, Spaced(ws[..k])) == ParseArgs(s, end.tok, end.pos, args, Spaced(ws))
    decreases |ws| - k
  {
    hide Stop, GetToken, ParseArgs, ReadWord, WordAt, Spaced, Gather;
    if k == |ws| {
      assert ws[..k] == ws && ws[k..] == [];
    } else {
      var w := ws[k];
      assert ws[k..][0] == w && ws[k..][1..] == ws[k + 1..];
      var j := ReadWord(s, i, w).value;
      ScanWord(s, i, w);
      SpacedLast(ws, k);
      var next := GetToken(s, j, '\0');
      ArgWords(s, j, ws, k + 1, args, next, end);
      ParseArgsWord(s, at.pos, args, Spaced(ws[..k]), next);
    }
  }

  lemma ArgNotEmpty(ws: seq<string>)
    requires GoodArg(ws)
    ensures ArgValue(ws) != ""
  {
    SpacedGrows(ws, |ws|);
    assert ws[..|ws|] == ws;
    CollapseNotEmpty(Spaced(ws), false);
  }

  lemma ParseArgsEnd(s: string, pos: nat, args: seq<string>, ws: seq<string>)
    requires Legal(s, Close, pos) && GoodArg(ws)
    ensures ParseArgs(s, Close, pos, args, Spaced(ws)) == Args(args + [ArgValue(ws)], Close, pos)
  {
    hide Stop, Spaced;
    ArgNotEmpty(ws);
  }

  lemma ParseArgsComma(s: string, pos: nat, args: seq<string>, ws: seq<string>, next: Scanned)
    requires Legal(s, Comma, pos) && GoodArg(ws) && next == GetToken(s, pos, '\0') && next.Got?
    ensures ParseArgs(s, Comma, pos, args, Spaced(ws)) == ParseArgs(s, next.tok, next.pos, args + [ArgValue(ws)], "")
  {
    hide Stop, Spaced, GetToken;
    ArgNotEmpty(ws);
  }

  predicate GoodArgs(args: seq<seq<string>>) { forall k :: 0 <= k < |args| ==> GoodArg(args[k]) }

  lemma {:induction false} ArgList(s: string, i: nat, rest: seq<seq<string>>, done: seq<string>, at: Scanned)
    requires i <= Stop(s) && rest != [] && GoodArgs(rest) && ReadArgs(s, i, rest).Some? && at == GetToken(s, i, '\0')
    requires ReadText(s, ReadArgs(s, i, rest).value, ")").Some?
    ensures at.Got? && ReadText(s, ReadArgs(s, i, rest).value, ")").value <= Stop(s)
    ensures ParseArgs(s, at.tok, at.pos, done, "") ==
      Args(done + ArgValues(rest), Close, ReadText(s, ReadArgs(s, i, rest).value, ")").value)
    decreases |rest|
  {
    hide Stop, GetToken, ParseArgs, ReadText, ReadWords, Spaced, GoodArg, ArgValue;
    var ws := rest[0];
    var j := ReadWords(s, i, ws).value;
    assert ws[0..] == ws;
    FirstWords(s, i, ws);
    if |rest| == 1 {
      ScanText(s, j, Close);
      var end := GetToken(s, j, '\0');
      ArgWords(s, i, ws, 0, done, at, end);
      ParseArgsEnd(s, end.pos, done, ws);
      assert rest == [ws] && ArgValues(rest) == [ArgValue(ws)];
    } else {
      ScanText(s, j, Comma);
      var end := GetToken(s, j, '\0');
      ArgWords(s, i, ws, 0, done, at, end);
      assert GoodArgs(rest[1..]);
      var next := GetToken(s, end.pos, '\0');
      ArgList(s, end.pos, rest[1..], done + [ArgValue(ws)], next);
      ParseArgsComma(s, end.pos, done, ws, next);
      assert done + [ArgValue(ws)] + ArgValues(rest[1..]) == done + ArgValues(rest);
    }
  }

  lemma FirstWords(s: string, i: nat, ws: seq<string>)
    requires i <= Stop(s) && GoodArg(ws) && ReadWords(s, i, ws).Some?
    ensures ReadWords(s, i, ws).value <= Stop(s) && Spaced(ws[..0]) == ""
  {
    hide Stop;
    ReadWordsStop(s, i, ws);
  }

  // ---------------------------------------------------------------- the parser on a derivation

  /** The parser consumes exactly a call: `at` is its first token, `end` the one behind it. */
  lemma FunctionParsed(s: string, i: nat, p: Primary, at: Scanned, end: Scanned)
    requires i <= Stop(s) && p.Function? && GoodPrimary(p) && ReadPrimary(s, i, p).Some?
    requires at == GetToken(s, i, '\0') && end.Got?
    requires ReadPrimary(s, i, p).value <= Stop(s) ==> end == GetToken(s, ReadPrimary(s, i, p).value, '\0')
    ensures at.Got? && at.tok == Word && ReadPrimary(s, i, p).value <= Stop(s)
    ensures ParseFunction(s, at.pos) == Ok(TreeOfPrimary(p), end.tok, end.pos)
  {
    hide Stop, GetToken, ParseArgs, ReadText, ReadWord, ReadArgs, WordAt, Lookup, ArgValue, GoodArg, IsWord;
    var j := ReadWord(s, i, p.name).value;
    var k := ReadText(s, j, "(").value;
    var l := ReadArgs(s, k, p.args).value;
    ScanWord(s, i, p.name);
    ScanText(s, j, Open);
    if p.args == [] {
      NoArgsRead(s, k);
      ScanText(s, k, Close);
      NoArgs(s, GetToken(s, k, '\0').pos);
    } else {
      assert GoodArgs(p.args);
      ArgList(s, k, p.args, [], GetToken(s, k, '\0'));
      assert [] + ArgValues(p.args) == ArgValues(p.args);
    }
    var f := Lookup(p.name).value;
    assert ParseCall(s, k, f) == Ok(Call(f, ArgValues(p.args)), end.tok, end.pos);
  }

  lemma NoArgsRead(s: string, i: nat)
    requires i <= |s|
    ensures ReadArgs(s, i, []) == Some(i)
  {
  }

  lemma NoArgs(s: string, pos: nat)
    requires Legal(s, Close, pos)
    ensures ParseArgs(s, Close, pos, [], "") == Args([], Close, pos) && ArgValues([]) == []
  {
    hide Stop;
  }

  // Each routine consumes exactly the text of its derivation, and builds its tree.

  lemma {:induction false} PrimaryParsed(s: string, i: nat, p: Primary, at: Scanned, end: Scanned, nested: bool)
    requires i <= Stop(s) && GoodPrimary(p) && ReadPrimary(s, i, p).Some?
    requires at == GetToken(s, i, '\0') && end.Got?
    requires ReadPrimary(s, i, p).value <= Stop(s) ==> end == GetToken(s, ReadPrimary(s, i, p).value, '\0')
    ensures at.Got? && ReadPrimary(s, i, p).value <= Stop(s)
    ensures ParsePrimary(s, at.tok, at.pos, nested) == Ok(TreeOfPrimary(p), end.tok, end.pos)
    decreases p
  {
    hide Stop, GetToken, ReadText, ReadWord, ReadArgs, ParseFunction, ParseOr, ParseAnd, Lookup, ArgValues;
    match p
    case Function(_, _) =>
      FunctionParsed(s, i, p, at, end);
    case Negation(q) =>
      ScanText(s, i, Not);
      var j := ReadText(s, i, "!").value;
      PrimaryParsed(s, j, q, GetToken(s, j, '\0'), end, true);
    case Group(o) =>
      ScanText(s, i, Open);
      var j := ReadText(s, i, "(").value;
      OrStop(s, j, o);
      var k := ReadOr(s, j, o).value;
      ScanText(s, k, Close);
      OrParsed(s, j, o, None, GetToken(s, j, '\0'), GetToken(s, k, '\0'));
      OrTreeMeans(o, None, (f, args) => true);
  }

  lemma {:induction false} AndParsed(s: string, i: nat, a: AndExpr, left: Option<Tree>, at: Scanned, end: Scanned)
    requires i <= Stop(s) && GoodAnd(a) && ReadAnd(s, i, a).Some?
    requires at == GetToken(s, i, '\0') && end.Got? && end.tok != And
    requires ReadAnd(s, i, a).value <= Stop(s) ==> end == GetToken(s, ReadAnd(s, i, a).value, '\0')
    ensures at.Got? && ReadAnd(s, i, a).value <= Stop(s)
    ensures ParseAnd(s, at.tok, at.pos, left) == Ok(TreeOfAnd(a, left), end.tok, end.pos)
    decreases a
  {
    hide Stop, GetToken, ReadText, ReadPrimary, ParsePrimary;
    PrimaryTreeMeans(a.p, (f, args) => true);
    match a
    case AndOne(p) =>
      PrimaryParsed(s, i, p, at, end, false);
    case AndMore(p, rest) =>
      var j := ReadPrimary(s, i, p).value;
      PrimaryStop(s, i, p);
      ScanText(s, j, And);
      var k := ReadText(s, j, "&&").value;
      PrimaryParsed(s, i, p, at, GetToken(s, j, '\0'), false);
      AndParsed(s, k, rest, Some(Join(left, TreeOfPrimary(p), false)), GetToken(s, k, '\0'), end);
  }

  lemma {:induction false} OrParsed(s: string, i: nat, o: OrExpr, left: Option<Tree>, at: Scanned, end: Scanned)
    requires i <= Stop(s) && GoodOr(o) && ReadOr(s, i, o).Some?
    requires at == GetToken(s, i, '\0') && end.Got? && end.tok != And && end.tok != Or
    requires ReadOr(s, i, o).value <= Stop(s) ==> end == GetToken(s, ReadOr(s, i, o).value, '\0')
    ensures at.Got? && ReadOr(s, i, o).value <= Stop(s)
    ensures ParseOr(s, at.tok, at.pos, left) == Ok(TreeOfOr(o, left), end.tok, end.pos)
    decreases o
  {
    hide Stop, GetToken, ReadText, ReadAnd, ParseAnd;
    AndTreeMeans(o.a, None, (f, args) => true);
    match o
    case OrOne(a) =>
      AndParsed(s, i, a, None, at, end);
    case OrMore(a, rest) =>
      var j := ReadAnd(s, i, a).value;
      AndStop(s, i, a);
      ScanText(s, j, Or);
      var k := ReadText(s, j, "||").value;
      AndParsed(s, i, a, None, at, GetToken(s, j, '\0'));
      OrParsed(s, k, rest, Some(Join(left, TreeOfAnd(a, None), true)), GetToken(s, k, '\0'), end);
  }

  // The text of a derivation lies before the end of the input.

  lemma {:induction false} PrimaryStop(s: string, i: nat, p: Primary)
    requires i <= Stop(s) && GoodPrimary(p) && ReadPrimary(s, i, p).Some?
    ensures ReadPrimary(s, i, p).value <= Stop(s)
    decreases p
  {
    hide Stop, GetToken, ReadText, ReadWord, ReadArgs, Lookup, IsWord, GoodArg;
    match p
    case Function(name, args) =>
      ScanWord(s, i, name);
      var j := ReadWord(s, i, name).value;
      ScanText(s, j, Open);
      var k := ReadText(s, j, "(").value;
      if args == [] {
        NoArgsRead(s, k);
        ScanText(s, k, Close);
      } else {
        assert GoodArgs(args);
        ArgList(s, k, args, [], GetToken(s, k, '\0'));
      }
    case Negation(q) =>
      ScanText(s, i, Not);
      PrimaryStop(s, ReadText(s, i, "!").value, q);
    case Group(o) =>
      ScanText(s, i, Open);
      var j := ReadText(s, i, "(").value;
      OrStop(s, j, o);
      ScanText(s, ReadOr(s, j, o).value, Close);
  }

  lemma {:induction false} AndStop(s: string, i: nat, a: AndExpr)
    requires i <= Stop(s) && GoodAnd(a) && ReadAnd(s, i, a).Some?
    ensures ReadAnd(s, i, a).value <= Stop(s)
    decreases a
  {
    hide Stop, GetToken, ReadText, ReadPrimary;
    PrimaryStop(s, i, a.p);
    if a.AndMore? {
      var j := ReadPrimary(s, i, a.p).value;
      ScanText(s, j, And);
      AndStop(s, ReadText(s, j, "&&").value, a.a);
    }
  }

  lemma {:induction false} OrStop(s: string, i: nat, o: OrExpr)
    requires i <= Stop(s) && GoodOr(o) && ReadOr(s, i, o).Some?
    ensures ReadOr(s, i, o).value <= Stop(s)
    decreases o
  {
    hide Stop, GetToken, ReadText, ReadAnd;
    AndStop(s, i, o.a);
    if o.OrMore? {
      var j := ReadAnd(s, i, o.a).value;
      ScanText(s, j, Or);
      OrStop(s, ReadText(s, j, "||").value, o.o);
    }
  }

  /** Every rule of the grammar is parsed, and the tree means what the derivation means: `!` binds
      tighter than `&&`, and `&&` tighter than `||`. */
  lemma RuleParsed(s: string, o: OrExpr, v: Valuation)
    requires GoodOr(o) && IsRule(s, o)
    ensures Parse(s) == Ok(TreeOfOr(o, None), End, Past(s))
    ensures NoNull(Parse(s).tree) && Eval(Parse(s).tree, v) == DenoteOr(o, v)
  {
    hide Stop, ReadOr, GetToken, ParseOr;
    var j := ReadOr(s, 0, o).value;
    OrStop(s, 0, o);
    ScanSkips(s, j);
    EndScanned(s, Skip(s, j));
    OrParsed(s, 0, o, None, GetToken(s, 0, '\0'), GetToken(s, j, '\0'));
    OrTreeMeans(o, None, v);
  }

  lemma EndScanned(s: string, e: nat)
    requires e <= Stop(s) && (At(s, e) == '\0' || At(s, e) == ':')
    ensures GetToken(s, e, '\0') == Got(End, Past(s))
  {
    hide StopFrom;
    assert e < |s| ==> At(s, e) == s[e];
  }

  /** The parser is more lenient than the grammar: `&&` in front of any conjunction is accepted with
      its left operand missing, and evaluating that tree would follow a null pointer. */
  lemma LeadingAndAccepted(s: string, a: AndExpr)
    requires GoodAnd(a) && ReadText(s, 0, "&&").Some?
    requires ReadAnd(s, ReadText(s, 0, "&&").value, a).Some?
    requires var e := Skip(s, ReadAnd(s, ReadText(s, 0, "&&").value, a).value); At(s, e) == '\0' || At(s, e) == ':'
    ensures Parse(s) == Ok(TreeOfAnd(a, Some(Null)), End, Past(s)) && !NoNull(Parse(s).tree)
  {
    hide Stop, ReadAnd, GetToken, ReadText, ParseOr, ParseAnd, TreeOfAnd;
    ScanText(s, 0, And);
    var i := ReadText(s, 0, "&&").value;
    AndStop(s, i, a);
    var j := ReadAnd(s, i, a).value;
    ScanSkips(s, j);
    EndScanned(s, Skip(s, j));
    AndParsed(s, i, a, Some(Null), GetToken(s, i, '\0'), GetToken(s, j, '\0'));
    MissingStays(a, Null);
    FromAnd(s, i, TreeOfAnd(a, Some(Null)));
  }

  /** A rule that starts with `&&`: the first operand is a null pointer. */
  lemma FromAnd(s: string, i: nat, tree: Tree)
    requires Legal(s, And, i) && GetToken(s, i, '\0').Got? && Legal(s, End, Past(s))
    requires var t := GetToken(s, i, '\0'); ParseAnd(s, t.tok, t.pos, Some(Null)) == Ok(tree, End, Past(s))
    ensures ParseOr(s, And, i, None) == Ok(tree, End, Past(s))
  {
    hide Stop, GetToken, Past, Rem;
    assert ParsePrimary(s, And, i, false) == Ok(Null, And, i);
    assert ParseAnd(s, And, i, None) == Ok(tree, End, Past(s));
  }

  lemma {:induction false} MissingStays(a: AndExpr, left: Tree)
    requires GoodAnd(a) && !NoNull(left)
    ensures !NoNull(TreeOfAnd(a, Some(left))) && TreeOfAnd(a, Some(left)) != Null
  {
    if a.AndMore? { MissingStays(a.a, AndOr(left, TreeOfPrimary(a.p), false)); }
  }
}
