/** The parser is more lenient than the grammar: an `&&` or `||` without a left operand is accepted
    and leaves a null pointer in the tree.  Which accepted rules those are is said in terms of the
    tokens of the rule. */
module CruleLenient {
  import opened Common
  import opened Masks
  import opened Crule

  // ---------------------------------------------------------------- the tokens of a rule

  /** The tokens from place `p` to the end of the input, or to where the scanner gives up. */
  function TokenList(s: string, p: nat): seq<Token>
    requires p <= Stop(s)
    decreases Stop(s) - p
  {
    match GetToken(s, p, '\0')
    case Bad => []
    case Got(tok, pos) => if tok == End then [] else [tok] + TokenList(s, Behind(s, tok, pos))
  }

  /** The place behind a token that has been scanned. */
  function Behind(s: string, tok: Token, pos: nat): (e: nat)
    requires Legal(s, tok, pos) && tok != End
    ensures pos <= e <= Stop(s) && (tok == Word ==> pos < e)
  {
    if tok == Word then pos + |WordAt(s, pos)| else pos
  }

  /** A token that has been scanned and those behind it. */
  function Rest(s: string, tok: Token, pos: nat): seq<Token>
    requires Legal(s, tok, pos)
  {
    if tok == End then [] else [tok] + TokenList(s, Behind(s, tok, pos))
  }

  lemma RestScanned(s: string, p: nat)
    requires p <= Stop(s) && GetToken(s, p, '\0').Got?
    ensures var t := GetToken(s, p, '\0'); TokenList(s, p) == Rest(s, t.tok, t.pos)
  {
    hide GetToken, Stop;
  }

  lemma RestStep(s: string, tok: Token, pos: nat)
    requires Legal(s, tok, pos) && tok != End && GetToken(s, Behind(s, tok, pos), '\0').Got?
    ensures var t := GetToken(s, Behind(s, tok, pos), '\0'); Rest(s, tok, pos) == [tok] + Rest(s, t.tok, t.pos)
  {
    hide GetToken, Stop;
    RestScanned(s, Behind(s, tok, pos));
  }

  // ---------------------------------------------------------------- operators without a left operand

  predicate IsOperator(t: Token) { t == And || t == Or }

  /** After these an operand has to come. */
  predicate Expects(t: Token) { t == Open || IsOperator(t) }

  /** Some operator stands first, or after `(`, `&&` or `||`. */
  predicate Bare(ts: seq<Token>) { exists i :: 0 <= i < |ts| && BareAt(true, ts, i) }

  /** An operator at place `i` where an operand has to come; `expects`: one has to come first. */
  predicate BareAt(expects: bool, ts: seq<Token>, i: nat)
    requires i < |ts|
  {
    IsOperator(ts[i]) && if i == 0 then expects else Expects(ts[i - 1])
  }

  /** The same, reading from the left; `expects`: an operand has to come here. */
  predicate BareFrom(expects: bool, ts: seq<Token>)
    decreases |ts|
  {
    ts != [] && ((expects && IsOperator(ts[0])) || BareFrom(Expects(ts[0]), ts[1..]))
  }

  lemma {:induction false} BareFromIs(expects: bool, ts: seq<Token>)
    ensures BareFrom(expects, ts) <==> exists i :: 0 <= i < |ts| && BareAt(expects, ts, i)
    decreases |ts|
  {
    if ts != [] {
      var u, next := ts[1..], Expects(ts[0]);
      BareFromIs(next, u);
      assert BareAt(expects, ts, 0) == (expects && IsOperator(ts[0]));
      assert forall i :: 0 <= i < |u| ==> BareAt(next, u, i) == BareAt(expects, ts, i + 1);
      assert forall i :: 1 <= i < |ts| ==> BareAt(expects, ts, i) == BareAt(next, u, i - 1);
    }
  }

  /** `ts` is a complete operand: it ends in `)`. */
  predicate Closed(ts: seq<Token>) { ts != [] && ts[|ts| - 1] == Close }

  lemma {:induction false} BareJoins(expects: bool, a: seq<Token>, b: seq<Token>)
    requires Closed(a)
    ensures BareFrom(expects, a + b) == (BareFrom(expects, a) || BareFrom(false, b))
    decreases |a|
  {
    assert (a + b)[1..] == a[1..] + b;
    if |a| == 1 {
      assert a[1..] + b == b;
    } else {
      BareJoins(Expects(a[0]), a[1..], b);
    }
  }

  lemma {:induction false} ArgumentsAreNotBare(ts: seq<Token>, expects: bool)
    requires forall i :: 0 <= i < |ts| ==> !IsOperator(ts[i])
    ensures !BareFrom(expects, ts)
    decreases |ts|
  {
    if ts != [] { ArgumentsAreNotBare(ts[1..], Expects(ts[0])); }
  }

  // ---------------------------------------------------------------- what each routine consumes

  lemma {:induction false} ArgsConsume(s: string, tok: Token, pos: nat, args: seq<string>, cur: string) returns (c: seq<Token>)
    requires Legal(s, tok, pos) && ParseArgs(s, tok, pos, args, cur).Args?
    ensures var r := ParseArgs(s, tok, pos, args, cur);
      Legal(s, r.tok, r.pos) && Rest(s, tok, pos) == c + Rest(s, r.tok, r.pos)
    ensures forall i :: 0 <= i < |c| ==> !IsOperator(c[i])
    decreases Rem(s, tok, pos)
  {
    hide Stop, GetToken, Rest, Legal, Gather, PushArg, WordAt;
    c := [];
    if tok == Word {
      var t := GetToken(s, Behind(s, tok, pos), '\0');
      RestStep(s, tok, pos);
      var w := WordAt(s, pos);
      var d := ArgsConsume(s, t.tok, t.pos, args, Gather(cur, w));
      c := [Word] + d;
    } else if tok == Comma {
      var t := GetToken(s, Behind(s, tok, pos), '\0');
      RestStep(s, tok, pos);
      var d := ArgsConsume(s, t.tok, t.pos, PushArg(args, cur), "");
      c := [Comma] + d;
    }
  }

  /** A call: a word, parentheses, and between them words and commas. */
  lemma FunctionConsumes(s: string, pos: nat) returns (c: seq<Token>)
    requires Legal(s, Word, pos) && ParseFunction(s, pos).Ok?
    ensures var r := ParseFunction(s, pos);
      Legal(s, r.tok, r.pos) && Rest(s, Word, pos) == c + Rest(s, r.tok, r.pos) && NoNull(r.tree) && r.tree != Null
    ensures Closed(c) && forall expects :: !BareFrom(expects, c)
  {
    hide Stop, GetToken, Rest, Legal, WordAt, Lookup, ParseArgs, BareFrom;
    var t0 := GetToken(s, Behind(s, Word, pos), '\0');
    RestStep(s, Word, pos);
    var t1 := GetToken(s, Behind(s, Open, t0.pos), '\0');
    RestStep(s, Open, t0.pos);
    var args := ParseArgs(s, t1.tok, t1.pos, [], "");
    var d := ArgsConsume(s, t1.tok, t1.pos, [], "");
    RestStep(s, Close, args.pos);
    c := [Word, Open] + d + [Close];
    forall expects ensures !BareFrom(expects, c) { ArgumentsAreNotBare(c, expects); }
  }

  /** A primary consumes nothing and gives a null pointer, or a complete operand. */
  lemma {:induction false} PrimaryConsumes(s: string, tok: Token, pos: nat, nested: bool) returns (c: seq<Token>)
    requires Legal(s, tok, pos) && ParsePrimary(s, tok, pos, nested).Ok?
    ensures var r := ParsePrimary(s, tok, pos, nested);
      && Legal(s, r.tok, r.pos) && Rest(s, tok, pos) == c + Rest(s, r.tok, r.pos)
      && (if r.tree == Null then c == [] && !nested && r.tok == tok
          else Closed(c) && forall expects :: NoNull(r.tree) <==> !BareFrom(expects, c))
    decreases Rem(s, tok, pos), 0
  {
    hide Stop, GetToken, Rest, Legal, ParseFunction, ParseOr, BareFrom, NoNull;
    c := [];
    match tok
    case Open =>
      var t0 := GetToken(s, Behind(s, tok, pos), '\0');
      RestStep(s, Open, pos);
      var d := OrConsumes(s, t0.tok, t0.pos, None);
      var r := ParseOr(s, t0.tok, t0.pos, None);
      RestStep(s, Close, r.pos);
      c := [Open] + d + [Close];
      assert c + ParseRest(s, ParsePrimary(s, tok, pos, nested)) == [Open] + (d + ([Close] + ParseRest(s, ParsePrimary(s, tok, pos, nested))));
      Grouped(d);
    case Not =>
      var t0 := GetToken(s, Behind(s, tok, pos), '\0');
      RestStep(s, Not, pos);
      var d := PrimaryConsumes(s, t0.tok, t0.pos, true);
      c := [Not] + d;
      Negated(d, ParsePrimary(s, t0.tok, t0.pos, true).tree);
    case Word =>
      c := FunctionConsumes(s, pos);
    case _ =>
  }

  function ParseRest(s: string, r: Parsed): seq<Token>
    requires r.Ok? && Legal(s, r.tok, r.pos)
  {
    Rest(s, r.tok, r.pos)
  }

  lemma Grouped(d: seq<Token>)
    requires Closed(d)
    ensures Closed([Open] + d + [Close]) && forall expects :: BareFrom(expects, [Open] + d + [Close]) == BareFrom(true, d)
  {
    forall expects ensures BareFrom(expects, [Open] + d + [Close]) == BareFrom(true, d) {
      var c := [Open] + d + [Close];
      assert c[1..] == d + [Close];
      BareJoins(true, d, [Close]);
      ArgumentsAreNotBare([Close], false);
    }
  }

  lemma Negated(d: seq<Token>, t: Tree)
    requires Closed(d) && forall expects :: NoNull(t) <==> !BareFrom(expects, d)
    ensures Closed([Not] + d) && forall expects :: NoNull(NotNode(t)) <==> !BareFrom(expects, [Not] + d)
  {
    forall expects ensures BareFrom(expects, [Not] + d) == BareFrom(false, d) { assert ([Not] + d)[1..] == d; }
    assert NoNull(t) <==> !BareFrom(false, d);
  }

  /** What a chain of operands consumed: nothing, or operands joined by operators. `left`: what
      stands on the left of the first operator, if anything does. */
  ghost predicate Chain(left: Option<Tree>, tree: Tree, c: seq<Token>) {
    if tree == Null then left.None? && c == []
    else Closed(c) && (NoNull(tree) <==> (left.Some? ==> NoNull(left.value)) && !BareFrom(true, c))
  }

  /** An operand `t` that consumed `c`, an operator, and the rest of the chain. */
  lemma ChainGrows(left: Option<Tree>, t: Tree, c: seq<Token>, op: Token, tree: Tree, d: seq<Token>, isOr: bool)
    requires IsOperator(op) && Chain(Some(Join(left, t, isOr)), tree, d)
    requires if t == Null then c == [] else Closed(c) && (NoNull(t) <==> !BareFrom(true, c))
    ensures Chain(left, tree, c + [op] + d)
  {
    hide BareFrom, IsOperator, Join, NoNull;
    var all := c + [op] + d;
    OneOperator(op, d);
    JoinedNull(left, t, isOr);
    assert Closed(all);
    if t == Null {
      assert all == [op] + d;
    } else {
      assert all == c + ([op] + d);
      BareJoins(true, c, [op] + d);
    }
  }

  lemma OneOperator(op: Token, d: seq<Token>)
    requires IsOperator(op)
    ensures BareFrom(true, [op] + d) && BareFrom(false, [op] + d) == BareFrom(true, d)
  {
    assert ([op] + d)[1..] == d && ([op] + d)[0] == op;
  }

  lemma JoinedNull(left: Option<Tree>, t: Tree, isOr: bool)
    ensures NoNull(Join(left, t, isOr)) <==> NoNull(t) && (left.Some? ==> NoNull(left.value))
    ensures t == Null ==> !NoNull(t)
  {
  }

  lemma ChainEnds(left: Option<Tree>, r: Parsed, c: seq<Token>, isOr: bool)
    requires r.Ok? && Finish(left, r, isOr).Ok?
    requires if r.tree == Null then c == [] else Closed(c) && (NoNull(r.tree) <==> !BareFrom(true, c))
    ensures Chain(left, Finish(left, r, isOr).tree, c)
  {
  }

  lemma {:induction false} AndConsumes(s: string, tok: Token, pos: nat, left: Option<Tree>) returns (c: seq<Token>)
    requires Legal(s, tok, pos) && ParseAnd(s, tok, pos, left).Ok?
    ensures var r := ParseAnd(s, tok, pos, left);
      Legal(s, r.tok, r.pos) && Rest(s, tok, pos) == c + Rest(s, r.tok, r.pos) && Chain(left, r.tree, c)
    decreases Rem(s, tok, pos), 1
  {
    hide Stop, GetToken, Rest, Legal, ParsePrimary, BareFrom, NoNull, Chain;
    var r := ParsePrimary(s, tok, pos, false);
    c := PrimaryConsumes(s, tok, pos, false);
    if r.tok == And {
      var t := GetToken(s, Behind(s, And, r.pos), '\0');
      RestStep(s, And, r.pos);
      var d := AndConsumes(s, t.tok, t.pos, Some(Join(left, r.tree, false)));
      ChainGrows(left, r.tree, c, And, ParseAnd(s, t.tok, t.pos, Some(Join(left, r.tree, false))).tree, d, false);
      c := c + [And] + d;
    } else {
      ChainEnds(left, r, c, false);
    }
  }

  lemma {:induction false} OrConsumes(s: string, tok: Token, pos: nat, left: Option<Tree>) returns (c: seq<Token>)
    requires Legal(s, tok, pos) && ParseOr(s, tok, pos, left).Ok?
    ensures var r := ParseOr(s, tok, pos, left);
      Legal(s, r.tok, r.pos) && Rest(s, tok, pos) == c + Rest(s, r.tok, r.pos) && Chain(left, r.tree, c)
    decreases Rem(s, tok, pos), 2
  {
    hide Stop, GetToken, Rest, Legal, ParseAnd, BareFrom, NoNull, Chain;
    var r := ParseAnd(s, tok, pos, None);
    c := AndConsumes(s, tok, pos, None);
    ChainAlone(r.tree, c);
    if r.tok == Or {
      var t := GetToken(s, Behind(s, Or, r.pos), '\0');
      RestStep(s, Or, r.pos);
      var d := OrConsumes(s, t.tok, t.pos, Some(Join(left, r.tree, true)));
      ChainGrows(left, r.tree, c, Or, ParseOr(s, t.tok, t.pos, Some(Join(left, r.tree, true))).tree, d, true);
      c := c + [Or] + d;
    } else {
      ChainEnds(left, r, c, true);
    }
  }

  lemma ChainAlone(tree: Tree, c: seq<Token>)
    requires Chain(None, tree, c)
    ensures if tree == Null then c == [] else Closed(c) && (NoNull(tree) <==> !BareFrom(true, c))
  {
    hide BareFrom, NoNull;
  }

  /** A rule that is accepted can be evaluated if and only if no `&&` or `||` stands first, after
      `(`, or after another `&&` or `||`; otherwise evaluation would follow a null pointer. */
  lemma AcceptedHasNoNull(s: string)
    requires Parse(s).Ok?
    ensures NoNull(Parse(s).tree) <==> !Bare(TokenList(s, 0))
  {
    hide Stop, GetToken, Rest, ParseOr, BareFrom, NoNull, TokenList;
    var t := GetToken(s, 0, '\0');
    var c := OrConsumes(s, t.tok, t.pos, None);
    RestScanned(s, 0);
    var r := ParseOr(s, t.tok, t.pos, None);
    NothingLeft(s, r.pos);
    assert c + [] == c;
    ChainAlone(r.tree, c);
    BareFromIs(true, c);
  }

  lemma NothingLeft(s: string, pos: nat)
    requires Legal(s, End, pos)
    ensures Rest(s, End, pos) == []
  {
  }

  // ---------------------------------------------------------------- the calls of an accepted rule

  /** `via` has two arguments, `directop` none, the others one; all of them fit the array of 80
      characters that holds an argument, and none is empty. */
  predicate CallsRight(t: Tree) {
    match t
    case Null => true
    case NotNode(a) => CallsRight(a)
    case AndOr(l, r, _) => CallsRight(l) && CallsRight(r)
    case Call(f, args) =>
      |args| == (match f case Via => 2 case DirectOp => 0 case _ => 1) && ArgsRight(args)
  }

  predicate ArgsRight(args: seq<string>) { forall i :: 0 <= i < |args| ==> 0 < |args[i]| < 80 }

  lemma {:induction false} CollapseShortens(s: string, star: bool)
    ensures |CollapseText(s, star)| <= |s| + if star then 1 else 0
    decreases |s|
  {
    if s != "" {
      CollapseShortens(s[1..], false);
      CollapseShortens(s[1..], true);
      if |s| > 1 { CollapseShortens(s[2..], false); }
    }
  }

  lemma {:induction false} ArgsAreRight(s: string, tok: Token, pos: nat, args: seq<string>, cur: string)
    requires Legal(s, tok, pos) && ArgsRight(args) && |cur| < 80
    ensures ParseArgs(s, tok, pos, args, cur).Args? ==> ArgsRight(ParseArgs(s, tok, pos, args, cur).args)
    decreases Rem(s, tok, pos)
  {
    hide Stop, GetToken, Legal, CollapseText;
    CollapseShortens(cur, false);
    if tok == Word {
      var w := WordAt(s, pos);
      var t := GetToken(s, Behind(s, Word, pos), '\0');
      if t.Got? { ArgsAreRight(s, t.tok, t.pos, args, Gather(cur, w)); }
    } else if tok == Comma {
      var t := GetToken(s, Behind(s, Comma, pos), '\0');
      if t.Got? { ArgsAreRight(s, t.tok, t.pos, PushArg(args, cur), ""); }
    }
  }

  lemma FunctionIsRight(s: string, pos: nat)
    requires Legal(s, Word, pos) && ParseFunction(s, pos).Ok?
    ensures CallsRight(ParseFunction(s, pos).tree)
  {
    hide Stop, GetToken, Legal, Lookup, ParseArgs, WordAt;
    var t0 := GetToken(s, Behind(s, Word, pos), '\0');
    var t1 := GetToken(s, Behind(s, Open, t0.pos), '\0');
    ArgsAreRight(s, t1.tok, t1.pos, [], "");
  }

  lemma {:induction false} PrimaryIsRight(s: string, tok: Token, pos: nat, nested: bool)
    requires Legal(s, tok, pos) && ParsePrimary(s, tok, pos, nested).Ok?
    ensures CallsRight(ParsePrimary(s, tok, pos, nested).tree)
    decreases Rem(s, tok, pos), 0
  {
    hide Stop, GetToken, Legal, ParseFunction, ParseOr;
    match tok
    case Open =>
      var t := GetToken(s, Behind(s, tok, pos), '\0');
      OrIsRight(s, t.tok, t.pos, None);
    case Not =>
      var t := GetToken(s, Behind(s, tok, pos), '\0');
      PrimaryIsRight(s, t.tok, t.pos, true);
    case Word => FunctionIsRight(s, pos);
    case _ =>
  }

  lemma {:induction false} AndIsRight(s: string, tok: Token, pos: nat, left: Option<Tree>)
    requires Legal(s, tok, pos) && ParseAnd(s, tok, pos, left).Ok? && (left.Some? ==> CallsRight(left.value))
    ensures CallsRight(ParseAnd(s, tok, pos, left).tree)
    decreases Rem(s, tok, pos), 1
  {
    hide Stop, GetToken, Legal, ParsePrimary;
    var r := ParsePrimary(s, tok, pos, false);
    PrimaryIsRight(s, tok, pos, false);
    if r.tok == And {
      var t := GetToken(s, Behind(s, And, r.pos), '\0');
      AndIsRight(s, t.tok, t.pos, Some(Join(left, r.tree, false)));
    }
  }

  lemma {:induction false} OrIsRight(s: string, tok: Token, pos: nat, left: Option<Tree>)
    requires Legal(s, tok, pos) && ParseOr(s, tok, pos, left).Ok? && (left.Some? ==> CallsRight(left.value))
    ensures CallsRight(ParseOr(s, tok, pos, left).tree)
    decreases Rem(s, tok, pos), 2
  {
    hide Stop, GetToken, Legal, ParseAnd;
    var r := ParseAnd(s, tok, pos, None);
    AndIsRight(s, tok, pos, None);
    if r.tok == Or {
      var t := GetToken(s, Behind(s, Or, r.pos), '\0');
      OrIsRight(s, t.tok, t.pos, Some(Join(left, r.tree, true)));
    }
  }

  /** Every call in the tree of an accepted rule has the number of arguments its function takes. */
  lemma AcceptedCallsAreRight(s: string)
    requires Parse(s).Ok?
    ensures CallsRight(Parse(s).tree)
  {
    hide Stop, GetToken, ParseOr, CallsRight;
    var t := GetToken(s, 0, '\0');
    OrIsRight(s, t.tok, t.pos, None);
  }
}
