/** The scanner and parser routines, with the input pointer and the look-ahead token as fields. */
module CruleParser {
  import opened Common
  import opened Masks
  import opened Crule

  /** A routine's outcome is what its specification says; the tree is null unless part of one was built. */
  predicate Agrees(spec: Parsed, err: Option<Err>, tree: Tree, tok: Token, pos: nat) {
    match spec
    case Ok(t, k, p) => err.None? && tree == t && tok == k && pos == p
    case Fail(e, built) => err == Some(e) && (tree != Null) == built
  }

  /** `n` negations around `t`. */
  function Negate(n: nat, t: Tree): Tree { if n == 0 then t else NotNode(Negate(n - 1, t)) }

  function Wrap(n: nat, r: Parsed): Parsed {
    match r
    case Ok(t, tok, pos) => Ok(Negate(n, t), tok, pos)
    case Fail(err, built) => Fail(err, built || n > 0)
  }

  lemma {:induction false} NegateInside(n: nat, t: Tree)
    ensures Negate(n, NotNode(t)) == Negate(n + 1, t)
  {
    if n > 0 { NegateInside(n - 1, t); }
  }

  class Parser {
    const rule: string
    var pos: nat
    var tok: Token

    constructor (rule: string)
      ensures this.rule == rule && pos == 0
    {
      this.rule, pos, tok := rule, 0, End;
    }

    ghost predicate Ready()
      reads this
    {
      Legal(rule, tok, pos)
    }

    /** `crule_gettoken` */
    method NextToken() returns (bad: bool)
      requires pos <= Stop(rule)
      modifies this
      ensures bad <==> GetToken(rule, old(pos), '\0').Bad?
      ensures !bad ==> Ready() && GetToken(rule, old(pos), '\0') == Got(tok, pos)
      ensures pos <= Past(rule)
    {
      hide StopFrom;
      var pending, found := '\0', false;
      while !found
        invariant found ==> GetToken(rule, old(pos), '\0') == Got(tok, pos) && pos <= Past(rule)
        invariant !found ==> pos <= Stop(rule) && GetToken(rule, old(pos), '\0') == GetToken(rule, pos, pending)
        decreases !found, Stop(rule) - pos
      {
        var c := At(rule, pos);
        pos := pos + 1;
        found := true;
        if c == ' ' || c == '\t' {
          found := false;
        } else if c == '&' || c == '|' {
          if pending == '\0' {
            pending, found := c, false;
          } else if pending == c {
            tok := if c == '&' then And else Or;
          } else {
            return true;
          }
        } else if c == '!' { tok := Not; }
        else if c == '(' { tok := Open; }
        else if c == ')' { tok := Close; }
        else if c == ',' { tok := Comma; }
        else if c == '\0' { pos, tok := pos - 1, End; }
        else if c == ':' { tok := End; }
        else {
          pos := pos - 1;
          if !WordStart(c) { return true; }
          tok := Word;
        }
      }
      return false;
    }

    /** `crule_getword` */
    method GetWord() returns (word: string)
      requires Ready() && tok == Word
      modifies this`pos
      ensures word == WordAt(rule, old(pos)) && pos == old(pos) + |word| && pos <= Stop(rule)
    {
      hide Stop, Past, WordChar, WordStart;
      word := "";
      while |word| < MAX_WORD && WordChar(At(rule, pos))
        invariant old(pos) <= pos <= |rule| && word == rule[old(pos)..pos] && |word| <= MAX_WORD
        invariant WordEnd(rule, old(pos), MAX_WORD) == WordEnd(rule, pos, MAX_WORD - |word|)
        decreases MAX_WORD - |word|
      {
        word := word + [rule[pos]];
        pos := pos + 1;
      }
    }

    /** `crule_parsearglist` */
    method ArgList() returns (bad: bool, args: seq<string>)
      requires Ready()
      modifies this
      ensures match ParseArgs(rule, old(tok), old(pos), [], "")
        case BadArgs => bad
        case Args(a, t, p) => !bad && args == a && tok == t && pos == p
      ensures pos <= Past(rule) && (!bad ==> Ready())
    {
      hide Stop, Past, GetToken, WordAt, ParseArgs, Collapse;
      ghost var spec := ParseArgs(rule, tok, pos, [], "");
      args := [];
      var cur, arglen := "", 0;
      PastStop(rule);
      while true
        invariant Ready() && arglen == |cur| && spec == ParseArgs(rule, tok, pos, args, cur)
        decreases Rem(rule, tok, pos)
      {
        ArgsTurn(rule, tok, pos, args, cur);
        if tok == Word {
          var word := GetWord();
          if cur != "" {
            if arglen + |word| < MAX_WORD {
              cur, arglen := cur + " " + word, arglen + |word| + 1;
            }
          } else {
            cur, arglen := word, |word|;
          }
        } else {
          var c := Collapse(cur);
          if c != "" { args := args + [c]; }
          if tok != Comma { return false, args; }
          cur, arglen := "", 0;
        }
        bad := NextToken();
        if bad { return; }
      }
    }

    /** `crule_parsefunction` */
    method Function() returns (err: Option<Err>, tree: Tree)
      requires Ready() && tok == Word
      modifies this
      ensures Agrees(ParseFunction(rule, old(pos)), err, tree, tok, pos)
      ensures pos <= Past(rule) && (err.None? ==> Ready())
    {
      hide Stop, Past, GetToken, WordAt, ParseArgs, Lookup;
      PastStop(rule);
      var name := GetWord();
      var bad := NextToken();
      if bad { return Some(UnknownToken), Null; }
      if tok != Open { return Some(OpenExpected), Null; }
      var found := Lookup(name);
      if found.None? { return Some(UnknownFunction), Null; }
      var f := found.value;
      bad := NextToken();
      if bad { return Some(UnknownToken), Null; }
      var args;
      bad, args := ArgList();
      tree := Call(f, args);
      if bad { return Some(UnknownToken), tree; }
      if tok != Close { return Some(CloseExpected), tree; }
      if |args| != Arity(f) { return Some(ArgumentMismatch), tree; }
      bad := NextToken();
      if bad { return Some(UnknownToken), tree; }
      return None, tree;
    }

    /** `crule_parseprimary` from an opening parenthesis on. */
    method Parenthesised() returns (err: Option<Err>, tree: Tree)
      requires Ready() && tok == Open
      modifies this
      ensures Agrees(ParsePrimary(rule, Open, old(pos), false), err, tree, tok, pos)
      ensures pos <= Past(rule) && (err.None? ==> Ready())
      decreases Rem(rule, tok, pos), 0
    {
      hide Stop, Past, GetToken, ParseOr, ParseFunction;
      PastStop(rule);
      var bad := NextToken();
      if bad { return Some(UnknownToken), Null; }
      err, tree := OrExpr();
      if err.Some? { return; }
      if tree == Null { return Some(AndExpected), Null; }
      if tok != Close { return Some(CloseExpected), tree; }
      bad := NextToken();
      if bad { err := Some(UnknownToken); }
    }

    /** `crule_parseprimary` */
    method Primary() returns (err: Option<Err>, tree: Tree)
      requires Ready()
      modifies this
      ensures Agrees(ParsePrimary(rule, old(tok), old(pos), false), err, tree, tok, pos)
      ensures pos <= Past(rule) && (err.None? ==> Ready())
      decreases Rem(rule, tok, pos), 1
    {
      hide Stop, Past, GetToken, ParsePrimary, ParseFunction, Wrap, Negate;
      ghost var spec := ParsePrimary(rule, tok, pos, false);
      PastStop(rule);
      var nots := 0;
      WrapNone(spec);
      while tok == Not
        invariant Ready() && nots >= 0 && (nots > 0 ==> Rem(rule, tok, pos) < old(Rem(rule, tok, pos)))
        invariant nots == 0 ==> tok == old(tok) && pos == old(pos)
        invariant spec == Wrap(nots, ParsePrimary(rule, tok, pos, nots > 0))
        decreases Rem(rule, tok, pos)
      {
        WrapMore(rule, pos, nots);
        nots := nots + 1;
        var bad := NextToken();
        if bad { return Some(UnknownToken), Negate(nots, Null); }
      }
      NestedPrimary(rule, tok, pos, nots);
      if tok == Word {
        err, tree := Function();
      } else if tok == Open {
        err, tree := Parenthesised();
      } else {
        err, tree := if nots == 0 then None else Some(PrimaryExpected), Null;
      }
      WrapAgrees(nots, err, tree, tok, pos);
      tree := Negate(nots, tree);
    }

    /** `crule_parseandexpr` */
    method AndExpr() returns (err: Option<Err>, tree: Tree)
      requires Ready()
      modifies this
      ensures Agrees(ParseAnd(rule, old(tok), old(pos), None), err, tree, tok, pos)
      ensures pos <= Past(rule) && (err.None? ==> Ready())
      decreases Rem(rule, tok, pos), 2
    {
      hide Stop, Past, GetToken, ParsePrimary;
      ghost var spec := ParseAnd(rule, tok, pos, None);
      PastStop(rule);
      var left := None;
      while true
        invariant Ready() && spec == ParseAnd(rule, tok, pos, left)
        invariant Rem(rule, tok, pos) <= old(Rem(rule, tok, pos))
        decreases Rem(rule, tok, pos)
      {
        var operand;
        err, operand := Primary();
        if err.Some? || tok != And {
          err, tree := Last(left, err, operand, false);
          return;
        }
        left := Some(Join(left, operand, false));
        var bad := NextToken();
        if bad { return Some(UnknownToken), AndOr(left.value, Null, false); }
      }
    }

    /** `crule_parseorexpr` */
    method OrExpr() returns (err: Option<Err>, tree: Tree)
      requires Ready()
      modifies this
      ensures Agrees(ParseOr(rule, old(tok), old(pos), None), err, tree, tok, pos)
      ensures pos <= Past(rule) && (err.None? ==> Ready())
      decreases Rem(rule, tok, pos), 3
    {
      hide Stop, Past, GetToken, ParseAnd;
      ghost var spec := ParseOr(rule, tok, pos, None);
      PastStop(rule);
      var left := None;
      while true
        invariant Ready() && spec == ParseOr(rule, tok, pos, left)
        invariant Rem(rule, tok, pos) <= old(Rem(rule, tok, pos))
        decreases Rem(rule, tok, pos)
      {
        var operand;
        err, operand := AndExpr();
        if err.Some? || tok != Or {
          err, tree := Last(left, err, operand, true);
          return;
        }
        left := Some(Join(left, operand, true));
        var bad := NextToken();
        if bad { return Some(UnknownToken), AndOr(left.value, Null, true); }
      }
    }

    /** `crule_parse` */
    method Run() returns (err: Option<Err>, tree: Tree)
      requires pos == 0
      modifies this
      ensures match Parse(rule)
        case Ok(t, _, _) => err.None? && tree == t
        case Fail(e, _) => err == Some(e)
      ensures pos <= Past(rule)
    {
      hide Stop, Past, GetToken, ParseOr;
      PastStop(rule);
      var bad := NextToken();
      if bad { return Some(UnknownToken), Null; }
      err, tree := OrExpr();
      if err.None? {
        if tree == Null { err := Some(OrExpected); }
        else if tok != End { err := Some(UnexpectedToken); }
      }
    }
  }

  /** The last operand of a chain. */
  method Last(left: Option<Tree>, err: Option<Err>, operand: Tree, isOr: bool) returns (err': Option<Err>, tree: Tree)
    ensures forall r: Parsed, tok, pos :: Agrees(r, err, operand, tok, pos) ==> Agrees(Finish(left, r, isOr), err', tree, tok, pos)
  {
    if left.None? { return err, operand; }
    tree := AndOr(left.value, operand, isOr);
    err' := if operand != Null then err else Some(if isOr then AndExpected else PrimaryExpected);
  }

  lemma WrapNone(r: Parsed)
    ensures Wrap(0, r) == r
  {
  }

  lemma WrapMore(s: string, pos: nat, n: nat)
    requires Legal(s, Not, pos)
    ensures Negate(n + 1, Null) != Null
    ensures match GetToken(s, pos, '\0')
      case Bad => Wrap(n, ParsePrimary(s, Not, pos, n > 0)) == Fail(UnknownToken, true)
      case Got(t, p) => Wrap(n, ParsePrimary(s, Not, pos, n > 0)) == Wrap(n + 1, ParsePrimary(s, t, p, true))
  {
    hide Stop, Past, GetToken, ParseOr, ParseFunction, Legal, Rem;
    NegateAll(n + 1);
  }

  lemma WrapAgrees(n: nat, err: Option<Err>, tree: Tree, tok: Token, pos: nat)
    ensures forall r :: Agrees(r, err, tree, tok, pos) ==> Agrees(Wrap(n, r), err, Negate(n, tree), tok, pos)
  {
  }

  /** Behind a `!` a primary is parsed as elsewhere, but may not be missing. */
  lemma NestedPrimary(s: string, tok: Token, pos: nat, n: nat)
    requires Legal(s, tok, pos) && tok != Not
    ensures tok == Word ==> Wrap(n, ParsePrimary(s, tok, pos, n > 0)) == Wrap(n, ParseFunction(s, pos))
    ensures tok == Open ==> Wrap(n, ParsePrimary(s, tok, pos, n > 0)) == Wrap(n, ParsePrimary(s, tok, pos, false))
    ensures tok != Word && tok != Open ==>
      Wrap(n, ParsePrimary(s, tok, pos, n > 0)) == Wrap(n, if n > 0 then Fail(PrimaryExpected, false) else Ok(Null, tok, pos))
  {
    hide Stop, Past, GetToken, ParseOr, ParseFunction;
  }

  /** One turn of the loop over the arguments. */
  lemma ArgsTurn(s: string, tok: Token, pos: nat, args: seq<string>, cur: string)
    requires Legal(s, tok, pos)
    ensures ParseArgs(s, tok, pos, args, cur) ==
      if tok == Word then
        var w := WordAt(s, pos);
        match GetToken(s, pos + |w|, '\0')
        case Bad => BadArgs
        case Got(t, p) => ParseArgs(s, t, p, args, Gather(cur, w))
      else if tok != Comma then Args(PushArg(args, cur), tok, pos)
      else
        match GetToken(s, pos, '\0')
        case Bad => BadArgs
        case Got(t, p) => ParseArgs(s, t, p, PushArg(args, cur), "")
  {
    hide Stop, Past, GetToken, WordAt, Gather, PushArg;
  }

  lemma PastStop(s: string)
    ensures Stop(s) <= Past(s)
  {
    hide Stop;
  }

  lemma {:induction false} NegateAll(n: nat)
    requires n > 0
    ensures forall t :: Negate(n, t) == Negate(n - 1, NotNode(t))
  {
    forall t ensures Negate(n, t) == Negate(n - 1, NotNode(t)) { NegateInside(n - 1, t); }
  }
}
