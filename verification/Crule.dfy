/** Connection rules: the scanner, the recursive-descent parser and the evaluator.

    The functions are the specification: one per routine, with the loop of each routine as a
    recursion on what it has built so far.  `CruleParser` holds the routines themselves. */
module Crule {
  import opened Common
  import opened Masks

  // ---------------------------------------------------------------- data

  datatype Token = End | And | Or | Not | Open | Close | Comma | Word

  datatype Err =
    | UnexpectedToken | UnknownToken | AndExpected | OrExpected | PrimaryExpected
    | OpenExpected | CloseExpected | UnknownFunction | ArgumentMismatch

  /** `crule_funclist` */
  datatype Func = Connected | DirectCon | Via | DirectOp

  function Name(f: Func): string {
    match f case Connected => "connected" case DirectCon => "directcon" case Via => "via" case DirectOp => "directop"
  }

  function Arity(f: Func): nat {
    match f case Connected => 1 case DirectCon => 1 case Via => 2 case DirectOp => 0
  }

  function Lookup(name: string): Option<Func> {
    if SameText("connected", name) then Some(Connected)
    else if SameText("directcon", name) then Some(DirectCon)
    else if SameText("via", name) then Some(Via)
    else if SameText("directop", name) then Some(DirectOp)
    else None
  }

  /** `struct CRuleNode`; `Null` is a null pointer where an operand is missing. */
  datatype Tree = Null | NotNode(arg: Tree) | AndOr(l: Tree, r: Tree, isOr: bool) | Call(f: Func, args: seq<string>)

  const MAX_WORD := 79  // CR_MAXARGLEN - 1

  // ---------------------------------------------------------------- characters

  predicate IsAlpha(c: char) { 'a' <= c <= '~' || 'A' <= c <= '^' }

  predicate IsMaskChar(c: char) { c == '*' || c == '?' || c == '.' || c == '-' }

  predicate WordChar(c: char) { IsAlpha(c) || '0' <= c <= '9' || IsMaskChar(c) }

  predicate WordStart(c: char) { (IsAlpha(c) && c != '|') || IsMaskChar(c) }

  predicate Blank(c: char) { c == ' ' || c == '\t' }

  /** The input is NUL-terminated. */
  function At(s: string, p: nat): char { if p < |s| then s[p] else '\0' }

  function StopFrom(s: string, p: nat): (e: nat)
    requires p <= |s|
    ensures p <= e <= |s| && (At(s, e) == '\0' || At(s, e) == ':')
    ensures forall i :: p <= i < e ==> s[i] != '\0' && s[i] != ':'
    decreases |s| - p
  {
    if At(s, p) == '\0' || At(s, p) == ':' then p else StopFrom(s, p + 1)
  }

  /** Where the input ends for the scanner: the first NUL or colon. */
  function Stop(s: string): (e: nat)
    ensures e <= |s| && (At(s, e) == '\0' || At(s, e) == ':')
    ensures forall i :: 0 <= i < e ==> s[i] != '\0' && s[i] != ':'
  {
    StopFrom(s, 0)
  }

  /** The place after the end-of-input token: a colon is consumed, a NUL is not. */
  function Past(s: string): (e: nat)
    ensures e <= |s|
  {
    if At(s, Stop(s)) == ':' then Stop(s) + 1 else Stop(s)
  }

  // ---------------------------------------------------------------- scanner

  datatype Scanned = Got(tok: Token, pos: nat) | Bad

  /** `crule_gettoken`; `pending` is the half of `&&` or `||` already seen, or NUL. */
  function GetToken(s: string, p: nat, pending: char): (r: Scanned)
    requires p <= Stop(s)
    ensures r.Got? ==> Legal(s, r.tok, r.pos) && r.pos >= p && (r.tok != Word && r.tok != End ==> r.pos > p)
    decreases Stop(s) - p
  {
    hide StopFrom;
    var c := At(s, p);
    if c == '\0' then Got(End, p)
    else if Blank(c) then GetToken(s, p + 1, pending)
    else if c == '&' || c == '|' then
      if pending == '\0' then GetToken(s, p + 1, c)
      else if pending == c then Got(if c == '&' then And else Or, p + 1)
      else Bad
    else if c == '!' then Got(Not, p + 1)
    else if c == '(' then Got(Open, p + 1)
    else if c == ')' then Got(Close, p + 1)
    else if c == ',' then Got(Comma, p + 1)
    else if c == ':' then Got(End, p + 1)
    else if WordStart(c) then Got(Word, p)
    else Bad
  }

  /** A token and the place after it; the place of a word is its first character.  Nothing past the
      end of the input has been read. */
  predicate Legal(s: string, tok: Token, pos: nat) {
    && pos <= |s|
    && (tok == Word ==> pos < Stop(s) && WordStart(s[pos]))
    && (if tok == End then pos == Past(s) else pos <= Stop(s))
  }

  /** `crule_getword` */
  function WordEnd(s: string, p: nat, max: nat): (e: nat)
    requires p <= |s|
    ensures p <= e <= |s| && e <= p + max
    ensures forall i :: p <= i < e ==> WordChar(s[i])
    ensures e < |s| && e < p + max ==> !WordChar(s[e])
    decreases max
  {
    if max > 0 && WordChar(At(s, p)) then (assert p < |s|; WordEnd(s, p + 1, max - 1)) else p
  }

  /** Remaining work: characters left, and a token read but not used. */
  function Rem(s: string, tok: Token, pos: nat): nat
    requires pos <= |s|
  {
    2 * (|s| - pos) + if tok == End || tok == Word then 0 else 1
  }

  // ---------------------------------------------------------------- parser

  /** `built`: on failure, whether the caller's pointer is set to part of a tree. */
  datatype Parsed = Ok(tree: Tree, tok: Token, pos: nat) | Fail(err: Err, built: bool)
  datatype ParsedArgs = Args(args: seq<string>, tok: Token, pos: nat) | BadArgs

  /** A word is added to the argument being gathered, if there is room. */
  function Gather(cur: string, word: string): string {
    if cur == "" then word
    else if |cur| + |word| < MAX_WORD then cur + " " + word
    else cur
  }

  function WordAt(s: string, pos: nat): (w: string)
    requires Legal(s, Word, pos)
    ensures 1 <= |w| <= MAX_WORD && pos + |w| <= Stop(s)
  {
    hide Stop;
    assert !WordChar(At(s, Stop(s)));
    s[pos..WordEnd(s, pos, MAX_WORD)]
  }

  function PushArg(args: seq<string>, cur: string): seq<string> {
    if Collapse(cur) != "" then args + [Collapse(cur)] else args
  }

  /** `crule_parsearglist` */
  function ParseArgs(s: string, tok: Token, pos: nat, args: seq<string>, cur: string): (r: ParsedArgs)
    requires Legal(s, tok, pos)
    ensures r.Args? ==> Legal(s, r.tok, r.pos) && r.pos >= pos && Rem(s, r.tok, r.pos) <= Rem(s, tok, pos)
    decreases Rem(s, tok, pos)
  {
    hide Stop, Past;
    if tok == Word then
      var w := WordAt(s, pos);
      match GetToken(s, pos + |w|, '\0')
      case Bad => BadArgs
      case Got(t, p) => ParseArgs(s, t, p, args, Gather(cur, w))
    else if tok != Comma then Args(PushArg(args, cur), tok, pos)
    else
      match GetToken(s, pos, '\0')
      case Bad => BadArgs
      case Got(t, p) => ParseArgs(s, t, p, PushArg(args, cur), "")
  }

  /** `crule_parsefunction` from the opening parenthesis on. */
  function ParseCall(s: string, pos: nat, f: Func): (r: Parsed)
    requires Legal(s, Open, pos)
    ensures r.Ok? ==> Legal(s, r.tok, r.pos) && r.pos >= pos && Rem(s, r.tok, r.pos) < Rem(s, Open, pos)
  {
    hide Stop, Past;
    match GetToken(s, pos, '\0')
    case Bad => Fail(UnknownToken, false)
    case Got(t1, p1) =>
      match ParseArgs(s, t1, p1, [], "")
      case BadArgs => Fail(UnknownToken, true)
      case Args(args, t2, p2) =>
        if t2 != Close then Fail(CloseExpected, true)
        else if |args| != Arity(f) then Fail(ArgumentMismatch, true)
        else
          match GetToken(s, p2, '\0')
          case Bad => Fail(UnknownToken, true)
          case Got(t3, p3) => Ok(Call(f, args), t3, p3)
  }

  /** `crule_parsefunction` */
  function ParseFunction(s: string, pos: nat): (r: Parsed)
    requires Legal(s, Word, pos)
    ensures r.Ok? ==> Legal(s, r.tok, r.pos) && Rem(s, r.tok, r.pos) < Rem(s, Word, pos)
  {
    hide Lookup, ParseCall, Stop, Past;
    var name := WordAt(s, pos);
    match GetToken(s, pos + |name|, '\0')
    case Bad => Fail(UnknownToken, false)
    case Got(t0, p0) =>
      if t0 != Open then Fail(OpenExpected, false)
      else match Lookup(name)
        case None => Fail(UnknownFunction, false)
        case Some(f) => ParseCall(s, p0, f)
  }

  /** The operand `t` joined to what stands on its left, if anything does. */
  function Join(left: Option<Tree>, t: Tree, isOr: bool): Tree {
    if left.None? then t else AndOr(left.value, t, isOr)
  }

  /** The end of `crule_parseorexpr` and `crule_parseandexpr`. */
  function Finish(left: Option<Tree>, r: Parsed, isOr: bool): Parsed {
    if left.None? then r
    else match r
      case Ok(t, tok, pos) =>
        if t == Null then Fail(if isOr then AndExpected else PrimaryExpected, true) else Ok(Join(left, t, isOr), tok, pos)
      case Fail(err, built) => Fail(if built then err else if isOr then AndExpected else PrimaryExpected, true)
  }

  /** `crule_parseprimary`; `nested`: after a `!`. */
  function ParsePrimary(s: string, tok: Token, pos: nat, nested: bool): (r: Parsed)
    requires Legal(s, tok, pos)
    ensures r.Ok? ==> Legal(s, r.tok, r.pos) && Rem(s, r.tok, r.pos) <= Rem(s, tok, pos)
    decreases Rem(s, tok, pos), 0
  {
    hide Stop, Past;
    match tok
    case Open =>
      (match GetToken(s, pos, '\0')
       case Bad => Fail(UnknownToken, nested)
       case Got(t0, p0) =>
         match ParseOr(s, t0, p0, None)
         case Fail(err, built) => Fail(err, nested || built)
         case Ok(tree, t1, p1) =>
           if tree == Null then Fail(AndExpected, nested)
           else if t1 != Close then Fail(CloseExpected, true)
           else match GetToken(s, p1, '\0')
             case Bad => Fail(UnknownToken, true)
             case Got(t2, p2) => Ok(tree, t2, p2))
    case Not =>
      (match GetToken(s, pos, '\0')
       case Bad => Fail(UnknownToken, true)
       case Got(t0, p0) =>
         match ParsePrimary(s, t0, p0, true)
         case Fail(err, _) => Fail(err, true)
         case Ok(tree, t1, p1) => Ok(NotNode(tree), t1, p1))
    case Word =>
      var r := ParseFunction(s, pos);
      if r.Fail? then Fail(r.err, nested || r.built) else r
    case _ => if nested then Fail(PrimaryExpected, true) else Ok(Null, tok, pos)
  }

  /** `crule_parseandexpr`; `left`: the conjunction read so far. */
  function ParseAnd(s: string, tok: Token, pos: nat, left: Option<Tree>): (r: Parsed)
    requires Legal(s, tok, pos)
    ensures r.Ok? ==> Legal(s, r.tok, r.pos) && Rem(s, r.tok, r.pos) <= Rem(s, tok, pos)
    decreases Rem(s, tok, pos), 1
  {
    hide Stop, Past;
    var r := ParsePrimary(s, tok, pos, false);
    if r.Ok? && r.tok == And then
      match GetToken(s, r.pos, '\0')
      case Bad => Fail(UnknownToken, true)
      case Got(t, p) => ParseAnd(s, t, p, Some(Join(left, r.tree, false)))
    else Finish(left, r, false)
  }

  /** `crule_parseorexpr`; `left`: the disjunction read so far. */
  function ParseOr(s: string, tok: Token, pos: nat, left: Option<Tree>): (r: Parsed)
    requires Legal(s, tok, pos)
    ensures r.Ok? ==> Legal(s, r.tok, r.pos) && Rem(s, r.tok, r.pos) <= Rem(s, tok, pos)
    decreases Rem(s, tok, pos), 2
  {
    hide Stop, Past;
    var r := ParseAnd(s, tok, pos, None);
    if r.Ok? && r.tok == Or then
      match GetToken(s, r.pos, '\0')
      case Bad => Fail(UnknownToken, true)
      case Got(t, p) => ParseOr(s, t, p, Some(Join(left, r.tree, true)))
    else Finish(left, r, true)
  }

  /** `crule_parse` */
  function Parse(s: string): Parsed {
    match GetToken(s, 0, '\0')
    case Bad => Fail(UnknownToken, false)
    case Got(t, p) =>
      match ParseOr(s, t, p, None)
      case Fail(err, built) => Fail(err, built)
      case Ok(tree, tok, pos) =>
        if tree == Null then Fail(OrExpected, false)
        else if tok != End then Fail(UnexpectedToken, true)
        else Ok(tree, tok, pos)
  }

  // ---------------------------------------------------------------- evaluator

  /** An assignment of truth values to calls; whatever the servers connected make of them. */
  type Valuation = (Func, seq<string>) -> bool

  predicate NoNull(t: Tree) {
    match t
    case Null => false
    case NotNode(a) => NoNull(a)
    case AndOr(l, r, _) => NoNull(l) && NoNull(r)
    case Call(_, _) => true
  }

  /** `crule_eval`, `crule__andor`, `crule__not` */
  function Eval(t: Tree, v: Valuation): bool
    requires NoNull(t)
  {
    match t
    case NotNode(a) => !Eval(a, v)
    case AndOr(l, r, isOr) => if isOr then Eval(l, v) || Eval(r, v) else Eval(l, v) && Eval(r, v)
    case Call(f, args) => v(f, args)
  }
}
