/** `print_tree`, and that parsing undoes it. */
module CrulePrint {
  import opened Common
  import opened Masks
  import opened Crule
  import opened CruleGrammar

  function CommaJoin(args: seq<string>): string {
    if args == [] then "" else if |args| == 1 then args[0] else args[0] + "," + CommaJoin(args[1..])
  }

  /** `print_tree`; it must not be given a missing operand. */
  function Print(t: Tree): (r: string)
    requires NoNull(t)
    ensures |r| >= 2
  {
    match t
    case NotNode(a) => "!( " + (Print(a) + ") ")
    case AndOr(l, r, isOr) => "( " + (Print(l) + ((if isOr then "|| " else "&& ") + (Print(r) + ") ")))
    case Call(f, args) => Name(f) + ("(" + (CommaJoin(args) + ") "))
  }

  /** The words of an argument. */
  function Split(a: string): (r: seq<string>)
    ensures r != []
    decreases |a|
  {
    if ' ' !in a then [a]
    else
      var k := LastBlank(a);
      Split(a[..k]) + [a[k + 1..]]
  }

  function LastBlank(a: string): (k: nat)
    requires ' ' in a
    ensures k < |a| && a[k] == ' ' && ' ' !in a[k + 1..]
  {
    if a[|a| - 1] == ' ' then |a| - 1
    else
      assert a == a[..|a| - 1] + [a[|a| - 1]];
      var k := LastBlank(a[..|a| - 1]);
      assert a[k + 1..] == a[..|a| - 1][k + 1..] + [a[|a| - 1]];
      k
  }

  lemma {:induction false} SpacedSplit(a: string)
    ensures Spaced(Split(a)) == a
    decreases |a|
  {
    if ' ' in a {
      var k := LastBlank(a);
      SpacedSplit(a[..k]);
      var ws := Split(a);
      assert ws[..|ws| - 1] == Split(a[..k]);
      assert a == a[..k] + " " + a[k + 1..];
    }
  }

  /** Arguments as the parser leaves them: legal words, one space apart, short enough, collapsed. */
  predicate NormalArg(a: string) { GoodArg(Split(a)) && Collapse(a) == a }

  /** Trees with no operand missing, arity right and arguments normal. */
  predicate Complete(t: Tree) {
    match t
    case Null => false
    case NotNode(a) => Complete(a)
    case AndOr(l, r, _) => Complete(l) && Complete(r)
    case Call(f, args) => |args| == Arity(f) && forall i :: 0 <= i < |args| ==> NormalArg(args[i])
  }

  lemma {:induction false} CompleteHasNoNull(t: Tree)
    requires Complete(t)
    ensures NoNull(t)
  {
    match t
    case NotNode(a) => CompleteHasNoNull(a);
    case AndOr(l, r, _) => CompleteHasNoNull(l); CompleteHasNoNull(r);
    case Call(_, _) =>
  }

  // ---------------------------------------------------------------- the derivation that is printed

  function SplitAll(args: seq<string>): (r: seq<seq<string>>)
    ensures |r| == |args| && forall i :: 0 <= i < |args| ==> r[i] == Split(args[i])
  {
    if args == [] then [] else [Split(args[0])] + SplitAll(args[1..])
  }

  function ToOr(t: Tree): OrExpr
    requires NoNull(t)
    decreases t, 1
  {
    OrOne(AndOne(ToPrimary(t)))
  }

  function ToPrimary(t: Tree): Primary
    requires NoNull(t)
    decreases t, 0
  {
    match t
    case NotNode(a) => Negation(Group(ToOr(a)))
    case AndOr(l, r, true) => Group(OrMore(AndOne(ToPrimary(l)), ToOr(r)))
    case AndOr(l, r, false) => Group(OrOne(AndMore(ToPrimary(l), AndOne(ToPrimary(r)))))
    case Call(f, args) => Function(Name(f), SplitAll(args))
  }

  lemma TextsDiffer(a: string, b: string)
    requires |a| != |b| || (a != "" && Lower(a[0]) != Lower(b[0]))
    ensures !SameText(a, b)
  {
    if |a| == |b| { assert LowerAll(a)[0] != LowerAll(b)[0]; }
  }

  lemma LookupName(f: Func)
    ensures IsWord(Name(f)) && Lookup(Name(f)) == Some(f)
  {
    hide SameText;
    var n := Name(f);
    SameTextReflexive(n);
    if f != Connected { TextsDiffer("connected", n); }
    if f != DirectCon { TextsDiffer("directcon", n); }
    if f != Via { TextsDiffer("via", n); }
  }

  lemma SameTextReflexive(n: string)
    ensures SameText(n, n)
  {
  }

  lemma OnePrimary(q: Primary, left: Option<Tree>)
    requires GoodPrimary(q)
    ensures GoodAnd(AndOne(q)) && TreeOfAnd(AndOne(q), left) == Join(left, TreeOfPrimary(q), false)
    ensures GoodOr(OrOne(AndOne(q))) && TreeOfOr(OrOne(AndOne(q)), left) == Join(left, TreeOfPrimary(q), true)
  {
    hide GoodPrimary, TreeOfPrimary;
    assert TreeOfAnd(AndOne(q), None) == TreeOfPrimary(q);
  }

  lemma TwoPrimaries(p: Primary, q: Primary)
    requires GoodPrimary(p) && GoodPrimary(q)
    ensures GoodPrimary(Group(OrMore(AndOne(p), OrOne(AndOne(q))))) && GoodPrimary(Group(OrOne(AndMore(p, AndOne(q)))))
    ensures TreeOfPrimary(Group(OrMore(AndOne(p), OrOne(AndOne(q))))) == AndOr(TreeOfPrimary(p), TreeOfPrimary(q), true)
    ensures TreeOfPrimary(Group(OrOne(AndMore(p, AndOne(q))))) == AndOr(TreeOfPrimary(p), TreeOfPrimary(q), false)
  {
    OnePrimary(p, None);
    OnePrimary(q, Some(TreeOfPrimary(p)));
    var or, and := OrMore(AndOne(p), OrOne(AndOne(q))), AndMore(p, AndOne(q));
    assert GoodOr(or) && GoodAnd(and) && GoodOr(OrOne(and));
    assert TreeOfOr(or, None) == TreeOfOr(OrOne(AndOne(q)), Some(TreeOfPrimary(p)));
    assert TreeOfOr(OrOne(and), None) == TreeOfAnd(and, None) == TreeOfAnd(AndOne(q), Some(TreeOfPrimary(p)));
  }

  lemma {:induction false} ToPrimaryGood(t: Tree)
    requires Complete(t) && NoNull(t)
    ensures GoodPrimary(ToPrimary(t)) && TreeOfPrimary(ToPrimary(t)) == t
  {
    hide Lookup, IsWord, GoodArg, Collapse;
    match t
    case NotNode(a) =>
      ToPrimaryGood(a);
      OnePrimary(ToPrimary(a), None);
      assert GoodPrimary(Group(ToOr(a))) && TreeOfPrimary(Group(ToOr(a))) == a;
    case AndOr(l, r, isOr) =>
      ToPrimaryGood(l);
      ToPrimaryGood(r);
      TwoPrimaries(ToPrimary(l), ToPrimary(r));
    case Call(f, args) =>
      LookupName(f);
      var ws := SplitAll(args);
      forall i | 0 <= i < |args| ensures ArgValues(ws)[i] == args[i] { SpacedSplit(args[i]); }
      assert ArgValues(ws) == args;
  }

  // ---------------------------------------------------------------- reading what was printed

  /** `s` holds `t` at `i`. */
  predicate Holds(s: string, i: nat, t: string) { i + |t| <= |s| && s[i..i + |t|] == t }

  lemma HoldsParts(s: string, i: nat, a: string, b: string)
    requires Holds(s, i, a + b)
    ensures Holds(s, i, a) && Holds(s, i + |a|, b)
  {
    assert s[i..i + |a|] == s[i..i + |a + b|][..|a|];
    assert s[i + |a|..i + |a| + |b|] == s[i..i + |a + b|][|a|..];
  }

  lemma HoldsChar(s: string, i: nat, t: string, k: nat)
    requires Holds(s, i, t) && k < |t|
    ensures i + k < |s| && s[i + k] == t[k]
  {
    assert s[i + k] == s[i..i + |t|][k];
  }

  lemma ReadHeld(s: string, i: nat, t: string)
    requires t != "" && !Blank(t[0]) && Holds(s, i, t)
    ensures ReadText(s, i, t) == Some(i + |t|)
  {
    HoldsChar(s, i, t, 0);
  }

  lemma BlankThenHeld(s: string, i: nat, t: string)
    requires i < |s| && Blank(s[i]) && t != "" && !Blank(t[0]) && Holds(s, i + 1, t)
    ensures ReadText(s, i, t) == Some(i + 1 + |t|)
  {
    HoldsChar(s, i + 1, t, 0);
  }

  lemma TextAfterBlank(s: string, i: nat, t: string)
    requires i < |s| && Blank(s[i])
    ensures ReadText(s, i, t) == ReadText(s, i + 1, t) && ReadWord(s, i, t) == ReadWord(s, i + 1, t)
  {
    assert Skip(s, i) == Skip(s, i + 1);
  }

  /** A blank in front of a derivation does not matter. */
  lemma PrimaryAfterBlank(s: string, i: nat, p: Primary)
    requires i < |s| && Blank(s[i])
    ensures ReadPrimary(s, i, p) == ReadPrimary(s, i + 1, p)
  {
    hide ReadText, ReadWord, ReadArgs, ReadOr;
    match p
    case Function(name, _) => TextAfterBlank(s, i, name);
    case Negation(_) => TextAfterBlank(s, i, "!");
    case Group(_) => TextAfterBlank(s, i, "(");
  }

  lemma {:induction false} ReadWordsAppend(s: string, i: nat, ws: seq<string>, w: string)
    requires i <= |s| && ReadWords(s, i, ws).Some?
    ensures ReadWords(s, i, ws + [w]) == ReadWord(s, ReadWords(s, i, ws).value, w)
    decreases |ws|
  {
    hide ReadWord;
    if ws == [] {
      assert ws + [w] == [w];
      assert ReadWords(s, i, [w]) == if ReadWord(s, i, w).None? then None else ReadWords(s, ReadWord(s, i, w).value, []);
    } else {
      assert (ws + [w])[1..] == ws[1..] + [w];
      ReadWordsAppend(s, ReadWord(s, i, ws[0]).value, ws[1..], w);
    }
  }

  lemma WordHeld(s: string, i: nat, w: string)
    requires IsWord(w) && Holds(s, i, w) && (i + |w| < |s| ==> !WordChar(s[i + |w|]))
    ensures ReadWord(s, i, w) == Some(i + |w|)
    ensures i > 0 && Blank(s[i - 1]) ==> ReadWord(s, i - 1, w) == Some(i + |w|)
  {
    ReadHeld(s, i, w);
    if i > 0 && Blank(s[i - 1]) { BlankThenHeld(s, i - 1, w); }
  }

  lemma {:induction false} WordsHeld(s: string, i: nat, ws: seq<string>)
    requires ws != [] && (forall k :: 0 <= k < |ws| ==> IsWord(ws[k])) && Holds(s, i, Spaced(ws))
    requires i + |Spaced(ws)| < |s| ==> !WordChar(s[i + |Spaced(ws)|])
    ensures ReadWords(s, i, ws) == Some(i + |Spaced(ws)|)
    decreases |ws|
  {
    hide IsWord, WordChar, ReadWord, Holds, ReadWords, Blank;
    BlankIsNotWord();
    var n := |ws| - 1;
    var w := ws[n];
    assert ws == ws[..n] + [w];
    if n == 0 {
      WordHeld(s, i, w);
      NoWords(s, i);
      assert ws == [] + [w];
      ReadWordsAppend(s, i, [], w);
    } else {
      var a := Spaced(ws[..n]);
      assert Spaced(ws) == a + (" " + w);
      HoldsParts(s, i, a, " " + w);
      HoldsParts(s, i + |a|, " ", w);
      HoldsChar(s, i + |a|, " ", 0);
      WordsHeld(s, i, ws[..n]);
      WordHeld(s, i + |a| + 1, w);
      ReadWordsAppend(s, i, ws[..n], w);
    }
  }

  lemma NoWords(s: string, i: nat)
    requires i <= |s|
    ensures ReadWords(s, i, []) == Some(i)
  {
  }

  lemma BlankIsNotWord()
    ensures !WordChar(' ') && !WordChar(',') && !WordChar(')') && !WordChar('(') && Blank(' ')
    ensures !Blank(',') && !Blank(')') && !Blank('(') && !Blank('!') && !Blank('&') && !Blank('|')
  {
  }

  lemma NormalWords(a: string)
    requires NormalArg(a)
    ensures var ws := Split(a); Spaced(ws) == a && ws != [] && forall k :: 0 <= k < |ws| ==> IsWord(ws[k])
  {
    SpacedSplit(a);
  }

  lemma ReadArgsMore(s: string, i: nat, args: seq<string>)
    requires |args| > 1 && i <= |s| && ReadWords(s, i, Split(args[0])).Some?
    requires ReadText(s, ReadWords(s, i, Split(args[0])).value, ",").Some?
    ensures ReadArgs(s, i, SplitAll(args)) ==
      ReadArgs(s, ReadText(s, ReadWords(s, i, Split(args[0])).value, ",").value, SplitAll(args[1..]))
  {
    hide ReadWords, ReadText, Split;
    assert SplitAll(args)[1..] == SplitAll(args[1..]);
  }

  lemma ReadArgsFew(s: string, i: nat, args: seq<string>)
    requires |args| <= 1 && i <= |s|
    ensures ReadArgs(s, i, SplitAll(args)) == if args == [] then Some(i) else ReadWords(s, i, Split(args[0]))
  {
    hide ReadWords, ReadText, Split;
  }

  lemma {:induction false} ArgsHeld(s: string, i: nat, args: seq<string>)
    requires (forall k :: 0 <= k < |args| ==> NormalArg(args[k]))
    requires Holds(s, i, CommaJoin(args)) && i + |CommaJoin(args)| < |s| && s[i + |CommaJoin(args)|] == ')'
    ensures ReadArgs(s, i, SplitAll(args)) == Some(i + |CommaJoin(args)|)
    decreases |args|
  {
    hide IsWord, WordChar, ReadWords, ReadText, NormalArg, Blank, Holds, Split, SplitAll, ReadArgs;
    BlankIsNotWord();
    if |args| <= 1 {
      ReadArgsFew(s, i, args);
      if |args| == 1 {
        NormalWords(args[0]);
        WordsHeld(s, i, Split(args[0]));
      }
    } else {
      var a, rest := args[0], CommaJoin(args[1..]);
      NormalWords(a);
      assert a + "," + rest == a + ("," + rest);
      HoldsParts(s, i, a, "," + rest);
      HoldsParts(s, i + |a|, ",", rest);
      HoldsChar(s, i + |a|, ",", 0);
      WordsHeld(s, i, Split(a));
      ReadHeld(s, i + |a|, ",");
      ArgsHeld(s, i + |a| + 1, args[1..]);
      ReadArgsMore(s, i, args);
    }
  }

  /** A token and the blank printed behind it. */
  lemma TokenHeld(s: string, i: nat, t: string)
    requires t != "" && !Blank(t[0]) && Holds(s, i, t + " ")
    ensures ReadText(s, i, t) == Some(i + |t|) && i + |t| < |s| && s[i + |t|] == ' '
    ensures i > 0 && Blank(s[i - 1]) ==> ReadText(s, i - 1, t) == Some(i + |t|)
  {
    HoldsParts(s, i, t, " ");
    HoldsChar(s, i + |t|, " ", 0);
    ReadHeld(s, i, t);
    if i > 0 && Blank(s[i - 1]) { BlankThenHeld(s, i - 1, t); }
  }

  /** The text printed for a tree is read as its derivation, up to the blank at the end. */
  lemma {:induction false} PrintedIsRead(s: string, i: nat, t: Tree)
    requires Complete(t) && NoNull(t) && Holds(s, i, Print(t))
    ensures ReadPrimary(s, i, ToPrimary(t)) == Some(i + |Print(t)| - 1)
    ensures s[i + |Print(t)| - 1] == ' '
    decreases t
  {
    match t
    case NotNode(a) => NegationIsRead(s, i, a);
    case AndOr(l, r, isOr) => OperatorIsRead(s, i, t);
    case Call(f, args) => CallIsRead(s, i, f, args);
  }

  lemma {:induction false} NegationIsRead(s: string, i: nat, a: Tree)
    requires Complete(a) && NoNull(a) && Holds(s, i, Print(NotNode(a)))
    ensures ReadPrimary(s, i, ToPrimary(NotNode(a))) == Some(i + |Print(NotNode(a))| - 1)
    ensures s[i + |Print(NotNode(a))| - 1] == ' '
    decreases NotNode(a), 0
  {
    hide ReadText, Holds, Blank, Print;
    BlankIsNotWord();
    var k := i + 3 + |Print(a)|;
    PrintOfNot(a);
    NegationHeld(s, i, Print(a));
    ReadHeld(s, i, "!");
    TokenHeld(s, i + 1, "(");
    PrintedIsRead(s, i + 3, a);
    PrimaryAfterBlank(s, i + 2, ToPrimary(a));
    TokenHeld(s, k, ")");
    assert ReadOr(s, i + 2, ToOr(a)) == ReadPrimary(s, i + 2, ToPrimary(a));
    assert ReadPrimary(s, i + 1, Group(ToOr(a))) == Some(k + 1);
  }

  lemma NegationHeld(s: string, i: nat, x: string)
    requires Holds(s, i, "!( " + (x + ") "))
    ensures Holds(s, i, "!") && Holds(s, i + 1, "(" + " ") && Holds(s, i + 3, x) && Holds(s, i + 3 + |x|, ")" + " ")
  {
    hide Holds;
    assert "!( " == "!" + ("(" + " ") && ") " == ")" + " ";
    HoldsParts(s, i, "!( ", x + ") ");
    HoldsParts(s, i, "!", "(" + " ");
    HoldsParts(s, i + 3, x, ") ");
  }

  lemma PrintOfNot(a: Tree)
    requires NoNull(a)
    ensures Print(NotNode(a)) == "!( " + (Print(a) + ") ")
  {
  }

  lemma PrintOfAndOr(t: Tree)
    requires t.AndOr? && NoNull(t)
    ensures Print(t) == "( " + (Print(t.l) + ((if t.isOr then "|| " else "&& ") + (Print(t.r) + ") ")))
  {
  }

  lemma OperatorHeld(s: string, i: nat, x: string, op: string, y: string)
    requires Holds(s, i, "( " + (x + ((op + " ") + (y + ") "))))
    ensures Holds(s, i, "(" + " ") && Holds(s, i + 2, x) && Holds(s, i + 2 + |x|, op + " ")
    ensures var j := i + 2 + |x| + |op| + 1; Holds(s, j, y) && Holds(s, j + |y|, ")" + " ")
  {
    hide Holds;
    assert "( " == "(" + " " && ") " == ")" + " ";
    HoldsParts(s, i, "( ", x + ((op + " ") + (y + ") ")));
    HoldsParts(s, i + 2, x, (op + " ") + (y + ") "));
    HoldsParts(s, i + 2 + |x|, op + " ", y + ") ");
    HoldsParts(s, i + 2 + |x| + |op| + 1, y, ") ");
  }

  lemma {:induction false} OperatorIsRead(s: string, i: nat, t: Tree)
    requires t.AndOr? && Complete(t) && NoNull(t) && Holds(s, i, Print(t))
    ensures ReadPrimary(s, i, ToPrimary(t)) == Some(i + |Print(t)| - 1)
    ensures s[i + |Print(t)| - 1] == ' '
    decreases t, 0
  {
    hide ReadText, Holds, Blank, ReadPrimary, Print, ToPrimary;
    BlankIsNotWord();
    var op := if t.isOr then "||" else "&&";
    var j := i + 2 + |Print(t.l)|;
    var k := j + 3 + |Print(t.r)|;
    PrintOfAndOr(t);
    assert (if t.isOr then "|| " else "&& ") == op + " ";
    OperatorHeld(s, i, Print(t.l), op, Print(t.r));
    TokenHeld(s, i, "(");
    PrintedIsRead(s, i + 2, t.l);
    TokenHeld(s, j, op);
    PrintedIsRead(s, j + 3, t.r);
    TokenHeld(s, k, ")");
    assert |Print(t)| == k + 2 - i;
    assert Blank(s[i + 1]) && Blank(s[j - 1]) && Blank(s[j + 2]) && Blank(s[k - 1]);
    PrimaryAfterBlank(s, i + 1, ToPrimary(t.l));
    PrimaryAfterBlank(s, j + 2, ToPrimary(t.r));
    GroupIsRead(s, i, t, j);
  }

  /** The pieces of a printed operator, put together. */
  lemma GroupIsRead(s: string, i: nat, t: Tree, j: nat)
    requires t.AndOr? && NoNull(t) && i + 2 <= j && j + 2 <= |s|
    requires ReadText(s, i, "(") == Some(i + 1) && ReadPrimary(s, i + 1, ToPrimary(t.l)) == Some(j - 1)
    requires ReadText(s, j - 1, if t.isOr then "||" else "&&") == Some(j + 2)
    requires ReadPrimary(s, j + 2, ToPrimary(t.r)).Some?
    ensures ReadPrimary(s, i, ToPrimary(t)) == ReadText(s, ReadPrimary(s, j + 2, ToPrimary(t.r)).value, ")")
  {
    hide ReadText, Print;
    var l, r := ToPrimary(t.l), ToPrimary(t.r);
    if t.isOr {
      assert ReadOr(s, j + 2, ToOr(t.r)) == ReadPrimary(s, j + 2, r);
      assert ReadAnd(s, i + 1, AndOne(l)) == Some(j - 1);
      assert ReadOr(s, i + 1, OrMore(AndOne(l), ToOr(t.r))) == ReadPrimary(s, j + 2, r);
    } else {
      assert ReadAnd(s, j + 2, AndOne(r)) == ReadPrimary(s, j + 2, r);
      assert ReadAnd(s, i + 1, AndMore(l, AndOne(r))) == ReadPrimary(s, j + 2, r);
      assert ReadOr(s, i + 1, OrOne(AndMore(l, AndOne(r)))) == ReadPrimary(s, j + 2, r);
    }
  }

  lemma CallIsRead(s: string, i: nat, f: Func, args: seq<string>)
    requires Complete(Call(f, args)) && Holds(s, i, Print(Call(f, args)))
    ensures var t := Call(f, args);
      ReadPrimary(s, i, ToPrimary(t)) == Some(i + |Print(t)| - 1) && s[i + |Print(t)| - 1] == ' '
  {
    hide ReadText, ReadWord, ReadArgs, IsWord, WordChar, Holds, Blank, CommaJoin, NormalArg, Lookup;
    BlankIsNotWord();
    LookupName(f);
    var n, a := Name(f), CommaJoin(args);
    CallHeld(s, i, n, a);
    WordHeld(s, i, n);
    ReadHeld(s, i + |n|, "(");
    ArgsHeld(s, i + |n| + 1, args);
    ReadHeld(s, i + |n| + 1 + |a|, ")");
  }

  lemma CallHeld(s: string, i: nat, n: string, a: string)
    requires Holds(s, i, n + ("(" + (a + ") ")))
    ensures var j := i + |n| + 1 + |a|;
      && Holds(s, i, n) && Holds(s, i + |n|, "(") && Holds(s, i + |n| + 1, a) && Holds(s, j, ")")
      && j + 1 < |s| && s[i + |n|] == '(' && s[j] == ')' && s[j + 1] == ' '
  {
    hide Holds;
    HoldsParts(s, i, n, "(" + (a + ") "));
    HoldsParts(s, i + |n|, "(", a + ") ");
    HoldsParts(s, i + |n| + 1, a, ") ");
    assert ") " == ")" + " ";
    HoldsParts(s, i + |n| + 1 + |a|, ")", " ");
    HoldsChar(s, i + |n|, "(", 0);
    HoldsChar(s, i + |n| + 1 + |a|, ") ", 0);
    HoldsChar(s, i + |n| + 1 + |a|, ") ", 1);
  }

  /** Parsing what `print_tree` writes for a complete tree gives back that tree. */
  lemma ParseUndoesPrint(t: Tree)
    requires Complete(t)
    ensures NoNull(t) && Parse(Print(t)).Ok? && Parse(Print(t)).tree == t
  {
    hide ReadPrimary, GoodPrimary, TreeOfPrimary, Print, Parse;
    CompleteHasNoNull(t);
    var s, o := Print(t), ToOr(t);
    assert s[0..0 + |s|] == s;
    PrintedIsRead(s, 0, t);
    ToPrimaryGood(t);
    assert ReadOr(s, 0, o) == Some(|s| - 1);
    assert Skip(s, |s| - 1) == |s|;
    RuleParsed(s, o, (f, args) => true);
  }
}
