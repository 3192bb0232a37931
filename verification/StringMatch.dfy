/** `match`: whether a string is one of those a mask stands for.

    The routine skips a backslash before any character, lets an escaped `?` match anything, and
    takes an escaped `*` at the end of the mask for a wildcard.  It is modelled on the text, place
    by place.  On `Regular` masks it decides the language of the mask, and there `mmatch` is sound
    for it; the failures elsewhere are stated one by one. */
module StringMatch {
  import opened Masks

  // ---------------------------------------------------------------- the specification

  /** The places of the loop; `mt`, `nt` are `m_tmp` and `n_tmp`. */
  datatype Place = Place(m: nat, n: nat, wild: bool, mt: nat, nt: nat)

  function PastStars(mask: string, m: nat): (k: nat)
    requires m <= |mask|
    ensures m <= k <= |mask| && (k < |mask| ==> mask[k] != '*')
    ensures forall i :: m <= i < k ==> mask[i] == '*'
    decreases |mask| - m
  {
    if m < |mask| && mask[m] == '*' then PastStars(mask, m + 1) else m
  }

  function TakeStars(mask: string, p: Place): (q: Place)
    requires p.m <= |mask|
    ensures p.m <= q.m <= |mask| && q.n == p.n
  {
    if p.m < |mask| && mask[p.m] == '*' then
      var k := PastStars(mask, p.m);
      Place(k, p.n, true, k, p.n)
    else p
  }

  /** A `*`, escaped or not and not in first place, followed by nothing but `?` up to the end. */
  predicate StarAtEnd(mask: string) {
    exists k :: 0 < k < |mask| && mask[k] == '*' && forall i :: k < i < |mask| ==> mask[i] == '?'
  }

  /** The comparison of two characters; an end is a NUL. */
  predicate Agree(mask: string, name: string, m: nat, n: nat)
    requires m <= |mask|
  {
    if m == |mask| then n >= |name|
    else mask[m] == '?' || (n < |name| && Lower(mask[m]) == Lower(name[n]))
  }

  predicate InRange(mask: string, name: string, p: Place) {
    p.m <= |mask| && p.mt <= |mask| && p.nt <= p.n <= |name| + 1
  }

  /** The lower half of the loop; `back`: just come back from the end of the mask. */
  function MatchRest(mask: string, name: string, p: Place, back: bool): bool
    requires InRange(mask, name, p) && p.nt <= |name| && (if back then p.m == p.mt else p.m < |mask|)
    decreases 2 * (|name| + 2 - p.nt) + (if back then 1 else 0), |mask| - p.m, 0
  {
    if Agree(mask, name, p.m, p.n) then
      MatchFrom(mask, name, p.(m := if p.m < |mask| then p.m + 1 else p.m, n := if p.n < |name| then p.n + 1 else p.n))
    else p.wild && MatchFrom(mask, name, p.(m := p.mt, n := p.nt + 1, nt := p.nt + 1))
  }

  /** The loop of `match` from its top. */
  function MatchFrom(mask: string, name: string, p: Place): bool
    requires InRange(mask, name, p)
    decreases 2 * (|name| + 2 - p.nt), |mask| - p.m, 1
  {
    var q := TakeStars(mask, p);
    var m := if q.m < |mask| && mask[q.m] == '\\' then q.m + 1 else q.m;
    if m == |mask| then
      if q.n >= |name| || StarAtEnd(mask) then true
      else q.wild && MatchRest(mask, name, q.(m := q.mt, n := q.nt + 1, nt := q.nt + 1), true)
    else if q.n >= |name| then PastStars(mask, m) == |mask|
    else MatchRest(mask, name, q.(m := m), false)
  }

  /** `match(mask, name) == 0` */
  predicate StringMatches(mask: string, name: string) { MatchFrom(mask, name, Place(0, 0, false, 0, 0)) }

  // ---------------------------------------------------------------- what it decides

  /** An escaped `?` matches any character. */
  function Loose(a: seq<Piece>): (r: seq<Piece>)
    ensures |r| == |a| && forall i :: 0 <= i < |a| ==> r[i] == (if a[i] == Lit('?') then Any else a[i])
  {
    if a == [] then [] else [if a[0] == Lit('?') then Any else a[0]] + Loose(a[1..])
  }

  /** What the routine takes the mask for, place by place. */
  function Pieces(mask: string): seq<Piece> { Loose(Tokens(mask)) }

  /** A backslash that escapes no wildcard, except in front of `\?`, where it is taken for itself. */
  predicate Stray(mask: string, i: nat)
    requires i < |mask|
  {
    mask[i] == '\\' && !(i + 1 < |mask| && Wild(mask[i + 1])) &&
    !(i + 2 < |mask| && mask[i + 1] == '\\' && mask[i + 2] == '?')
  }

  /** An escape does not come right after a star, and an escaped star is not followed by nothing but `*`
      or nothing but `?` up to the end. */
  predicate TameAt(mask: string, i: nat)
    requires i < |mask|
  {
    && (i > 0 && mask[i - 1] == '*' ==> i > 1 && mask[i - 2] == '\\')
    && (i + 1 < |mask| && mask[i + 1] == '*' ==> !AllOf(mask, i + 2, '*') && !AllOf(mask, i + 2, '?'))
  }

  predicate HasStray(mask: string) { exists i :: 0 <= i < |mask| && Stray(mask, i) }

  predicate Tame(mask: string) { forall i :: 0 <= i < |mask| && mask[i] == '\\' ==> TameAt(mask, i) }

  predicate Regular(mask: string) { Tame(mask) && !HasStray(mask) }

  predicate AllOf(mask: string, k: nat, c: char) { forall i :: k <= i < |mask| ==> mask[i] == c }

  /** Place `m` is not between a backslash and the character it escapes. */
  predicate Boundary(mask: string, m: nat) {
    m <= |mask| && (m > 0 && mask[m - 1] == '\\' ==> m > 1 && m < |mask| && mask[m - 2] == '\\' && mask[m] == '?')
  }

  lemma PiecesEnd(mask: string)
    ensures Pieces(mask[|mask|..]) == []
  {
  }

  /** One piece of the mask, and the place behind it. */
  lemma PiecesStep(mask: string, m: nat)
    requires Regular(mask) && Boundary(mask, m) && m < |mask|
    ensures mask[m] == '\\' ==> m + 1 < |mask|
    ensures var k := if mask[m] == '\\' then m + 2 else m + 1;
      && Boundary(mask, k)
      && Pieces(mask[m..]) == [PieceAt(mask, m)] + Pieces(mask[k..])
  {
    RegularHere(mask, m);
    var s, k := mask[m..], if mask[m] == '\\' then m + 2 else m + 1;
    assert s[k - m..] == mask[k..];
    if mask[m] == '\\' && mask[m + 1] == '\\' {
      TwoBackslashes(s);
    } else {
      assert Tokens(s)[1..] == Tokens(mask[k..]);
    }
  }

  lemma TwoBackslashes(s: string)
    requires |s| >= 3 && s[0] == s[1] == '\\' && s[2] == '?'
    ensures Pieces(s) == [Lit('|')] + Pieces(s[2..])
  {
    var t, u := s[1..], s[2..];
    assert t[2..] == s[3..] == u[1..];
    assert Tokens(s) == [Lit('|')] + Tokens(t);
    assert Tokens(t) == [Lit('?')] + Tokens(s[3..]);
    assert Tokens(u) == [Any] + Tokens(s[3..]);
    assert Tokens(s)[1..] == Tokens(t) && Tokens(t)[1..] == Tokens(s[3..]) && Tokens(u)[1..] == Tokens(s[3..]);
  }

  function PieceAt(mask: string, m: nat): Piece
    requires m < |mask| && (mask[m] == '\\' ==> m + 1 < |mask|)
  {
    if mask[m] == '\\' then (if mask[m + 1] == '?' then Any else Lit(Lower(mask[m + 1])))
    else if mask[m] == '*' then Star else if mask[m] == '?' then Any else Lit(Lower(mask[m]))
  }

  lemma RegularHere(mask: string, i: nat)
    requires Regular(mask) && i < |mask|
    ensures mask[i] == '\\' ==> TameAt(mask, i) && !Stray(mask, i)
  {
  }

  /** No backslash comes right after a star that is not escaped. */
  lemma NotEscapedNext(mask: string, m: nat)
    requires Regular(mask) && Boundary(mask, m) && m < |mask| && mask[m] == '*'
    ensures m + 1 < |mask| ==> mask[m + 1] != '\\'
  {
    if m + 1 < |mask| { RegularHere(mask, m + 1); }
  }

  /** A star in front of nothing but `?` is not escaped. */
  lemma NotEscaped(mask: string, k: nat)
    requires Regular(mask) && 0 < k < |mask| && mask[k] == '*' && AllOf(mask, k + 1, '?')
    ensures mask[k - 1] != '\\'
  {
    RegularHere(mask, k - 1);
  }

  lemma {:induction false} PiecesOfStars(mask: string, m: nat, a: seq<Piece>, i: nat)
    requires Regular(mask) && Boundary(mask, m) && i <= |a| && Pieces(mask[m..]) == a[i..]
    ensures var k := PastStars(mask, m);
      && Boundary(mask, k) && i + (k - m) == AfterStars(a, i) && Pieces(mask[k..]) == a[AfterStars(a, i)..]
    ensures m < |mask| && mask[m] == '*' ==> var k := PastStars(mask, m); k < |mask| ==> mask[k] != '\\'
    decreases |mask| - m
  {
    hide Pieces;
    if m == |mask| {
      PiecesEnd(mask);
    } else {
      PiecesStep(mask, m);
      assert a[i..][0] == a[i];
      assert a[i..][1..] == a[i + 1..];
      if mask[m] == '*' {
        PiecesOfStars(mask, m + 1, a, i + 1);
        NotEscapedNext(mask, m);
      }
    }
  }

  // ---------------------------------------------------------------- the loop on regular masks

  /** The places in the text and those in the pieces: `i` for `m`, `j` for `mt`. */
  ghost predicate Fits(mask: string, name: string, p: Place, a: seq<Piece>, i: nat, j: nat) {
    && Boundary(mask, p.m) && Boundary(mask, p.mt) && j <= i <= |a|
    && Pieces(mask[p.m..]) == a[i..] && Pieces(mask[p.mt..]) == a[j..]
    && p.nt <= p.n <= |name| && p.n - p.nt == i - j && StarFree(a[j..i])
    && (if p.wild then j > 0 && a[j - 1] == Star && (p.mt < |mask| ==> mask[p.mt] != '*' && mask[p.mt] != '\\')
        else j == 0 && p.nt == 0)
  }

  ghost predicate Waiting(name: string, p: Place, a: seq<Piece>, i: nat, j: nat)
    requires j <= |a| && i <= |a| && p.n <= |name|
  {
    Pending(a, Literals(name), i, p.n, p.wild, j, p.nt)
  }

  lemma StarsFit(mask: string, name: string, p: Place, a: seq<Piece>, i: nat, j: nat) returns (i': nat, j': nat)
    requires Regular(mask) && Fits(mask, name, p, a, i, j)
    ensures var q := TakeStars(mask, p); Fits(mask, name, q, a, i', j') && Waiting(name, p, a, i, j) == Waiting(name, q, a, i', j')
    ensures i' < |a| ==> a[i'] != Star
  {
    hide Pieces, Regular, Pending;
    i', j' := i, j;
    PiecesOfStars(mask, p.m, a, i);
    if p.m < |mask| && mask[p.m] == '*' {
      i' := AfterStars(a, i);
      j' := i';
      PendingAfterStars(a, Literals(name), i, p.n, p.wild, j, p.nt);
      assert a[i'..i'] == [];
    }
  }

  /** The text of a regular mask that ends in a star ends in the piece. */
  lemma {:induction false} EndIsStar(mask: string, m: nat, k: nat)
    requires Regular(mask) && Boundary(mask, m) && m <= k < |mask| && k > 0 && mask[k] == '*'
    requires forall i :: k < i < |mask| ==> mask[i] == '?'
    ensures var a := Pieces(mask[m..]); exists i :: 0 <= i < |a| && a[i] == Star && forall l :: i < l < |a| ==> a[l] == Any
    decreases k - m
  {
    hide Pieces;
    PiecesStep(mask, m);
    var a := Pieces(mask[m..]);
    NotEscaped(mask, k);
    var next := if mask[m] == '\\' then m + 2 else m + 1;
    if m == k {
      AllAny(mask, m + 1);
      assert a[0] == Star && forall l :: 0 < l < |a| ==> a[l] == a[1..][l - 1];
    } else {
      EndIsStar(mask, next, k);
      var b := Pieces(mask[next..]);
      var i :| 0 <= i < |b| && b[i] == Star && forall l :: i < l < |b| ==> b[l] == Any;
      assert a[i + 1] == Star && forall l :: i + 1 < l < |a| ==> a[l] == b[l - 1];
    }
  }

  lemma {:induction false} AllAny(mask: string, m: nat)
    requires Regular(mask) && Boundary(mask, m) && AllOf(mask, m, '?')
    ensures forall l :: 0 <= l < |Pieces(mask[m..])| ==> Pieces(mask[m..])[l] == Any
    decreases |mask| - m
  {
    hide Pieces, Regular;
    if m == |mask| { PiecesEnd(mask); } else { PiecesStep(mask, m); AllAny(mask, m + 1); }
  }

  lemma {:induction false} AnysUnderStar(x: seq<Piece>, s: string)
    requires (forall l :: 0 <= l < |x| ==> x[l] == Any) && |x| <= |s|
    ensures Covers([Star] + x, Literals(s))
    ensures |x| == |s| ==> Covers(x, Literals(s))
    decreases |s|
  {
    assert ([Star] + x)[1..] == x;
    if s != [] {
      assert Literals(s)[1..] == Literals(s[1..]);
      if |x| < |s| { AnysUnderStar(x, s[1..]); } else { AnysUnderStar(x[1..], s[1..]); }
    }
  }

  lemma LiteralsBehind(s: string, n: nat)
    requires n <= |s|
    ensures Literals(s)[n..] == Literals(s[n..])
  {
  }

  /** With a star at its end the mask has nothing but `?` after the last star. */
  lemma AnysBehind(mask: string, name: string, p: Place, a: seq<Piece>, j: nat)
    requires Regular(mask) && Pieces(mask) == a && Fits(mask, name, p, a, |a|, j) && StarAtEnd(mask)
    ensures p.wild && forall l :: j <= l < |a| ==> a[l] == Any
  {
    hide Pieces, Regular;
    var k :| 0 < k < |mask| && mask[k] == '*' && forall i :: k < i < |mask| ==> mask[i] == '?';
    assert mask[0..] == mask;
    EndIsStar(mask, 0, k);
    var i :| 0 <= i < |a| && a[i] == Star && forall l :: i < l < |a| ==> a[l] == Any;
    forall l | j <= l < |a| ensures a[l] != Star { assert a[l] == a[j..|a|][l - j]; }
  }

  /** The mask has run out in front of a star at its end: the name may go on. */
  lemma OpenEndMatches(mask: string, name: string, p: Place, a: seq<Piece>, j: nat)
    requires Regular(mask) && Pieces(mask) == a && Fits(mask, name, p, a, |a|, j) && StarAtEnd(mask) && p.n < |name|
    ensures Waiting(name, p, a, |a|, j)
  {
    hide Pieces, Regular, StarAtEnd;
    AnysBehind(mask, name, p, a, j);
    AnysUnderStar(a[j..], name[p.nt + 1..]);
    LiteralsBehind(name, p.nt + 1);
  }

  /** The mask has run out and the name goes on: back to the last star, one character further. */
  lemma BackFits(mask: string, name: string, p: Place, a: seq<Piece>, j: nat)
    requires Regular(mask) && Fits(mask, name, p, a, |a|, j) && p.n < |name|
    ensures !p.wild ==> !Waiting(name, p, a, |a|, j)
    ensures p.wild ==> var q := p.(m := p.mt, n := p.nt + 1, nt := p.nt + 1);
      Fits(mask, name, q, a, j, j) && Waiting(name, p, a, |a|, j) == Waiting(name, q, a, j, j)
  {
    hide Pieces, Regular, Pending;
    PendingBacktrack(a, Literals(name), |a|, p.n, p.wild, j, p.nt);
    assert a[j..j] == [];
  }

  lemma MismatchFits(mask: string, name: string, p: Place, a: seq<Piece>, i: nat, j: nat)
    requires Regular(mask) && Fits(mask, name, p, a, i, j) && p.n < |name|
    requires i < |a| ==> a[i] != Star && !TokenCovers(a[i], Lit(Lower(name[p.n])))
    ensures !p.wild ==> !Waiting(name, p, a, i, j)
    ensures p.wild ==> var q := p.(m := p.mt, n := p.nt + 1, nt := p.nt + 1);
      Fits(mask, name, q, a, j, j) && Waiting(name, p, a, i, j) == Waiting(name, q, a, j, j)
  {
    hide Pieces, Regular, Pending;
    PendingMismatch(a, Literals(name), i, p.n, p.wild, j, p.nt);
    assert a[j..j] == [];
  }

  /** A piece and a character agree: both move on, to the place `k` behind the piece. */
  lemma AgreementFits(mask: string, name: string, p: Place, a: seq<Piece>, i: nat, j: nat, k: nat)
    requires Regular(mask) && Fits(mask, name, p, a, i, j) && p.n < |name| && p.m < |mask|
    requires i < |a| && a[i] != Star && TokenCovers(a[i], Lit(Lower(name[p.n])))
    requires k == if mask[p.m] == '\\' then p.m + 2 else p.m + 1
    ensures var q := p.(m := k, n := p.n + 1);
      Fits(mask, name, q, a, i + 1, j) && Waiting(name, p, a, i, j) == Waiting(name, q, a, i + 1, j)
  {
    hide Pieces, Regular, Pending;
    PendingStep(a, Literals(name), i, p.n, p.wild, j, p.nt);
    PiecesStep(mask, p.m);
    assert a[i..][1..] == a[i + 1..];
  }

  /** The piece at the place reached, and the character the routine compares for it. */
  lemma AgreeIsCovers(mask: string, name: string, p: Place, a: seq<Piece>, i: nat, j: nat, m: nat)
    requires Regular(mask) && Fits(mask, name, p, a, i, j) && p.m < |mask| && mask[p.m] != '*' && p.n < |name|
    requires m == if mask[p.m] == '\\' then p.m + 1 else p.m
    ensures i < |a| && m < |mask| && a[i] != Star
    ensures Agree(mask, name, m, p.n) <==> TokenCovers(a[i], Lit(Lower(name[p.n])))
  {
    hide Pieces;
    PiecesStep(mask, p.m);
    assert a[i..][0] == a[i];
  }

  /** The name has run out and the mask has not. */
  lemma NameEnds(mask: string, name: string, p: Place, a: seq<Piece>, i: nat, j: nat)
    requires Regular(mask) && Fits(mask, name, p, a, i, j) && p.m < |mask| && mask[p.m] != '*' && p.n == |name|
    ensures !Waiting(name, p, a, i, j)
    ensures mask[p.m] == '\\' ==> p.m + 1 < |mask| && PastStars(mask, p.m + 1) != |mask|
  {
    PiecesStep(mask, p.m);
    assert a[i..][0] == a[i];
    PendingAtEnd(a, Literals(name), i, p.wild, j, p.nt);
  }

  lemma {:induction false} MatchFromMeans(mask: string, name: string, p: Place, a: seq<Piece>, i: nat, j: nat)
    requires Regular(mask) && Pieces(mask) == a && Fits(mask, name, p, a, i, j)
    ensures MatchFrom(mask, name, p) == Waiting(name, p, a, i, j)
    decreases 2 * (|name| + 2 - p.nt), |mask| - p.m, 1
  {
    hide Pieces, Regular, Waiting, Fits, StarAtEnd, MatchRest;
    FitsInRange(mask, name, p, a, i, j);
    var q := TakeStars(mask, p);
    var i', j' := StarsFit(mask, name, p, a, i, j);
    FitsInRange(mask, name, q, a, i', j');
    if q.m == |mask| {
      MaskEnds(mask, name, q, a, i', j');
      if q.n < |name| && !StarAtEnd(mask) && q.wild {
        BackFits(mask, name, q, a, j');
        MatchRestMeans(mask, name, q.(m := q.mt, n := q.nt + 1, nt := q.nt + 1), a, j', j', true, q.mt);
      }
    } else {
      BackslashEscapes(mask, q.m);
      if q.n == |name| {
        NameEnds(mask, name, q, a, i', j');
      } else {
        MatchRestMeans(mask, name, q, a, i', j', false, if mask[q.m] == '\\' then q.m + 1 else q.m);
      }
    }
  }

  lemma BackslashEscapes(mask: string, m: nat)
    requires Regular(mask) && m < |mask|
    ensures mask[m] == '\\' ==> m + 1 < |mask|
  {
    RegularHere(mask, m);
  }

  lemma FitsInRange(mask: string, name: string, p: Place, a: seq<Piece>, i: nat, j: nat)
    requires Fits(mask, name, p, a, i, j)
    ensures InRange(mask, name, p) && p.n <= |name| && p.n - p.nt == i - j
    ensures p.m == |mask| <==> i == |a|
    ensures p.wild && p.mt < |mask| ==> mask[p.mt] != '*' && mask[p.mt] != '\\'
  {
    if p.m == |mask| { PiecesEnd(mask); } else { assert Tokens(mask[p.m..]) != []; }
  }

  lemma MaskEnds(mask: string, name: string, p: Place, a: seq<Piece>, i: nat, j: nat)
    requires Regular(mask) && Pieces(mask) == a && Fits(mask, name, p, a, i, j) && p.m == |mask|
    ensures i == |a| && (p.n == |name| || StarAtEnd(mask) ==> Waiting(name, p, a, i, j))
    ensures p.n < |name| && !p.wild ==> !Waiting(name, p, a, i, j)
  {
    hide Pieces, Regular, StarAtEnd;
    PiecesEnd(mask);
    if p.n < |name| {
      BackFits(mask, name, p, a, j);
      if StarAtEnd(mask) { OpenEndMatches(mask, name, p, a, j); }
    }
  }

  /** `m` is `p.m`, or the place of the escaped character. */
  lemma {:induction false} MatchRestMeans(mask: string, name: string, p: Place, a: seq<Piece>, i: nat, j: nat, back: bool, m: nat)
    requires Regular(mask) && Pieces(mask) == a && Fits(mask, name, p, a, i, j)
    requires if back then m == p.m == p.mt && i == j && p.wild else p.m < |mask| && p.n < |name| && mask[p.m] != '*'
    requires !back ==> m == (if mask[p.m] == '\\' then p.m + 1 else p.m) < |mask|
    requires p.n == |name| ==> i == |a|
    ensures m <= |mask| && MatchRest(mask, name, p.(m := m), back) == Waiting(name, p, a, i, j)
    decreases 2 * (|name| + 2 - p.nt) + (if back then 1 else 0), |mask| - m, 0
  {
    hide Pieces, Regular, Waiting, Fits, MatchFrom;
    FitsInRange(mask, name, p, a, i, j);
    if p.n == |name| {
      MatchFromMeans(mask, name, p, a, i, j);
    } else {
      if m < |mask| { AgreeIsCovers(mask, name, p, a, i, j, m); }
      if m < |mask| && Agree(mask, name, m, p.n) {
        AgreementFits(mask, name, p, a, i, j, m + 1);
        MatchFromMeans(mask, name, p.(m := m + 1, n := p.n + 1), a, i + 1, j);
      } else {
        MismatchFits(mask, name, p, a, i, j);
        if p.wild { MatchFromMeans(mask, name, p.(m := p.mt, n := p.nt + 1, nt := p.nt + 1), a, j, j); }
      }
    }
  }

  /** On a regular mask `match` decides the language of its pieces. */
  lemma MatchIsLanguage(mask: string, name: string)
    requires Regular(mask)
    ensures StringMatches(mask, name) == Matches(Pieces(mask), name)
  {
    var a, p := Pieces(mask), Place(0, 0, false, 0, 0);
    assert mask[0..] == mask && a[0..] == a && a[0..0] == [];
    MatchFromMeans(mask, name, p, a, 0, 0);
    LiteralsBehind(name, 0);
    assert name[0..] == name;
    MatchesIsCoveringLiterals(a, name);
  }

  // ---------------------------------------------------------------- stray backslashes

  /** A string the routine accepts at once: each character of the mask as it takes it. */
  function Shortest(mask: string, m: nat): string
    requires m <= |mask|
    decreases |mask| - m
  {
    if m == |mask| then ""
    else if mask[m] == '*' then Shortest(mask, m + 1)
    else if mask[m] == '\\' then (if m + 1 == |mask| then "" else [mask[m + 1]] + Shortest(mask, m + 2))
    else [mask[m]] + Shortest(mask, m + 1)
  }

  lemma {:induction false} ShortestStars(mask: string, m: nat)
    requires m <= |mask|
    ensures Shortest(mask, PastStars(mask, m)) == Shortest(mask, m)
    decreases |mask| - m
  {
    if m < |mask| && mask[m] == '*' { ShortestStars(mask, m + 1); }
  }

  lemma {:induction false} ShortestMatches(mask: string, name: string, p: Place)
    requires InRange(mask, name, p) && p.n <= |name| && name[p.n..] == Shortest(mask, p.m)
    ensures MatchFrom(mask, name, p)
    decreases |mask| - p.m
  {
    hide MatchFrom, MatchRest, StarAtEnd, PastStars;
    FromTheTop(mask, name, p);
    ShortestStars(mask, p.m);
    var q := TakeStars(mask, p);
    SameStars(mask, p);
    var m := if q.m < |mask| && mask[q.m] == '\\' then q.m + 1 else q.m;
    assert name[p.n..] == Shortest(mask, q.m);
    if m < |mask| {
      assert name[p.n..][0] == mask[m] && name[p.n..][1..] == Shortest(mask, m + 1);
      assert name[p.n..][1..] == name[p.n + 1..];
      FromTheMiddle(mask, name, q.(m := m), false);
      ShortestMatches(mask, name, q.(m := m + 1, n := q.n + 1));
    }
  }

  lemma SameStars(mask: string, p: Place)
    requires p.m <= |mask|
    ensures TakeStars(mask, p) ==
      if p.m < |mask| && mask[p.m] == '*' then (var k := PastStars(mask, p.m); Place(k, p.n, true, k, p.n)) else p
    ensures !(p.m < |mask| && mask[p.m] == '*') ==> PastStars(mask, p.m) == p.m
  {
  }

  predicate StrayFrom(mask: string, m: nat) { exists i :: m <= i < |mask| && Stray(mask, i) }

  /** The language has no string as short, if there is a stray backslash. */
  lemma {:induction false} ShortestIsShort(mask: string, m: nat)
    requires m <= |mask|
    ensures NonStars(Tokens(mask[m..])) >= |Shortest(mask, m)| + if StrayFrom(mask, m) then 1 else 0
    decreases |mask| - m
  {
    if m < |mask| {
      var s, k := mask[m..], Width(mask, m);
      StrayStep(mask, m);
      TokensStep(mask, m);
      ShortestIsShort(mask, m + k);
      hide Tokens, NonStars, Stray, StrayFrom;
    }
  }

  /** How many characters both readings take up before they are in step again. */
  function Width(mask: string, m: nat): (k: nat)
    requires m < |mask|
    ensures 1 <= k <= |mask| - m
  {
    if mask[m] != '\\' || m + 1 == |mask| then 1
    else if m + 2 < |mask| && mask[m + 1] == '\\' && Wild(mask[m + 2]) then 3
    else 2
  }

  lemma StrayStep(mask: string, m: nat)
    requires m < |mask|
    ensures StrayFrom(mask, m) <==> Stray(mask, m) || StrayFrom(mask, m + Width(mask, m)) || (Width(mask, m) == 2 && Stray(mask, m + 1))
  {
    if i :| m <= i < |mask| && Stray(mask, i) { assert i == m || i == m + 1 || i == m + 2 || i >= m + Width(mask, m); }
  }

  lemma TokensStep(mask: string, m: nat)
    requires m < |mask|
    ensures var k := Width(mask, m);
      NonStars(Tokens(mask[m..])) - |Shortest(mask, m)| ==
        NonStars(Tokens(mask[m + k..])) - |Shortest(mask, m + k)| +
        (if Stray(mask, m) then 1 else 0)
    ensures Width(mask, m) == 2 && !Stray(mask, m) ==> !Stray(mask, m + 1)
  {
    var k, s := Width(mask, m), mask[m..];
    assert s[k..] == mask[m + k..];
    if Escapes(s) {
      assert Tokens(s)[1..] == Tokens(s[2..]);
    } else if mask[m] == '\\' && m + 1 < |mask| {
      var t := s[1..];
      assert t == mask[m + 1..] && t[k - 1..] == s[k..];
      assert Tokens(s)[1..] == Tokens(t) && Tokens(t)[1..] == Tokens(s[k..]);
    } else {
      assert Tokens(s)[1..] == Tokens(s[1..]);
    }
  }

  lemma {:induction false} NonStarsOfLoose(a: seq<Piece>)
    ensures NonStars(Loose(a)) == NonStars(a)
  {
    if a != [] {
      NonStarsOfLoose(a[1..]);
      assert Loose(a)[1..] == Loose(a[1..]);
    }
  }

  /** The routine decides the language of the mask. */
  ghost predicate Faithful(mask: string) { forall s :: StringMatches(mask, s) <==> Matches(Pieces(mask), s) }

  /** No mask with a stray backslash is matched faithfully: there is a string accepted too soon. */
  lemma StrayIsUnfaithful(mask: string)
    requires HasStray(mask)
    ensures var s := Shortest(mask, 0); StringMatches(mask, s) && !Matches(Pieces(mask), s)
  {
    hide MatchFrom, Tokens, NonStars, Stray;
    var s, a := Shortest(mask, 0), Pieces(mask);
    assert mask[0..] == mask && s[0..] == s;
    ShortestMatches(mask, s, Place(0, 0, false, 0, 0));
    ShortestIsShort(mask, 0);
    NonStarsOfLoose(Tokens(mask));
    MatchesIsCoveringLiterals(a, s);
    if Matches(a, s) { CoversNeedsRoom(a, Literals(s)); }
  }

  /** A tame mask is matched faithfully if and only if it has no stray backslash. */
  lemma TameIsFaithful(mask: string)
    requires Tame(mask)
    ensures Faithful(mask) <==> !HasStray(mask)
  {
    hide StringMatches, Pieces, Tame, HasStray, Matches;
    if HasStray(mask) {
      StrayIsUnfaithful(mask);
    } else {
      forall s ensures StringMatches(mask, s) <==> Matches(Pieces(mask), s) { MatchIsLanguage(mask, s); }
    }
  }

  // ---------------------------------------------------------------- covering and matching

  lemma {:induction false} LooseCovers(a: seq<Piece>, b: seq<Piece>)
    requires Covers(a, b)
    ensures Covers(Loose(a), Loose(b))
    decreases |a| + |b|
  {
    if a != [] {
      assert Loose(a)[1..] == Loose(a[1..]);
      if b != [] { assert Loose(b)[1..] == Loose(b[1..]); }
      if a[0] == Star {
        if Covers(a[1..], b) { LooseCovers(a[1..], b); } else { LooseCovers(a, b[1..]); }
      } else {
        LooseCovers(a[1..], b[1..]);
      }
    }
  }

  /** Among regular masks one that covers another matches every string the other matches. */
  lemma CoversIsSoundForMatch(a: string, b: string, s: string)
    requires Regular(a) && Regular(b) && MaskCovers(a, b) && StringMatches(b, s)
    ensures StringMatches(a, s)
  {
    hide StringMatches, Regular;
    MatchIsLanguage(a, s);
    MatchIsLanguage(b, s);
    LooseCovers(Tokens(a), Tokens(b));
    CoversIsSound(Pieces(a), Pieces(b), s);
  }

  lemma {:induction false} CollapseLoose(a: seq<Piece>, star: bool, outer: bool)
    ensures CollapseTokens(Loose(CollapseTokens(a, star)), outer) == CollapseTokens(Loose(a), star || outer)
  {
    if a != [] {
      var rest := Loose(a[1..]);
      assert Loose(a)[1..] == rest;
      if a[0] == Star {
        CollapseLoose(a[1..], true, outer);
      } else {
        var c := CollapseTokens(a[1..], a[0] == Any && star);
        var x := if a[0] == Lit('?') then Any else a[0];
        assert Loose([a[0]] + c) == [x] + Loose(c);
        assert ([x] + Loose(c))[1..] == Loose(c);
        if a[0] == Any {
          CollapseLoose(a[1..], star, outer);
        } else {
          CollapseLoose(a[1..], false, (star || outer) && x == Any);
          if star { LooseStar([a[0]] + c, outer); }
        }
      }
    } else if star {
      assert Loose([Star]) == [Star] && [Star][1..] == [];
    }
  }

  lemma LooseStar(c: seq<Piece>, outer: bool)
    ensures CollapseTokens(Loose([Star] + c), outer) == CollapseTokens(Loose(c), true)
  {
    assert Loose([Star] + c) == [Star] + Loose(c);
    assert ([Star] + Loose(c))[1..] == Loose(c);
  }

  /** `collapse` does not change what `match` accepts, if the mask is regular before and after. */
  lemma CollapseKeepsMatches(mask: string, s: string)
    requires Regular(mask) && Regular(Collapse(mask))
    ensures StringMatches(Collapse(mask), s) == StringMatches(mask, s)
  {
    hide StringMatches, Regular;
    var a, c := Pieces(mask), Pieces(Collapse(mask));
    MatchIsLanguage(mask, s);
    MatchIsLanguage(Collapse(mask), s);
    TokensOfCollapse(mask, false);
    CollapseLoose(Tokens(mask), false, false);
    CollapseKeepsLanguage(a, false, s);
    CollapseKeepsLanguage(c, false, s);
    assert [] + a == a && [] + c == c;
  }

  // ---------------------------------------------------------------- where it fails

  lemma FromTheTop(mask: string, name: string, p: Place)
    requires InRange(mask, name, p)
    ensures MatchFrom(mask, name, p) ==
      var q := if p.m < |mask| && mask[p.m] == '*' then (var k := PastStars(mask, p.m); Place(k, p.n, true, k, p.n)) else p;
      var m := if q.m < |mask| && mask[q.m] == '\\' then q.m + 1 else q.m;
      if m == |mask| then
        if q.n >= |name| || StarAtEnd(mask) then true
        else q.wild && MatchRest(mask, name, q.(m := q.mt, n := q.nt + 1, nt := q.nt + 1), true)
      else if q.n >= |name| then PastStars(mask, m) == |mask|
      else MatchRest(mask, name, q.(m := m), false)
  {
    hide MatchRest, PastStars, StarAtEnd;
  }

  lemma FromTheMiddle(mask: string, name: string, p: Place, back: bool)
    requires InRange(mask, name, p) && p.nt <= |name| && (if back then p.m == p.mt else p.m < |mask|)
    ensures MatchRest(mask, name, p, back) ==
      if Agree(mask, name, p.m, p.n) then
        MatchFrom(mask, name, p.(m := if p.m < |mask| then p.m + 1 else p.m, n := if p.n < |name| then p.n + 1 else p.n))
      else p.wild && MatchFrom(mask, name, p.(m := p.mt, n := p.nt + 1, nt := p.nt + 1))
  {
    hide MatchFrom, Agree;
  }

  predicate NoWild(mask: string) { forall i :: 0 <= i < |mask| ==> !Wild(mask[i]) }

  /** Every backslash in a mask without wildcards is skipped. */
  lemma {:induction false} BackslashSkipped(mask: string, name: string, m: nat, n: nat)
    requires NoWild(mask) && m <= |mask| && n <= |name| && MatchFrom(mask, name, Place(m, n, false, 0, 0))
    ensures |name| - n <= |mask| - m
    ensures '\\' in mask[m..] ==> |name| - n < |mask| - m
    decreases |mask| - m
  {
    if m < |mask| {
      var k := if mask[m] == '\\' then m + 1 else m;
      assert k < |mask| ==> !Wild(mask[k]);
      if k < |mask| && n < |name| {
        assert mask[m..] == mask[m..k + 1] + mask[k + 1..];
        BackslashSkipped(mask, name, k + 1, n + 1);
      }
    }
  }

  lemma {:induction false} LiteralLanguage(mask: string, s: string)
    requires NoWild(mask)
    ensures Matches(Pieces(mask), s) <==> SameText(mask, s)
  {
    if mask != "" {
      assert Pieces(mask)[0] == Lit(Lower(mask[0])) && Pieces(mask)[1..] == Pieces(mask[1..]);
      if s != [] {
        LiteralLanguage(mask[1..], s[1..]);
        assert LowerAll(mask)[1..] == LowerAll(mask[1..]) && LowerAll(s)[1..] == LowerAll(s[1..]);
        assert LowerAll(mask) == [Lower(mask[0])] + LowerAll(mask[1..]) && LowerAll(s) == [Lower(s[0])] + LowerAll(s[1..]);
      }
    }
  }

  ghost predicate OnlyItself(mask: string) { forall s :: StringMatches(mask, s) <==> SameText(mask, s) }

  /** A mask without wildcards matches exactly its own text if and only if it has no backslash. */
  lemma LiteralMaskIsItself(mask: string)
    requires NoWild(mask)
    ensures OnlyItself(mask) <==> '\\' !in mask
  {
    if '\\' in mask {
      assert mask[0..] == mask && SameText(mask, mask);
      if StringMatches(mask, mask) { BackslashSkipped(mask, mask, 0, 0); }
    } else {
      forall s ensures StringMatches(mask, s) <==> SameText(mask, s) {
        MatchIsLanguage(mask, s);
        LiteralLanguage(mask, s);
      }
    }
  }

  /** A backslash before another character: `a?b` covers `a\\b`, which matches "ab". */
  lemma BackslashIsLost()
    ensures MaskCovers("a?b", "a\\b") && StringMatches("a\\b", "ab") && !StringMatches("a?b", "ab")
  {
    hide MatchFrom, MatchRest;
    var b := "a\\b";
    assert Tokens("a?b") == [Lit('a'), Any, Lit('b')];
    assert Tokens(b) == [Lit('a'), Lit('|'), Lit('b')];
    FromTheTop(b, "ab", Place(0, 0, false, 0, 0));
    FromTheMiddle(b, "ab", Place(0, 0, false, 0, 0), false);
    FromTheTop(b, "ab", Place(1, 1, false, 0, 0));
    FromTheMiddle(b, "ab", Place(2, 1, false, 0, 0), false);
    FromTheTop(b, "ab", Place(3, 2, false, 0, 0));
    MatchIsLanguage("a?b", "ab");
    assert Pieces("a?b") == [Lit('a'), Any, Lit('b')];
  }

  /** An escape right after a star: `*\?` covers `a\?`, which matches "ab". */
  lemma EscapeAfterStarIsMissed()
    ensures Regular("a\\?") && MaskCovers("*\\?", "a\\?")
    ensures StringMatches("a\\?", "ab") && !StringMatches("*\\?", "ab")
  {
    hide MatchFrom, MatchRest;
    var a, b := "*\\?", "a\\?";
    assert Tokens(a) == [Star, Lit('?')];
    assert Tokens(b) == [Lit('a'), Lit('?')];
    assert Covers([Lit('?')], [Lit('?')]) && [Star, Lit('?')][1..] == [Lit('?')] && [Lit('a'), Lit('?')][1..] == [Lit('?')];
    assert Pieces(b) == [Lit('a'), Any];
    MatchIsLanguage(b, "ab");
    FromTheTop(a, "ab", Place(0, 0, false, 0, 0));
    FromTheMiddle(a, "ab", Place(2, 0, true, 1, 0), false);
    FromTheTop(a, "ab", Place(3, 1, true, 1, 0));
    FromTheMiddle(a, "ab", Place(1, 1, true, 1, 1), true);
    FromTheTop(a, "ab", Place(1, 2, true, 1, 2));
  }

  /** An escaped star at the end: `a?` covers `a\*`, which matches "a" and "a*bc". */
  lemma EscapedStarAtEndIsWild()
    ensures MaskCovers("a?", "a\\*") && Regular("a?")
    ensures StringMatches("a\\*", "a") && !StringMatches("a?", "a")
    ensures StringMatches("a\\*", "a*bc") && !StringMatches("a?", "a*bc")
  {
    hide MatchFrom, MatchRest;
    var a, b := "a?", "a\\*";
    assert Tokens(a) == [Lit('a'), Any] && Pieces(a) == [Lit('a'), Any];
    assert Tokens(b) == [Lit('a'), Lit('*')];
    MatchIsLanguage(a, "a");
    MatchIsLanguage(a, "a*bc");
    FromTheTop(b, "a", Place(0, 0, false, 0, 0));
    FromTheMiddle(b, "a", Place(0, 0, false, 0, 0), false);
    FromTheTop(b, "a", Place(1, 1, false, 0, 0));
    FromTheTop(b, "a*bc", Place(0, 0, false, 0, 0));
    FromTheMiddle(b, "a*bc", Place(0, 0, false, 0, 0), false);
    FromTheTop(b, "a*bc", Place(1, 1, false, 0, 0));
    FromTheMiddle(b, "a*bc", Place(2, 1, false, 0, 0), false);
    FromTheTop(b, "a*bc", Place(3, 2, false, 0, 0));
    assert b[2] == '*';
  }

  // ---------------------------------------------------------------- the code

  method EndsInStar(mask: string) returns (r: bool)
    ensures r == StarAtEnd(mask)
  {
    var k := |mask| - 1;
    while k > 0 && mask[k] == '?'
      invariant -1 <= k < |mask| && (|mask| > 0 ==> k >= 0)
      invariant forall i :: k < i < |mask| ==> mask[i] == '?'
    {
      k := k - 1;
    }
    return k > 0 && mask[k] == '*';
  }

  method SkipStars(mask: string, m: nat) returns (k: nat)
    requires m <= |mask|
    ensures k == PastStars(mask, m)
  {
    k := m;
    while k < |mask| && mask[k] == '*'
      invariant m <= k <= |mask| && PastStars(mask, m) == PastStars(mask, k)
    {
      k := k + 1;
    }
  }

  /** `match` */
  method Match(mask: string, name: string) returns (r: bool)
    ensures r == StringMatches(mask, name)
    ensures Regular(mask) ==> r == Matches(Pieces(mask), name)
  {
    hide StarAtEnd, Regular, Pieces, Matches, MatchFrom, MatchRest, Agree, PastStars;
    if Regular(mask) { MatchIsLanguage(mask, name); }
    var p := Place(0, 0, false, 0, 0);
    while true
      invariant InRange(mask, name, p) && MatchFrom(mask, name, p) == StringMatches(mask, name)
      decreases 2 * (|name| + 2 - p.nt), |mask| - p.m
    {
      FromTheTop(mask, name, p);
      if p.m < |mask| && mask[p.m] == '*' {
        var k := SkipStars(mask, p.m);
        p := Place(k, p.n, true, k, p.n);
      }
      ghost var back := false;
      if p.m < |mask| && mask[p.m] == '\\' { p := p.(m := p.m + 1); }
      if p.m == |mask| {
        if p.n >= |name| { return true; }
        var open := EndsInStar(mask);
        if open { return true; }
        if !p.wild { return false; }
        p, back := p.(m := p.mt, n := p.nt + 1, nt := p.nt + 1), true;
      } else if p.n >= |name| {
        var k := SkipStars(mask, p.m);
        return k == |mask|;
      }
      FromTheMiddle(mask, name, p, back);
      if Agree(mask, name, p.m, p.n) {
        p := p.(m := if p.m < |mask| then p.m + 1 else p.m, n := if p.n < |name| then p.n + 1 else p.n);
      } else {
        if !p.wild { return false; }
        p := p.(m := p.mt, n := p.nt + 1, nt := p.nt + 1);
      }
    }
  }
}
