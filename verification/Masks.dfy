/** Wildcard masks: the language of a mask, the `mmatch` cover test, and `collapse`.

    A mask is scanned into tokens, with letters folded to lower case: `*`, `?`, or a literal
    character (`\*` and `\?` are literals).  `Matches` is the language a mask stands for, `Covers`
    the recursive meaning of `mmatch`; method `MMatch` is the backtracking loop. */
module Masks {

  datatype Piece = Star | Any | Lit(c: char)

  /** The lower-case table: RFC 1459, so that `[`, `\`, `]` and `^` fold to `{`, `|`, `}` and `~`, and
      the letters of ISO 8859-1. */
  function Lower(c: char): char {
    var n := c as int;
    if 65 <= n <= 94 || 0xC0 <= n <= 0xD6 || 0xD8 <= n <= 0xDE then (n + 32) as char else c
  }

  function LowerAll(s: string): (r: string)
    ensures |r| == |s|
    ensures forall i :: 0 <= i < |s| ==> r[i] == Lower(s[i])
  {
    if s == [] then [] else [Lower(s[0])] + LowerAll(s[1..])
  }

  /** `ircd_strcmp(a, b) == 0`. */
  predicate SameText(a: string, b: string) { LowerAll(a) == LowerAll(b) }

  predicate Wild(c: char) { c == '*' || c == '?' }

  predicate Escapes(s: string) { |s| >= 2 && s[0] == '\\' && Wild(s[1]) }

  function Tokens(s: string): seq<Piece> {
    if s == [] then []
    else if Escapes(s) then [Lit(s[1])] + Tokens(s[2..])
    else [if s[0] == '*' then Star else if s[0] == '?' then Any else Lit(Lower(s[0]))] + Tokens(s[1..])
  }

  // ---------------------------------------------------------------- covering

  /** What one token of the wider mask accepts from the narrower one. */
  predicate TokenCovers(t: Piece, u: Piece) {
    t == u || (t == Any && u != Star)
  }

  predicate Covers(a: seq<Piece>, b: seq<Piece>)
    decreases |a| + |b|
  {
    if a == [] then b == []
    else if a[0] == Star then Covers(a[1..], b) || (b != [] && Covers(a, b[1..]))
    else b != [] && TokenCovers(a[0], b[0]) && Covers(a[1..], b[1..])
  }

  /** `mmatch(a, b) == 0` for masks as they are written. */
  predicate MaskCovers(a: string, b: string) { Covers(Tokens(a), Tokens(b)) }

  lemma {:induction false} CoversReflexive(a: seq<Piece>)
    ensures Covers(a, a)
  {
    if a != [] {
      CoversReflexive(a[1..]);
      if a[0] == Star { assert Covers(a, a[1..]) by { assert Covers(a[1..], a[1..]); } }
    }
  }

  lemma {:induction false} CoversTransitive(a: seq<Piece>, b: seq<Piece>, c: seq<Piece>)
    requires Covers(a, b) && Covers(b, c)
    ensures Covers(a, c)
    decreases |a| + |b| + |c|
  {
    if a == [] {
    } else if a[0] == Star {
      if Covers(a[1..], b) {
        CoversTransitive(a[1..], b, c);
      } else if b[0] == Star {
        if Covers(b[1..], c) {
          CoversTransitive(a, b[1..], c);
        } else {
          CoversTransitive(a, b, c[1..]);
        }
      } else {
        CoversTransitive(a, b[1..], c[1..]);
      }
    } else {
      CoversTransitive(a[1..], b[1..], c[1..]);
    }
  }

  // ---------------------------------------------------------------- language

  /** The strings a mask stands for, with no reference to `Covers`. */
  predicate Matches(a: seq<Piece>, s: string)
    decreases |a| + |s|
  {
    if a == [] then s == []
    else match a[0]
      case Star => Matches(a[1..], s) || (s != [] && Matches(a, s[1..]))
      case Any => s != [] && Matches(a[1..], s[1..])
      case Lit(c) => s != [] && Lower(s[0]) == c && Matches(a[1..], s[1..])
  }

  predicate MaskMatches(mask: string, s: string) { Matches(Tokens(mask), s) }

  function Literals(s: string): (r: seq<Piece>)
    ensures |r| == |s| && forall i :: 0 <= i < |s| ==> r[i] == Lit(Lower(s[i]))
  {
    if s == [] then [] else [Lit(Lower(s[0]))] + Literals(s[1..])
  }

  lemma {:induction false} MatchesIsCoveringLiterals(a: seq<Piece>, s: string)
    ensures Matches(a, s) == Covers(a, Literals(s))
    decreases |a| + |s|
  {
    if a != [] {
      if a[0] == Star { MatchesIsCoveringLiterals(a[1..], s); }
      if s != [] {
        assert Literals(s)[1..] == Literals(s[1..]);
        MatchesIsCoveringLiterals(if a[0] == Star then a else a[1..], s[1..]);
      }
    }
  }

  /** A covering mask stands for a superset. */
  lemma CoversIsSound(a: seq<Piece>, b: seq<Piece>, s: string)
    requires Covers(a, b) && Matches(b, s)
    ensures Matches(a, s)
  {
    MatchesIsCoveringLiterals(a, s);
    MatchesIsCoveringLiterals(b, s);
    CoversTransitive(a, b, Literals(s));
  }

  lemma {:induction false} StarMatchesAll(s: string)
    ensures Matches([Star], s)
  {
    if s != [] { StarMatchesAll(s[1..]); }
  }

  lemma {:induction false} EndsInC(s: string)
    ensures Matches([Star, Lit('c')], s) ==> Matches([Any, Star], s)
  {
    assert [Star, Lit('c')][1..] == [Lit('c')] && [Any, Star][1..] == [Star];
    if s == [] {
      assert !Matches([Lit('c')], s);
    } else {
      StarMatchesAll(s[1..]);
    }
  }

  /** The test is not complete: `?*` stands for every string `*c` stands for, and is not found
      to cover it, even though both masks are collapsed. */
  lemma CoversIsNotComplete()
    ensures Collapsed([Any, Star]) && Collapsed([Star, Lit('c')])
    ensures Includes([Any, Star], [Star, Lit('c')])
    ensures !Covers([Any, Star], [Star, Lit('c')])
  {
    forall s ensures Matches([Star, Lit('c')], s) ==> Matches([Any, Star], s) { EndsInC(s); }
  }

  // ---------------------------------------------------------------- where the test is complete

  /** The literals are characters that folding leaves alone, as those of scanned text are. */
  predicate Folded(a: seq<Piece>) { forall i :: 0 <= i < |a| && a[i].Lit? ==> Lower(a[i].c) == a[i].c }

  lemma {:induction false} TokensFolded(s: string)
    ensures Folded(Tokens(s))
  {
    if s != [] { TokensFolded(s[if Escapes(s) then 2 else 1..]); }
  }

  /** A string of the mask that has `f` in the place of every wildcard. */
  function Sample(a: seq<Piece>, f: char): (r: string)
    ensures |r| == |a|
  {
    if a == [] then [] else [if a[0].Lit? then a[0].c else f] + Sample(a[1..], f)
  }

  lemma {:induction false} SampleMatches(a: seq<Piece>, f: char)
    requires Folded(a)
    ensures Matches(a, Sample(a, f))
  {
    if a != [] {
      SampleMatches(a[1..], f);
      assert Sample(a, f)[1..] == Sample(a[1..], f);
      if a[0] == Star { assert Matches(a, Sample(a[1..], f)) by { assert Matches(a[1..], Sample(a[1..], f)); } }
    }
  }

  /** With `f` a character that `a` does not name, one string of `b` decides. */
  lemma {:induction false} SampleDecides(a: seq<Piece>, b: seq<Piece>, f: char)
    requires Lit(f) !in a && Lower(f) == f && Folded(b) && (Any !in a || Star !in b)
    requires Matches(a, Sample(b, f))
    ensures Covers(a, b)
    decreases |a| + |b|
  {
    if a != [] {
      if b != [] { assert Sample(b, f)[1..] == Sample(b[1..], f); }
      if a[0] != Star {
        assert a[0] in a && b[0] in b;
        SampleDecides(a[1..], b[1..], f);
      } else if Matches(a[1..], Sample(b, f)) {
        SampleDecides(a[1..], b, f);
      } else {
        SampleDecides(a, b[1..], f);
      }
    }
  }

  /** `a` stands for every string `b` stands for. */
  ghost predicate Includes(a: seq<Piece>, b: seq<Piece>) { forall s :: Matches(b, s) ==> Matches(a, s) }

  lemma CoversIncludes(a: seq<Piece>, b: seq<Piece>)
    requires Covers(a, b)
    ensures Includes(a, b)
  {
    forall s | Matches(b, s) ensures Matches(a, s) { CoversIsSound(a, b, s); }
  }

  /** If the first mask has no `?`, or the second no `*`, the test is exact. */
  lemma CoversIsComplete(a: seq<Piece>, b: seq<Piece>, f: char)
    requires Lit(f) !in a && Lower(f) == f && Folded(b) && (Any !in a || Star !in b)
    ensures Covers(a, b) <==> Includes(a, b)
  {
    if Covers(a, b) { CoversIncludes(a, b); }
    if Includes(a, b) {
      SampleMatches(b, f);
      SampleDecides(a, b, f);
    }
  }

  // ---------------------------------------------------------------- text and tokens

  /** Before every wildcard both texts have a backslash or neither has. */
  predicate EscapesAgree(a: string, b: string) {
    |a| == |b| && forall i :: 0 <= i < |a| - 1 && Wild(a[i + 1]) ==> (a[i] == '\\' <==> b[i] == '\\')
  }

  /** Equal for `ircd_strcmp`, but only one of them has a backslash before some wildcard: `\` folds to `|`. */
  predicate Twins(a: string, b: string) { SameText(a, b) && !EscapesAgree(a, b) }

  lemma SameTextAt(a: string, b: string, k: nat)
    requires SameText(a, b) && k <= |a|
    ensures |a| == |b| && SameText(a[k..], b[k..])
    ensures forall i :: 0 <= i < |a| ==> Lower(a[i]) == Lower(b[i]) && (Wild(a[i]) ==> a[i] == b[i])
    ensures forall i :: 0 <= i < |a| && a[i] == '\\' ==> b[i] == '\\' || b[i] == '|'
  {
    assert |a| == |b|;
    forall i | 0 <= i < |a| ensures Lower(a[i]) == Lower(b[i]) {
      assert Lower(a[i]) == LowerAll(a)[i] == LowerAll(b)[i] == Lower(b[i]);
    }
    assert LowerAll(a[k..]) == LowerAll(a)[k..] == LowerAll(b)[k..] == LowerAll(b[k..]);
  }

  lemma SameTextBothWays(a: string, b: string)
    requires SameText(a, b)
    ensures SameText(b, a) && EscapesAgree(a, b) == EscapesAgree(b, a)
  {
    SameTextAt(a, b, 0);
    SameTextAt(b, a, 0);
  }

  lemma {:induction false} SameTextSameTokens(a: string, b: string)
    requires SameText(a, b) && EscapesAgree(a, b)
    ensures Tokens(a) == Tokens(b)
    decreases |a|
  {
    SameTextAt(a, b, 0);
    if a != [] {
      assert |a| >= 2 && Wild(a[1]) ==> a[1] == b[1];
      SameTextAt(b, a, 0);
      var k := if Escapes(a) then 2 else 1;
      SameTextAt(a, b, k);
      assert forall i :: 0 <= i < |a| - k ==> a[k..][i] == a[i + k] && b[k..][i] == b[i + k];
      SameTextSameTokens(a[k..], b[k..]);
    }
  }

  /** The literal characters of a mask, in order. */
  function Literally(a: seq<Piece>): string {
    if a == [] then [] else (if a[0].Lit? then [a[0].c] else []) + Literally(a[1..])
  }

  lemma {:induction false} CoversLiterally(a: seq<Piece>, b: seq<Piece>)
    requires Covers(a, b)
    ensures |Literally(a)| <= |Literally(b)|
    ensures |Literally(a)| == |Literally(b)| ==> Literally(a) == Literally(b)
    decreases |a| + |b|
  {
    if a == [] {
    } else if a[0] == Star {
      if Covers(a[1..], b) { CoversLiterally(a[1..], b); } else { CoversLiterally(a, b[1..]); }
    } else {
      CoversLiterally(a[1..], b[1..]);
    }
  }

  /** Equal texts have as many literals, and the same ones only if their escapes agree. */
  lemma {:induction false} SameTextLiterally(a: string, b: string)
    requires SameText(a, b)
    ensures |Literally(Tokens(a))| == |Literally(Tokens(b))|
    ensures Literally(Tokens(a)) == Literally(Tokens(b)) ==> EscapesAgree(a, b)
    decreases |a|
  {
    hide Tokens, Literally, SameText, EscapesAgree, LowerAll;
    SameTextAt(a, b, 0);
    SameTextAt(b, a, 0);
    if a == "" {
      assert b == "" && EscapesAgree(a, b) by { NothingToEscape(); }
    } else {
      assert |a| >= 2 ==> (Wild(a[1]) <==> Wild(b[1]));
      var k := if Escapes(a) || Escapes(b) then 2 else 1;
      SameTextAt(a, b, k);
      SameTextLiterally(a[k..], b[k..]);
      if Escapes(a) == Escapes(b) {
        OneUnit(a, k);
        OneUnit(b, k);
        SameBehind(Literally(Tokens(a)), Literally(Tokens(b)), Literally(Tokens(a[k..])), Literally(Tokens(b[k..])));
        if EscapesAgree(a[k..], b[k..]) { EscapesAgreeBehind(a, b, k); }
      } else if Escapes(a) {
        OneUnit(a, 2);
        TwoUnits(b);
        assert Literally(Tokens(a))[0] == a[1] && Literally(Tokens(b))[0] == '|';
      } else {
        TwoUnits(a);
        OneUnit(b, 2);
        assert Literally(Tokens(a))[0] == '|' && Literally(Tokens(b))[0] == b[1];
      }
    }
  }

  lemma SameBehind(x: string, y: string, xs: string, ys: string)
    requires |xs| == |ys| <= |x| && |x| == |y| && xs == x[|x| - |xs|..] && ys == y[|y| - |ys|..]
    ensures x == y ==> xs == ys
  {
  }

  lemma NothingToEscape()
    ensures EscapesAgree("", "")
  {
  }

  lemma OneUnit(a: string, k: nat)
    requires a != [] && k == (if Escapes(a) then 2 else 1)
    ensures Literally(Tokens(a)) ==
      (if k == 2 then [a[1]] else if Wild(a[0]) then [] else [Lower(a[0])]) + Literally(Tokens(a[k..]))
  {
    assert Tokens(a)[1..] == Tokens(a[k..]);
  }

  lemma TwoUnits(a: string)
    requires |a| >= 2 && a[0] == '|' && Wild(a[1])
    ensures Literally(Tokens(a)) == ['|'] + Literally(Tokens(a[2..]))
  {
    OneUnit(a, 1);
    OneUnit(a[1..], 1);
    assert a[1..][1..] == a[2..];
    assert [] + Literally(Tokens(a[2..])) == Literally(Tokens(a[2..]));
  }

  lemma EscapesAgreeBehind(a: string, b: string, k: nat)
    requires SameText(a, b) && a != [] && k == (if Escapes(a) then 2 else 1) && Escapes(a) == Escapes(b)
    requires k <= |a| == |b| && EscapesAgree(a[k..], b[k..])
    ensures EscapesAgree(a, b)
  {
    SameTextAt(a, b, 0);
    SameTextAt(b, a, 0);
    forall i | 0 <= i < |a| - 1 && Wild(a[i + 1]) ensures a[i] == '\\' <==> b[i] == '\\' {
      assert i >= k ==> a[k..][i - k] == a[i] && b[k..][i - k] == b[i] && a[k..][i - k + 1] == a[i + 1];
    }
  }

  /** Masks with the same text cover each other exactly when their escapes agree. */
  lemma SameTextCovers(a: string, b: string)
    requires SameText(a, b)
    ensures MaskCovers(a, b) <==> EscapesAgree(a, b)
    ensures MaskCovers(b, a) <==> EscapesAgree(a, b)
  {
    hide Tokens, Covers, SameText, EscapesAgree;
    SameTextBothWays(a, b);
    if EscapesAgree(a, b) {
      SameTextSameTokens(a, b);
      CoversReflexive(Tokens(a));
    } else {
      SameTextLiterally(a, b);
      SameTextLiterally(b, a);
      if MaskCovers(a, b) { CoversLiterally(Tokens(a), Tokens(b)); }
      if MaskCovers(b, a) { CoversLiterally(Tokens(b), Tokens(a)); }
    }
  }

  /** Such masks exist. */
  lemma BackslashAndBar()
    ensures Twins("\\*", "|*") && !MaskCovers("\\*", "|*") && !MaskCovers("|*", "\\*")
  {
    var a, b := "\\*", "|*";
    assert a[1..] == b[1..] == "*" && LowerAll("*") == "*";
    assert LowerAll(a) == "|" + LowerAll(a[1..]) && LowerAll(b) == "|" + LowerAll(b[1..]);
    SameTextCovers(a, b);
  }

  lemma MaskCoversTransitive(a: string, b: string, c: string)
    requires MaskCovers(a, b) && MaskCovers(b, c)
    ensures MaskCovers(a, c)
  {
    CoversTransitive(Tokens(a), Tokens(b), Tokens(c));
  }

  lemma MaskCoversIsSound(a: string, b: string, s: string)
    requires MaskCovers(a, b) && MaskMatches(b, s)
    ensures MaskMatches(a, s)
  {
    CoversIsSound(Tokens(a), Tokens(b), s);
  }

  // ---------------------------------------------------------------- collapse

  /** No wildcard follows a star. */
  predicate Collapsed(a: seq<Piece>) {
    forall i :: 0 <= i < |a| - 1 && a[i] == Star ==> a[i + 1] != Star && a[i + 1] != Any
  }

  /** `collapse` on tokens; `star` is the star held back until the run of wildcards ends. */
  function CollapseTokens(a: seq<Piece>, star: bool): seq<Piece> {
    if a == [] then (if star then [Star] else [])
    else match a[0]
      case Star => CollapseTokens(a[1..], true)
      case Any => [Any] + CollapseTokens(a[1..], star)
      case Lit(_) => (if star then [Star] else []) + [a[0]] + CollapseTokens(a[1..], false)
  }

  /** `collapse` on the text of a mask. */
  function CollapseText(s: string, star: bool): string {
    if s == [] then (if star then "*" else "")
    else if s[0] == '*' then CollapseText(s[1..], true)
    else if s[0] == '?' then "?" + CollapseText(s[1..], star)
    else if Escapes(s) then (if star then "*" else "") + s[..2] + CollapseText(s[2..], false)
    else (if star then "*" else "") + s[..1] + CollapseText(s[1..], false)
  }

  function Collapse(s: string): string { CollapseText(s, false) }

  lemma {:induction false} CollapseTokensShape(a: seq<Piece>, star: bool)
    ensures var r := CollapseTokens(a, star); Collapsed(r) && (!star && a != [] && a[0].Lit? ==> r[0] == a[0])
  {
    if a != [] {
      CollapseTokensShape(a[1..], if a[0].Lit? then false else a[0] == Star || star);
    }
  }

  /** Collapsing never changes which strings a mask stands for. */
  lemma {:induction false} CollapseKeepsLanguage(a: seq<Piece>, star: bool, s: string)
    ensures Matches(CollapseTokens(a, star), s) == Matches((if star then [Star] else []) + a, s)
    decreases |a|, |s|, star
  {
    var full := (if star then [Star] else []) + a;
    assert !star ==> full == a;
    assert star ==> full[0] == Star && full[1..] == a;
    if a == [] {
      assert full == if star then [Star] else [];
    } else if a[0] == Star {
      CollapseKeepsLanguage(a[1..], true, s);
      assert [Star] + a[1..] == a;
      if star { StarStar(a[1..], s); assert [Star, Star] + a[1..] == full; }
    } else if a[0] == Any {
      var r := CollapseTokens(a[1..], star);
      assert CollapseTokens(a, star)[1..] == r;
      if s != [] { CollapseKeepsLanguage(a[1..], star, s[1..]); }
      if star {
        StarAny(a[1..], s);
        assert [Star, Any] + a[1..] == full;
      } else {
        assert [] + a[1..] == a[1..];
      }
    } else if star {
      assert CollapseTokens(a, true) == [Star] + CollapseTokens(a, false);
      CollapseKeepsLanguageUnderStar(a, s);
    } else {
      assert CollapseTokens(a, false)[1..] == CollapseTokens(a[1..], false);
      if s != [] { CollapseKeepsLanguage(a[1..], false, s[1..]); assert [] + a[1..] == a[1..]; }
    }
  }

  lemma {:induction false} CollapseKeepsLanguageUnderStar(a: seq<Piece>, s: string)
    requires a != [] && a[0].Lit?
    ensures Matches([Star] + CollapseTokens(a, false), s) == Matches([Star] + a, s)
    decreases |a|, |s|, false, 0
  {
    var r := CollapseTokens(a, false);
    assert ([Star] + r)[1..] == r && ([Star] + a)[1..] == a;
    assert r[0] == a[0] && r[1..] == CollapseTokens(a[1..], false);
    if s != [] {
      CollapseKeepsLanguage(a[1..], false, s[1..]);
      assert [] + a[1..] == a[1..];
      CollapseKeepsLanguageUnderStar(a, s[1..]);
    }
  }

  lemma {:induction false} StarStar(a: seq<Piece>, s: string)
    ensures Matches([Star, Star] + a, s) == Matches([Star] + a, s)
  {
    assert ([Star, Star] + a)[1..] == [Star] + a;
    assert ([Star] + a)[1..] == a;
    if s != [] { StarStar(a, s[1..]); }
  }

  lemma {:induction false} StarAny(a: seq<Piece>, s: string)
    ensures Matches([Star, Any] + a, s) == (s != [] && Matches([Star] + a, s[1..]))
  {
    assert ([Star, Any] + a)[1..] == [Any] + a;
    assert ([Any] + a)[1..] == a;
    assert ([Star] + a)[1..] == a;
    if s != [] { StarAny(a, s[1..]); }
  }

  /** Tokens of a text whose first token takes up its first `k` characters. */
  lemma TokensOfCons(s: string, k: nat, t: string)
    requires s != [] && s[0] != '*' && s[0] != '?' && k == (if Escapes(s) then 2 else 1)
    requires |t| >= k && t == s[..k] + t[k..] && Escapes(t) == Escapes(s)
    ensures Tokens(s) == [Tokens(s)[0]] + Tokens(s[k..]) && Tokens(s)[0].Lit?
    ensures Tokens(t) == [Tokens(s)[0]] + Tokens(t[k..])
  {
    assert t[0] == s[0];
    if k == 2 { assert t[1] == s[1]; }
  }

  lemma TokensOfStarCons(t: string)
    ensures Tokens("*" + t) == [Star] + Tokens(t)
  {
    assert ("*" + t)[1..] == t;
  }

  lemma CollapseTextOfLiteral(s: string, k: nat, star: bool)
    requires s != [] && s[0] != '*' && s[0] != '?' && k == (if Escapes(s) then 2 else 1)
    ensures CollapseText(s, star) == (if star then "*" else "") + (s[..k] + CollapseText(s[k..], false))
    ensures Escapes(s[..k] + CollapseText(s[k..], false)) == Escapes(s)
  {
    CollapseFirst(s[k..]);
  }

  lemma {:induction false} TokensOfCollapse(s: string, star: bool)
    ensures Tokens(CollapseText(s, star)) == CollapseTokens(Tokens(s), star)
  {
    if s == [] {
      TokensOfStarCons("");
      assert "*" + "" == "*";
    } else if s[0] == '*' {
      TokensOfCollapse(s[1..], true);
    } else if s[0] == '?' {
      TokensOfCollapse(s[1..], star);
      assert CollapseText(s, star)[1..] == CollapseText(s[1..], star);
    } else {
      var k := if Escapes(s) then 2 else 1;
      TokensOfCollapse(s[k..], false);
      TokensOfCollapsedLiteral(s, k, star);
    }
  }

  lemma TokensOfCollapsedLiteral(s: string, k: nat, star: bool)
    requires s != [] && s[0] != '*' && s[0] != '?' && k == (if Escapes(s) then 2 else 1)
    requires Tokens(CollapseText(s[k..], false)) == CollapseTokens(Tokens(s[k..]), false)
    ensures Tokens(CollapseText(s, star)) == CollapseTokens(Tokens(s), star)
  {
    var t, bare := Tokens(s), s[..k] + CollapseText(s[k..], false);
    CollapseTextOfLiteral(s, k, star);
    assert bare[k..] == CollapseText(s[k..], false);
    TokensOfCons(s, k, bare);
    assert t[1..] == Tokens(s[k..]);
    CollapseTokensOfLiteral(t, star);
    if star { TokensOfStarCons(bare); } else { assert "" + bare == bare; }
  }

  lemma CollapseTokensOfLiteral(t: seq<Piece>, star: bool)
    requires t != [] && t[0].Lit?
    ensures CollapseTokens(t, star) == (if star then [Star] else []) + ([t[0]] + CollapseTokens(t[1..], false))
  {
  }

  lemma {:induction false} CollapseFirst(s: string)
    ensures var r := CollapseText(s, false);
      (r != [] && (r[0] == '*' || r[0] == '?')) == (s != [] && (s[0] == '*' || s[0] == '?'))
    ensures var r := CollapseText(s, true); r != [] && (r[0] == '*' || r[0] == '?')
  {
    if s != [] { CollapseFirst(s[1..]); }
  }

  /** What `collapse` is for: the result is collapsed and stands for the same strings. */
  lemma CollapseCorrect(mask: string, s: string)
    ensures Collapsed(Tokens(Collapse(mask)))
    ensures MaskMatches(Collapse(mask), s) == MaskMatches(mask, s)
  {
    TokensOfCollapse(mask, false);
    CollapseTokensShape(Tokens(mask), false);
    CollapseKeepsLanguage(Tokens(mask), false, s);
    assert [] + Tokens(mask) == Tokens(mask);
  }

  // ---------------------------------------------------------------- the backtracking loop

  predicate StarFree(a: seq<Piece>) { Star !in a }

  function NonStars(a: seq<Piece>): nat {
    if a == [] then 0 else (if a[0] == Star then 0 else 1) + NonStars(a[1..])
  }

  lemma {:induction false} CoversNeedsRoom(a: seq<Piece>, b: seq<Piece>)
    requires Covers(a, b)
    ensures NonStars(a) <= |b|
    decreases |a| + |b|
  {
    if a == [] {
    } else if a[0] == Star {
      if Covers(a[1..], b) { CoversNeedsRoom(a[1..], b); } else { CoversNeedsRoom(a, b[1..]); }
    } else {
      CoversNeedsRoom(a[1..], b[1..]);
    }
  }

  lemma {:induction false} NonStarsOfPrefix(x: seq<Piece>, y: seq<Piece>)
    requires StarFree(x)
    ensures NonStars(x + y) == |x| + NonStars(y)
  {
    if x == [] {
      assert x + y == y;
    } else {
      assert (x + y)[1..] == x[1..] + y;
      NonStarsOfPrefix(x[1..], y);
    }
  }

  /** A mask that starts with a star still covers when more is put in front. */
  lemma {:induction false} StarAbsorbs(a: seq<Piece>, b: seq<Piece>, k: nat)
    requires a != [] && a[0] == Star && k <= |b| && Covers(a, b[k..])
    ensures Covers(a, b)
    decreases k
  {
    if k > 0 {
      assert b[k - 1..][1..] == b[k..];
      StarAbsorbs(a, b, k - 1);
    } else {
      assert b[0..] == b;
    }
  }

  /** Once the next star is reached, earlier choices for the previous star add nothing. */
  lemma {:induction false} LaterStarDominates(x: seq<Piece>, y: seq<Piece>, b: seq<Piece>)
    requires StarFree(x) && y != [] && y[0] == Star
    requires Covers(x + y, b)
    ensures |x| <= |b| && Covers(y, b[|x|..])
  {
    if x == [] {
      assert x + y == y && b[0..] == b;
    } else {
      assert (x + y)[1..] == x[1..] + y && (x + y)[0] == x[0];
      LaterStarDominates(x[1..], y, b[1..]);
      assert b[1..][|x| - 1..] == b[|x|..];
    }
  }

  lemma {:induction false} StarThenDominates(x: seq<Piece>, y: seq<Piece>, b: seq<Piece>)
    requires StarFree(x) && y != [] && y[0] == Star
    requires Covers([Star] + (x + y), b)
    ensures |x| <= |b| && Covers(y, b[|x|..])
  {
    assert ([Star] + (x + y))[1..] == x + y;
    if Covers(x + y, b) {
      LaterStarDominates(x, y, b);
    } else {
      StarThenDominates(x, y, b[1..]);
      assert b[1..][|x|..] == b[|x|..][1..];
      StarAbsorbs(y, b[|x|..], 1);
    }
  }

  lemma {:induction false} StarCoversAll(b: seq<Piece>)
    ensures Covers([Star], b)
  {
    if b != [] { StarCoversAll(b[1..]); }
  }

  lemma {:induction false} CoversNothing(a: seq<Piece>)
    ensures Covers(a, []) <==> NonStars(a) == 0
  {
    if a != [] { CoversNothing(a[1..]); }
  }

  /** What is still to be decided: the current alignment, or moving the last star further on. */
  ghost predicate Pending(a: seq<Piece>, b: seq<Piece>, m: nat, n: nat, wild: bool, ma: nat, na: nat)
    requires m <= |a| && n <= |b| && ma <= |a|
  {
    Covers(a[m..], b[n..]) || (wild && na + 1 <= |b| && Covers([Star] + a[ma..], b[na + 1..]))
  }

  lemma PendingAtStar(a: seq<Piece>, b: seq<Piece>, m: nat, n: nat, wild: bool, ma: nat, na: nat)
    requires m < |a| && n <= |b| && ma <= m && a[m] == Star
    requires StarFree(a[ma..m]) && (wild ==> na <= n && n - na == m - ma)
    ensures Pending(a, b, m, n, wild, ma, na) == Covers(a[m..], b[n..])
  {
    if wild && na + 1 <= |b| && Covers([Star] + a[ma..], b[na + 1..]) {
      var x, y := a[ma..m], a[m..];
      assert a[ma..] == x + y;
      StarThenDominates(x, y, b[na + 1..]);
      assert b[na + 1..][|x|..] == b[n..][1..];
      StarAbsorbs(y, b[n..], 1);
    }
  }

  function AfterStars(a: seq<Piece>, m: nat): (k: nat)
    requires m <= |a|
    ensures m <= k <= |a| && (k < |a| ==> a[k] != Star) && (m < k ==> a[k - 1] == Star)
    ensures forall i :: m <= i < k ==> a[i] == Star
    decreases |a| - m
  {
    if m < |a| && a[m] == Star then AfterStars(a, m + 1) else m
  }

  lemma {:induction false} StarsAreOneStar(a: seq<Piece>, m: nat, t: seq<Piece>)
    requires m < |a| && a[m] == Star
    ensures Covers(a[m..], t) == Covers([Star] + a[AfterStars(a, m)..], t)
    decreases |a| - m, |t|
  {
    assert [Star] + a[m + 1..] == a[m..];
    if m + 1 < |a| && a[m + 1] == Star {
      StarsAreOneStar(a, m + 1, t);
      assert a[m..][1..] == a[m + 1..];
      if t != [] {
        StarsAreOneStar(a, m, t[1..]);
        StarsAreOneStar(a, m + 1, t[1..]);
        assert a[m + 1..][1..] == a[m + 2..];
      }
    }
  }

  /** At a star the choices left for the previous star can be forgotten. */
  lemma PendingAfterStars(a: seq<Piece>, b: seq<Piece>, m: nat, n: nat, wild: bool, ma: nat, na: nat)
    requires m < |a| && n <= |b| && ma <= m && a[m] == Star
    requires StarFree(a[ma..m]) && (wild ==> na <= n && n - na == m - ma)
    ensures var k := AfterStars(a, m); Pending(a, b, m, n, wild, ma, na) == Pending(a, b, k, n, true, k, n)
  {
    PendingAtStar(a, b, m, n, wild, ma, na);
    var k := AfterStars(a, m);
    StarsAreOneStar(a, m, b[n..]);
    assert ([Star] + a[k..])[1..] == a[k..];
    if n < |b| { assert b[n..][1..] == b[n + 1..]; }
  }

  /** The first mask has run out. */
  lemma PendingAtMaskEnd(a: seq<Piece>, b: seq<Piece>, n: nat, wild: bool, ma: nat, na: nat)
    requires ma <= |a| && na <= n <= |b| && StarFree(a[ma..])
    ensures n == |b| || (n < |b| && ma == |a| && wild) ==> Pending(a, b, |a|, n, wild, ma, na)
    ensures n < |b| ==> Pending(a, b, |a|, n, wild, ma, na) == (wild && Pending(a, b, ma, na + 1, true, ma, na + 1))
  {
    if n < |b| {
      PendingBacktrack(a, b, |a|, n, wild, ma, na);
      if ma == |a| {
        assert [Star] + a[ma..] == [Star];
        StarCoversAll(b[na + 1..]);
      }
    }
  }

  /** Giving up the current alignment and moving the last star on by one. */
  lemma PendingBacktrack(a: seq<Piece>, b: seq<Piece>, m: nat, n: nat, wild: bool, ma: nat, na: nat)
    requires m <= |a| && n <= |b| && ma <= |a| && na < |b| && !Covers(a[m..], b[n..])
    ensures Pending(a, b, m, n, wild, ma, na) == (wild && Pending(a, b, ma, na + 1, true, ma, na + 1))
  {
    assert ([Star] + a[ma..])[1..] == a[ma..];
    if na + 1 < |b| { assert b[na + 1..][1..] == b[na + 2..]; }
  }

  lemma PendingMismatch(a: seq<Piece>, b: seq<Piece>, m: nat, n: nat, wild: bool, ma: nat, na: nat)
    requires m <= |a| && n < |b| && ma <= |a| && na < |b| && !SameHere(a, b, m, n) && (m < |a| ==> a[m] != Star)
    ensures Pending(a, b, m, n, wild, ma, na) == (wild && Pending(a, b, ma, na + 1, true, ma, na + 1))
  {
    PendingBacktrack(a, b, m, n, wild, ma, na);
  }

  /** When the second mask has run out, only stars may be left of the first. */
  lemma PendingAtEnd(a: seq<Piece>, b: seq<Piece>, m: nat, wild: bool, ma: nat, na: nat)
    requires ma <= m < |a| && na <= |b| && StarFree(a[ma..m]) && (wild ==> |b| - na == m - ma)
    ensures Pending(a, b, m, |b|, wild, ma, na) == (AfterStars(a, m) == |a|)
  {
    assert b[|b|..] == [];
    CoversNothing(a[m..]);
    NonStarsAfterStars(a, m);
    if wild && na + 1 <= |b| && Covers([Star] + a[ma..], b[na + 1..]) {
      CoversNeedsRoom([Star] + a[ma..], b[na + 1..]);
      assert ([Star] + a[ma..])[1..] == a[ma..m] + a[m..];
      NonStarsOfPrefix(a[ma..m], a[m..]);
    }
  }

  lemma {:induction false} NonStarsAfterStars(a: seq<Piece>, m: nat)
    requires m <= |a|
    ensures NonStars(a[m..]) == 0 <==> AfterStars(a, m) == |a|
    decreases |a| - m
  {
    if m < |a| {
      assert a[m..][1..] == a[m + 1..];
      NonStarsAfterStars(a, m + 1);
    }
  }

  method SkipStars(a: seq<Piece>, m: nat) returns (k: nat)
    requires m <= |a|
    ensures k == AfterStars(a, m)
  {
    k := m;
    while k < |a| && a[k] == Star
      invariant m <= k <= |a| && AfterStars(a, m) == AfterStars(a, k)
    {
      k := k + 1;
    }
  }

  /** A star, not in first place, followed by nothing but `?` up to the end. */
  predicate EndsOpen(a: seq<Piece>) {
    exists k :: 0 < k < |a| && a[k] == Star && forall i :: k < i < |a| ==> a[i] == Any
  }

  method EndsInStar(a: seq<Piece>) returns (r: bool)
    ensures r == EndsOpen(a)
  {
    var k := |a| - 1;
    while k > 0 && a[k] == Any
      invariant -1 <= k < |a| && (|a| > 0 ==> k >= 0)
      invariant forall i :: k < i < |a| ==> a[i] == Any
    {
      k := k - 1;
    }
    return k > 0 && a[k] == Star;
  }

  /** What `mmatch` makes of its first mask: when that runs out with such an end, the rest of the
      second no longer matters, as if another star followed. */
  function Opened(a: seq<Piece>): seq<Piece> { if EndsOpen(a) then a + [Star] else a }

  /** The end behind place `m` is a run of stars in both or in neither. */
  lemma {:induction false} OpenedStars(a: seq<Piece>, m: nat)
    requires m <= |a|
    ensures var w := Opened(a); AfterStars(w, m) == if AfterStars(a, m) == |a| then |w| else AfterStars(a, m)
    decreases |a| - m
  {
    if m < |a| { OpenedStars(a, m + 1); }
  }

  /** The two masks at the places the loop has reached; running past the end reads a NUL. */
  predicate SameHere(a: seq<Piece>, b: seq<Piece>, m: nat, n: nat)
    requires m <= |a| && n <= |b|
  {
    if n == |b| then m == |a| || a[m] == Any
    else m < |a| && TokenCovers(a[m], b[n])
  }

  lemma PendingStep(a: seq<Piece>, b: seq<Piece>, m: nat, n: nat, wild: bool, ma: nat, na: nat)
    requires m < |a| && n < |b| && ma <= m && a[m] != Star && TokenCovers(a[m], b[n])
    requires StarFree(a[ma..m])
    ensures Pending(a, b, m, n, wild, ma, na) == Pending(a, b, m + 1, n + 1, wild, ma, na)
    ensures StarFree(a[ma..m + 1])
  {
    assert a[m..][1..] == a[m + 1..] && b[n..][1..] == b[n + 1..];
    assert a[ma..m + 1] == a[ma..m] + [a[m]];
  }

  /** The places of the loop: `m`, `n` in the two masks, `ma`, `na` where the last star began. */
  datatype Cursor = Cursor(m: nat, n: nat, wild: bool, ma: nat, na: nat)

  predicate Aligned(a: seq<Piece>, b: seq<Piece>, c: Cursor) {
    && c.ma <= c.m <= |a| && c.na <= c.n <= |b| && c.n - c.na == c.m - c.ma
    && StarFree(a[c.ma..c.m])
    && if c.wild then c.ma > 0 && a[c.ma - 1] == Star else c.ma == c.na == 0
  }

  ghost predicate Open(a: seq<Piece>, b: seq<Piece>, c: Cursor)
    requires Aligned(a, b, c)
  {
    Pending(Opened(a), b, c.m, c.n, c.wild, c.ma, c.na)
  }

  /** At the end of the first mask the star behind an open end is all that is left. */
  lemma OpenAtEnd(a: seq<Piece>, b: seq<Piece>, c: Cursor)
    requires Aligned(a, b, c) && c.m == |a| && (EndsOpen(a) || c.n == |b|)
    ensures Open(a, b, c)
  {
    if EndsOpen(a) {
      assert Opened(a)[|a|..] == [Star];
      StarCoversAll(b[c.n..]);
    }
  }

  /** After a run of stars up to the end of the mask nothing else matters. */
  lemma OpenAfterStars(a: seq<Piece>, b: seq<Piece>, n: nat)
    requires n <= |b|
    ensures var w := Opened(a); Pending(w, b, |w|, n, true, |w|, n) == Pending(w, b, |a|, n, true, |a|, n)
  {
    if EndsOpen(a) {
      var w := Opened(a);
      assert w[|a|..] == [Star] && [Star] + w[|w|..] == [Star] && w[|w|..] == [];
      StarCoversAll(b[n..]);
      if n < |b| { StarCoversAll(b[n + 1..]); }
    }
  }

  lemma OpenStep(a: seq<Piece>, b: seq<Piece>, c: Cursor)
    requires Aligned(a, b, c) && c.m < |a| && c.n < |b| && a[c.m] != Star && TokenCovers(a[c.m], b[c.n])
    ensures var d := c.(m := c.m + 1, n := c.n + 1); Aligned(a, b, d) && Open(a, b, c) == Open(a, b, d)
  {
    hide Pending, EndsOpen, TokenCovers;
    assert Opened(a)[c.ma..c.m] == a[c.ma..c.m] && a[c.ma..c.m + 1] == a[c.ma..c.m] + [a[c.m]];
    PendingStep(Opened(a), b, c.m, c.n, c.wild, c.ma, c.na);
  }

  lemma OpenMismatch(a: seq<Piece>, b: seq<Piece>, c: Cursor)
    requires Aligned(a, b, c) && c.n < |b| && c.na < |b| && !SameHere(a, b, c.m, c.n)
    requires if c.m < |a| then a[c.m] != Star else !EndsOpen(a)
    ensures !c.wild ==> !Open(a, b, c)
    ensures c.wild ==> var d := c.(m := c.ma, n := c.na + 1, na := c.na + 1); Aligned(a, b, d) && Open(a, b, c) == Open(a, b, d)
  {
    hide Pending, EndsOpen, TokenCovers;
    PendingMismatch(Opened(a), b, c.m, c.n, c.wild, c.ma, c.na);
    assert a[c.ma..c.ma] == [];
  }

  /** Compare one token and move on, or go back to the last star; `None`: there is none. */
  method Compare(a: seq<Piece>, b: seq<Piece>, c: Cursor) returns (ok: bool, d: Cursor)
    requires Aligned(a, b, c) && c.na < |b| + (if SameHere(a, b, c.m, c.n) then 1 else 0)
    requires c.m < |a| ==> a[c.m] != Star && c.n < |b|
    requires c.n == |b| ==> c.m == |a|
    requires c.m == |a| && EndsOpen(a) ==> c.n == |b|
    ensures !ok ==> !Open(a, b, c)
    ensures ok ==> Aligned(a, b, d) && Open(a, b, c) == Open(a, b, d)
    ensures ok ==> d.na > c.na || (d.na == c.na && d.m > c.m) || (d == c && c.n == |b|)
  {
    hide Pending, Opened, EndsOpen, StarFree;
    d := c;
    if SameHere(a, b, c.m, c.n) {
      if c.m < |a| && c.n < |b| {
        OpenStep(a, b, c);
        d := c.(m := c.m + 1, n := c.n + 1);
      }
      return true, d;
    }
    OpenMismatch(a, b, c);
    return c.wild, c.(m := c.ma, n := c.na + 1, na := c.na + 1);
  }

  /** Skip a run of stars and remember the place after it. */
  method TakeStars(a: seq<Piece>, b: seq<Piece>, c: Cursor) returns (d: Cursor)
    requires Aligned(a, b, c)
    ensures Aligned(a, b, d) && Open(a, b, d) == Open(a, b, c)
    ensures d.m < |a| ==> a[d.m] != Star
    ensures d.m >= c.m && d.na >= c.na && d.n == c.n
  {
    d := c;
    if c.m < |a| && a[c.m] == Star {
      assert Opened(a)[c.ma..c.m] == a[c.ma..c.m];
      PendingAfterStars(Opened(a), b, c.m, c.n, c.wild, c.ma, c.na);
      OpenedStars(a, c.m);
      OpenAfterStars(a, b, c.n);
      var k := SkipStars(a, c.m);
      d := Cursor(k, c.n, true, k, c.n);
    }
  }

  /** The first mask has run out and the second has not: done, or back to the last star. */
  method MaskRanOut(a: seq<Piece>, b: seq<Piece>, c: Cursor) returns (done: bool, r: bool, d: Cursor)
    requires Aligned(a, b, c) && c.m == |a| && c.n < |b|
    ensures done ==> r == Open(a, b, c)
    ensures !done ==> Aligned(a, b, d) && Open(a, b, d) == Open(a, b, c) && d.na == c.na + 1
    ensures !done ==> (if d.n == |b| then d.m == |a| else d.m < |a| ==> a[d.m] != Star) && !EndsOpen(a)
  {
    d := c;
    var starred := EndsInStar(a);
    if starred {
      OpenAtEnd(a, b, c);
      return true, true, d;
    }
    assert a[c.ma..c.m] == a[c.ma..];
    PendingAtMaskEnd(a, b, c.n, c.wild, c.ma, c.na);
    if !c.wild { return true, false, d; }
    return false, false, c.(m := c.ma, n := c.na + 1, na := c.na + 1);
  }

  lemma {:induction false} CoversStarStar(a: seq<Piece>, b: seq<Piece>)
    requires a != [] && a[|a| - 1] == Star
    ensures Covers(a + [Star], b) == Covers(a, b)
    decreases |a| + |b|
  {
    assert (a + [Star])[1..] == a[1..] + [Star] && (a + [Star])[0] == a[0];
    if |a| == 1 {
      StarCoversAll(b);
      assert a[1..] + [Star] == [Star] && a == [Star];
    } else {
      if a[0] == Star { CoversStarStar(a[1..], b); }
      if b != [] { CoversStarStar(if a[0] == Star then a else a[1..], b[1..]); }
    }
  }

  /** The extra star changes no language, and nothing at all for a collapsed mask. */
  lemma OpenedCovers(a: seq<Piece>, b: seq<Piece>)
    ensures Collapsed(a) ==> Covers(Opened(a), b) == Covers(a, b)
    ensures Covers(Opened(a), b) ==> Includes(a, b)
  {
    if EndsOpen(a) {
      if Collapsed(a) {
        var k :| 0 < k < |a| && a[k] == Star && forall i :: k < i < |a| ==> a[i] == Any;
        LastOfCollapsed(a, k);
        CoversStarStar(a, b);
      }
      forall s ensures Matches(Opened(a), s) == Matches(a, s) { OpenedLanguage(a, s); }
    }
    if Covers(Opened(a), b) { CoversIncludes(Opened(a), b); }
  }

  lemma LastOfCollapsed(a: seq<Piece>, k: nat)
    requires k < |a| && a[k] == Star && forall i :: k < i < |a| ==> a[i] == Any
    ensures Collapsed(a) ==> k == |a| - 1
  {
    assert k + 1 < |a| ==> a[k + 1] == Any;
  }

  lemma OpenedLanguage(a: seq<Piece>, s: string)
    requires EndsOpen(a)
    ensures Matches(Opened(a), s) == Matches(a, s)
  {
    var k :| 0 < k < |a| && a[k] == Star && forall i :: k < i < |a| ==> a[i] == Any;
    CollapseSwallows(a, k, false);
    CollapseKeepsLanguage(a, false, s);
    CollapseKeepsLanguage(a + [Star], false, s);
    assert [] + a == a && [] + (a + [Star]) == a + [Star];
  }

  lemma {:induction false} CollapseSwallows(a: seq<Piece>, k: int, star: bool)
    requires if k < 0 then k == -1 && star else k < |a| && a[k] == Star
    requires forall i :: k < i < |a| ==> a[i] == Any
    ensures CollapseTokens(a + [Star], star) == CollapseTokens(a, star)
    decreases |a|
  {
    if a != [] {
      assert (a + [Star])[1..] == a[1..] + [Star] && (a + [Star])[0] == a[0];
      CollapseSwallows(a[1..], if k < 0 then k else k - 1, !a[0].Lit? && (star || a[0] == Star));
    } else {
      assert a + [Star] == [Star] && [Star][1..] == [];
    }
  }

  /** The loop of `mmatch` on tokens, for any two masks. */
  method MMatch(a: seq<Piece>, b: seq<Piece>) returns (r: bool)
    ensures r == Covers(Opened(a), b)
    ensures Collapsed(a) ==> r == Covers(a, b)
    ensures r ==> Includes(a, b)
  {
    var c := Cursor(0, 0, false, 0, 0);
    assert Opened(a)[0..] == Opened(a) && b[0..] == b;
    OpenedCovers(a, b);
    while true
      invariant Aligned(a, b, c) && Open(a, b, c) == Covers(Opened(a), b)
      decreases |b| - c.na, |a| - c.m
    {
      var d := TakeStars(a, b, c);
      if d.m == |a| {
        if d.n == |b| {
          OpenAtEnd(a, b, d);
          return true;
        }
        var done;
        done, r, d := MaskRanOut(a, b, d);
        if done { return; }
      } else if d.n == |b| {
        assert Opened(a)[d.ma..d.m] == a[d.ma..d.m];
        PendingAtEnd(Opened(a), b, d.m, d.wild, d.ma, d.na);
        OpenedStars(a, d.m);
        var k := SkipStars(a, d.m);
        return k == |a|;
      }
      var ok;
      ok, c := Compare(a, b, d);
      if !ok { return false; }
    }
  }
}
