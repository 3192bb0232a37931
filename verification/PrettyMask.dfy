// Canonical masks (ircd/channel.c, pretty_mask and make_nick_user_host).
module PrettyMask {
  import opened Masks

  const NICKLEN := 30
  const USERLEN := 10
  const HOSTLEN := 75
  const NUH_BUFSIZE := NICKLEN + USERLEN + HOSTLEN + 3

  datatype Parts = Parts(nick: string, user: string, host: string)

  // ---------- The meaning ----------

  // The first place of a character, or the length.
  function First(s: string, c: char): (i: nat)
    ensures i <= |s| && (forall j :: 0 <= j < i ==> s[j] != c) && (i < |s| ==> s[i] == c)
  {
    if s == "" || s[0] == c then 0
    else
      assert forall j :: 1 <= j < |s| ==> s[j] == s[1..][j - 1];
      1 + First(s[1..], c)
  }

  // One past the last place of a character, or zero.
  function AfterLast(s: string, c: char): (i: nat)
    ensures i <= |s| && (forall j :: i <= j < |s| ==> s[j] != c) && (i > 0 ==> s[i - 1] == c)
  {
    if s == "" then 0
    else
      assert forall j :: 1 <= j < |s| ==> s[j] == s[1..][j - 1];
      var i := AfterLast(s[1..], c);
      if i > 0 then i + 1 else if s[0] == c then 1 else 0
  }

  // user@host, split at the last '@'; without one it is all user.
  function UserHost(s: string): (string, string) {
    var i := AfterLast(s, '@');
    if i == 0 then (s, "*") else (s[..i - 1], s[i..])
  }

  function Split(mask: string): Parts {
    var bang, at := First(mask, '!'), First(mask, '@');
    if bang < at then
      var (user, host) := UserHost(mask[bang + 1..]);
      Parts(mask[..bang], user, host)
    else if at < |mask| then
      var (user, host) := UserHost(mask);
      Parts("*", user, host)
    else if '.' in mask then Parts("*", "*", mask)
    else Parts(mask, "*", "*")
  }

  // A part that is too long keeps its end, after a '*'.
  function KeepEnd(s: string, n: nat): (r: string)
    requires n > 0
    ensures |r| <= n && (|s| <= n ==> r == s)
  {
    if |s| > n then "*" + s[|s| - n + 1..] else s
  }

  function Clip(p: Parts): Parts {
    Parts(if |p.nick| > NICKLEN then p.nick[..NICKLEN] else p.nick, KeepEnd(p.user, USERLEN), KeepEnd(p.host, HOSTLEN))
  }

  function Join(p: Parts): string {
    p.nick + "!" + p.user + "@" + p.host
  }

  function Pretty(mask: string): string {
    Join(Clip(Split(mask)))
  }

  // ---------- What is canonical ----------

  // The parts of a canonical mask can be told apart again.
  ghost predicate Canonical(p: Parts) {
    && |p.nick| <= NICKLEN && |p.user| <= USERLEN && |p.host| <= HOSTLEN
    && '!' !in p.nick && '@' !in p.nick && '@' !in p.host
  }

  lemma SplitAtBang(nick: string, tail: string)
    requires '!' !in nick && '@' !in nick
    ensures var (user, host) := UserHost(tail); Split(nick + "!" + tail) == Parts(nick, user, host)
  {
    var s := nick + "!" + tail;
    assert forall j :: 0 <= j < |nick| ==> s[j] == nick[j] && nick[j] in nick;
    assert s[|nick|] == '!';
    assert First(s, '!') == |nick|;
    assert First(s, '@') > |nick|;
    assert s[..|nick|] == nick && s[|nick| + 1..] == tail;
    hide UserHost;
  }

  lemma UserHostJoin(user: string, host: string)
    requires '@' !in host
    ensures UserHost(user + "@" + host) == (user, host)
  {
    var s := user + "@" + host;
    assert forall j :: |user| < j < |s| ==> s[j] == host[j - |user| - 1] && host[j - |user| - 1] in host;
    assert s[|user|] == '@';
    assert AfterLast(s, '@') == |user| + 1;
    assert s[..|user|] == user && s[|user| + 1..] == host;
  }

  lemma SplitJoin(p: Parts)
    requires Canonical(p)
    ensures Split(Join(p)) == p
  {
    assert Join(p) == p.nick + "!" + (p.user + "@" + p.host);
    hide Split, UserHost;
    SplitAtBang(p.nick, p.user + "@" + p.host);
    UserHostJoin(p.user, p.host);
  }

  lemma HostPlain(s: string)
    ensures '@' !in UserHost(s).1
  {
    var i := AfterLast(s, '@');
    assert forall j :: 0 <= j < |s[i..]| ==> s[i..][j] == s[i + j];
  }

  lemma NickPlain(mask: string)
    ensures '!' !in Split(mask).nick && '@' !in Split(mask).nick && '@' !in Split(mask).host
  {
    var bang, at := First(mask, '!'), First(mask, '@');
    assert forall j :: 0 <= j < bang ==> mask[..bang][j] == mask[j];
    if bang < at { HostPlain(mask[bang + 1..]); } else { HostPlain(mask); }
    hide UserHost;
  }

  lemma ClipSplitCanonical(mask: string)
    ensures Canonical(Clip(Split(mask)))
  {
    hide Split;
    NickPlain(mask);
    var p := Split(mask);
    assert '@' !in KeepEnd(p.host, HOSTLEN);
  }

  // Every mask becomes nick!user@host within the limits and the buffer.
  lemma PrettyFits(mask: string)
    ensures var p := Clip(Split(mask));
      && Pretty(mask) == p.nick + "!" + p.user + "@" + p.host
      && |p.nick| <= NICKLEN && |p.user| <= USERLEN && |p.host| <= HOSTLEN
      && '!' !in p.nick && '@' !in p.nick && '@' !in p.host
    ensures |Pretty(mask)| < NUH_BUFSIZE
  {
    hide Split, Clip;
    ClipSplitCanonical(mask);
  }

  lemma ClipCanonical(p: Parts)
    requires Canonical(p)
    ensures Clip(p) == p
  {
  }

  // A canonical mask stays as it is.
  lemma PrettyIdempotent(mask: string)
    ensures Pretty(Pretty(mask)) == Pretty(mask)
  {
    var p := Clip(Split(mask));
    hide Split, Clip, Join;
    ClipSplitCanonical(mask);
    SplitJoin(p);
    ClipCanonical(p);
  }

  // A mask whose parts are within the limits keeps them.
  lemma PrettyKeepsShort(mask: string)
    requires var p := Split(mask); |p.nick| <= NICKLEN && |p.user| <= USERLEN && |p.host| <= HOSTLEN
    ensures Pretty(mask) == Join(Split(mask))
  {
    hide Split;
  }

  // The forms a mask may be given in, and what they stand for.
  lemma DocumentedForms(nick: string, user: string, host: string)
    requires '!' !in nick && '@' !in nick && '!' !in user && '@' !in host
    ensures Split(nick + "!" + user + "@" + host) == Parts(nick, user, host)
    ensures '@' !in user ==> Split(nick + "!" + user) == Parts(nick, user, "*")
    ensures Split(user + "@" + host) == Parts("*", user, host)
    ensures '!' !in host && '.' in host ==> Split(host) == Parts("*", "*", host)
    ensures '.' !in nick ==> Split(nick) == Parts(nick, "*", "*")
  {
    hide UserHost, Split;
    assert nick + "!" + user + "@" + host == nick + "!" + (user + "@" + host);
    SplitAtBang(nick, user + "@" + host);
    UserHostJoin(user, host);
    SplitAtBang(nick, user);
    if '@' !in user { OnlyUser(user); }
    SplitAtAt(user, host);
    if '!' !in host { SplitPlain(host); }
    SplitPlain(nick);
  }

  lemma OnlyUser(s: string)
    requires '@' !in s
    ensures UserHost(s) == (s, "*")
  {
    assert forall j :: 0 <= j < |s| ==> s[j] in s;
    assert AfterLast(s, '@') == 0;
  }

  lemma SplitAtAt(user: string, host: string)
    requires '!' !in user && '@' !in host
    ensures Split(user + "@" + host) == Parts("*", user, host)
  {
    var s := user + "@" + host;
    UserHostJoin(user, host);
    assert s[|user|] == '@' && forall j :: 0 <= j < |user| ==> s[j] == user[j] && user[j] in user;
    assert First(s, '@') <= |user| && First(s, '!') > |user|;
    hide UserHost;
  }

  lemma SplitPlain(s: string)
    requires '!' !in s && '@' !in s
    ensures Split(s) == if '.' in s then Parts("*", "*", s) else Parts(s, "*", "*")
  {
    hide UserHost;
    assert First(s, '!') == |s| && First(s, '@') == |s|;
  }

  // ---------- What a cut mask still covers ----------

  lemma {:induction false} CoversJoin(a: seq<Piece>, b: seq<Piece>, c: seq<Piece>, d: seq<Piece>)
    requires Covers(a, b) && Covers(c, d)
    ensures Covers(a + c, b + d)
    decreases |a| + |b|
  {
    if a == [] {
      assert a + c == c && b + d == d;
    } else {
      assert (a + c)[0] == a[0] && (a + c)[1..] == a[1..] + c;
      if b != [] { assert (b + d)[0] == b[0] && (b + d)[1..] == b[1..] + d; }
      if a[0] == Star {
        if Covers(a[1..], b) { CoversJoin(a[1..], b, c, d); } else { CoversJoin(a, b[1..], c, d); }
      } else {
        CoversJoin(a[1..], b[1..], c, d);
      }
    }
  }

  lemma StarTakes(a: seq<Piece>, p: Piece, b: seq<Piece>)
    requires Covers([Star] + a, b)
    ensures Covers([Star] + a, [p] + b)
  {
    assert ([p] + b)[1..] == b;
  }

  lemma StarDrops(a: seq<Piece>, b: seq<Piece>)
    requires Covers(a, b)
    ensures Covers([Star] + a, b)
  {
    assert ([Star] + a)[1..] == a;
  }

  // A cut between a backslash and what it escapes.
  lemma EscapeCut(s: string)
    requires Escapes(s)
    ensures Covers([Star] + Tokens(s[1..]), Tokens(s))
  {
    var rest := Tokens(s[2..]);
    CoversReflexive(rest);
    assert s[1..][1..] == s[2..] && !Escapes(s[1..]);
    if s[1] == '*' {
      StarDrops(rest, rest);
      StarDrops([Star] + rest, rest);
      StarTakes([Star] + rest, Lit(s[1]), rest);
    } else {
      assert ([Any] + rest)[1..] == rest && ([Lit(s[1])] + rest)[1..] == rest;
      StarDrops([Any] + rest, [Lit(s[1])] + rest);
    }
  }

  // The first token of a mask, which takes up one or two characters.
  lemma FirstToken(s: string) returns (u: nat, t: Piece)
    requires s != ""
    ensures 1 <= u <= |s| && u == (if Escapes(s) then 2 else 1) && Tokens(s) == [t] + Tokens(s[u..])
  {
    u, t := if Escapes(s) then 2 else 1, Tokens(s)[0];
  }

  // A '*' and the end of a mask, wherever the cut falls.
  lemma {:induction false} EndCovers(s: string, k: nat)
    requires k <= |s|
    ensures Covers([Star] + Tokens(s[k..]), Tokens(s))
    decreases |s|
  {
    hide Covers, Tokens, Escapes;
    if k == 0 {
      assert s[0..] == s;
      CoversReflexive(Tokens(s));
      StarDrops(Tokens(s), Tokens(s));
    } else {
      var u, t := FirstToken(s);
      if k < u {
        EscapeCut(s);
      } else {
        assert s[u..][k - u..] == s[k..];
        EndCovers(s[u..], k - u);
        StarTakes(Tokens(s[k..]), t, Tokens(s[u..]));
      }
    }
  }

  // A part that is cut to its end covers the part.
  lemma KeepEndCovers(s: string, n: nat)
    requires n > 0
    ensures MaskCovers(KeepEnd(s, n), s)
  {
    if |s| > n {
      var k := |s| - n + 1;
      EndCovers(s, k);
      TokensOfStarCons(s[k..]);
    } else {
      CoversReflexive(Tokens(s));
    }
  }

  lemma {:induction false} TokensAround(x: string, c: char, y: string)
    requires c == '!' || c == '@'
    ensures Tokens(x + [c] + y) == Tokens(x) + [Lit(Lower(c))] + Tokens(y)
    decreases |x|
  {
    hide Lower;
    var s := x + [c] + y;
    if x == "" {
      assert s == [c] + y && s[1..] == y;
    } else if Escapes(x) {
      assert s[2..] == x[2..] + [c] + y;
      TokensAround(x[2..], c, y);
    } else {
      assert s[1..] == x[1..] + [c] + y && s[0] == x[0];
      assert !Escapes(s);
      TokensAround(x[1..], c, y);
    }
  }

  lemma CoversAround(x: string, y: string, c: char, x': string, y': string)
    requires (c == '!' || c == '@') && MaskCovers(x, x') && MaskCovers(y, y')
    ensures MaskCovers(x + [c] + y, x' + [c] + y')
  {
    TokensAround(x, c, y);
    TokensAround(x', c, y');
    CoversReflexive([Lit(Lower(c))]);
    CoversJoin(Tokens(x), Tokens(x'), [Lit(Lower(c))], [Lit(Lower(c))]);
    CoversJoin(Tokens(x) + [Lit(Lower(c))], Tokens(x') + [Lit(Lower(c))], Tokens(y), Tokens(y'));
  }

  lemma ClipCovers(p: Parts)
    requires |p.nick| <= NICKLEN
    ensures MaskCovers(Clip(p).nick, p.nick) && MaskCovers(Clip(p).user, p.user) && MaskCovers(Clip(p).host, p.host)
  {
    KeepEndCovers(p.user, USERLEN);
    KeepEndCovers(p.host, HOSTLEN);
    CoversReflexive(Tokens(p.nick));
    hide KeepEnd, Covers, Tokens;
  }

  lemma JoinIs(p: Parts)
    ensures Join(p) == p.nick + ['!'] + (p.user + ['@'] + p.host)
  {
  }

  // Cutting user and host never makes a mask narrower; the nick is cut without a '*'.
  lemma PrettyCovers(mask: string)
    requires |Split(mask).nick| <= NICKLEN
    ensures MaskCovers(Pretty(mask), Join(Split(mask)))
  {
    var p := Split(mask);
    var c := Clip(p);
    assert Pretty(mask) == Join(c);
    hide *;
    ClipCovers(p);
    CoversAround(c.user, c.host, '@', p.user, p.host);
    CoversAround(c.nick, c.user + ['@'] + c.host, '!', p.nick, p.user + ['@'] + p.host);
    JoinIs(p);
    JoinIs(c);
  }

  // ---------- The code ----------

  const NUL := '\0'

  // Stands for the pointer to the static "*".
  const STAR := -1

  // The string that starts at a place of a buffer.
  function CString(buf: seq<char>, at: nat): string
    requires at <= |buf|
  {
    buf[at..][..First(buf[at..], NUL)]
  }

  lemma CStringIs(buf: seq<char>, at: nat, s: string)
    requires at + |s| < |buf| && buf[at..at + |s|] == s && NUL !in s && buf[at + |s|] == NUL
    ensures CString(buf, at) == s
  {
    assert forall j :: 0 <= j < |s| ==> buf[at..][j] == s[j] && s[j] in s;
    assert First(buf[at..], NUL) == |s|;
  }

  // What three places in a mask stand for.
  ghost predicate InMask(s: string, nick: int, user: int, host: int) {
    && (nick == STAR || nick == 0) && (user == STAR || 0 <= user <= |s|) && (host == STAR || 0 <= host <= |s|)
    && (user != STAR && nick != STAR ==> user > 0) && (user != STAR && host != STAR ==> host > user)
    && (user == STAR ==> host == STAR || (nick == STAR && host == 0))
  }

  ghost function PartsAt(s: string, nick: int, user: int, host: int): Parts
    requires InMask(s, nick, user, host)
  {
    Parts(if nick == STAR then "*" else s[..if user != STAR then user - 1 else |s|],
          if user == STAR then "*" else s[user..if host != STAR then host - 1 else |s|],
          if host == STAR then "*" else s[host..])
  }

  // The single pass over the mask.
  method Scan(s: string) returns (nick: int, user: int, host: int)
    ensures InMask(s, nick, user, host) && PartsAt(s, nick, user, host) == Split(s)
  {
    hide First, AfterLast, UserHost, Split, PartsAt, InMask;
    nick, user, host := 0, STAR, STAR;
    var lastDot, ptr := STAR, 0;
    while ptr < |s|
      invariant ptr <= |s| && nick == 0 && user == STAR && host == STAR
      invariant forall j :: 0 <= j < ptr ==> s[j] != '!' && s[j] != '@'
      invariant lastDot != STAR <==> exists j :: 0 <= j < ptr && s[j] == '.'
    {
      if s[ptr] == '!' {
        user := ptr + 1;
        host := LastAt(s, user, STAR);
        BangParts(s, ptr, host);
        return;
      } else if s[ptr] == '@' {
        nick, user := STAR, 0;
        host := LastAt(s, ptr + 1, ptr + 1);
        AtParts(s, ptr, host);
        return;
      } else if s[ptr] == '.' {
        lastDot := ptr;
      }
      ptr := ptr + 1;
    }
    if lastDot != STAR {
      nick, host := STAR, 0;
    }
    PlainParts(s, if lastDot != STAR then STAR else 0, if lastDot != STAR then 0 else STAR);
  }

  lemma PlainParts(s: string, nick: int, host: int)
    requires forall j :: 0 <= j < |s| ==> s[j] != '!' && s[j] != '@'
    requires if exists j :: 0 <= j < |s| && s[j] == '.' then nick == STAR && host == 0 else nick == 0 && host == STAR
    ensures InMask(s, nick, STAR, host) && PartsAt(s, nick, STAR, host) == Split(s)
  {
    hide First, UserHost;
    assert s[0..] == s && s[..|s|] == s;
    FirstIs(s, '!', |s|);
    FirstIs(s, '@', |s|);
  }

  // The inner loop: one past the last '@' from `from` on, or `host` if there is none.
  method LastAt(s: string, from: nat, host: int) returns (h: int)
    requires from <= |s|
    ensures h == if AfterLast(s[from..], '@') > 0 then from + AfterLast(s[from..], '@') else host
  {
    h := host;
    var ptr := from;
    ghost var last := 0;
    while ptr < |s|
      invariant from <= ptr <= |s| && 0 <= last <= ptr - from
      invariant last > 0 ==> s[from + last - 1] == '@'
      invariant forall j :: from + last <= j < ptr ==> s[j] != '@'
      invariant h == if last > 0 then from + last else host
    {
      if s[ptr] == '@' {
        h := ptr + 1;
        last := ptr + 1 - from;
      }
      ptr := ptr + 1;
    }
    LastFrom(s, from, last);
  }

  lemma LastFrom(s: string, from: nat, last: nat)
    requires from + last <= |s| && (last > 0 ==> s[from + last - 1] == '@')
    requires forall j :: from + last <= j < |s| ==> s[j] != '@'
    ensures AfterLast(s[from..], '@') == last
  {
    var t := s[from..];
    var i := AfterLast(t, '@');
    assert i > 0 ==> t[i - 1] == s[from + i - 1];
    assert last > 0 ==> t[last - 1] == s[from + last - 1];
  }

  lemma FirstIs(s: string, c: char, i: nat)
    requires i <= |s| && (forall j :: 0 <= j < i ==> s[j] != c) && (i < |s| ==> s[i] == c)
    ensures First(s, c) == i
  {
  }

  lemma FirstBeyond(s: string, c: char, i: nat)
    requires i < |s| && forall j :: 0 <= j <= i ==> s[j] != c
    ensures First(s, c) > i
  {
  }

  lemma Slices(s: string, k: nat, i: nat)
    requires k < |s| && i <= |s| - k - 1
    ensures i > 0 ==> s[k + 1..][..i - 1] == s[k + 1..k + i]
    ensures s[k + 1..][i..] == s[k + 1 + i..] && s[k + 1..|s|] == s[k + 1..]
  {
  }

  lemma SplitBang(s: string, bang: nat)
    requires bang == First(s, '!') < First(s, '@')
    ensures var (user, host) := UserHost(s[bang + 1..]); Split(s) == Parts(s[..bang], user, host)
  {
    hide First, UserHost;
  }

  lemma BangParts(s: string, bang: nat, host: int)
    requires bang < |s| && s[bang] == '!' && forall j :: 0 <= j < bang ==> s[j] != '!' && s[j] != '@'
    requires var i := AfterLast(s[bang + 1..], '@'); host == if i > 0 then bang + 1 + i else STAR
    ensures InMask(s, 0, bang + 1, host) && PartsAt(s, 0, bang + 1, host) == Split(s)
  {
    hide First, AfterLast;
    FirstIs(s, '!', bang);
    FirstBeyond(s, '@', bang);
    SplitBang(s, bang);
    hide Split;
    Slices(s, bang, AfterLast(s[bang + 1..], '@'));
  }

  lemma AtParts(s: string, at: nat, host: int)
    requires at < |s| && s[at] == '@' && forall j :: 0 <= j < at ==> s[j] != '!' && s[j] != '@'
    requires host == at + 1 + AfterLast(s[at + 1..], '@')
    ensures InMask(s, STAR, 0, host) && PartsAt(s, STAR, 0, host) == Split(s)
  {
    hide First, AfterLast;
    FirstIs(s, '@', at);
    FirstBeyond(s, '!', at);
    LastBeyond(s, at);
    assert s[0..host - 1] == s[..host - 1];
  }

  lemma LastBeyond(s: string, at: nat)
    requires at < |s| && s[at] == '@'
    ensures AfterLast(s, '@') == at + 1 + AfterLast(s[at + 1..], '@')
  {
    hide AfterLast;
    var rest := s[at + 1..];
    var i := AfterLast(rest, '@');
    assert i > 0 ==> s[at + i] == rest[i - 1];
    forall j | at + 1 + i <= j < |s| ensures s[j] != '@' { assert s[j] == rest[j - at - 1]; }
    LastFrom(s, 0, at + 1 + i);
    assert s[0..] == s;
  }

  // At `at` the buffer holds the string `t`.
  ghost predicate Holds(buf: seq<char>, at: nat, t: string) {
    at + |t| < |buf| && buf[at..at + |t|] == t && buf[at + |t|] == NUL && NUL !in t
  }

  lemma HoldsFrame(buf: seq<char>, buf': seq<char>, at: nat, t: string)
    requires Holds(buf, at, t) && |buf'| == |buf| && forall j :: at <= j <= at + |t| ==> buf'[j] == buf[j]
    ensures Holds(buf', at, t)
  {
    var a, b := buf[at..at + |t|], buf'[at..at + |t|];
    assert forall j :: 0 <= j < |t| ==> b[j] == a[j];
  }

  // What stands before `k` is untouched.
  lemma HoldsBefore(buf: seq<char>, buf': seq<char>, at: nat, t: string, k: nat)
    requires Holds(buf, at, t) && |buf'| == |buf| && at + |t| < k <= |buf| && buf'[..k] == buf[..k]
    ensures Holds(buf', at, t)
  {
    forall j | at <= j <= at + |t| ensures buf'[j] == buf[j] { assert buf'[..k][j] == buf[..k][j]; }
    HoldsFrame(buf, buf', at, t);
  }

  // Ends the nick, if there is one.
  method CutNick(mask: array<char>, nickEnd: nat)
    requires nickEnd < mask.Length && NUL !in mask[..nickEnd]
    modifies mask
    ensures Holds(mask[..], 0, if nickEnd > NICKLEN then old(mask[..nickEnd])[..NICKLEN] else old(mask[..nickEnd]))
    ensures forall j :: nickEnd < j < mask.Length ==> mask[j] == old(mask[j])
  {
    if nickEnd > NICKLEN { mask[NICKLEN] := NUL; }
    mask[nickEnd] := NUL;
  }

  // Ends a part that starts at `from` and keeps the end of it, after a '*'; returns where it now
  // starts.
  method CutPart(mask: array<char>, from: nat, end: nat, len: nat) returns (start: nat)
    requires from <= end < mask.Length && len > 0 && NUL !in mask[from..end]
    modifies mask
    ensures Holds(mask[..], start, KeepEnd(old(mask[from..end]), len))
    ensures from <= start && start + |KeepEnd(old(mask[from..end]), len)| == end
    ensures forall j :: 0 <= j < mask.Length && (j < from || j > end) ==> mask[j] == old(mask[j])
    ensures mask[..from] == old(mask[..from])
  {
    start := from;
    ghost var part := mask[from..end];
    if end - from > len {
      start := end - len;
      mask[start] := '*';
      assert mask[start..end] == ['*'] + part[end - from - len + 1..];
    }
    mask[end] := NUL;
    assert mask[start..end] == KeepEnd(part, len);
  }

  lemma HoldsString(buf: seq<char>, at: nat, t: string)
    requires Holds(buf, at, t)
    ensures at <= |buf| && CString(buf, at) == t
  {
    CStringIs(buf, at, t);
  }

  lemma SliceSame(buf: seq<char>, s: string, i: nat, j: nat)
    requires i <= j <= |s| <= |buf| && (forall k :: i <= k < j ==> buf[k] == s[k]) && NUL !in s
    ensures buf[i..j] == s[i..j] && NUL !in buf[i..j]
  {
  }

  // What the buffer holds once the parts are cut down.
  ghost predicate Cut(buf: seq<char>, c: Parts, nick: int, user: int, host: int, userStart: nat, hostStart: nat) {
    && (nick != STAR ==> Holds(buf, 0, c.nick))
    && (user != STAR ==> Holds(buf, userStart, c.user))
    && (host != STAR ==> Holds(buf, hostStart, c.host))
    && (nick == STAR ==> c.nick == "*") && (user == STAR ==> c.user == "*") && (host == STAR ==> c.host == "*")
  }

  method CutParts(mask: array<char>, ghost s: string, nick: int, user: int, host: int) returns (userStart: nat, hostStart: nat)
    requires mask.Length == |s| + 1 && mask[..] == s + [NUL] && NUL !in s && InMask(s, nick, user, host)
    modifies mask
    ensures Cut(mask[..], Clip(PartsAt(s, nick, user, host)), nick, user, host, userStart, hostStart)
  {
    hide KeepEnd, Holds;
    var n := mask.Length - 1;
    ghost var c := Clip(PartsAt(s, nick, user, host));
    var nickEnd, userEnd := if user != STAR then user - 1 else n, if host != STAR then host - 1 else n;
    userStart, hostStart := 0, 0;
    assert forall j :: 0 <= j < n ==> mask[j] == s[j];
    if nick != STAR {
      SliceSame(mask[..], s, 0, nickEnd);
      assert mask[..nickEnd] == mask[..][0..nickEnd] && s[0..nickEnd] == s[..nickEnd];
      CutNick(mask, nickEnd);
    }
    ghost var b1 := mask[..];
    if user != STAR {
      SliceSame(b1, s, user, userEnd);
      userStart := CutPart(mask, user, userEnd, USERLEN);
      ghost var b := mask[..];
      assert b[..user] == b1[..user];
      if nick != STAR { HoldsBefore(b1, b, 0, c.nick, user); }
    }
    ghost var b2 := mask[..];
    if host != STAR {
      assert s[host..n] == s[host..];
      SliceSame(b2, s, host, n);
      hostStart := CutPart(mask, host, n, HOSTLEN);
      ghost var b := mask[..];
      assert b[..host] == b2[..host];
      if nick != STAR { HoldsBefore(b2, b, 0, c.nick, host); }
      if user != STAR { HoldsBefore(b2, b, userStart, c.user, host); }
    }
    KeepStar();
  }

  lemma KeepStar()
    ensures KeepEnd("*", USERLEN) == "*" && KeepEnd("*", HOSTLEN) == "*"
  {
  }

  // Cuts the parts down to their lengths in place and puts them together.
  method PrettyInPlace(mask: array<char>) returns (r: string)
    requires mask.Length > 0 && mask[mask.Length - 1] == NUL && NUL !in mask[..mask.Length - 1]
    modifies mask
    ensures r == Pretty(old(mask[..mask.Length - 1]))
  {
    hide Split, CString, KeepEnd, Holds, InMask, PartsAt, Clip;
    var n := mask.Length - 1;
    ghost var s := mask[..n];
    var nick, user, host := Scan(mask[..n]);
    ghost var c := Clip(PartsAt(s, nick, user, host));
    assert mask[..] == s + [NUL];
    var userStart, hostStart := CutParts(mask, s, nick, user, host);
    var buf := mask[..];
    if nick != STAR { HoldsString(buf, 0, c.nick); }
    if user != STAR { HoldsString(buf, userStart, c.user); }
    if host != STAR { HoldsString(buf, hostStart, c.host); }
    var nickText := if nick == STAR then "*" else CString(buf, 0);
    var userText := if user == STAR then "*" else CString(buf, userStart);
    var hostText := if host == STAR then "*" else CString(buf, hostStart);
    r := nickText + "!" + userText + "@" + hostText;
  }
}
