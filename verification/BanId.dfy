/** `add_banid`: one ban is put on the list of a channel, and what it covers is taken off. */
module BanId {
  import opened Common
  import opened Masks
  import opened BanList

  /** What became of the call. `removed`: newest first, as `removed_bans_list` holds them;
      `result`: 0 added, -1 refused, -2 a ban of the last burst was confirmed. */
  datatype Added = Added(result: int, list: seq<Ban>, removed: seq<Ban>)

  /** The loop over the list. */
  function Scan(l: seq<Ban>, id: string, change: bool, first: bool): Added {
    if l == [] then Added(0, [], [])
    else
      var b := l[0];
      if b.wipeout && b.mask == id then Added(-2, [b.(wipeout := false)] + l[1..], [])
      else if !b.wipeout && MaskCovers(b.mask, id) then Added(-1, l, [])
      else
        var r := Scan(l[1..], id, change, first);
        if !MaskCovers(id, b.mask) then r.(list := [if first then b.(overlapped := false) else b] + r.list)
        else if change then r.(removed := r.removed + [b])
        else r.(list := [if b.wipeout then b else b.(overlapped := true)] + r.list)
  }

  datatype Limits = Limits(isUser: bool, maxBans: int, avBanLen: int)

  /** The size limit; `len` counts the mask as it was given. */
  predicate TooMany(l: seq<Ban>, len: int, m: Limits) {
    m.isUser && (len + TotalLen(l) > m.avBanLen * m.maxBans || |l| >= m.maxBans)
  }

  function Canonical(id: string, m: Limits): string { if m.isUser then Collapse(id) else id }

  function AddBan(l: seq<Ban>, given: string, change: bool, first: bool, m: Limits): Added {
    var id := Canonical(given, m);
    var r := Scan(l, id, change, first);
    if r.result != 0 then r
    else if r.removed == [] && TooMany(l, |given|, m) then r.(result := -1)
    else if change then r.(list := [RealBan(id)] + r.list)
    else r
  }

  // ---------------------------------------------------------------- what it means

  function NotCovered(l: seq<Ban>, id: string): seq<string> {
    if l == [] then []
    else (if MaskCovers(id, l[0].mask) then [] else [l[0].mask]) + NotCovered(l[1..], id)
  }

  function CoveredBy(l: seq<Ban>, id: string): seq<string> {
    if l == [] then []
    else CoveredBy(l[1..], id) + (if MaskCovers(id, l[0].mask) then [l[0].mask] else [])
  }

  ghost predicate CoveredByList(l: seq<Ban>, id: string) {
    exists i :: 0 <= i < |l| && MaskCovers(l[i].mask, id)
  }

  ghost predicate NoWipeout(l: seq<Ban>) { forall b :: b in l ==> !b.wipeout }

  lemma AntichainTail(l: seq<Ban>)
    requires l != [] && Antichain(Texts(l))
    ensures Antichain(Texts(l[1..]))
  {
    hide MaskCovers;
    assert forall i :: 0 <= i < |l| - 1 ==> Texts(l[1..])[i] == Texts(l)[i + 1];
  }

  lemma CoveredSplits(l: seq<Ban>, id: string)
    requires l != []
    ensures CoveredByList(l, id) <==> MaskCovers(l[0].mask, id) || CoveredByList(l[1..], id)
  {
    hide MaskCovers;
    if i :| 0 <= i < |l| && MaskCovers(l[i].mask, id) && i > 0 { assert l[1..][i - 1] == l[i]; }
    if i :| 0 <= i < |l| - 1 && MaskCovers(l[1..][i].mask, id) { assert l[i + 1] == l[1..][i]; }
  }

  /** On an antichain a ban that will be refused removes nothing first. */
  lemma {:induction false} ScanRefusal(l: seq<Ban>, id: string, change: bool, first: bool)
    requires Antichain(Texts(l)) && NoWipeout(l) && CoveredByList(l, id)
    ensures var r := Scan(l, id, change, first);
      r.result == -1 && Texts(r.list) == Texts(l) && r.removed == []
  {
    hide MaskCovers, Antichain;
    var b := l[0];
    CoveredSplits(l, id);
    if !MaskCovers(b.mask, id) {
      AntichainTail(l);
      assert b in l && forall c :: c in l[1..] ==> c in l;
      ScanRefusal(l[1..], id, change, first);
      var k :| 0 <= k < |l| - 1 && MaskCovers(l[1..][k].mask, id);
      if MaskCovers(id, b.mask) {
        MaskCoversTransitive(l[k + 1].mask, id, b.mask);
        NotAbove(l, k + 1, 0);
      }
      var r := Scan(l, id, change, first);
      assert r.list[1..] == Scan(l[1..], id, change, first).list;
      assert Texts(r.list) == [b.mask] + Texts(r.list[1..]);
    }
  }

  lemma NotAbove(l: seq<Ban>, i: nat, j: nat)
    requires Antichain(Texts(l)) && i < |l| && j < |l| && i != j
    ensures !MaskCovers(l[i].mask, l[j].mask)
  {
    hide MaskCovers;
    assert Texts(l)[i] == l[i].mask && Texts(l)[j] == l[j].mask;
  }

  lemma {:induction false} ScanPasses(l: seq<Ban>, id: string, change: bool, first: bool)
    requires NoWipeout(l) && !CoveredByList(l, id)
    ensures var r := Scan(l, id, change, first);
      && r.result == 0
      && Texts(r.list) == (if change then NotCovered(l, id) else Texts(l))
      && Texts(r.removed) == (if change then CoveredBy(l, id) else [])
  {
    hide MaskCovers, Texts, CoveredByList;
    if l == [] {
      NothingListed();
    } else {
      var b, rest := l[0], Scan(l[1..], id, change, first);
      CoveredSplits(l, id);
      assert b in l && forall c :: c in l[1..] ==> c in l;
      ScanPasses(l[1..], id, change, first);
      assert l == [b] + l[1..];
      TextsInFront(b, l[1..]);
      TextsInFront(if first then b.(overlapped := false) else b, rest.list);
      TextsInFront(b.(overlapped := true), rest.list);
      TextsBehind(rest.removed, b);
      assert !MaskCovers(id, b.mask) ==> CoveredBy(l, id) == CoveredBy(l[1..], id) + [] == CoveredBy(l[1..], id);
      assert MaskCovers(id, b.mask) ==> NotCovered(l, id) == [] + NotCovered(l[1..], id) == NotCovered(l[1..], id);
    }
  }

  lemma NothingListed()
    ensures Texts([]) == []
  {
  }

  lemma {:induction false} NotCoveredOf(l: seq<Ban>, id: string, x: string)
    requires forall i, j :: 0 <= i < j < |l| ==> l[i].mask != l[j].mask
    ensures x in NotCovered(l, id) <==> x in Texts(l) && !MaskCovers(id, x)
    ensures multiset(NotCovered(l, id))[x] <= multiset(Texts(l))[x]
  {
    hide MaskCovers;
    if l != [] {
      NotCoveredOf(l[1..], id, x);
      assert Texts(l) == [l[0].mask] + Texts(l[1..]);
      assert NotCovered(l, id) == (if MaskCovers(id, l[0].mask) then [] else [l[0].mask]) + NotCovered(l[1..], id);
    }
  }

  lemma AntichainIsDistinct(l: seq<Ban>)
    requires Antichain(Texts(l))
    ensures forall i, j :: 0 <= i < j < |l| ==> l[i].mask != l[j].mask
  {
    hide *;
    forall i, j | 0 <= i < j < |l| ensures l[i].mask != l[j].mask {
      NotAbove(l, i, j);
      CoversItself(l[i].mask);
    }
  }

  lemma AntichainIsBag(l: seq<Ban>)
    requires Antichain(Texts(l))
    ensures AntichainBag(multiset(Texts(l)))
  {
    hide MaskCovers, Antichain, Texts;
    AntichainIsDistinct(l);
    var m := multiset(Texts(l));
    forall x | x in m ensures m[x] == 1 { TextsOnce(l, x); }
    forall x, y | x in m && y in m && x != y ensures !MaskCovers(x, y) {
      var i :| 0 <= i < |l| && Texts(l)[i] == x;
      var j :| 0 <= j < |l| && Texts(l)[j] == y;
      NotAbove(l, i, j);
    }
  }

  /** The list a successful call leaves: the new mask and all the masks it does not cover. */
  lemma AddedListIsAntichain(l: seq<Ban>, id: string)
    requires Antichain(Texts(l)) && !CoveredByList(l, id)
    ensures Antichain([id] + NotCovered(l, id))
  {
    hide MaskCovers, Antichain, NotCovered, Texts;
    var kept, b := NotCovered(l, id), multiset(Texts(l));
    AntichainIsBag(l);
    AntichainIsDistinct(l);
    forall x ensures multiset(kept)[x] <= b[x] && (x in kept ==> !MaskCovers(id, x) && !MaskCovers(x, id)) {
      NotCoveredOf(l, id, x);
      if x in kept { var i :| 0 <= i < |l| && Texts(l)[i] == x; assert !MaskCovers(l[i].mask, id); }
    }
    BagWithOneMore(kept, b, id);
  }

  lemma BagWithOneMore(kept: seq<string>, b: multiset<string>, id: string)
    requires AntichainBag(b) && forall x :: multiset(kept)[x] <= b[x]
    requires forall x :: x in kept ==> !MaskCovers(id, x) && !MaskCovers(x, id)
    ensures Antichain([id] + kept)
  {
    hide MaskCovers;
    var m := [id] + kept;
    CoversItself(id);
    assert forall x :: x in multiset(kept) <==> x in kept;
    assert multiset(m) == multiset{id} + multiset(kept);
    assert AntichainBag(multiset(m));
    BagGivesAntichain(m, multiset(m));
  }

  /** Adding a ban to an antichain either changes no mask, or leaves an antichain that holds the
      new mask and lacks exactly the masks it covers; and exactly when it does which. */
  lemma AddBanMeaning(l: seq<Ban>, given: string, first: bool, m: Limits)
    requires Antichain(Texts(l)) && NoWipeout(l)
    ensures var o, id := AddBan(l, given, true, first, m), Canonical(given, m);
      && (o.result == 0 || o.result == -1)
      && (o.result == -1 <==> CoveredByList(l, id) || (CoveredBy(l, id) == [] && TooMany(l, |given|, m)))
      && (o.result == -1 ==> Texts(o.list) == Texts(l) && o.removed == [])
      && (o.result == 0 ==> Texts(o.list) == [id] + NotCovered(l, id) && Antichain(Texts(o.list)))
      && (o.result == 0 ==> Texts(o.removed) == CoveredBy(l, id) && forall x :: x in NotCovered(l, id) <==> x in Texts(l) && !MaskCovers(id, x))
  {
    hide MaskCovers, Antichain, CoveredByList;
    var o, id := AddBan(l, given, true, first, m), Canonical(given, m);
    if CoveredByList(l, id) {
      ScanRefusal(l, id, true, first);
    } else {
      ScanPasses(l, id, true, first);
      AddedListIsAntichain(l, id);
      AntichainIsDistinct(l);
      forall x ensures x in NotCovered(l, id) <==> x in Texts(l) && !MaskCovers(id, x) { NotCoveredOf(l, id, x); }
      if CoveredBy(l, id) == [] { NothingCovered(l, id); }
      var r := Scan(l, id, true, first);
      assert r.removed == [] <==> Texts(r.removed) == [];
      assert Texts([RealBan(id)] + r.list) == [id] + Texts(r.list);
    }
  }

  lemma {:induction false} CoveredOrNot(l: seq<Ban>, id: string)
    ensures |NotCovered(l, id)| + |CoveredBy(l, id)| == |l|
  {
    if l != [] { CoveredOrNot(l[1..], id); }
  }

  /** For a user: a ban that nothing covers is refused exactly when it would replace none and the list
      with it would have too many bans or too many characters.  So no call makes a list longer than it
      was and MAXBANS; a ban that replaces others may still add characters. */
  lemma AddBanBounded(l: seq<Ban>, given: string, first: bool, m: Limits)
    requires Antichain(Texts(l)) && NoWipeout(l) && m.isUser
    ensures var o, id := AddBan(l, given, true, first, m), Canonical(given, m);
      && (o.result == -1 && !CoveredByList(l, id) <==>
          && !CoveredByList(l, id) && CoveredBy(l, id) == []
          && (|l| + 1 > m.maxBans || |given| + TotalLen(l) > m.avBanLen * m.maxBans))
      && (|o.list| <= |l| || |o.list| <= m.maxBans)
      && (o.result == 0 ==> |o.list| + |o.removed| == |l| + 1)
  {
    hide MaskCovers, Antichain, CoveredByList, AddBan, Texts, NotCovered, CoveredBy, TotalLen;
    var o, id := AddBan(l, given, true, first, m), Canonical(given, m);
    AddBanMeaning(l, given, first, m);
    CoveredOrNot(l, id);
    TextsLength(o.list);
    TextsLength(o.removed);
    TextsLength(l);
  }

  lemma {:induction false} NothingCovered(l: seq<Ban>, id: string)
    requires CoveredBy(l, id) == []
    ensures NotCovered(l, id) == Texts(l)
  {
    hide MaskCovers;
    if l != [] { NothingCovered(l[1..], id); }
  }

  lemma ScanEnd(id: string, change: bool, first: bool)
    ensures Scan([], id, change, first) == Added(0, [], []) && TotalLen([]) == 0
  {
  }

  lemma ScanSteps(l: seq<Ban>, id: string, change: bool, first: bool)
    requires l != []
    ensures TotalLen(l) == |l[0].mask| + TotalLen(l[1..])
    ensures var b, r := l[0], Scan(l[1..], id, change, first);
      Scan(l, id, change, first) ==
        if b.wipeout && b.mask == id then Added(-2, [b.(wipeout := false)] + l[1..], [])
        else if !b.wipeout && MaskCovers(b.mask, id) then Added(-1, l, [])
        else if !MaskCovers(id, b.mask) then r.(list := [if first then b.(overlapped := false) else b] + r.list)
        else if change then r.(removed := r.removed + [b])
        else r.(list := [if b.wipeout then b else b.(overlapped := true)] + r.list)
  {
    hide MaskCovers;
  }

  // ---------------------------------------------------------------- the code

  /** The file-scope variables of the ban editor. */
  class BanEditor {
    var removedBans: seq<Ban>

    constructor ()
      ensures removedBans == []
    {
      removedBans := [];
    }

    /** The loop of `add_banid`; `banp` stands between `done` and `rest`. */
    method ScanList(chptr: Channel, id: string, given: int, change: bool, first: bool, isUser: bool)
      returns (r: int, cnt: int, len: int, removed: bool)
      modifies this, chptr
      ensures var s := Scan(old(chptr.banlist), id, change, first);
        && r == s.result && chptr.banlist == s.list && removedBans == s.removed + old(removedBans)
        && (r == 0 ==> removed == (s.removed != []))
        && (r == 0 && !removed ==> cnt == |old(chptr.banlist)| && len == given + TotalLen(old(chptr.banlist)))
    {
      hide MaskCovers, Scan, TotalLen;
      var done, rest := [], chptr.banlist;
      cnt, len, removed := 0, given, false;
      ScanEnd(id, change, first);
      ghost var l0, s0, taken := chptr.banlist, Scan(chptr.banlist, id, change, first), [];
      assert [] + removedBans == removedBans && s0.removed + [] == s0.removed && [] + s0.list == s0.list;
      while rest != []
        invariant chptr.banlist == done + rest && removedBans == taken + old(removedBans)
        invariant s0 == After(done, Scan(rest, id, change, first), taken)
        invariant removed == (taken != [])
        invariant !removed ==> cnt + |rest| == |l0| && len + TotalLen(rest) == given + TotalLen(l0)
        decreases |rest|
      {
        var b := rest[0];
        ghost var s := Scan(rest[1..], id, change, first);
        ScanSteps(rest, id, change, first);
        len, cnt := len + |b.mask|, cnt + 1;
        if b.wipeout && b.mask == id {
          Assoc(done, [b.(wipeout := false)], rest[1..]);
          chptr.banlist := done + [b.(wipeout := false)] + rest[1..];
          r := -2;
          return;
        } else if !b.wipeout && MaskCovers(b.mask, id) {
          r := -1;
          return;
        }
        if MaskCovers(id, b.mask) && change {
          if isUser { cnt, len := cnt - 1, len - |b.mask|; }
          Assoc(s.removed, [b], taken);
          Assoc([b], taken, old(removedBans));
          removedBans := [b] + removedBans;
          taken, removed := [b] + taken, true;
        } else {
          if MaskCovers(id, b.mask) {
            if !b.wipeout { b := b.(overlapped := true); }
          } else if first {
            b := b.(overlapped := false);
          }
          Assoc(done, [b], s.list);
          done := done + [b];
        }
        rest := rest[1..];
        chptr.banlist := done + rest;
      }
      assert done + [] == done && [] + taken == taken;
      r := 0;
    }

    /** `add_banid` */
    method AddBanId(chptr: Channel, given: string, change: bool, first: bool, m: Limits) returns (r: int)
      modifies this, chptr
      ensures var o := AddBan(old(chptr.banlist), given, change, first, m);
        r == o.result && chptr.banlist == o.list && removedBans == o.removed + old(removedBans)
    {
      var id := Canonical(given, m);
      var cnt, len, removed;
      r, cnt, len, removed := ScanList(chptr, id, |given|, change, first, m.isUser);
      if r != 0 { return; }
      if m.isUser && !removed && (len > m.avBanLen * m.maxBans || cnt >= m.maxBans) { return -1; }
      if change { chptr.banlist := [RealBan(id)] + chptr.banlist; }
    }
  }

  /** The scan of the rest of a list, seen from the start. */
  function After(done: seq<Ban>, s: Added, taken: seq<Ban>): Added {
    Added(s.result, done + s.list, s.removed + taken)
  }
}
