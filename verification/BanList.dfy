/** The ban list of a channel: `mode_parse_ban` and `mode_process_bans`.

    While one MODE command is parsed, requested bans are slots appended to the real list and the
    MODE_ADD, MODE_DEL and CHFL_BAN_OVERLAPPED bits say what is to become of each entry; the
    second pass turns the marked list back into a list of real bans. */
module BanList {
  import opened Common
  import opened Masks
  import opened StringMatch

  /** One entry. `add`: a slot, not a real ban; `del`: marked for deletion; `overlapped`. */
  datatype Ban = Ban(mask: string, add: bool, del: bool, overlapped: bool, wipeout: bool)

  /** A +b or -b argument, already through `collapse(pretty_mask())`; also a change queued. */
  datatype Change = Change(add: bool, mask: string)

  function Texts(l: seq<Ban>): (r: seq<string>)
    ensures |r| == |l| && forall i :: 0 <= i < |l| ==> r[i] == l[i].mask
  {
    if l == [] then [] else [l[0].mask] + Texts(l[1..])
  }

  /** No mask of the list covers another. */
  ghost predicate Antichain(m: seq<string>) {
    forall i, j :: 0 <= i < |m| && 0 <= j < |m| && i != j ==> !MaskCovers(m[i], m[j])
  }

  // ================================================================ mode_parse_ban

  function Clean(b: Ban): Ban { b.(add := false, del := false, overlapped := false) }

  /** An entry as the loop finds it: the first pass of a command wipes the three bits. */
  function Seen(b: Ban, clean: bool): Ban { if clean then b else Clean(b) }

  function CleanAll(l: seq<Ban>): (r: seq<Ban>)
    ensures |r| == |l| && forall i :: 0 <= i < |l| ==> r[i] == Clean(l[i])
  {
    if l == [] then [] else [Clean(l[0])] + CleanAll(l[1..])
  }

  function SeenAll(l: seq<Ban>, clean: bool): (r: seq<Ban>)
    ensures |r| == |l| && forall i :: 0 <= i < |l| ==> r[i] == Seen(l[i], clean)
  {
    if clean then l else CleanAll(l)
  }

  function NewSlot(t: string): Ban { Ban(t, true, false, false, false) }

  /** What a new mask `t` does to one entry with a different mask. */
  function Covered(b: Ban, t: string): Ban {
    if !MaskCovers(b.mask, t) && MaskCovers(t, b.mask) then b.(del := true) else b
  }

  function Overlap(slot: Ban, b: Ban): Ban {
    if MaskCovers(b.mask, slot.mask) && !b.del then slot.(overlapped := true) else slot
  }

  /** The loop over the list for +b. */
  function AddPass(l: seq<Ban>, clean: bool, slot: Ban): seq<Ban> {
    if l == [] then []
    else
      var b := Seen(l[0], clean);
      if SameText(b.mask, slot.mask) then
        [b] + (if clean then l[1..] else AddPass(l[1..], clean, slot.(add := false)))
      else
        var slot' := Overlap(slot, b);
        [Covered(b, slot.mask)] + (if |l| == 1 && slot'.add then [slot'] else AddPass(l[1..], clean, slot'))
  }

  /** The loop over the list for -b. */
  function DelPass(l: seq<Ban>, clean: bool, t: string): seq<Ban> {
    if l == [] then []
    else
      var b := Seen(l[0], clean);
      if SameText(b.mask, t) then
        [b.(del := true)] + (if clean then l[1..] else DelPass(l[1..], clean, t))
      else [b] + DelPass(l[1..], clean, t)
  }

  function ParsePass(l: seq<Ban>, clean: bool, c: Change): seq<Ban> {
    if c.add then (if l == [] then [NewSlot(c.mask)] else AddPass(l, clean, NewSlot(c.mask)))
    else DelPass(l, clean, c.mask)
  }

  function SlotCount(l: seq<Ban>): nat {
    if l == [] then 0 else (if l[0].add then 1 else 0) + SlotCount(l[1..])
  }

  // ---------------------------------------------------------------- the marked list

  /** Slots hang on the end of the list. */
  ghost predicate SlotsLast(l: seq<Ban>) {
    forall i, j :: 0 <= i < j < |l| && l[i].add ==> l[j].add
  }

  /** What holds of the list between two +b/-b arguments of one command. */
  ghost predicate Marked(l: seq<Ban>) {
    && SlotsLast(l)
    && (forall i :: 0 <= i < |l| && l[i].overlapped ==> l[i].add)
    && (forall i, j :: 0 <= i < j < |l| ==> Compatible(l[i], l[j]))
  }

  /** An earlier entry `a` and a later one `b`. */
  ghost predicate Compatible(a: Ban, b: Ban) {
    if !b.add then !MaskCovers(a.mask, b.mask) && !MaskCovers(b.mask, a.mask)
    else
      && !SameText(a.mask, b.mask)
      && (MaskCovers(a.mask, b.mask) ==> a.del || b.overlapped)
      && (!MaskCovers(a.mask, b.mask) && MaskCovers(b.mask, a.mask) ==> a.del)
  }

  /** Entries that will be real bans once the command is done. */
  predicate IsLive(b: Ban) { !b.del && !(b.add && b.overlapped) }

  function Live(l: seq<Ban>): set<string> { set b | b in l && IsLive(b) :: b.mask }

  ghost predicate Ready(l: seq<Ban>, clean: bool) {
    if clean then Marked(l) else Antichain(Texts(l))
  }

  lemma ReadyIsMarked(l: seq<Ban>, clean: bool)
    requires Ready(l, clean)
    ensures Marked(SeenAll(l, clean))
  {
    hide MaskCovers, SameText;
  }

  ghost predicate HasText(l: seq<Ban>, t: string) {
    exists i :: 0 <= i < |l| && SameText(l[i].mask, t)
  }

  ghost predicate HasCover(l: seq<Ban>, t: string) {
    exists i :: 0 <= i < |l| && !l[i].del && MaskCovers(l[i].mask, t)
  }

  /** `r` is `l` with more deletion marks, set only on entries strictly below `t`. */
  ghost predicate OnlyDeletes(l: seq<Ban>, r: seq<Ban>, t: string) {
    && |r| == |l|
    && forall i :: 0 <= i < |l| ==> r[i] == l[i] || r[i] == Covered(l[i], t)
  }

  lemma HasCoverSplits(s: seq<Ban>, t: string)
    requires s != []
    ensures HasCover(s, t) <==> (!s[0].del && MaskCovers(s[0].mask, t)) || HasCover(s[1..], t)
  {
    hide MaskCovers;
    if HasCover(s[1..], t) {
      var i :| 0 <= i < |s| - 1 && !s[1..][i].del && MaskCovers(s[1..][i].mask, t);
      assert s[i + 1] == s[1..][i];
    }
    if HasCover(s, t) {
      var i :| 0 <= i < |s| && !s[i].del && MaskCovers(s[i].mask, t);
      assert i > 0 ==> s[1..][i - 1] == s[i];
    }
  }

  lemma HasTextSplits(l: seq<Ban>, t: string)
    requires l != []
    ensures HasText(l, t) <==> SameText(l[0].mask, t) || HasText(l[1..], t)
  {
    hide SameText;
    if HasText(l[1..], t) {
      var i :| 0 <= i < |l| - 1 && SameText(l[1..][i].mask, t);
      assert l[i + 1] == l[1..][i];
    }
    if HasText(l, t) {
      var i :| 0 <= i < |l| && SameText(l[i].mask, t);
      assert i > 0 ==> l[1..][i - 1] == l[i];
    }
  }

  /** A +b whose mask is new: every entry strictly below it is marked, and the slot goes last. */
  lemma {:induction false} AddPassNew(l: seq<Ban>, clean: bool, slot: Ban)
    requires l != [] && slot.add && !HasText(l, slot.mask)
    ensures var s, r := SeenAll(l, clean), AddPass(l, clean, slot);
      && |r| == |l| + 1
      && (forall i :: 0 <= i < |l| ==> r[i] == Covered(s[i], slot.mask))
      && r[|l|] == (if HasCover(s, slot.mask) then slot.(overlapped := true) else slot)
  {
    hide MaskCovers, SameText, Covered;
    var s, r := SeenAll(l, clean), AddPass(l, clean, slot);
    HasTextSplits(l, slot.mask);
    HasCoverSplits(s, slot.mask);
    var slot' := Overlap(slot, s[0]);
    if |l| > 1 {
      AddPassNew(l[1..], clean, slot');
      assert SeenAll(l[1..], clean) == s[1..];
      assert r == [Covered(s[0], slot.mask)] + AddPass(l[1..], clean, slot');
    }
  }

  /** A +b whose mask is there already: no slot is added. */
  lemma {:induction false} AddPassDuplicate(l: seq<Ban>, clean: bool, slot: Ban)
    requires HasText(l, slot.mask) || !slot.add
    ensures OnlyDeletes(SeenAll(l, clean), AddPass(l, clean, slot), slot.mask)
  {
    hide MaskCovers, SameText, Covered, HasText, OnlyDeletes;
    var s, r := SeenAll(l, clean), AddPass(l, clean, slot);
    if l == [] {
      OnlyDeletesSame(s, slot.mask);
    } else {
      HasTextSplits(l, slot.mask);
      NoText(slot.mask);
      SeenAllSplits(l, clean);
      var next := if SameText(l[0].mask, slot.mask) then slot.(add := false) else Overlap(slot, s[0]);
      if SameText(l[0].mask, slot.mask) && clean {
        assert r == [s[0]] + l[1..] && SeenAll(l[1..], clean) == l[1..];
        OnlyDeletesSame(l[1..], slot.mask);
      } else {
        AddPassDuplicate(l[1..], clean, next);
      }
      hide SeenAll;
      var b := if SameText(l[0].mask, slot.mask) then s[0] else Covered(s[0], slot.mask);
      OnlyDeletesCons(s[0], b, SeenAll(l[1..], clean), r[1..], slot.mask);
      assert r == [b] + r[1..];
    }
  }

  lemma NoText(t: string)
    ensures !HasText([], t)
  {
  }

  lemma SeenAllSplits(l: seq<Ban>, clean: bool)
    requires l != []
    ensures SeenAll(l, clean) == [Seen(l[0], clean)] + SeenAll(l[1..], clean)
    ensures clean ==> SeenAll(l[1..], clean) == l[1..]
  {
  }

  lemma OnlyDeletesSame(l: seq<Ban>, t: string)
    ensures OnlyDeletes(l, l, t)
  {
  }

  lemma OnlyDeletesCons(a: Ban, b: Ban, l: seq<Ban>, r: seq<Ban>, t: string)
    requires OnlyDeletes(l, r, t) && (b == a || b == Covered(a, t))
    ensures OnlyDeletes([a] + l, [b] + r, t)
  {
    hide Covered;
  }

  ghost predicate FirstWith(l: seq<Ban>, i: nat, t: string)
    requires i < |l|
  {
    SameText(l[i].mask, t) && forall j :: 0 <= j < i ==> !SameText(l[j].mask, t)
  }

  /** -b marks every entry with the text of `t` in the first pass of a command, later the first only. */
  ghost predicate Reached(l: seq<Ban>, clean: bool, i: nat, t: string)
    requires i < |l|
  {
    SameText(l[i].mask, t) && (clean ==> FirstWith(l, i, t))
  }

  lemma {:induction false} DelPassShape(l: seq<Ban>, clean: bool, t: string)
    ensures var s, r := SeenAll(l, clean), DelPass(l, clean, t);
      |r| == |l| && forall i :: 0 <= i < |l| ==> r[i] == if Reached(l, clean, i, t) then s[i].(del := true) else s[i]
  {
    hide MaskCovers, SameText;
    if l != [] {
      DelPassShape(l[1..], clean, t);
      var s, r := SeenAll(l, clean), DelPass(l, clean, t);
      assert SeenAll(l[1..], clean) == s[1..];
      forall i | 1 <= i < |l|
        ensures Reached(l, clean, i, t) == (Reached(l[1..], clean, i - 1, t) && !(clean && SameText(l[0].mask, t)))
      {
        ReachedBehind(l, clean, i, t);
      }
      assert Reached(l, clean, 0, t) == SameText(l[0].mask, t);
      if !(SameText(l[0].mask, t) && clean) { assert r[1..] == DelPass(l[1..], clean, t); }
    }
  }

  lemma ReachedBehind(l: seq<Ban>, clean: bool, i: nat, t: string)
    requires 1 <= i < |l|
    ensures Reached(l, clean, i, t) == (Reached(l[1..], clean, i - 1, t) && !(clean && SameText(l[0].mask, t)))
  {
    hide SameText;
    assert forall j :: 0 <= j < |l| - 1 ==> l[1..][j] == l[j + 1];
    assert forall j :: 1 <= j < |l| ==> l[j] == l[1..][j - 1];
  }

  /** More deletion marks keep the list well marked. */
  lemma MoreDeletesKeepMarked(l: seq<Ban>, r: seq<Ban>)
    requires Marked(l) && |r| == |l|
    requires forall i :: 0 <= i < |l| ==> r[i] == l[i] || r[i] == l[i].(del := true)
    ensures Marked(r)
  {
    hide MaskCovers, SameText;
    forall i, j | 0 <= i < j < |r| ensures Compatible(r[i], r[j]) { assert Compatible(l[i], l[j]); }
  }

  /** `r` is `s` after a +b of a new mask `t`. */
  ghost predicate Extended(s: seq<Ban>, r: seq<Ban>, t: string) {
    && |r| == |s| + 1
    && (forall i :: 0 <= i < |s| ==> r[i] == Covered(s[i], t))
    && r[|s|] == NewSlot(t).(overlapped := HasCover(s, t))
  }

  lemma ExtendedKeepsMarked(s: seq<Ban>, r: seq<Ban>, t: string)
    requires Marked(s) && Extended(s, r, t) && !HasText(s, t)
    ensures Marked(r)
  {
    hide MaskCovers, SameText;
    var r0 := r[..|s|];
    MoreDeletesKeepMarked(s, r0);
    forall i, j | 0 <= i < j < |r| ensures Compatible(r[i], r[j]) {
      if j < |s| {
        assert Compatible(r0[i], r0[j]);
      } else {
        assert r[i].mask == s[i].mask && !SameText(s[i].mask, t);
        assert !s[i].del && MaskCovers(s[i].mask, t) ==> HasCover(s, t);
      }
    }
  }

  /** Every +b and -b keeps the list well marked. */
  lemma ParsePassKeepsMarked(l: seq<Ban>, clean: bool, c: Change)
    requires Ready(l, clean)
    ensures Marked(ParsePass(l, clean, c))
  {
    hide MaskCovers, SameText, Compatible, AddPass, DelPass, HasText, HasCover;
    var s, r, t := SeenAll(l, clean), ParsePass(l, clean, c), c.mask;
    ReadyIsMarked(l, clean);
    if !c.add {
      DelPassShape(l, clean, t);
      MoreDeletesKeepMarked(s, r);
    } else if l == [] {
    } else if HasText(l, t) {
      AddPassDuplicate(l, clean, NewSlot(t));
      MoreDeletesKeepMarked(s, r);
    } else {
      AddPassNew(l, clean, NewSlot(t));
      HasTextOfSeen(l, clean, t);
      ExtendedKeepsMarked(s, r, t);
    }
  }

  // ---------------------------------------------------------------- meaning of one argument

  /** +b applied on its own to a list with no redundant masks. */
  ghost function SeqAdd(S: set<string>, t: string): set<string> {
    if exists s :: s in S && MaskCovers(s, t) then S else (set s | s in S && !MaskCovers(t, s)) + {t}
  }

  ghost function SeqStep(S: set<string>, c: Change): set<string> {
    if c.add then SeqAdd(S, c.mask) else set s | s in S && !SameText(s, c.mask)
  }

  ghost predicate LiveCover(l: seq<Ban>, t: string) {
    exists i :: 0 <= i < |l| && IsLive(l[i]) && MaskCovers(l[i].mask, t)
  }

  /** Nothing is in the way of +b but a live mask that covers it: no dead entry, and no entry that
      has its text without covering it. */
  ghost predicate Unhindered(l: seq<Ban>, t: string) {
    LiveCover(l, t) || (!HasText(l, t) && !HasCover(l, t))
  }

  lemma LiveHas(l: seq<Ban>, x: string)
    ensures x in Live(l) <==> exists i :: 0 <= i < |l| && IsLive(l[i]) && l[i].mask == x
  {
    if i :| 0 <= i < |l| && IsLive(l[i]) && l[i].mask == x { assert l[i] in l; }
    if x in Live(l) {
      var b :| b in l && IsLive(b) && b.mask == x;
      var i :| 0 <= i < |l| && l[i] == b;
    }
  }

  lemma LiveAgree(l: seq<Ban>, r: seq<Ban>)
    requires |l| <= |r| && forall i :: 0 <= i < |l| ==> l[i].mask == r[i].mask && IsLive(l[i]) == IsLive(r[i])
    requires forall i :: |l| <= i < |r| ==> !IsLive(r[i])
    ensures Live(l) == Live(r)
  {
    forall x ensures x in Live(l) <==> x in Live(r) {
      LiveHas(l, x);
      LiveHas(r, x);
      if i :| 0 <= i < |l| && IsLive(l[i]) && l[i].mask == x { assert IsLive(r[i]) && r[i].mask == x; }
      if i :| 0 <= i < |r| && IsLive(r[i]) && r[i].mask == x { assert i < |l| && IsLive(l[i]); }
    }
  }

  lemma LivePair(l: seq<Ban>, i: nat, j: nat)
    requires Marked(l) && i < |l| && j < |l| && i != j && IsLive(l[i]) && IsLive(l[j])
    ensures !MaskCovers(l[i].mask, l[j].mask)
  {
    hide MaskCovers, SameText;
    if i < j { assert Compatible(l[i], l[j]); } else { assert Compatible(l[j], l[i]); }
  }

  lemma LiveCoverIsInLive(l: seq<Ban>, t: string)
    ensures LiveCover(l, t) <==> exists s :: s in Live(l) && MaskCovers(s, t)
  {
    hide MaskCovers;
    if s :| s in Live(l) && MaskCovers(s, t) { LiveHas(l, s); }
    if i :| 0 <= i < |l| && IsLive(l[i]) && MaskCovers(l[i].mask, t) {
      LiveHas(l, l[i].mask);
      assert IsLive(l[i]) && l[i].mask == l[i].mask;
    }
  }

  /** A live entry covers the new mask: marking what is strictly below the mask meets dead entries only. */
  lemma CoveredKeepsLive(s: seq<Ban>, r: seq<Ban>, t: string)
    requires Marked(s) && LiveCover(s, t) && |s| <= |r| <= |s| + 1
    requires forall i :: 0 <= i < |s| ==> r[i] == s[i] || r[i] == Covered(s[i], t)
    requires |r| > |s| ==> r[|s|] == NewSlot(t).(overlapped := true)
    ensures Live(r) == Live(s)
  {
    hide MaskCovers, SameText;
    var k :| 0 <= k < |s| && IsLive(s[k]) && MaskCovers(s[k].mask, t);
    forall j | 0 <= j < |s| ensures IsLive(s[j]) == IsLive(r[j]) {
      if r[j] != s[j] && IsLive(s[j]) {
        LivePair(s, k, j);
        MaskCoversTransitive(s[k].mask, t, s[j].mask);
      }
    }
    LiveAgree(s, r);
  }

  /** The slot of a new mask is not overlapped: it joins the live masks, and those below it leave. */
  lemma FreshJoinsLive(s: seq<Ban>, r: seq<Ban>, t: string)
    requires Extended(s, r, t) && !HasCover(s, t)
    ensures Live(r) == SeqAdd(Live(s), t)
  {
    hide MaskCovers;
    LiveCoverIsInLive(s, t);
    assert !LiveCover(s, t);
    forall x ensures x in Live(r) <==> x == t || (x in Live(s) && !MaskCovers(t, x)) {
      LiveHas(r, x);
      LiveHas(s, x);
      if i :| 0 <= i < |s| && IsLive(s[i]) && s[i].mask == x && !MaskCovers(t, x) {
        assert IsLive(r[i]) && r[i].mask == x;
      }
      if i :| 0 <= i < |r| && IsLive(r[i]) && r[i].mask == x && i < |s| {
        assert IsLive(s[i]) && s[i].mask == x && !MaskCovers(s[i].mask, t);
      }
      assert IsLive(r[|s|]) && r[|s|].mask == t;
    }
  }

  /** One +b among others means what it means alone exactly when nothing is in its way. */
  lemma AddMeansSequential(l: seq<Ban>, clean: bool, t: string)
    requires Ready(l, clean)
    ensures var s := SeenAll(l, clean);
      Live(ParsePass(l, clean, Change(true, t))) == SeqAdd(Live(s), t) <==> Unhindered(s, t)
  {
    hide MaskCovers, SameText, Live, SeqAdd, AddPass, OnlyDeletes, Marked;
    var s, r := SeenAll(l, clean), ParsePass(l, clean, Change(true, t));
    HasTextOfSeen(l, clean, t);
    LiveCoverIsInLive(s, t);
    SeqAddCases(Live(s), t);
    CoversItself(t);
    ReadyIsMarked(l, clean);
    assert LiveCover(s, t) || t !in Live(s);
    if l == [] {
      FirstMask(t);
    } else if HasText(l, t) {
      AddPassDuplicate(l, clean, NewSlot(t));
      DuplicateMeans(s, r, t);
    } else {
      AddPassNew(l, clean, NewSlot(t));
      ExtendedMeans(s, r, t);
    }
  }

  /** Nothing is added when an entry has the text already. */
  lemma DuplicateMeans(s: seq<Ban>, r: seq<Ban>, t: string)
    requires Marked(s) && OnlyDeletes(s, r, t)
    ensures LiveCover(s, t) ==> Live(r) == Live(s)
    ensures t in Live(r) ==> t in Live(s)
  {
    hide MaskCovers, SameText, Marked;
    if LiveCover(s, t) { CoveredKeepsLive(s, r, t); }
    LiveHas(s, t);
    LiveHas(r, t);
    if i :| 0 <= i < |r| && IsLive(r[i]) && r[i].mask == t { assert IsLive(s[i]) && s[i].mask == t; }
  }

  lemma ExtendedMeans(s: seq<Ban>, r: seq<Ban>, t: string)
    requires Marked(s) && Extended(s, r, t) && !HasText(s, t)
    ensures LiveCover(s, t) ==> Live(r) == Live(s)
    ensures !HasCover(s, t) ==> Live(r) == SeqAdd(Live(s), t)
    ensures HasCover(s, t) ==> (t in Live(r) ==> t in Live(s))
  {
    hide MaskCovers, SameText, Marked, Live, SeqAdd;
    if LiveCover(s, t) {
      assert HasCover(s, t);
      CoveredKeepsLive(s, r, t);
    } else if !HasCover(s, t) {
      FreshJoinsLive(s, r, t);
    } else {
      LiveHas(r, t);
      LiveHas(s, t);
      SameTextReflexive(t);
      assert forall i :: 0 <= i < |s| ==> r[i].mask == s[i].mask && s[i].mask != t;
    }
  }

  lemma HasTextOfSeen(l: seq<Ban>, clean: bool, t: string)
    ensures HasText(SeenAll(l, clean), t) <==> HasText(l, t)
  {
    hide SameText;
    var s := SeenAll(l, clean);
    if i :| 0 <= i < |l| && SameText(l[i].mask, t) { assert SameText(s[i].mask, t); }
    if i :| 0 <= i < |s| && SameText(s[i].mask, t) { assert SameText(l[i].mask, t); }
  }

  lemma SeqAddCases(S: set<string>, t: string)
    ensures (exists s :: s in S && MaskCovers(s, t)) ==> SeqAdd(S, t) == S
    ensures !(exists s :: s in S && MaskCovers(s, t)) ==> t in SeqAdd(S, t)
  {
    hide MaskCovers;
  }

  lemma FirstMask(t: string)
    ensures Live([]) == {} && Live([NewSlot(t)]) == SeqAdd({}, t) == {t}
  {
    hide MaskCovers;
  }

  lemma CoversItself(t: string)
    ensures MaskCovers(t, t)
  {
    CoversReflexive(Tokens(t));
  }

  lemma SameTextReflexive(t: string)
    ensures SameText(t, t)
  {
  }

  /** -b gets at every live entry with the text. */
  ghost predicate ReachesAll(l: seq<Ban>, clean: bool, t: string) {
    forall i :: 0 <= i < |l| && IsLive(l[i]) && SameText(l[i].mask, t) ==> Reached(l, clean, i, t)
  }

  /** One -b among others means what it means alone exactly when it gets at every live entry with
      the text: it stops at the first, dead or alive, except in the first pass of a command. */
  lemma DelMeansSequential(l: seq<Ban>, clean: bool, t: string)
    requires Ready(l, clean)
    ensures var s := SeenAll(l, clean);
      Live(ParsePass(l, clean, Change(false, t))) == SeqStep(Live(s), Change(false, t)) <==> ReachesAll(s, clean, t)
  {
    hide MaskCovers, SameText, Reached;
    var s, r := SeenAll(l, clean), DelPass(l, clean, t);
    DelPassShape(l, clean, t);
    forall i | 0 <= i < |l| ensures Reached(l, clean, i, t) ==> SameText(s[i].mask, t) { ReachedIsText(l, clean, i, t); }
    forall i | 0 <= i < |l| ensures Reached(s, clean, i, t) == Reached(l, clean, i, t) { ReachedOfSeen(l, clean, i, t); }
    forall x
      ensures x in Live(r) ==> x in Live(s)
      ensures x in Live(s) && !SameText(x, t) ==> x in Live(r)
      ensures x in Live(r) && ReachesAll(s, clean, t) ==> !SameText(x, t)
    {
      LiveHas(r, x);
      LiveHas(s, x);
      if i :| 0 <= i < |r| && IsLive(r[i]) && r[i].mask == x { assert IsLive(s[i]) && s[i].mask == x; }
      if i :| 0 <= i < |s| && IsLive(s[i]) && s[i].mask == x && !SameText(x, t) { assert IsLive(r[i]); }
    }
    if i :| 0 <= i < |s| && IsLive(s[i]) && SameText(s[i].mask, t) && !Reached(s, clean, i, t) {
      LiveHas(r, s[i].mask);
      assert IsLive(r[i]) && r[i].mask == s[i].mask;
    }
  }

  lemma ReachedIsText(l: seq<Ban>, clean: bool, i: nat, t: string)
    requires i < |l|
    ensures Reached(l, clean, i, t) ==> SameText(l[i].mask, t)
  {
    hide SameText;
  }

  lemma ReachedOfSeen(l: seq<Ban>, clean: bool, i: nat, t: string)
    requires i < |l|
    ensures Reached(SeenAll(l, clean), clean, i, t) == Reached(l, clean, i, t)
  {
    hide SameText;
    var s := SeenAll(l, clean);
    assert forall j :: 0 <= j < |l| ==> s[j].mask == l[j].mask;
  }

  /** No two entries have the same text. */
  ghost predicate DifferentTexts(m: seq<string>) {
    forall i, j :: 0 <= i < j < |m| ==> !SameText(m[i], m[j])
  }

  /** On such a list, and commands never make another, -b always means what it means alone. */
  lemma DelReachesAll(l: seq<Ban>, clean: bool, t: string)
    requires DifferentTexts(Texts(l))
    ensures ReachesAll(l, clean, t)
  {
    hide SameText;
    forall i, j | 0 <= j < i < |l| && SameText(l[i].mask, t) ensures !SameText(l[j].mask, t) {
      if SameText(l[j].mask, t) {
        assert !SameText(Texts(l)[j], Texts(l)[i]);
        SameTextJoins(l[j].mask, l[i].mask, t);
      }
    }
  }

  lemma SameTextJoins(a: string, b: string, t: string)
    requires SameText(a, t) && SameText(b, t)
    ensures SameText(a, b)
  {
  }

  // ---------------------------------------------------------------- runs that only add

  /** Every entry, dead or alive, lies under a live one. */
  ghost predicate UnderLive(l: seq<Ban>) {
    forall i :: 0 <= i < |l| ==> LiveCover(l, l[i].mask)
  }

  /** The list has a mask with the text of `t` that does not cover it. */
  ghost predicate HasTwin(l: seq<Ban>, t: string) { exists i :: 0 <= i < |l| && Twins(l[i].mask, t) }

  /** While a command only adds, an argument is hindered exactly by a twin, and by that only if no
      live mask covers it. */
  lemma AddingIsUnhindered(l: seq<Ban>, t: string)
    requires UnderLive(l)
    ensures Unhindered(l, t) <==> LiveCover(l, t) || !HasTwin(l, t)
  {
    hide MaskCovers, SameText, EscapesAgree, LiveCover, HasCover, HasText, HasTwin, Twins;
    TextOrTwin(l, t);
    CoverUnderLive(l, t);
  }

  lemma TextOrTwin(l: seq<Ban>, t: string)
    requires UnderLive(l)
    ensures HasTwin(l, t) ==> HasText(l, t)
    ensures HasText(l, t) ==> HasTwin(l, t) || LiveCover(l, t)
  {
    hide MaskCovers, SameText, EscapesAgree, LiveCover;
    if i :| 0 <= i < |l| && Twins(l[i].mask, t) { assert SameText(l[i].mask, t); }
    if i :| 0 <= i < |l| && SameText(l[i].mask, t) {
      SameTextCovers(l[i].mask, t);
      if !Twins(l[i].mask, t) { LiveCoverWidens(l, l[i].mask, t); }
    }
  }

  lemma CoverUnderLive(l: seq<Ban>, t: string)
    requires UnderLive(l)
    ensures HasCover(l, t) ==> LiveCover(l, t)
  {
    hide MaskCovers, LiveCover;
    if i :| 0 <= i < |l| && !l[i].del && MaskCovers(l[i].mask, t) { LiveCoverWidens(l, l[i].mask, t); }
  }

  lemma LiveCoverWidens(l: seq<Ban>, t: string, u: string)
    requires LiveCover(l, t) && MaskCovers(t, u)
    ensures LiveCover(l, u)
  {
    hide MaskCovers;
    var k :| 0 <= k < |l| && IsLive(l[k]) && MaskCovers(l[k].mask, t);
    MaskCoversTransitive(l[k].mask, t, u);
  }

  lemma SeqAddCovers(S: set<string>, t: string, x: string)
    requires exists s :: s in S && MaskCovers(s, x)
    ensures exists s :: s in SeqAdd(S, t) && MaskCovers(s, x)
  {
    hide MaskCovers;
    var s :| s in S && MaskCovers(s, x);
    if s !in SeqAdd(S, t) {
      MaskCoversTransitive(t, s, x);
      assert t in SeqAdd(S, t);
    }
  }

  lemma AddKeepsUnderLive(l: seq<Ban>, clean: bool, t: string)
    requires Ready(l, clean) && UnderLive(SeenAll(l, clean)) && Unhindered(SeenAll(l, clean), t)
    ensures UnderLive(ParsePass(l, clean, Change(true, t)))
  {
    hide MaskCovers, SameText, LiveCover, SeqAdd;
    var s, r := SeenAll(l, clean), ParsePass(l, clean, Change(true, t));
    AddMeansSequential(l, clean, t);
    ParsePassTexts(l, clean, Change(true, t));
    forall i | 0 <= i < |r| ensures LiveCover(r, r[i].mask) {
      LiveCoverIsInLive(r, r[i].mask);
      if i < |s| {
        LiveCoverIsInLive(s, s[i].mask);
        SeqAddCovers(Live(s), t, s[i].mask);
      } else {
        SeqAddCoversNew(Live(s), t);
      }
    }
  }

  lemma SeqAddCoversNew(S: set<string>, t: string)
    ensures exists s :: s in SeqAdd(S, t) && MaskCovers(s, t)
  {
    hide MaskCovers;
    CoversItself(t);
    if !(exists s :: s in S && MaskCovers(s, t)) { assert t in SeqAdd(S, t); }
  }

  /** The masks after one argument: those there were, and perhaps a new one that differs from all. */
  lemma ParsePassTexts(l: seq<Ban>, clean: bool, c: Change)
    ensures var r := ParsePass(l, clean, c);
      && |l| <= |r| <= |l| + 1 && (forall i :: 0 <= i < |l| ==> r[i].mask == l[i].mask)
      && (|r| > |l| ==> c.add && r[|l|].mask == c.mask && !HasText(l, c.mask))
  {
    hide MaskCovers, SameText, Reached, HasText, HasCover, AddPass, DelPass;
    NoText(c.mask);
    if !c.add {
      DelPassShape(l, clean, c.mask);
    } else if l != [] {
      if HasText(l, c.mask) {
        AddPassDuplicate(l, clean, NewSlot(c.mask));
      } else {
        AddPassNew(l, clean, NewSlot(c.mask));
      }
    }
  }

  // ---------------------------------------------------------------- all arguments of a command

  function ParseRun(l: seq<Ban>, clean: bool, reqs: seq<Change>): seq<Ban>
    decreases |reqs|
  {
    if reqs == [] then l else ParseRun(ParsePass(l, clean, reqs[0]), true, reqs[1..])
  }

  ghost function SeqRun(S: set<string>, reqs: seq<Change>): set<string>
    decreases |reqs|
  {
    if reqs == [] then S else SeqRun(SeqStep(S, reqs[0]), reqs[1..])
  }

  /** Nothing is in the way of any argument of the command. */
  ghost predicate NeverHindered(l: seq<Ban>, clean: bool, reqs: seq<Change>)
    decreases |reqs|
  {
    reqs == [] || (StepUnhindered(l, clean, reqs[0]) && NeverHindered(ParsePass(l, clean, reqs[0]), true, reqs[1..]))
  }

  ghost predicate StepUnhindered(l: seq<Ban>, clean: bool, c: Change) {
    if c.add then Unhindered(SeenAll(l, clean), c.mask) else ReachesAll(SeenAll(l, clean), clean, c.mask)
  }

  /** The arguments, taken together, leave the live masks they leave one at a time. */
  ghost predicate MeansSequence(l: seq<Ban>, clean: bool, reqs: seq<Change>) {
    Live(SeenAll(ParseRun(l, clean, reqs), clean || reqs != [])) == SeqRun(Live(SeenAll(l, clean)), reqs)
  }

  lemma {:induction false} ParseRunMarked(l: seq<Ban>, clean: bool, reqs: seq<Change>)
    requires Ready(l, clean)
    ensures Ready(ParseRun(l, clean, reqs), clean || reqs != [])
    decreases |reqs|
  {
    hide Marked, Antichain;
    if reqs != [] {
      ParsePassKeepsMarked(l, clean, reqs[0]);
      ParseRunMarked(ParsePass(l, clean, reqs[0]), true, reqs[1..]);
    }
  }

  lemma StepMeansSequence(l: seq<Ban>, clean: bool, c: Change)
    requires Ready(l, clean)
    ensures Live(ParsePass(l, clean, c)) == SeqStep(Live(SeenAll(l, clean)), c) <==> StepUnhindered(l, clean, c)
  {
    hide *;
    if c.add {
      assert c == Change(true, c.mask);
      AddMeansSequential(l, clean, c.mask);
      SeqStepIs(Live(SeenAll(l, clean)), c);
    } else {
      assert c == Change(false, c.mask);
      DelMeansSequential(l, clean, c.mask);
    }
    StepUnhinderedIs(l, clean, c);
  }

  lemma SeqStepIs(S: set<string>, c: Change)
    ensures c.add ==> SeqStep(S, c) == SeqAdd(S, c.mask)
  {
    hide SeqAdd, SameText;
  }

  lemma StepUnhinderedIs(l: seq<Ban>, clean: bool, c: Change)
    ensures StepUnhindered(l, clean, c) ==
      if c.add then Unhindered(SeenAll(l, clean), c.mask) else ReachesAll(SeenAll(l, clean), clean, c.mask)
  {
    hide Unhindered, ReachesAll;
  }

  /** The arguments of a command mean what they mean one at a time, after each of them, exactly when
      nothing is in the way of any. */
  lemma {:induction false} RunMeansSequenceExactly(l: seq<Ban>, clean: bool, reqs: seq<Change>)
    requires Ready(l, clean)
    ensures NeverHindered(l, clean, reqs) <==> forall k :: 0 <= k <= |reqs| ==> MeansSequence(l, clean, reqs[..k])
    decreases |reqs|
  {
    hide Ready, StepUnhindered, Live, SeqStep, ParsePass, SeenAll, ParseRun, SeqRun, NeverHindered, MeansSequence;
    NothingToMean(l, clean);
    assert reqs[..0] == [];
    if reqs == [] {
      NothingHindered(l, clean);
    } else {
      var l', tail := ParsePass(l, clean, reqs[0]), reqs[1..];
      ParsePassReady(l, clean, reqs[0]);
      StepMeansSequence(l, clean, reqs[0]);
      RunMeansSequenceExactly(l', true, tail);
      HinderedSteps(l, clean, reqs);
      FirstMeansSequence(l, clean, reqs);
      if StepUnhindered(l, clean, reqs[0]) {
        forall k | 1 <= k <= |reqs| ensures MeansSequence(l, clean, reqs[..k]) <==> MeansSequence(l', true, tail[..k - 1]) {
          assert reqs[..k][1..] == tail[..k - 1];
          MeansSequenceSteps(l, clean, reqs[..k]);
        }
        if forall k :: 0 <= k <= |reqs| ==> MeansSequence(l, clean, reqs[..k]) {
          forall k | 0 <= k <= |tail| ensures MeansSequence(l', true, tail[..k]) { assert MeansSequence(l, clean, reqs[..k + 1]); }
        }
      }
    }
  }

  lemma NothingToMean(l: seq<Ban>, clean: bool)
    ensures MeansSequence(l, clean, [])
  {
  }

  lemma NothingHindered(l: seq<Ban>, clean: bool)
    ensures NeverHindered(l, clean, [])
  {
  }

  lemma ParsePassReady(l: seq<Ban>, clean: bool, c: Change)
    requires Ready(l, clean)
    ensures Ready(ParsePass(l, clean, c), true)
  {
    hide Marked, Antichain;
    ParsePassKeepsMarked(l, clean, c);
  }

  lemma HinderedSteps(l: seq<Ban>, clean: bool, reqs: seq<Change>)
    requires reqs != []
    ensures NeverHindered(l, clean, reqs) <==>
      StepUnhindered(l, clean, reqs[0]) && NeverHindered(ParsePass(l, clean, reqs[0]), true, reqs[1..])
  {
    hide StepUnhindered, ParsePass;
  }

  lemma FirstMeansSequence(l: seq<Ban>, clean: bool, reqs: seq<Change>)
    requires reqs != []
    ensures MeansSequence(l, clean, reqs[..1]) <==> Live(ParsePass(l, clean, reqs[0])) == SeqStep(Live(SeenAll(l, clean)), reqs[0])
  {
    hide ParsePass, Live, SeqStep;
    var l', one := ParsePass(l, clean, reqs[0]), reqs[..1];
    assert one[1..] == [] && one[0] == reqs[0];
    assert ParseRun(l, clean, one) == ParseRun(l', true, []) == l';
    assert SeqRun(Live(SeenAll(l, clean)), one) == SeqRun(SeqStep(Live(SeenAll(l, clean)), reqs[0]), []);
  }

  lemma MeansSequenceSteps(l: seq<Ban>, clean: bool, reqs: seq<Change>)
    requires reqs != [] && Live(ParsePass(l, clean, reqs[0])) == SeqStep(Live(SeenAll(l, clean)), reqs[0])
    ensures MeansSequence(l, clean, reqs) <==> MeansSequence(ParsePass(l, clean, reqs[0]), true, reqs[1..])
  {
    hide ParsePass, Live, SeqStep;
  }

  /** The masks of the list and the requested ones have no twins among each other. */
  ghost predicate NoTwinRequests(m: seq<string>, reqs: seq<Change>) {
    && (forall i, j :: 0 <= i < |m| && 0 <= j < |reqs| ==> !Twins(m[i], reqs[j].mask))
    && (forall i, j :: 0 <= i < j < |reqs| ==> !Twins(reqs[i].mask, reqs[j].mask))
  }

  lemma NoTwinRequestsTail(m: seq<string>, reqs: seq<Change>, m': seq<string>)
    requires NoTwinRequests(m, reqs) && reqs != []
    requires forall x :: x in m' ==> x in m || x == reqs[0].mask
    ensures NoTwinRequests(m', reqs[1..])
  {
    hide Twins;
    var tail := reqs[1..];
    forall i, j | 0 <= i < |m'| && 0 <= j < |tail| ensures !Twins(m'[i], tail[j].mask) {
      assert tail[j] == reqs[j + 1] && m'[i] in m';
      if m'[i] in m { var k :| 0 <= k < |m| && m[k] == m'[i]; assert !Twins(m[k], reqs[j + 1].mask); }
    }
    forall i, j | 0 <= i < j < |tail| ensures !Twins(tail[i].mask, tail[j].mask) {
      assert tail[i] == reqs[i + 1] && tail[j] == reqs[j + 1];
    }
  }

  lemma {:induction false} AddingRunIsUnhindered(l: seq<Ban>, clean: bool, reqs: seq<Change>)
    requires Ready(l, clean) && UnderLive(SeenAll(l, clean)) && forall i :: 0 <= i < |reqs| ==> reqs[i].add
    requires NoTwinRequests(Texts(l), reqs)
    ensures NeverHindered(l, clean, reqs)
    decreases |reqs|
  {
    hide Ready, StepUnhindered, Unhindered, UnderLive, ParsePass, Twins, Texts, SeenAll, NeverHindered, NoTwinRequests;
    if reqs == [] {
      NothingHindered(l, clean);
    } else {
      var l', t := ParsePass(l, clean, reqs[0]), reqs[0].mask;
      assert reqs[0] == Change(true, t);
      ParsePassReady(l, clean, reqs[0]);
      NoTwinHere(l, clean, reqs);
      AddingIsUnhindered(SeenAll(l, clean), t);
      AddKeepsUnderLive(l, clean, t);
      StepUnhinderedIs(l, clean, reqs[0]);
      ParsePassNames(l, clean, t);
      NoTwinRequestsTail(Texts(l), reqs, Texts(l'));
      SeenAllCleaned(l');
      AddingRunIsUnhindered(l', true, reqs[1..]);
      HinderedSteps(l, clean, reqs);
    }
  }

  lemma SeenAllCleaned(l: seq<Ban>)
    ensures SeenAll(l, true) == l
  {
  }

  lemma NoTwinHere(l: seq<Ban>, clean: bool, reqs: seq<Change>)
    requires reqs != [] && NoTwinRequests(Texts(l), reqs)
    ensures !HasTwin(SeenAll(l, clean), reqs[0].mask)
  {
    hide Twins;
    var s := SeenAll(l, clean);
    forall i | 0 <= i < |s| ensures !Twins(s[i].mask, reqs[0].mask) { assert s[i].mask == Texts(l)[i]; }
  }

  lemma ParsePassNames(l: seq<Ban>, clean: bool, t: string)
    ensures forall x :: x in Texts(ParsePass(l, clean, Change(true, t))) ==> x in Texts(l) || x == t
  {
    hide *;
    var r := ParsePass(l, clean, Change(true, t));
    ParsePassTexts(l, clean, Change(true, t));
    forall x | x in Texts(r) ensures x in Texts(l) || x == t {
      var i :| 0 <= i < |r| && Texts(r)[i] == x;
      assert i < |l| ==> Texts(l)[i] == x;
    }
  }

  /** Some mask of the set stands for the string. */
  ghost predicate SomeMatch(S: set<string>, x: string) { exists m :: m in S && StringMatches(m, x) }

  ghost predicate AllRegular(S: set<string>) { forall m :: m in S ==> Regular(m) }

  /** Adding a mask alone adds exactly its strings. */
  lemma SeqAddMatches(S: set<string>, t: string, x: string)
    requires AllRegular(S) && Regular(t)
    ensures SomeMatch(SeqAdd(S, t), x) <==> SomeMatch(S, x) || StringMatches(t, x)
    ensures AllRegular(SeqAdd(S, t))
  {
    hide MaskCovers, StringMatches, Regular;
    if m :| m in S && StringMatches(m, x) && m !in SeqAdd(S, t) {
      CoversIsSoundForMatch(t, m, x);
      assert t in SeqAdd(S, t);
    }
    if StringMatches(t, x) {
      if s :| s in S && MaskCovers(s, t) {
        CoversIsSoundForMatch(s, t, x);
      } else {
        assert t in SeqAdd(S, t);
      }
    }
  }

  lemma {:induction false} SeqRunMatches(S: set<string>, reqs: seq<Change>, x: string)
    requires AllRegular(S) && forall i :: 0 <= i < |reqs| ==> reqs[i].add && Regular(reqs[i].mask)
    ensures SomeMatch(SeqRun(S, reqs), x) <==> SomeMatch(S, x) || exists i :: 0 <= i < |reqs| && StringMatches(reqs[i].mask, x)
    decreases |reqs|
  {
    hide SomeMatch, StringMatches, SeqAdd, Regular, AllRegular;
    if reqs != [] {
      SeqAddMatches(S, reqs[0].mask, x);
      SeqRunMatches(SeqStep(S, reqs[0]), reqs[1..], x);
      if i :| 0 <= i < |reqs| && StringMatches(reqs[i].mask, x) && i > 0 { assert reqs[1..][i - 1] == reqs[i]; }
      if i :| 0 <= i < |reqs| - 1 && StringMatches(reqs[1..][i].mask, x) { assert reqs[i + 1] == reqs[1..][i]; }
    }
  }

  // ================================================================ mode_process_bans

  /** `apply`: MODE_PARSE_SET; `bounce`: MODE_PARSE_BOUNCE; `limited`: a local user, not OPMODE. */
  datatype Policy = Policy(apply: bool, bounce: bool, limited: bool, maxBans: int, avBanLen: int)

  /** The pass so far. `kept`: real bans; `added`: bans made from slots, newest first, linked in
      front of them; `count`, `len`: the running totals the size limit looks at; `queue`: the
      changes given to the ModeBuf. */
  datatype Pass = Pass(count: int, len: int, kept: seq<Ban>, added: seq<Ban>, queue: seq<Change>) {
    function List(): seq<Ban> { added + kept }
  }

  function RealBan(mask: string): Ban { Ban(mask, false, false, false, false) }

  predicate ListFull(p: Policy, count: int, len: int) {
    p.limited && (len > p.avBanLen * p.maxBans || count > p.maxBans)
  }

  predicate Refused(b: Ban, p: Policy, count: int, len: int) {
    (b.overlapped && !p.bounce) || (p.apply && ListFull(p, count + 1, len + |b.mask|))
  }

  /** What the second pass does with one entry. */
  function ProcessOne(b: Ban, p: Policy, st: Pass): Pass {
    var counted := st.(count := st.count + 1, len := st.len + |b.mask|);
    if b.add && b.del then st
    else if b.del then
      var queue := st.queue + [Change(false, b.mask)];
      if p.apply then st.(queue := queue) else counted.(kept := st.kept + [RealBan(b.mask)], queue := queue)
    else if b.add then
      if Refused(b, p, st.count, st.len) then st
      else counted.(added := (if p.apply then [RealBan(b.mask)] else []) + st.added, queue := st.queue + [Change(true, b.mask)])
    else counted.(kept := st.kept + [b])
  }

  function ProcessFrom(l: seq<Ban>, p: Policy, st: Pass): Pass
    decreases |l|
  {
    if l == [] then st else ProcessFrom(l[1..], p, ProcessOne(l[0], p, st))
  }

  lemma ProcessSteps(l: seq<Ban>, p: Policy, st: Pass)
    ensures ProcessFrom(l, p, st) == if l == [] then st else ProcessFrom(l[1..], p, ProcessOne(l[0], p, st))
    ensures st == Pass(0, 0, [], [], []) ==> ProcessFrom(l, p, st) == Process(l, p)
  {
  }

  function Process(l: seq<Ban>, p: Policy): Pass { ProcessFrom(l, p, Pass(0, 0, [], [], [])) }

  function CommandResult(l: seq<Ban>, reqs: seq<Change>, p: Policy): Pass {
    if reqs == [] then Pass(0, 0, l, [], []) else Process(ParseRun(l, false, reqs), p)
  }

  // ---------------------------------------------------------------- conservation

  function RealTexts(l: seq<Ban>): seq<string> {
    if l == [] then [] else (if l[0].add then [] else [l[0].mask]) + RealTexts(l[1..])
  }

  function LiveTexts(l: seq<Ban>): seq<string> {
    if l == [] then [] else (if IsLive(l[0]) then [l[0].mask] else []) + LiveTexts(l[1..])
  }

  function QueuedTexts(q: seq<Change>, add: bool): seq<string> {
    if q == [] then [] else (if q[0].add == add then [q[0].mask] else []) + QueuedTexts(q[1..], add)
  }

  ghost function Listed(st: Pass): multiset<string> { multiset(Texts(st.List())) }

  ghost function Queued(st: Pass, add: bool): multiset<string> { multiset(QueuedTexts(st.queue, add)) }

  lemma QueuedTextsCons(c: Change, q: seq<Change>, add: bool)
    ensures QueuedTexts([c] + q, add) == (if c.add == add then [c.mask] else []) + QueuedTexts(q, add)
  {
    assert ([c] + q)[1..] == q;
  }

  lemma {:induction false} QueuedTextsJoin(q: seq<Change>, c: Change, add: bool)
    ensures QueuedTexts(q + [c], add) == QueuedTexts(q, add) + (if c.add == add then [c.mask] else [])
  {
    hide QueuedTexts;
    if q == [] {
      NothingQueued();
      QueuedTextsCons(c, [], add);
      assert q + [c] == [c] + [];
    } else {
      QueuedTextsJoin(q[1..], c, add);
      QueuedTextsCons(q[0], q[1..], add);
      QueuedTextsCons(q[0], q[1..] + [c], add);
      assert q == [q[0]] + q[1..] && q + [c] == [q[0]] + (q[1..] + [c]);
      Assoc(if q[0].add == add then [q[0].mask] else [], QueuedTexts(q[1..], add), if c.add == add then [c.mask] else []);
    }
  }

  lemma TextsInFront(b: Ban, l: seq<Ban>)
    ensures Texts([b] + l) == [b.mask] + Texts(l)
  {
  }

  lemma TextsBehind(l: seq<Ban>, b: Ban)
    ensures Texts(l + [b]) == Texts(l) + [b.mask]
  {
  }

  lemma ListedAfterOne(b: Ban, p: Policy, st: Pass)
    ensures Listed(ProcessOne(b, p, st)) == Listed(st) +
      (if !b.add && !(b.del && p.apply) then multiset{b.mask}
       else if b.add && !b.del && p.apply && !Refused(b, p, st.count, st.len) then multiset{b.mask}
       else multiset{})
  {
    hide Refused, Texts;
    var r, k := RealBan(b.mask), if b.del then RealBan(b.mask) else b;
    TextsInFront(r, st.List());
    TextsBehind(st.List(), k);
    assert [r] + st.added + st.kept == [r] + st.List();
    assert st.added + (st.kept + [k]) == st.List() + [k];
    assert [] + st.added == st.added;
  }

  lemma QueuedAfterOne(b: Ban, p: Policy, st: Pass, add: bool)
    ensures Queued(ProcessOne(b, p, st), add) == Queued(st, add) +
      (if !b.add && b.del && !add then multiset{b.mask}
       else if b.add && !b.del && add && !Refused(b, p, st.count, st.len) then multiset{b.mask}
       else multiset{})
  {
    QueuedTextsJoin(st.queue, Change(true, b.mask), add);
    QueuedTextsJoin(st.queue, Change(false, b.mask), add);
  }

  lemma RealTextsSplit(l: seq<Ban>)
    requires l != []
    ensures multiset(RealTexts(l)) == (if l[0].add then multiset{} else multiset{l[0].mask}) + multiset(RealTexts(l[1..]))
  {
  }

  /** With MODE_PARSE_SET: the list and the -b queued are together the old list and the +b queued,
      counted for each mask `x`. */
  lemma {:induction false} ProcessBalances(l: seq<Ban>, p: Policy, st: Pass, x: string)
    requires p.apply
    ensures var o := ProcessFrom(l, p, st);
      Listed(o)[x] + Queued(o, false)[x] + Queued(st, true)[x]
        == Listed(st)[x] + Queued(st, false)[x] + multiset(RealTexts(l))[x] + Queued(o, true)[x]
    decreases |l|
  {
    hide Listed, Queued, Refused, ProcessOne;
    if l != [] {
      var b, st' := l[0], ProcessOne(l[0], p, st);
      RealTextsSplit(l);
      ListedAfterOne(b, p, st);
      QueuedAfterOne(b, p, st, true);
      QueuedAfterOne(b, p, st, false);
      ProcessBalances(l[1..], p, st', x);
    }
  }

  /** The size limit fires for no slot. */
  ghost predicate NoneTooMany(l: seq<Ban>, p: Policy, st: Pass)
    decreases |l|
  {
    l == [] || (
      && (l[0].add && IsLive(l[0]) ==> !ListFull(p, st.count + 1, st.len + |l[0].mask|))
      && NoneTooMany(l[1..], p, ProcessOne(l[0], p, st)))
  }

  /** Without bounce the result is made of live entries; all of them are in it exactly when the limit
      fires for none. */
  lemma {:induction false} ProcessKeepsLive(l: seq<Ban>, p: Policy, st: Pass, x: string)
    requires p.apply && !p.bounce
    requires forall i :: 0 <= i < |l| && l[i].overlapped ==> l[i].add
    ensures Listed(ProcessFrom(l, p, st))[x] <= Listed(st)[x] + multiset(LiveTexts(l))[x]
    ensures |ProcessFrom(l, p, st).List()| <= |st.List()| + |LiveTexts(l)|
    ensures |ProcessFrom(l, p, st).List()| == |st.List()| + |LiveTexts(l)| <==> NoneTooMany(l, p, st)
    decreases |l|
  {
    hide Listed, ListFull;
    if l != [] {
      ListedAfterOne(l[0], p, st);
      LiveTextsSplit(l);
      ProcessKeepsLive(l[1..], p, ProcessOne(l[0], p, st), x);
    }
  }

  /** There is room if there would be with every entry kept. */
  lemma {:induction false} RoomIsEnough(l: seq<Ban>, p: Policy, st: Pass)
    requires RoomFor(l, p, st.count, st.len)
    ensures NoneTooMany(l, p, st)
    decreases |l|
  {
    if l != [] {
      OneMore(l[0], p, st);
      hide ProcessOne;
      RoomIsEnough(l[1..], p, ProcessOne(l[0], p, st));
    }
  }

  lemma OneMore(b: Ban, p: Policy, st: Pass)
    ensures var o := ProcessOne(b, p, st); o.count <= st.count + 1 && o.len <= st.len + |b.mask|
  {
    hide Refused;
  }

  lemma LiveTextsSplit(l: seq<Ban>)
    requires l != []
    ensures multiset(LiveTexts(l)) == (if IsLive(l[0]) then multiset{l[0].mask} else multiset{}) + multiset(LiveTexts(l[1..]))
  {
  }

  function TotalLen(l: seq<Ban>): nat {
    if l == [] then 0 else |l[0].mask| + TotalLen(l[1..])
  }

  /** The size limit cannot fire, even if nothing is deleted. */
  predicate RoomFor(l: seq<Ban>, p: Policy, count: int, len: int) {
    !p.limited || (count + |l| <= p.maxBans && len + TotalLen(l) <= p.avBanLen * p.maxBans)
  }

  lemma UnsetOne(b: Ban, p: Policy, st: Pass)
    requires !p.apply
    ensures var st' := ProcessOne(b, p, st);
      st'.added == st.added && Texts(st'.kept) == Texts(st.kept) + (if b.add then [] else [b.mask])
  {
    hide Refused;
    assert [] + st.added == st.added;
    if !b.add {
      var k := if b.del then RealBan(b.mask) else b;
      assert Texts(st.kept + [k]) == Texts(st.kept) + [k.mask];
    }
  }

  /** Without MODE_PARSE_SET the masks of the list come back unchanged, in order. */
  lemma {:induction false} ProcessUnset(l: seq<Ban>, p: Policy, st: Pass)
    requires !p.apply
    ensures var o := ProcessFrom(l, p, st); o.added == st.added && Texts(o.kept) == Texts(st.kept) + RealTexts(l)
    decreases |l|
  {
    hide ProcessOne, Texts;
    if l == [] {
      assert Texts(st.kept) + [] == Texts(st.kept);
    } else {
      UnsetOne(l[0], p, st);
      ProcessUnset(l[1..], p, ProcessOne(l[0], p, st));
      Assoc(Texts(st.kept), if l[0].add then [] else [l[0].mask], RealTexts(l[1..]));
    }
  }

  /** Nothing in the resulting list carries a mark. */
  lemma {:induction false} ProcessLeavesNoMarks(l: seq<Ban>, p: Policy, st: Pass)
    requires forall i :: 0 <= i < |l| && l[i].overlapped ==> l[i].add
    requires forall b :: b in st.List() ==> !b.add && !b.del && !b.overlapped
    ensures forall b :: b in ProcessFrom(l, p, st).List() ==> !b.add && !b.del && !b.overlapped
    decreases |l|
  {
    if l != [] {
      ProcessLeavesNoMarks(l[1..], p, ProcessOne(l[0], p, st));
    }
  }

  // ================================================================ whole commands

  /** The entries there were keep their masks and stay real or slot; what is new is a slot. */
  ghost predicate SameEntries(s: seq<Ban>, r: seq<Ban>) {
    && |s| <= |r|
    && (forall i :: 0 <= i < |s| ==> r[i].mask == s[i].mask && r[i].add == s[i].add)
    && (forall i :: |s| <= i < |r| ==> r[i].add)
  }

  lemma SameEntriesCons(a: Ban, s: seq<Ban>, b: Ban, r: seq<Ban>)
    requires SameEntries(s, r) && a.mask == b.mask && a.add == b.add
    ensures SameEntries([a] + s, [b] + r)
  {
  }

  lemma SeenAllCons(l: seq<Ban>, clean: bool)
    requires l != []
    ensures SeenAll(l, clean) == [Seen(l[0], clean)] + SeenAll(l[1..], clean)
  {
  }

  lemma {:induction false} AddPassEntries(l: seq<Ban>, clean: bool, slot: Ban)
    ensures SameEntries(SeenAll(l, clean), AddPass(l, clean, slot))
  {
    hide MaskCovers, SameText, SeenAll;
    if l != [] {
      var b, slot' := Seen(l[0], clean), Overlap(slot, Seen(l[0], clean));
      SeenAllCons(l, clean);
      AddPassEntries(l[1..], clean, slot.(add := false));
      AddPassEntries(l[1..], clean, slot');
      hide SameEntries;
      if SameText(b.mask, slot.mask) {
        SameEntriesWhole(l[1..]);
        SameEntriesCons(b, SeenAll(l[1..], clean), b, if clean then l[1..] else AddPass(l[1..], clean, slot.(add := false)));
      } else {
        SameEntriesNew(slot');
        SameEntriesCons(b, SeenAll(l[1..], clean), Covered(b, slot.mask),
          if |l| == 1 && slot'.add then [slot'] else AddPass(l[1..], clean, slot'));
      }
    }
  }

  lemma SameEntriesWhole(l: seq<Ban>)
    ensures SameEntries(SeenAll(l, true), l)
  {
  }

  lemma SameEntriesNew(b: Ban)
    ensures b.add ==> forall clean :: SameEntries(SeenAll([], clean), [b])
  {
  }

  lemma {:induction false} DelPassEntries(l: seq<Ban>, clean: bool, t: string)
    ensures SameEntries(SeenAll(l, clean), DelPass(l, clean, t))
  {
    hide SameText, SeenAll;
    if l != [] {
      var b := Seen(l[0], clean);
      SeenAllCons(l, clean);
      DelPassEntries(l[1..], clean, t);
      SameEntriesWhole(l[1..]);
      hide SameEntries;
      SameEntriesCons(b, SeenAll(l[1..], clean), b.(del := true), if clean then l[1..] else DelPass(l[1..], clean, t));
      SameEntriesCons(b, SeenAll(l[1..], clean), b, DelPass(l[1..], clean, t));
    }
  }

  lemma {:induction false} RealTextsOfSame(s: seq<Ban>, r: seq<Ban>)
    requires SameEntries(s, r)
    ensures RealTexts(r) == RealTexts(s)
    decreases |r|
  {
    if r != [] {
      if s == [] {
        RealTextsOfSame(s, r[1..]);
      } else {
        RealTextsOfSame(s[1..], r[1..]);
      }
    }
  }

  lemma {:induction false} RealTextsOfClean(l: seq<Ban>)
    ensures RealTexts(CleanAll(l)) == Texts(l)
  {
    if l != [] {
      RealTextsOfClean(l[1..]);
      assert CleanAll(l)[1..] == CleanAll(l[1..]);
    }
  }

  lemma {:induction false} ParseRunReals(l: seq<Ban>, clean: bool, reqs: seq<Change>)
    ensures var r := ParseRun(l, clean, reqs);
      RealTexts(SeenAll(r, clean || reqs != [])) == RealTexts(SeenAll(l, clean)) && |r| <= |l| + |reqs|
    decreases |reqs|
  {
    hide AddPass, DelPass, RealTexts;
    if reqs != [] {
      var s, r := SeenAll(l, clean), ParsePass(l, clean, reqs[0]);
      AddPassEntries(l, clean, NewSlot(reqs[0].mask));
      DelPassEntries(l, clean, reqs[0].mask);
      assert SameEntries(s, r);
      RealTextsOfSame(s, r);
      PassSize(l, clean, reqs[0]);
      ParseRunReals(r, true, reqs[1..]);
    }
  }

  lemma PassSize(l: seq<Ban>, clean: bool, c: Change)
    ensures |ParsePass(l, clean, c)| <= |l| + 1
    ensures TotalLen(ParsePass(l, clean, c)) <= TotalLen(l) + |c.mask|
  {
    if c.add && l != [] { AddPassSize(l, clean, NewSlot(c.mask)); }
    if !c.add { DelPassSize(l, clean, c.mask); }
  }

  lemma {:induction false} AddPassSize(l: seq<Ban>, clean: bool, slot: Ban)
    ensures |AddPass(l, clean, slot)| <= |l| + 1 && TotalLen(AddPass(l, clean, slot)) <= TotalLen(l) + |slot.mask|
  {
    hide MaskCovers, SameText;
    if l != [] {
      var b, r := Seen(l[0], clean), AddPass(l, clean, slot);
      AddPassSize(l[1..], clean, slot.(add := false));
      AddPassSize(l[1..], clean, Overlap(slot, b));
      assert |l| == 1 ==> l[1..] == [] && TotalLen([Overlap(slot, b)]) == |slot.mask|;
      assert TotalLen(r) == |l[0].mask| + TotalLen(r[1..]);
    }
  }

  lemma {:induction false} DelPassSize(l: seq<Ban>, clean: bool, t: string)
    ensures |DelPass(l, clean, t)| == |l| && TotalLen(DelPass(l, clean, t)) == TotalLen(l)
  {
    hide SameText;
    if l != [] {
      var r := DelPass(l, clean, t);
      DelPassSize(l[1..], clean, t);
      assert TotalLen(r) == |l[0].mask| + TotalLen(r[1..]);
    }
  }

  // ---------------------------------------------------------------- antichains as bags

  ghost predicate AntichainBag(m: multiset<string>) {
    && (forall x :: x in m ==> m[x] == 1)
    && (forall x, y :: x in m && y in m && x != y ==> !MaskCovers(x, y))
  }

  lemma BagGivesAntichain(m: seq<string>, b: multiset<string>)
    requires AntichainBag(b) && forall x :: multiset(m)[x] <= b[x]
    ensures Antichain(m)
  {
    hide MaskCovers;
    forall i, j | 0 <= i < |m| && 0 <= j < |m| && i != j ensures !MaskCovers(m[i], m[j]) {
      var lo, hi := if i < j then i else j, if i < j then j else i;
      assert m == m[..hi] + m[hi..] && m[..hi][lo] == m[lo] && m[hi..][0] == m[hi];
      assert multiset(m) == multiset(m[..hi]) + multiset(m[hi..]);
      assert m[i] in multiset(m) && m[j] in multiset(m);
    }
  }

  lemma {:induction false} LiveTextsAreLive(l: seq<Ban>, x: string)
    ensures x in LiveTexts(l) <==> x in Live(l)
  {
    if l != [] {
      LiveTextsAreLive(l[1..], x);
      LiveHas(l, x);
      LiveHas(l[1..], x);
      if i :| 0 <= i < |l| - 1 && IsLive(l[1..][i]) && l[1..][i].mask == x { assert IsLive(l[i + 1]) && l[i + 1].mask == x; }
      if i :| 0 <= i < |l| && IsLive(l[i]) && l[i].mask == x && i > 0 { assert IsLive(l[1..][i - 1]) && l[1..][i - 1].mask == x; }
    }
  }

  lemma TextsSplit(l: seq<Ban>)
    requires l != []
    ensures multiset(Texts(l)) == multiset{l[0].mask} + multiset(Texts(l[1..]))
  {
    assert Texts(l) == [l[0].mask] + Texts(l[1..]);
  }

  lemma {:induction false} TextsOnce(l: seq<Ban>, x: string)
    requires forall i, j :: 0 <= i < j < |l| ==> l[i].mask != l[j].mask
    ensures multiset(Texts(l))[x] <= 1
  {
    if l != [] {
      TextsOnce(l[1..], x);
      TextsSplit(l);
      assert forall i :: 0 <= i < |l| - 1 ==> Texts(l[1..])[i] == l[i + 1].mask;
      assert l[0].mask !in Texts(l[1..]);
    }
  }

  lemma {:induction false} BagOfTexts(l: seq<Ban>, x: string)
    ensures multiset(LiveTexts(l))[x] <= multiset(Texts(l))[x]
    ensures multiset(RealTexts(l))[x] + multiset(SlotTexts(l))[x] == multiset(Texts(l))[x]
  {
    hide Texts, LiveTexts, RealTexts, SlotTexts, IsLive;
    if l == [] {
      BagOfNoTexts();
    } else {
      BagOfTexts(l[1..], x);
      TextsSplit(l);
      LiveTextsSplit(l);
      RealTextsSplit(l);
      SlotTextsSplit(l);
    }
  }

  lemma BagOfNoTexts()
    ensures Texts([]) == LiveTexts([]) == RealTexts([]) == SlotTexts([]) == []
  {
  }

  function SlotTexts(l: seq<Ban>): seq<string> {
    if l == [] then [] else (if l[0].add then [l[0].mask] else []) + SlotTexts(l[1..])
  }

  lemma SlotTextsSplit(l: seq<Ban>)
    requires l != []
    ensures multiset(SlotTexts(l)) == (if l[0].add then multiset{l[0].mask} else multiset{}) + multiset(SlotTexts(l[1..]))
  {
  }

  lemma DistinctMasks(l: seq<Ban>)
    requires Marked(l)
    ensures forall i, j :: 0 <= i < j < |l| ==> l[i].mask != l[j].mask
  {
    hide SameText, MaskCovers;
    forall i, j | 0 <= i < j < |l| ensures l[i].mask != l[j].mask {
      assert Compatible(l[i], l[j]);
      SameTextReflexive(l[i].mask);
      CoversItself(l[i].mask);
    }
  }

  lemma LiveBag(l: seq<Ban>)
    requires Marked(l)
    ensures AntichainBag(multiset(LiveTexts(l)))
  {
    hide MaskCovers, Marked;
    var m := multiset(LiveTexts(l));
    DistinctMasks(l);
    forall x | x in m ensures m[x] == 1 {
      BagOfTexts(l, x);
      TextsOnce(l, x);
    }
    forall x, y | x in m && y in m && x != y ensures !MaskCovers(x, y) {
      LiveTextsAreLive(l, x);
      LiveTextsAreLive(l, y);
      LiveHas(l, x);
      LiveHas(l, y);
      var i :| 0 <= i < |l| && IsLive(l[i]) && l[i].mask == x;
      var j :| 0 <= j < |l| && IsLive(l[j]) && l[j].mask == y;
      LivePair(l, i, j);
    }
  }

  /** Each mask is queued at most as often as it is deleted, or added. */
  lemma {:induction false} QueueBounds(l: seq<Ban>, p: Policy, st: Pass, x: string)
    ensures var o := ProcessFrom(l, p, st);
      && Queued(o, false)[x] <= Queued(st, false)[x] + multiset(RealTexts(l))[x]
      && Queued(o, true)[x] <= Queued(st, true)[x] + multiset(SlotTexts(l))[x]
    decreases |l|
  {
    hide Queued, Refused;
    if l != [] {
      RealTextsSplit(l);
      SlotTextsSplit(l);
      QueuedAfterOne(l[0], p, st, true);
      QueuedAfterOne(l[0], p, st, false);
      QueueBounds(l[1..], p, ProcessOne(l[0], p, st), x);
    }
  }

  // ---------------------------------------------------------------- the main results

  function SetOf(m: seq<string>): set<string> { set x | x in m }

  function RequestLen(reqs: seq<Change>): nat {
    if reqs == [] then 0 else |reqs[0].mask| + RequestLen(reqs[1..])
  }

  /** Even if every request were added the list would not be too long. */
  predicate RoomForAll(l: seq<Ban>, reqs: seq<Change>, p: Policy) {
    !p.limited || (|l| + |reqs| <= p.maxBans && TotalLen(l) + RequestLen(reqs) <= p.avBanLen * p.maxBans)
  }

  lemma {:induction false} ParseRunSize(l: seq<Ban>, clean: bool, reqs: seq<Change>)
    ensures TotalLen(ParseRun(l, clean, reqs)) <= TotalLen(l) + RequestLen(reqs)
    decreases |reqs|
  {
    hide ParsePass;
    if reqs != [] {
      PassSize(l, clean, reqs[0]);
      ParseRunSize(ParsePass(l, clean, reqs[0]), true, reqs[1..]);
    }
  }

  /** A list in which no mask covers another still is one after any command that is applied, and
      no slot or mark is left in it. */
  lemma CommandKeepsAntichain(l: seq<Ban>, reqs: seq<Change>, p: Policy)
    requires Antichain(Texts(l)) && p.apply && !p.bounce
    ensures Antichain(Texts(CommandResult(l, reqs, p).List()))
    ensures reqs != [] ==> forall b :: b in CommandResult(l, reqs, p).List() ==> !b.add && !b.del && !b.overlapped
  {
    hide MaskCovers, SameText, Antichain, AntichainBag, Process, ParseRun;
    if reqs == [] {
      assert [] + l == l;
    } else {
      var r := ParseRun(l, false, reqs);
      ParseRunMarked(l, false, reqs);
      LiveBag(r);
      var m := Texts(Process(r, p).List());
      forall x ensures multiset(m)[x] <= multiset(LiveTexts(r))[x] { ProcessResult(r, p, x); }
      BagGivesAntichain(m, multiset(LiveTexts(r)));
      ProcessNoMarks(r, p);
    }
  }

  lemma ProcessNoMarks(l: seq<Ban>, p: Policy)
    requires Marked(l)
    ensures forall b :: b in Process(l, p).List() ==> !b.add && !b.del && !b.overlapped
  {
    hide MaskCovers, SameText, ProcessOne;
    ProcessLeavesNoMarks(l, p, Pass(0, 0, [], [], []));
  }

  lemma ProcessResult(l: seq<Ban>, p: Policy, x: string)
    requires Marked(l) && p.apply && !p.bounce
    ensures multiset(Texts(Process(l, p).List()))[x] <= multiset(LiveTexts(l))[x]
    ensures |Process(l, p).List()| == |LiveTexts(l)| <==> NoneTooMany(l, p, Pass(0, 0, [], [], []))
  {
    hide MaskCovers, SameText;
    var st := Pass(0, 0, [], [], []);
    assert st.List() == [];
    ProcessKeepsLive(l, p, st, x);
  }

  /** The size limit fires for no ban of the command. */
  ghost predicate NoLimitFires(l: seq<Ban>, reqs: seq<Change>, p: Policy) {
    reqs == [] || NoneTooMany(ParseRun(l, false, reqs), p, Pass(0, 0, [], [], []))
  }

  lemma RoomForAllIsEnough(l: seq<Ban>, reqs: seq<Change>, p: Policy)
    requires RoomForAll(l, reqs, p)
    ensures NoLimitFires(l, reqs, p)
  {
    hide ParseRun, NoneTooMany;
    ParseRunReals(l, false, reqs);
    ParseRunSize(l, false, reqs);
    if reqs != [] { RoomIsEnough(ParseRun(l, false, reqs), p, Pass(0, 0, [], [], [])); }
  }

  lemma SubBag(m: seq<string>, n: seq<string>)
    requires forall x :: multiset(m)[x] <= multiset(n)[x] <= 1
    ensures |m| == |n| <==> SetOf(m) == SetOf(n)
  {
    var d := multiset(n) - multiset(m);
    assert multiset(n) == multiset(m) + d;
    assert |multiset(m)| == |m| && |multiset(n)| == |n|;
    assert forall x :: (x in m <==> x in multiset(m)) && (x in n <==> x in multiset(n));
    if SetOf(m) == SetOf(n) {
      forall x ensures d[x] == 0 { assert x in SetOf(m) <==> x in SetOf(n); }
      assert d == multiset{};
    }
    if |m| == |n| { assert d == multiset{}; }
  }

  /** Applied requests in whose way there is nothing mean what they mean one at a time, exactly when
      no size limit fires. */
  lemma CommandMeansSequence(l: seq<Ban>, reqs: seq<Change>, p: Policy)
    requires Antichain(Texts(l)) && p.apply && !p.bounce && NeverHindered(l, false, reqs)
    ensures SetOf(Texts(CommandResult(l, reqs, p).List())) == SeqRun(SetOf(Texts(l)), reqs) <==> NoLimitFires(l, reqs, p)
  {
    hide MaskCovers, SameText, Antichain, ParseRun, SeqRun, Process, Live, NeverHindered, Texts, NoneTooMany;
    LiveOfClean(l);
    ReadyRaw(l);
    RunMeansSequenceExactly(l, false, reqs);
    assert reqs[..|reqs|] == reqs;
    assert MeansSequence(l, false, reqs[..|reqs|]);
    if reqs == [] {
      assert SeqRun(SetOf(Texts(l)), []) == SetOf(Texts(l)) by { SeqRunOfNothing(SetOf(Texts(l))); }
      assert [] + l == l;
    } else {
      var r := ParseRun(l, false, reqs);
      ParseRunMarked(l, false, reqs);
      ProcessedSet(r, p);
    }
  }

  lemma ProcessedSet(l: seq<Ban>, p: Policy)
    requires Marked(l) && p.apply && !p.bounce
    ensures SetOf(Texts(Process(l, p).List())) == Live(l) <==> NoneTooMany(l, p, Pass(0, 0, [], [], []))
  {
    hide MaskCovers, SameText, Marked, Process, Live, NoneTooMany, Texts, LiveTexts;
    var o := Process(l, p).List();
    var m, n := Texts(o), LiveTexts(l);
    LiveBag(l);
    forall x ensures multiset(m)[x] <= multiset(n)[x] <= 1 && (x in SetOf(n) <==> x in Live(l)) {
      ProcessResult(l, p, x);
      LiveTextsAreLive(l, x);
      assert x in multiset(n) ==> multiset(n)[x] == 1;
    }
    assert SetOf(n) == Live(l);
    ProcessResult(l, p, "");
    TextsLength(o);
    SubBag(m, n);
  }

  lemma TextsLength(l: seq<Ban>)
    ensures |Texts(l)| == |l|
  {
  }

  lemma SeqRunOfNothing(S: set<string>)
    ensures SeqRun(S, []) == S
  {
  }

  lemma LiveOfClean(l: seq<Ban>)
    ensures Live(CleanAll(l)) == SetOf(Texts(l))
  {
    forall x ensures x in Live(CleanAll(l)) <==> x in Texts(l) {
      LiveHas(CleanAll(l), x);
      if i :| 0 <= i < |l| && Texts(l)[i] == x { assert IsLive(CleanAll(l)[i]) && CleanAll(l)[i].mask == x; }
    }
  }

  /** A command that only adds bans without twins, none of them over a limit: the strings banned
      afterwards are those banned before and those of the requested masks. */
  lemma AddingCommandMeansUnion(l: seq<Ban>, reqs: seq<Change>, p: Policy, x: string)
    requires Antichain(Texts(l)) && p.apply && !p.bounce && NoLimitFires(l, reqs, p)
    requires NoTwinRequests(Texts(l), reqs) && AllRegular(SetOf(Texts(l)))
    requires forall i :: 0 <= i < |reqs| ==> reqs[i].add && Regular(reqs[i].mask)
    ensures SomeMatch(SetOf(Texts(CommandResult(l, reqs, p).List())), x) <==>
      SomeMatch(SetOf(Texts(l)), x) || exists i :: 0 <= i < |reqs| && StringMatches(reqs[i].mask, x)
  {
    hide MaskCovers, StringMatches, Regular, SomeMatch, Antichain, CommandResult, SeqRun, Twins, NoTwinRequests, NoLimitFires, AllRegular;
    var s := CleanAll(l);
    forall i | 0 <= i < |s| ensures LiveCover(s, s[i].mask) {
      CoversItself(s[i].mask);
      assert IsLive(s[i]);
    }
    AddingRunIsUnhindered(l, false, reqs);
    CommandMeansSequence(l, reqs, p);
    SeqRunMatches(SetOf(Texts(l)), reqs, x);
  }

  /** Without a limit to fire and with room for everything, for instance. */
  lemma AddingWithRoomMeansUnion(l: seq<Ban>, reqs: seq<Change>, p: Policy, x: string)
    requires Antichain(Texts(l)) && p.apply && !p.bounce && RoomForAll(l, reqs, p)
    requires NoTwinRequests(Texts(l), reqs) && AllRegular(SetOf(Texts(l)))
    requires forall i :: 0 <= i < |reqs| ==> reqs[i].add && Regular(reqs[i].mask)
    ensures SomeMatch(SetOf(Texts(CommandResult(l, reqs, p).List())), x) <==>
      SomeMatch(SetOf(Texts(l)), x) || exists i :: 0 <= i < |reqs| && StringMatches(reqs[i].mask, x)
  {
    hide *;
    RoomForAllIsEnough(l, reqs, p);
    AddingCommandMeansUnion(l, reqs, p, x);
  }

  /** One request on a list of one ban: what the two passes make of it. */
  lemma OneOnOne(m: string, t: string, p: Policy)
    requires p.apply && !p.bounce && !p.limited
    ensures var o := CommandResult([RealBan(m)], [Change(true, t)], p).List();
      && (SameText(m, t) ==> o == [RealBan(m)])
      && (!SameText(m, t) && !MaskCovers(m, t) && MaskCovers(t, m) ==> o == [RealBan(t)])
  {
    hide MaskCovers, SameText;
    var l, slot, st := [RealBan(m)], NewSlot(t), Pass(0, 0, [], [], []);
    assert Clean(l[0]) == l[0] && l[1..] == [];
    var r := AddPass(l, false, slot);
    assert ParseRun(l, false, [Change(true, t)]) == ParseRun(r, true, [Change(true, t)][1..]) == r;
    if SameText(m, t) {
      assert r == [l[0]] + AddPass([], false, slot.(add := false)) == l;
      assert ProcessFrom(l, p, st) == ProcessFrom(l[1..], p, ProcessOne(l[0], p, st)) == ProcessOne(l[0], p, st);
    } else if !MaskCovers(m, t) && MaskCovers(t, m) {
      var d := l[0].(del := true);
      assert r == [d] + [slot] == [d, slot];
      assert r[1..] == [slot] && r[1..][1..] == [];
      var st' := ProcessOne(d, p, st);
      assert ProcessFrom(r, p, st) == ProcessFrom([slot], p, st') == ProcessFrom([], p, ProcessOne(slot, p, st')) == ProcessOne(slot, p, st');
    }
  }

  /** A twin is in the way: `|*` is dropped as a duplicate of `\*`, and "|a" stays unbanned. */
  lemma TwinRequestIsLost()
    ensures var l, reqs, p := [RealBan("\\*")], [Change(true, "|*")], Policy(true, false, false, 30, 40);
      && Antichain(Texts(l)) && CommandResult(l, reqs, p).List() == l
      && StringMatches("|*", "|a") && !SomeMatch(SetOf(Texts(l)), "|a")
  {
    hide StringMatches, MaskCovers, SameText, EscapesAgree;
    BackslashAndBar();
    OneOnOne("\\*", "|*", Policy(true, false, false, 30, 40));
    BarMatches();
    assert SetOf(Texts([RealBan("\\*")])) == {"\\*"};
  }

  lemma BarMatches()
    ensures StringMatches("|*", "|a") && !StringMatches("\\*", "|a")
  {
    hide MatchFrom, MatchRest;
    assert Pieces("|*") == [Lit('|'), Star];
    MatchIsLanguage("|*", "|a");
    assert [Lit('|'), Star][1..] == [Star];
    StarMatchesAll("a");
    assert "|a"[1..] == "a";
    FromTheTop("\\*", "|a", Place(0, 0, false, 0, 0));
    FromTheMiddle("\\*", "|a", Place(1, 0, false, 0, 0), false);
  }

  /** A mask that is not regular gives way to one that does not match its strings: after +b `a?b` on
      a list with `a\\b`, "ab" is no longer banned. */
  lemma BackslashBanIsLost()
    ensures var l, reqs, p := [RealBan("a\\b")], [Change(true, "a?b")], Policy(true, false, false, 30, 40);
      && SomeMatch(SetOf(Texts(l)), "ab") && !SomeMatch(SetOf(Texts(CommandResult(l, reqs, p).List())), "ab")
  {
    hide StringMatches, MaskCovers;
    BackslashIsLost();
    AnyCoversMore();
    OneOnOne("a\\b", "a?b", Policy(true, false, false, 30, 40));
    assert SetOf(Texts([RealBan("a\\b")])) == {"a\\b"} && SetOf(Texts([RealBan("a?b")])) == {"a?b"};
    assert "a\\b" in {"a\\b"};
  }

  lemma AnyCoversMore()
    ensures !SameText("a\\b", "a?b") && !MaskCovers("a\\b", "a?b")
  {
    assert LowerAll("a\\b")[1] == '|' && LowerAll("a?b")[1] == '?';
    assert Tokens("a?b") == [Lit('a'), Any, Lit('b')];
    assert Tokens("a\\b") == [Lit('a'), Lit('|'), Lit('b')];
  }

  /** Commands keep the masks of the list different as texts. */
  lemma CommandKeepsTextsDifferent(l: seq<Ban>, reqs: seq<Change>, p: Policy)
    requires Antichain(Texts(l)) && DifferentTexts(Texts(l)) && p.apply && !p.bounce
    ensures DifferentTexts(Texts(CommandResult(l, reqs, p).List()))
  {
    hide MaskCovers, SameText, Antichain, AntichainBag, Process, ParseRun, Texts, Marked, DifferentTexts, LiveTexts, CleanAll;
    if reqs == [] {
      assert [] + l == l;
    } else {
      var r := ParseRun(l, false, reqs);
      ReadyRaw(l);
      ParseRunMarked(l, false, reqs);
      RunKeepsTextsDifferent(l, false, reqs);
      var m := Texts(Process(r, p).List());
      LiveBag(r);
      forall x ensures multiset(m)[x] <= multiset(LiveTexts(r))[x] && (x in LiveTexts(r) ==> x in Texts(r)) {
        ProcessResult(r, p, x);
        BagOfTexts(r, x);
        assert x in multiset(LiveTexts(r)) ==> x in multiset(Texts(r));
      }
      BagOfDifferent(m, LiveTexts(r), Texts(r));
    }
  }

  lemma BagOfDifferent(m: seq<string>, n: seq<string>, all: seq<string>)
    requires DifferentTexts(all) && AntichainBag(multiset(n))
    requires forall x :: multiset(m)[x] <= multiset(n)[x] && (x in n ==> x in all)
    ensures DifferentTexts(m)
  {
    hide SameText, MaskCovers;
    forall i, j | 0 <= i < j < |m| ensures !SameText(m[i], m[j]) {
      assert m == m[..j] + m[j..] && m[..j][i] == m[i] && m[j..][0] == m[j];
      assert multiset(m) == multiset(m[..j]) + multiset(m[j..]);
      assert m[i] in multiset(m) && m[j] in multiset(m);
      assert m[i] in n && m[j] in n;
      assert m[i] != m[j];
      var a :| 0 <= a < |all| && all[a] == m[i];
      var b :| 0 <= b < |all| && all[b] == m[j];
      if b < a { SameTextTurns(all[a], all[b]); }
    }
  }

  lemma SameTextTurns(a: string, b: string)
    ensures SameText(a, b) == SameText(b, a)
  {
  }

  lemma {:induction false} RunKeepsTextsDifferent(l: seq<Ban>, clean: bool, reqs: seq<Change>)
    requires DifferentTexts(Texts(l))
    ensures DifferentTexts(Texts(ParseRun(l, clean, reqs)))
    decreases |reqs|
  {
    hide DifferentTexts, Texts, ParsePass;
    if reqs != [] {
      PassKeepsTextsDifferent(l, clean, reqs[0]);
      RunKeepsTextsDifferent(ParsePass(l, clean, reqs[0]), true, reqs[1..]);
    }
  }

  lemma PassKeepsTextsDifferent(l: seq<Ban>, clean: bool, c: Change)
    requires DifferentTexts(Texts(l))
    ensures DifferentTexts(Texts(ParsePass(l, clean, c)))
  {
    hide SameText, ParsePass;
    var r := ParsePass(l, clean, c);
    ParsePassTexts(l, clean, c);
    forall i, j | 0 <= i < j < |r| ensures !SameText(Texts(r)[i], Texts(r)[j]) {
      if j < |l| { assert !SameText(Texts(l)[i], Texts(l)[j]); }
    }
  }

  /** A dead entry is in the way: `-b a +b a` leaves `a` unbanned, because the ban found by the +b is
      already marked for deletion. */
  lemma ReAddingADeletedBanIsLost()
    ensures var l, reqs, p := [RealBan("a")], [Change(false, "a"), Change(true, "a")], Policy(true, false, false, 30, 40);
      && Antichain(Texts(l)) && SeqRun(SetOf(Texts(l)), reqs) == {"a"} && CommandResult(l, reqs, p).List() == []
  {
    hide MaskCovers, SameText;
    var a := RealBan("a");
    var d := a.(del := true);
    var l, reqs, p := [a], [Change(false, "a"), Change(true, "a")], Policy(true, false, false, 30, 40);
    SameTextReflexive("a");
    assert Clean(a) == a;
    assert DelPass([a], false, "a") == [d] + DelPass([a][1..], false, "a") == [d];
    assert AddPass([d], true, NewSlot("a")) == [d] + [d][1..] == [d];
    assert reqs[1..] == [reqs[1]] && reqs[1..][1..] == [];
    assert ParseRun(l, false, reqs) == ParseRun([d], true, reqs[1..]) == ParseRun([d], true, []) == [d];
    var st := Pass(0, 0, [], [], []);
    assert ProcessFrom([d], p, st) == ProcessFrom([d][1..], p, ProcessOne(d, p, st)) == ProcessOne(d, p, st);
    assert SetOf(Texts(l)) == {"a"};
    assert SeqStep({"a"}, reqs[0]) == {} && SeqStep({}, reqs[1]) == {"a"};
    assert SeqRun({"a"}, reqs) == SeqRun({}, reqs[1..]) == SeqRun({"a"}, []) == {"a"};
  }

  /** The -b and +b sent out tell the whole change, for every command that is applied: no mask is
      sent twice or both ways, and the old masks less the -b plus the +b are the new masks. */
  lemma CommandDeltas(l: seq<Ban>, reqs: seq<Change>, p: Policy)
    requires Antichain(Texts(l)) && p.apply
    ensures var o := CommandResult(l, reqs, p);
      var dels, adds := QueuedTexts(o.queue, false), QueuedTexts(o.queue, true);
      && SetOf(Texts(o.List())) == (SetOf(Texts(l)) - SetOf(dels)) + SetOf(adds)
      && SetOf(dels) <= SetOf(Texts(l)) && SetOf(adds) !! SetOf(Texts(l)) && SetOf(adds) !! SetOf(dels)
      && (forall x :: multiset(dels)[x] <= 1 && multiset(adds)[x] <= 1)
  {
    hide MaskCovers, SameText, Antichain, ParseRun, Process, Texts, QueuedTexts, Marked, RealTexts, SlotTexts, LiveTexts, CleanAll;
    var o := CommandResult(l, reqs, p);
    var dels, adds := QueuedTexts(o.queue, false), QueuedTexts(o.queue, true);
    if reqs == [] {
      assert [] + l == l;
      assert dels == adds == [] by { NothingQueued(); }
    } else {
      var r := ParseRun(l, false, reqs);
      ParseRunMarked(l, false, reqs);
      ParseRunReals(l, false, reqs);
      RealTextsOfClean(l);
      DistinctMasks(r);
      forall x
        ensures multiset(Texts(o.List()))[x] + multiset(dels)[x] == multiset(Texts(l))[x] + multiset(adds)[x]
        ensures multiset(dels)[x] <= multiset(Texts(l))[x] && multiset(adds)[x] + multiset(Texts(l))[x] <= 1
      {
        ProcessCounts(r, p, x);
        BagOfTexts(r, x);
        TextsOnce(r, x);
      }
      BagsToSets(Texts(o.List()), Texts(l), dels, adds);
    }
  }

  lemma NothingQueued()
    ensures QueuedTexts([], false) == QueuedTexts([], true) == []
  {
  }

  lemma ProcessCounts(l: seq<Ban>, p: Policy, x: string)
    requires p.apply
    ensures var o := Process(l, p);
      && multiset(Texts(o.List()))[x] + multiset(QueuedTexts(o.queue, false))[x]
        == multiset(RealTexts(l))[x] + multiset(QueuedTexts(o.queue, true))[x]
      && multiset(QueuedTexts(o.queue, false))[x] <= multiset(RealTexts(l))[x]
      && multiset(QueuedTexts(o.queue, true))[x] <= multiset(SlotTexts(l))[x]
  {
    var st := Pass(0, 0, [], [], []);
    ProcessBalances(l, p, st, x);
    QueueBounds(l, p, st, x);
  }

  lemma BagsToSets(r: seq<string>, old_: seq<string>, dels: seq<string>, adds: seq<string>)
    requires forall x :: multiset(r)[x] + multiset(dels)[x] == multiset(old_)[x] + multiset(adds)[x]
    requires forall x :: multiset(dels)[x] <= multiset(old_)[x] && multiset(adds)[x] + multiset(old_)[x] <= 1
    ensures SetOf(r) == (SetOf(old_) - SetOf(dels)) + SetOf(adds)
    ensures SetOf(dels) <= SetOf(old_) && SetOf(adds) !! SetOf(old_)
  {
    forall x
      ensures (x in r <==> (x in old_ && x !in dels) || x in adds) && (x in dels ==> x in old_) && !(x in adds && x in old_)
    {
      assert (x in r <==> x in multiset(r)) && (x in dels <==> x in multiset(dels));
      assert (x in old_ <==> x in multiset(old_)) && (x in adds <==> x in multiset(adds));
    }
  }

  /** A command that is not applied leaves the masks of any list as they were, in order. */
  lemma CommandNotApplied(l: seq<Ban>, reqs: seq<Change>, p: Policy)
    requires !p.apply
    ensures Texts(CommandResult(l, reqs, p).List()) == Texts(l)
  {
    hide ParseRun, Process, Texts;
    if reqs == [] {
      assert [] + l == l;
    } else {
      var r := ParseRun(l, false, reqs);
      ParseRunReals(l, false, reqs);
      RealTextsOfClean(l);
      ProcessNotApplied(r, p);
    }
  }

  lemma ProcessNotApplied(l: seq<Ban>, p: Policy)
    requires !p.apply
    ensures Texts(Process(l, p).List()) == RealTexts(l)
  {
    ProcessUnset(l, p, Pass(0, 0, [], [], []));
    var o := Process(l, p);
    assert o.List() == o.kept;
    assert Texts([]) + RealTexts(l) == RealTexts(l);
  }

  // ================================================================ the code

  function RestOfPass(l: seq<Ban>, clean: bool, c: Change, slot: Ban): seq<Ban> {
    if c.add then AddPass(l, clean, slot) else DelPass(l, clean, c.mask)
  }

  lemma SlotsLastTail(l: seq<Ban>)
    requires SlotsLast(l) && l != []
    ensures SlotsLast(l[1..]) && (l[0].add && |l| > 1 ==> l[1..][0].add)
  {
    assert forall i :: 0 <= i < |l| - 1 ==> l[1..][i] == l[i + 1];
  }

  class Channel {
    var banlist: seq<Ban>

    constructor (l: seq<Ban>)
      ensures banlist == l
    {
      banlist := l;
    }
  }

  /** The parts of `struct ParseState` the ban code works on. */
  class ParseState {
    const chptr: Channel
    const p: Policy
    /** DONE_BANCLEAN */
    var cleaned: bool
    /** what has been given to the ModeBuf */
    var queue: seq<Change>

    constructor (chptr: Channel, p: Policy)
      ensures this.chptr == chptr && this.p == p && !cleaned && queue == []
    {
      this.chptr, this.p, cleaned, queue := chptr, p, false, [];
    }

    /** `mode_parse_ban` for an argument that is a plain mask. */
    method ParseBan(c: Change)
      modifies chptr`banlist, this`cleaned
      ensures chptr.banlist == ParsePass(old(chptr.banlist), old(cleaned), c) && cleaned
    {
      hide MaskCovers, SameText, Covered;
      var slot := NewSlot(c.mask);
      if chptr.banlist == [] {
        if c.add { chptr.banlist := [slot]; }
        cleaned := true;
        return;
      }
      ghost var goal := ParsePass(chptr.banlist, cleaned, c);
      var done, rest := [], chptr.banlist;
      while rest != []
        invariant cleaned == old(cleaned) && slot.mask == c.mask
        invariant chptr.banlist == done + rest
        invariant goal == done + RestOfPass(rest, cleaned, c, slot)
        decreases |rest|
      {
        ghost var pass := RestOfPass(rest, cleaned, c, slot);
        var b, stop, tail := Seen(rest[0], cleaned), false, [];
        if !c.add && SameText(b.mask, c.mask) {
          b := b.(del := true);
          stop := cleaned;
        } else if c.add {
          if SameText(b.mask, c.mask) {
            slot := slot.(add := false);
            stop := cleaned;
          } else {
            slot := Overlap(slot, b);
            b := Covered(b, c.mask);
            if |rest| == 1 && slot.add {
              tail := [slot];
              stop := true;
            }
          }
        }
        assert pass == [b] + (if stop then rest[1..] + tail else RestOfPass(rest[1..], cleaned, c, slot));
        Assoc(done, [b], pass[1..]);
        assert rest[1..] + [] == rest[1..];
        done, rest := done + [b], rest[1..] + tail;
        chptr.banlist := done + rest;
        if stop { break; }
      }
      cleaned := true;
    }

    /** The list half way through the second pass. `prevSlot`: the entry before is a slot, so not
        linked to the list; otherwise `pos` entries of the list are passed. Until the first slot is
        met the entries still to come hang on the end. */
    ghost predicate Linked(st: Pass, rest: seq<Ban>, pos: nat, prevSlot: bool, broken: bool)
      reads chptr`banlist
    {
      && chptr.banlist == (if broken then st.List() else st.kept + rest)
      && (!prevSlot ==> st.added == [] && pos == |st.kept|)
      && (prevSlot ==> broken)
      && (!broken ==> st.added == [])
    }

    /** A slot is met: whatever is linked after the entry before it goes. */
    method Unlink(ghost st: Pass, ghost rest: seq<Ban>, pos: nat, prevSlot: bool, ghost broken: bool)
      requires Linked(st, rest, pos, prevSlot, broken)
      modifies chptr`banlist
      ensures Linked(st, [], pos, prevSlot, true)
    {
      if !prevSlot {
        assert chptr.banlist[..pos] == st.kept == st.List();
        chptr.banlist := chptr.banlist[..pos];
      }
    }

    method ProcessReal(ban: Ban, ghost st: Pass, ghost rest: seq<Ban>, pos: nat, ghost sent: seq<Change>) returns (pos': nat)
      requires Linked(st, [ban] + rest, pos, false, false) && !ban.add && queue == sent + st.queue
      modifies chptr`banlist, this`queue
      ensures Linked(ProcessOne(ban, p, st), rest, pos', false, false)
      ensures queue == sent + ProcessOne(ban, p, st).queue
    {
      Assoc(sent, st.queue, [Change(false, ban.mask)]);
      var k := if ban.del then RealBan(ban.mask) else ban;
      assert chptr.banlist[..pos] == st.kept && chptr.banlist[pos + 1..] == rest;
      pos' := pos;
      if ban.del {
        queue := queue + [Change(false, ban.mask)];
        if p.apply {
          chptr.banlist := chptr.banlist[..pos] + chptr.banlist[pos + 1..];
          return;
        }
        chptr.banlist := chptr.banlist[pos := RealBan(ban.mask)];
      }
      assert chptr.banlist == (st.kept + [k]) + rest;
      pos' := pos + 1;
    }

    /** A new slot goes to the front of the list unless it is refused. */
    method ProcessSlot(ban: Ban, ghost st: Pass, ghost rest: seq<Ban>, pos: nat, prevSlot: bool, ghost broken: bool,
                       count: int, len: int, ghost sent: seq<Change>) returns (count': int, len': int)
      requires Linked(st, rest, pos, prevSlot, broken) && ban.add && !ban.del && queue == sent + st.queue
      requires count == st.count + 1 && len == st.len + |ban.mask|
      modifies chptr`banlist, this`queue
      ensures var o := ProcessOne(ban, p, st);
        Linked(o, [], pos, true, true) && queue == sent + o.queue && count' == o.count && len' == o.len
    {
      hide ListFull;
      Unlink(st, rest, pos, prevSlot, broken);
      count', len' := count, len;
      if (ban.overlapped && !p.bounce) || (p.apply && ListFull(p, count, len)) {
        count', len' := count - 1, len - |ban.mask|;
      } else {
        Assoc(sent, st.queue, [Change(true, ban.mask)]);
        assert [] + st.added == st.added;
        Assoc([RealBan(ban.mask)], st.added, st.kept);
        queue := queue + [Change(true, ban.mask)];
        if p.apply { chptr.banlist := [RealBan(ban.mask)] + chptr.banlist; }
      }
    }

    /** `mode_process_bans`. */
    method ProcessBans()
      requires SlotsLast(chptr.banlist)
      modifies chptr`banlist, this`queue
      ensures var o := Process(old(chptr.banlist), p);
        chptr.banlist == o.List() && queue == old(queue) + o.queue
    {
      hide ListFull, SlotsLast, ProcessFrom, Process, Refused;
      var rest, pos, prevSlot, count, len := chptr.banlist, 0, false, 0, 0;
      ghost var l0, st, broken := chptr.banlist, Pass(0, 0, [], [], []), false;
      assert queue == queue + [] && [] + l0 == l0;
      ProcessSteps(l0, p, st);
      while rest != []
        invariant SlotsLast(rest) && (broken && rest != [] ==> rest[0].add)
        invariant ProcessFrom(rest, p, st) == Process(l0, p)
        invariant st.count == count && st.len == len && queue == old(queue) + st.queue
        invariant pos >= 0 && Linked(st, rest, pos, prevSlot, broken)
        decreases |rest|
      {
        SlotsLastTail(rest);
        ProcessSteps(rest, p, st);
        var ban, n := rest[0], |rest[0].mask|;
        ghost var st' := ProcessOne(ban, p, st);
        count, len := count + 1, len + n;
        if ban.add && ban.del {
          Unlink(st, rest, pos, prevSlot, broken);
          broken, count, len := true, count - 1, len - n;
        } else if ban.add {
          count, len := ProcessSlot(ban, st, rest, pos, prevSlot, broken, count, len, old(queue));
          broken, prevSlot := true, true;
        } else {
          assert rest == [ban] + rest[1..];
          pos := ProcessReal(ban, st, rest[1..], pos, old(queue));
          if ban.del && p.apply { count, len := count - 1, len - n; }
        }
        rest, st := rest[1..], st';
      }
      ProcessSteps([], p, st);
    }

    /** The bans of one MODE command, as `mode_parse` drives the two passes. */
    method Command(reqs: seq<Change>)
      requires !cleaned && Antichain(Texts(chptr.banlist))
      modifies chptr`banlist, this`cleaned, this`queue
      ensures var o := CommandResult(old(chptr.banlist), reqs, p);
        chptr.banlist == o.List() && queue == old(queue) + o.queue
    {
      hide *;
      ghost var l0 := chptr.banlist;
      var i := 0;
      assert reqs[0..] == reqs && [] + l0 == l0 && queue + [] == queue;
      ReadyRaw(l0);
      while i < |reqs|
        invariant 0 <= i <= |reqs| && cleaned == (i > 0) && queue == old(queue)
        invariant Ready(chptr.banlist, cleaned) && (i == 0 ==> chptr.banlist == l0)
        invariant ParseRun(chptr.banlist, cleaned, reqs[i..]) == ParseRun(l0, false, reqs)
      {
        assert reqs[i..][0] == reqs[i] && reqs[i..][1..] == reqs[i + 1..];
        ParseRunStep(chptr.banlist, cleaned, reqs[i..]);
        ParsePassKeepsMarked(chptr.banlist, cleaned, reqs[i]);
        ParseBan(reqs[i]);
        ReadyMarked(chptr.banlist);
        i := i + 1;
      }
      CommandIsRunThenProcess(l0, chptr.banlist, cleaned, reqs, p);
      ReadySlotsLast(chptr.banlist, cleaned);
      if cleaned { ProcessBans(); }
    }
  }

  lemma ReadyRaw(l: seq<Ban>)
    requires Antichain(Texts(l))
    ensures Ready(l, false)
  {
  }

  lemma ReadyMarked(l: seq<Ban>)
    requires Marked(l)
    ensures Ready(l, true)
  {
  }

  lemma ReadySlotsLast(l: seq<Ban>, clean: bool)
    requires Ready(l, clean)
    ensures clean ==> SlotsLast(l)
  {
    hide MaskCovers, SameText, Antichain, SlotsLast, Compatible;
  }

  lemma ParseRunStep(l: seq<Ban>, clean: bool, reqs: seq<Change>)
    requires reqs != []
    ensures ParseRun(l, clean, reqs) == ParseRun(ParsePass(l, clean, reqs[0]), true, reqs[1..])
  {
    hide ParsePass;
  }

  lemma CommandIsRunThenProcess(l0: seq<Ban>, l: seq<Ban>, clean: bool, reqs: seq<Change>, p: Policy)
    requires clean == (|reqs| > 0) && (!clean ==> l == l0)
    requires ParseRun(l, clean, reqs[|reqs|..]) == ParseRun(l0, false, reqs)
    ensures clean ==> CommandResult(l0, reqs, p) == Process(l, p)
    ensures !clean ==> CommandResult(l0, reqs, p).List() == l && CommandResult(l0, reqs, p).queue == []
  {
    hide Process, ParsePass;
    assert reqs[|reqs|..] == [];
    assert ParseRun(l, clean, []) == l;
  }
}
