/** How long a ban list may become: the two limits `mode_process_bans` applies to the bans of local
    users, MAXBANS on their number and AVBANLEN times MAXBANS on their length.

    Here the outcome of a command is told without the running totals of the pass, by looking at
    whole lists of masks. */
module BanLimit {
  import opened Common
  import opened Masks
  import opened BanList

  function Length(m: seq<string>): nat {
    if m == [] then 0 else |m[0]| + Length(m[1..])
  }

  /** Not more masks than allowed, and not more characters. */
  predicate Fits(m: seq<string>, p: Policy) {
    p.limited ==> |m| <= p.maxBans && Length(m) <= p.avBanLen * p.maxBans
  }

  /** `wanted` masks go in front of those there are, one after the other, each if the list with it
      still fits. */
  function Filled(have: seq<string>, wanted: seq<string>, p: Policy): seq<string>
    decreases |wanted|
  {
    if wanted == [] then have
    else Filled(if Fits([wanted[0]] + have, p) then [wanted[0]] + have else have, wanted[1..], p)
  }

  /** The real bans that are not deleted. */
  function Surviving(l: seq<Ban>): seq<string> {
    if l == [] then [] else (if l[0].add || l[0].del then [] else [l[0].mask]) + Surviving(l[1..])
  }

  /** The new bans that are to be set. */
  function Wanted(l: seq<Ban>, p: Policy): seq<string> {
    if l == [] then []
    else (if l[0].add && !l[0].del && (p.bounce || !l[0].overlapped) then [l[0].mask] else []) + Wanted(l[1..], p)
  }

  lemma {:induction false} LengthJoin(a: seq<string>, b: seq<string>)
    ensures Length(a + b) == Length(a) + Length(b)
  {
    if a == [] {
      assert a + b == b;
    } else {
      LengthJoin(a[1..], b);
      assert (a + b)[1..] == a[1..] + b;
    }
  }

  lemma LengthOfOne(x: string)
    ensures Length([x]) == |x|
  {
    assert [x][1..] == [];
  }

  lemma {:induction false} NothingSurvives(l: seq<Ban>)
    requires SlotsLast(l) && l != [] && l[0].add
    ensures Surviving(l) == []
  {
    assert forall i :: 0 <= i < |l| ==> l[i].add;
    if |l| > 1 { NothingSurvives(l[1..]); }
  }

  /** The running totals are those of the list. */
  ghost predicate Counted(st: Pass) {
    st.count == |st.List()| && st.len == Length(Texts(st.List()))
  }

  lemma ReturnOne(b: Ban, p: Policy, st: Pass)
    requires p.apply && Counted(st)
    ensures var o, have := ProcessOne(b, p, st), Texts(st.List());
      && Counted(o)
      && Texts(o.List()) ==
        if !b.add then have + (if b.del then [] else [b.mask])
        else if !b.del && (p.bounce || !b.overlapped) && Fits([b.mask] + have, p) then [b.mask] + have
        else have
  {
    hide Texts;
    var have := Texts(st.List());
    var r := RealBan(b.mask);
    TextsInFront(r, st.List());
    TextsBehind(st.List(), b);
    LengthJoin([b.mask], have);
    LengthJoin(have, [b.mask]);
    LengthOfOne(b.mask);
    assert |have| == |st.List()| by { TextsLength(st.List()); }
    hide Length;
    assert ([r] + st.added) + st.kept == [r] + st.List();
    assert st.added + (st.kept + [b]) == st.List() + [b];
    assert have + [] == have;
  }

  lemma {:induction false} ProcessFills(l: seq<Ban>, p: Policy, st: Pass)
    requires p.apply && SlotsLast(l) && Counted(st)
    ensures Texts(ProcessFrom(l, p, st).List()) == Filled(Texts(st.List()) + Surviving(l), Wanted(l, p), p)
    decreases |l|
  {
    var have := Texts(st.List());
    hide Texts, Counted, Fits, ProcessOne;
    if l == [] {
      assert have + [] == have;
    } else {
      var b, rest := l[0], l[1..];
      ReturnOne(b, p, st);
      ProcessSteps(l, p, st);
      ProcessFills(rest, p, ProcessOne(b, p, st));
      if b.add {
        NothingSurvives(l);
        if rest != [] { NothingSurvives(rest); }
        hide Surviving;
        assert forall m: seq<string> :: m + [] == m;
        assert ([b.mask] + Wanted(rest, p))[1..] == Wanted(rest, p);
      } else {
        Assoc(have, if b.del then [] else [b.mask], Surviving(rest));
        assert [] + Wanted(rest, p) == Wanted(rest, p);
      }
    }
  }

  lemma ResultIsProcessed(l: seq<Ban>, reqs: seq<Change>, p: Policy)
    requires reqs != []
    ensures CommandResult(l, reqs, p) == Process(ParseRun(l, false, reqs), p)
  {
    hide Process, ParseRun;
  }

  lemma MarkedSlotsLast(l: seq<Ban>)
    requires Marked(l)
    ensures SlotsLast(l)
  {
    hide SlotsLast, Compatible;
  }

  lemma FirstPass()
    ensures var st := Pass(0, 0, [], [], []); Counted(st) && Texts(st.List()) == []
  {
    assert Pass(0, 0, [], [], []).List() == [];
  }

  /** An applied command leaves the real bans it does not delete, and then takes up the new ones as
      long as the list with each fits. */
  lemma CommandFills(l: seq<Ban>, reqs: seq<Change>, p: Policy)
    requires Antichain(Texts(l)) && p.apply && reqs != []
    ensures var r := ParseRun(l, false, reqs);
      Texts(CommandResult(l, reqs, p).List()) == Filled(Surviving(r), Wanted(r, p), p)
  {
    var r, st := ParseRun(l, false, reqs), Pass(0, 0, [], [], []);
    hide ParseRun, Antichain;
    ParseRunMarked(l, false, reqs);
    MarkedSlotsLast(r);
    FirstPass();
    ProcessSteps(r, p, st);
    ResultIsProcessed(l, reqs, p);
    hide *;
    ProcessFills(r, p, st);
    assert Texts(st.List()) + Surviving(r) == Surviving(r);
  }

  // ---------------------------------------------------------------- what is left of a full list

  lemma {:induction false} FilledFits(have: seq<string>, wanted: seq<string>, p: Policy)
    ensures var f := Filled(have, wanted, p);
      && (f == have || Fits(f, p))
      && |have| <= |f| && Length(have) <= Length(f)
      && (forall x :: x in have ==> x in f) && (forall x :: x in f ==> x in have || x in wanted)
    decreases |wanted|
  {
    hide Fits;
    if wanted != [] {
      LengthJoin([wanted[0]], have);
      FilledFits([wanted[0]] + have, wanted[1..], p);
      FilledFits(have, wanted[1..], p);
    }
  }

  /** A mask that is left out would not fit even at the end. */
  lemma {:induction false} LeftOutWhenFull(have: seq<string>, wanted: seq<string>, p: Policy, x: string)
    requires x in wanted && x !in Filled(have, wanted, p)
    ensures p.limited
    ensures var f := Filled(have, wanted, p); |f| + 1 > p.maxBans || Length(f) + |x| > p.avBanLen * p.maxBans
    decreases |wanted|
  {
    var w := wanted[0];
    var next := if Fits([w] + have, p) then [w] + have else have;
    FilledFits(next, wanted[1..], p);
    if w == x {
      assert [w] + have != have;
      assert next == have;
      LengthJoin([w], have);
      LengthOfOne(w);
    } else {
      hide Fits;
      LeftOutWhenFull(next, wanted[1..], p, x);
    }
  }

  lemma {:induction false} SurvivingAreReal(l: seq<Ban>, x: string)
    ensures |Surviving(l)| <= |RealTexts(l)| && Length(Surviving(l)) <= Length(RealTexts(l))
    ensures x in Surviving(l) ==> x in RealTexts(l)
  {
    if l != [] {
      SurvivingAreReal(l[1..], x);
      hide Length;
      LengthJoin(if l[0].add || l[0].del then [] else [l[0].mask], Surviving(l[1..]));
      LengthJoin(if l[0].add then [] else [l[0].mask], RealTexts(l[1..]));
      LengthOfOne(l[0].mask);
      NoLength();
    }
  }

  lemma NoLength()
    ensures Length([]) == 0
  {
  }

  lemma RealsOfCommand(l: seq<Ban>, reqs: seq<Change>)
    requires reqs != []
    ensures RealTexts(ParseRun(l, false, reqs)) == Texts(l)
  {
    ParseRunReals(l, false, reqs);
    RealTextsOfClean(l);
  }

  function Max(a: int, b: int): int { if a < b then b else a }

  lemma FilledBounded(r: seq<Ban>, p: Policy)
    requires p.limited
    ensures var m, was := Filled(Surviving(r), Wanted(r, p), p), RealTexts(r);
      && |m| <= Max(|was|, p.maxBans) && Length(m) <= Max(Length(was), p.avBanLen * p.maxBans)
      && (SetOf(m) <= SetOf(was) || (|m| <= p.maxBans && Length(m) <= p.avBanLen * p.maxBans))
  {
    hide Surviving, RealTexts, Wanted, Filled, Length;
    FilledFits(Surviving(r), Wanted(r, p), p);
    SurvivingAreReal(r, "");
    forall x | x in Surviving(r) ensures x in RealTexts(r) { SurvivingAreReal(r, x); }
  }

  /** A command by a local user never makes a list longer than it was and the limit allows: a list with
      anything new in it keeps both limits, and any other has only masks it had. */
  lemma CommandBounded(l: seq<Ban>, reqs: seq<Change>, p: Policy)
    requires Antichain(Texts(l)) && p.apply && p.limited
    ensures var m := Texts(CommandResult(l, reqs, p).List());
      && |m| <= Max(|l|, p.maxBans) && Length(m) <= Max(Length(Texts(l)), p.avBanLen * p.maxBans)
      && (SetOf(m) <= SetOf(Texts(l)) || (|m| <= p.maxBans && Length(m) <= p.avBanLen * p.maxBans))
  {
    hide Antichain, ParseRun, Process, Filled, RealTexts, Surviving, Wanted, Length;
    if reqs == [] {
      assert [] + l == l;
    } else {
      var r := ParseRun(l, false, reqs);
      CommandFills(l, reqs, p);
      RealsOfCommand(l, reqs);
      FilledBounded(r, p);
    }
  }

  lemma {:induction false} LiveSplits(l: seq<Ban>, p: Policy, x: string)
    requires x in LiveTexts(l) && !p.bounce && forall i :: 0 <= i < |l| && l[i].overlapped ==> l[i].add
    ensures x in Surviving(l) || x in Wanted(l, p)
  {
    if !(IsLive(l[0]) && l[0].mask == x) { LiveSplits(l[1..], p, x); }
  }

  /** A ban that should be there and is not was asked for by a local user, and the list with it would
      pass one of the two limits. */
  lemma DroppedOnlyWhenFull(l: seq<Ban>, reqs: seq<Change>, p: Policy, x: string)
    requires Antichain(Texts(l)) && p.apply && !p.bounce && NeverHindered(l, false, reqs)
    requires x in SeqRun(SetOf(Texts(l)), reqs) && x !in Texts(CommandResult(l, reqs, p).List())
    ensures p.limited
    ensures var m := Texts(CommandResult(l, reqs, p).List());
      |m| + 1 > p.maxBans || Length(m) + |x| > p.avBanLen * p.maxBans
  {
    hide MaskCovers, SameText, Antichain, ParseRun, SeqRun, Process, Live, NeverHindered, Texts, Filled, Surviving, Wanted, LiveTexts;
    LiveOfClean(l);
    ReadyRaw(l);
    RunMeansSequenceExactly(l, false, reqs);
    assert reqs[..|reqs|] == reqs;
    assert MeansSequence(l, false, reqs[..|reqs|]);
    assert [] + l == l;
    if reqs == [] {
      SeqRunOfNothing(SetOf(Texts(l)));
      assert false;
    } else {
      var r := ParseRun(l, false, reqs);
      ParseRunMarked(l, false, reqs);
      LiveTextsAreLive(r, x);
      LiveSplits(r, p, x);
      CommandFills(l, reqs, p);
      FilledFits(Surviving(r), Wanted(r, p), p);
      LeftOutWhenFull(Surviving(r), Wanted(r, p), p, x);
    }
  }

  // ---------------------------------------------------------------- what is announced when nothing is set

  /** A command that is not applied announces what it would if it were applied without a limit. */
  lemma {:induction false} AnnouncedAlike(l: seq<Ban>, p: Policy, st: Pass, st': Pass)
    requires !p.apply && st.queue == st'.queue
    ensures ProcessFrom(l, p, st).queue == ProcessFrom(l, p.(apply := true, limited := false), st').queue
    decreases |l|
  {
    if l != [] {
      var q := p.(apply := true, limited := false);
      AnnouncedAlike(l[1..], p, ProcessOne(l[0], p, st), ProcessOne(l[0], q, st'));
    }
  }

  lemma CommandAnnouncesAlike(l: seq<Ban>, reqs: seq<Change>, p: Policy)
    requires !p.apply
    ensures CommandResult(l, reqs, p).queue == CommandResult(l, reqs, p.(apply := true, limited := false)).queue
  {
    hide ProcessOne, ProcessFrom, ParseRun;
    AnnouncedAlike(ParseRun(l, false, reqs), p, Pass(0, 0, [], [], []), Pass(0, 0, [], [], []));
  }
}
