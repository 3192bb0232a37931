// Channel modes without an argument: how a MODE command accumulates them and what it makes of the
// channel and of the change it announces (ircd/channel.c, mode_parse and mode_parse_mode).
module SimpleModes {
  import ModeBuffer

  datatype Mode =
    | Private | Secret | Moderated | TopicLimit | InviteOnly | NoPrivMsgs | RegOnly | NoColour | Strip | NoCtcp
    | AccOnly | NoNotice | OperOnly | AdminOnly | NoQuitParts | SslOnly | NoAmsg | Persist

  datatype Letter = Plus | Minus | Simple(mode: Mode) | Other

  // The table of mode letters; `Other` stands for unknown letters and for modes with an argument.
  function Lookup(c: char): Letter {
    match c
    case '+' => Plus
    case '-' => Minus
    case 'p' => Simple(Private)
    case 's' => Simple(Secret)
    case 'm' => Simple(Moderated)
    case 't' => Simple(TopicLimit)
    case 'i' => Simple(InviteOnly)
    case 'n' => Simple(NoPrivMsgs)
    case 'r' => Simple(RegOnly)
    case 'c' => Simple(NoColour)
    case 'S' => Simple(Strip)
    case 'C' => Simple(NoCtcp)
    case 'M' => Simple(AccOnly)
    case 'N' => Simple(NoNotice)
    case 'O' => Simple(OperOnly)
    case 'a' => Simple(AdminOnly)
    case 'Q' => Simple(NoQuitParts)
    case 'Z' => Simple(SslOnly)
    case 'T' => Simple(NoAmsg)
    case 'z' => Simple(Persist)
    case _ => Other
  }

  // The mode that setting `m` takes away.
  function Rival(m: Mode): set<Mode> {
    match m
    case Secret => {Private}
    case Private => {Secret}
    case NoColour => {Strip}
    case Strip => {NoColour}
    case _ => {}
  }

  // ---------- The meaning: one letter after the other ----------

  // One mode set or cleared on its own.
  function Switch(modes: set<Mode>, m: Mode, plus: bool): set<Mode> {
    if plus then modes - Rival(m) + {m} else modes - {m}
  }

  // The letters of `s` obeyed one at a time, starting in direction `plus`; a mode the sender may not
  // change is passed over.
  function Sequential(modes: set<Mode>, s: string, plus: bool, granted: set<Mode>): set<Mode>
    decreases |s|
  {
    if s == "" then modes
    else
      match Lookup(s[0])
      case Plus => Sequential(modes, s[1..], true, granted)
      case Minus => Sequential(modes, s[1..], false, granted)
      case Simple(m) =>
        Sequential(if m in granted then Switch(modes, m, plus) else modes, s[1..], plus, granted)
      case Other => Sequential(modes, s[1..], plus, granted)
  }

  // ---------- What the code does: accumulate, then apply ----------

  datatype Change = Change(add: set<Mode>, del: set<Mode>)

  ghost predicate Consistent(c: Change) {
    c.add !! c.del && !(Private in c.add && Secret in c.add) && !(NoColour in c.add && Strip in c.add)
  }

  function Apply(modes: set<Mode>, c: Change): set<Mode> {
    modes - c.del + c.add
  }

  function Step(c: Change, m: Mode, plus: bool): Change {
    if plus then Change(c.add + {m} - Rival(m), c.del - {m} + Rival(m))
    else Change(c.add - {m}, c.del + {m})
  }

  function Accumulate(c: Change, s: string, plus: bool, granted: set<Mode>): Change
    decreases |s|
  {
    if s == "" then c
    else
      match Lookup(s[0])
      case Plus => Accumulate(c, s[1..], true, granted)
      case Minus => Accumulate(c, s[1..], false, granted)
      case Simple(m) => Accumulate(if m in granted then Step(c, m, plus) else c, s[1..], plus, granted)
      case Other => Accumulate(c, s[1..], plus, granted)
  }

  lemma StepIsSwitch(modes: set<Mode>, c: Change, m: Mode, plus: bool)
    requires Consistent(c)
    ensures Consistent(Step(c, m, plus))
    ensures Apply(modes, Step(c, m, plus)) == Switch(Apply(modes, c), m, plus)
  {
  }

  // The accumulated change applied once is the letters obeyed one at a time.
  lemma {:induction false} BatchIsSequential(modes: set<Mode>, c: Change, s: string, plus: bool, granted: set<Mode>)
    requires Consistent(c)
    ensures Consistent(Accumulate(c, s, plus, granted))
    ensures Apply(modes, Accumulate(c, s, plus, granted)) == Sequential(Apply(modes, c), s, plus, granted)
    decreases |s|
  {
    if s != "" {
      match Lookup(s[0])
      case Plus => BatchIsSequential(modes, c, s[1..], true, granted);
      case Minus => BatchIsSequential(modes, c, s[1..], false, granted);
      case Simple(m) =>
        if m in granted {
          StepIsSwitch(modes, c, m, plus);
          BatchIsSequential(modes, Step(c, m, plus), s[1..], plus, granted);
        } else {
          BatchIsSequential(modes, c, s[1..], plus, granted);
        }
      case Other => BatchIsSequential(modes, c, s[1..], plus, granted);
    }
  }

  ghost predicate Exclusive(modes: set<Mode>) {
    !(Private in modes && Secret in modes) && !(NoColour in modes && Strip in modes)
  }

  // No command sets both of +p and +s, or of +c and +S, on a channel that did not have them.
  lemma {:induction false} PairsStayExclusive(modes: set<Mode>, s: string, plus: bool, granted: set<Mode>)
    requires Exclusive(modes)
    ensures Exclusive(Sequential(modes, s, plus, granted))
    decreases |s|
  {
    if s != "" {
      match Lookup(s[0])
      case Plus => PairsStayExclusive(modes, s[1..], true, granted);
      case Minus => PairsStayExclusive(modes, s[1..], false, granted);
      case Simple(m) =>
        PairsStayExclusive(if m in granted then Switch(modes, m, plus) else modes, s[1..], plus, granted);
      case Other => PairsStayExclusive(modes, s[1..], plus, granted);
    }
  }

  // A mode the sender may not change changes only if setting a rival takes it away.
  lemma {:induction false} OnlyGrantedChange(modes: set<Mode>, s: string, plus: bool, granted: set<Mode>, m: Mode)
    requires m !in granted
    ensures m in Sequential(modes, s, plus, granted) ==> m in modes
    ensures m in modes && m !in Sequential(modes, s, plus, granted) ==> exists k :: k in granted && m in Rival(k)
    decreases |s|
  {
    if s != "" {
      match Lookup(s[0])
      case Plus => OnlyGrantedChange(modes, s[1..], true, granted, m);
      case Minus => OnlyGrantedChange(modes, s[1..], false, granted, m);
      case Simple(k) =>
        OnlyGrantedChange(if k in granted then Switch(modes, k, plus) else modes, s[1..], plus, granted, m);
      case Other => OnlyGrantedChange(modes, s[1..], plus, granted, m);
    }
  }

  lemma EmptySets(a: set<Mode>, t: set<Mode>)
    ensures a * t == {} ==> t - a == t
    ensures a - t == {} ==> t + a == t
  {
    forall m | m in a ensures m in t ==> m in a * t { }
    forall m | m in a ensures m !in t ==> m in a - t { }
  }

  // ---------- The announcement ----------

  // A mode buffer without arguments: modes to be announced as set and as cleared.
  datatype Announced = Announced(add: set<Mode>, rem: set<Mode>)

  // `b` takes the channel from `from` to `to`, naming no mode twice.
  ghost predicate Leads(b: Announced, from: set<Mode>, to: set<Mode>) {
    b.add !! b.rem && from - b.rem + b.add == to
  }

  // What mode_parse puts into the buffer.
  function Announce(b: Announced, modes: set<Mode>, c: Change): Announced {
    var b1 := if c.del * modes == {} then b else Announced(b.add - c.del * modes, b.rem + c.del * modes);
    var news := c.add - (modes - c.del);
    if news == {} then b1 else Announced(b1.add + news, b1.rem - news)
  }

  // A fresh buffer ends up with the smallest announcement: what is gone and what is new, no more.
  lemma AnnouncesDifference(modes: set<Mode>, c: Change)
    requires Consistent(c)
    ensures Announce(Announced({}, {}), modes, c) == Announced(Apply(modes, c) - modes, modes - Apply(modes, c))
  {
  }

  // A buffer that several commands share still leads from where it began to where the channel is.
  lemma AnnouncementsCompose(b: Announced, from: set<Mode>, modes: set<Mode>, c: Change)
    requires Consistent(c) && Leads(b, from, modes)
    ensures Leads(Announce(b, modes, c), from, Apply(modes, c))
  {
    var a, to := Announce(b, modes, c), Apply(modes, c);
    EmptySets(c.del, modes);
    EmptySets(c.add, modes - c.del);
    forall m ensures m in from - a.rem + a.add <==> m in to {
      assert m in from - b.rem + b.add <==> m in modes;
    }
    assert from - a.rem + a.add == to;
  }

  // The smallest: any announcement with the same effect names at least these modes.
  lemma DifferenceIsSmallest(b: Announced, from: set<Mode>, to: set<Mode>)
    requires Leads(b, from, to)
    ensures to - from <= b.add && from - to <= b.rem
    ensures Leads(Announced(to - from, from - to), from, to)
  {
  }

  // ---------- What the letters mean: printed and read back ----------

  // The letter a flush prints for a mode.
  function LetterOf(m: Mode): char {
    match m
    case Private => 'p'
    case Secret => 's'
    case Moderated => 'm'
    case TopicLimit => 't'
    case InviteOnly => 'i'
    case NoPrivMsgs => 'n'
    case RegOnly => 'r'
    case NoColour => 'c'
    case Strip => 'S'
    case NoCtcp => 'C'
    case AccOnly => 'M'
    case NoNotice => 'N'
    case OperOnly => 'O'
    case AdminOnly => 'a'
    case NoQuitParts => 'Q'
    case SslOnly => 'Z'
    case NoAmsg => 'T'
    case Persist => 'z'
  }

  function LettersOf(modes: set<Mode>): set<char> { set m | m in modes :: LetterOf(m) }

  // The text of a flush: removals, then additions.
  function Printed(a: Announced): string {
    "-" + ModeBuffer.Chosen(ModeBuffer.FLAGS, LettersOf(a.rem)) + "+" + ModeBuffer.Chosen(ModeBuffer.FLAGS, LettersOf(a.add))
  }

  // Every mode is read from the letter it is printed with, and from no other; and a flush has
  // exactly those letters, and 'l'.
  lemma LettersAgree(m: Mode, c: char)
    ensures Lookup(c) == Simple(m) <==> c == LetterOf(m)
    ensures LetterOf(m) in ModeBuffer.FLAGS && LetterOf(m) != 'l'
    ensures c in ModeBuffer.FLAGS && c != 'l' ==> Lookup(c).Simple? && LetterOf(Lookup(c).mode) == c
  {
    hide *;
    InTable(m);
    if c in ModeBuffer.FLAGS && c != 'l' {
      var i :| 0 <= i < |ModeBuffer.FLAGS| && ModeBuffer.FLAGS[i] == c;
      TableAt(i);
    }
    ReadAsPrinted(m, c);
  }

  lemma ReadAsPrinted(m: Mode, c: char)
    ensures Lookup(c) == Simple(m) <==> c == LetterOf(m)
  {
  }

  lemma InTable(m: Mode)
    ensures LetterOf(m) in ModeBuffer.FLAGS && LetterOf(m) != 'l'
  {
    var i := match m
      case Private => 0 case Secret => 1 case Moderated => 2 case TopicLimit => 3 case InviteOnly => 4
      case NoPrivMsgs => 5 case RegOnly => 6 case NoColour => 8 case Strip => 9 case NoCtcp => 10
      case AccOnly => 11 case NoNotice => 12 case OperOnly => 13 case AdminOnly => 14 case NoQuitParts => 15
      case SslOnly => 16 case NoAmsg => 17 case Persist => 18;
    assert ModeBuffer.FLAGS[i] == LetterOf(m);
  }

  lemma TableAt(i: nat)
    requires i < |ModeBuffer.FLAGS| && ModeBuffer.FLAGS[i] != 'l'
    ensures Lookup(ModeBuffer.FLAGS[i]).Simple? && LetterOf(Lookup(ModeBuffer.FLAGS[i]).mode) == ModeBuffer.FLAGS[i]
  {
  }

  lemma OneLetter(modes: set<Mode>, c: char, s: string, plus: bool, granted: set<Mode>)
    ensures Sequential(modes, [c] + s, plus, granted) ==
      match Lookup(c)
      case Plus => Sequential(modes, s, true, granted)
      case Minus => Sequential(modes, s, false, granted)
      case Simple(m) => Sequential(if m in granted then Switch(modes, m, plus) else modes, s, plus, granted)
      case Other => Sequential(modes, s, plus, granted)
  {
    hide Lookup;
    assert ([c] + s)[0] == c && ([c] + s)[1..] == s;
  }

  // Those modes of a set whose letters a table has.
  ghost function Within(modes: set<Mode>, table: string): set<Mode> { set m | m in modes && LetterOf(m) in table }

  lemma WithinSplits(modes: set<Mode>, table: string)
    requires table != ""
    ensures table[0] !in LettersOf(modes) ==> Within(modes, table) == Within(modes, table[1..])
    ensures table[0] in LettersOf(modes) ==>
      Lookup(table[0]).Simple? && Lookup(table[0]).mode in modes && Within(modes, table) == Within(modes, table[1..]) + {Lookup(table[0]).mode}
  {
    assert table == [table[0]] + table[1..];
    hide Lookup, LetterOf;
    forall m | m in modes ensures LetterOf(m) == table[0] <==> Lookup(table[0]) == Simple(m) { ReadAsPrinted(m, table[0]); }
    if m :| m in modes && LetterOf(m) == table[0] {
      assert Within(modes, table) == Within(modes, table[1..]) + {m};
    } else {
      assert Within(modes, table) == Within(modes, table[1..]);
    }
  }

  // Letters under '-' clear their modes; letters under '+' set theirs, if none is a rival of another
  // or of a mode there is.
  lemma {:induction false} ObeyLetters(modes: set<Mode>, table: string, s: set<Mode>, rest: string, plus: bool, granted: set<Mode>)
    requires s <= granted && (plus ==> Exclusive(modes + s))
    ensures Sequential(modes, ModeBuffer.Chosen(table, LettersOf(s)) + rest, plus, granted) ==
      Sequential(if plus then modes + Within(s, table) else modes - Within(s, table), rest, plus, granted)
    decreases |table|
  {
    hide Lookup, Sequential, LettersOf, Exclusive;
    var left := ModeBuffer.Chosen(table, LettersOf(s));
    if table == "" {
      NoneWithin(s);
      assert modes + {} == modes && modes - {} == modes;
      assert left + rest == rest;
    } else {
      WithinSplits(s, table);
      var left' := ModeBuffer.Chosen(table[1..], LettersOf(s));
      if table[0] in LettersOf(s) {
        var m := Lookup(table[0]).mode;
        assert left + rest == [table[0]] + (left' + rest);
        OneLetter(modes, table[0], left' + rest, plus, granted);
        if plus { NoRival(modes, s, m); }
        assert plus ==> Switch(modes, m, plus) + s == modes + s;
        ObeyLetters(Switch(modes, m, plus), table[1..], s, rest, plus, granted);
        assert modes + Within(s, table) == (modes + {m}) + Within(s, table[1..]);
        assert modes - Within(s, table) == (modes - {m}) - Within(s, table[1..]);
      } else {
        assert left == [] + left' == left';
        ObeyLetters(modes, table[1..], s, rest, plus, granted);
      }
    }
  }

  lemma NoneWithin(s: set<Mode>)
    ensures Within(s, "") == {}
  {
  }

  lemma NoRival(modes: set<Mode>, s: set<Mode>, m: Mode)
    requires Exclusive(modes + s) && m in s
    ensures Switch(modes, m, true) == modes + {m}
  {
  }

  // What a flush prints for a change, read from the old modes with every mode granted, gives the new
  // modes.
  lemma PrintedIsObeyed(before: set<Mode>, after: set<Mode>, granted: set<Mode>)
    requires Exclusive(after) && (before - after) + (after - before) <= granted
    ensures Sequential(before, Printed(Announced(after - before, before - after)), true, granted) == after
  {
    hide LetterOf, Lookup, LettersOf, Exclusive, ModeBuffer.Chosen, Sequential;
    var rem, add, table := before - after, after - before, ModeBuffer.FLAGS;
    var minus, plus := ModeBuffer.Chosen(table, LettersOf(rem)), ModeBuffer.Chosen(table, LettersOf(add));
    assert Printed(Announced(add, rem)) == ['-'] + (minus + (['+'] + (plus + "")));
    Signs('-');
    Signs('+');
    OneLetter(before, '-', minus + (['+'] + (plus + "")), true, granted);
    ObeyLetters(before, table, rem, ['+'] + (plus + ""), false, granted);
    AllWithin(rem);
    AllWithin(add);
    var kept := before - rem;
    OneLetter(kept, '+', plus + "", false, granted);
    assert kept + add == after;
    ObeyLetters(kept, table, add, "", true, granted);
    NothingLeft(after, granted);
  }

  lemma Signs(c: char)
    ensures (Lookup(c) == Minus <==> c == '-') && (Lookup(c) == Plus <==> c == '+')
  {
  }

  lemma AllWithin(s: set<Mode>)
    ensures Within(s, ModeBuffer.FLAGS) == s
  {
    hide LetterOf;
    forall m | m in s ensures LetterOf(m) in ModeBuffer.FLAGS { InTable(m); }
  }

  lemma NothingLeft(modes: set<Mode>, granted: set<Mode>)
    ensures Sequential(modes, "", true, granted) == modes
  {
  }

  // So what any command announces on a fresh buffer tells the channel's new modes to everybody who
  // knew the old ones.
  lemma AnnouncementReplays(modes: set<Mode>, s: string, granted: set<Mode>, all: set<Mode>)
    requires Exclusive(modes) && forall m: Mode :: m in all
    ensures var c := Accumulate(Change({}, {}), s, true, granted);
      Sequential(modes, Printed(Announce(Announced({}, {}), modes, c)), true, all) == Sequential(modes, s, true, granted)
  {
    hide Sequential, Accumulate, Exclusive, Announce, Printed;
    var c := Accumulate(Change({}, {}), s, true, granted);
    BatchIsSequential(modes, Change({}, {}), s, true, granted);
    assert Apply(modes, Change({}, {})) == modes;
    AnnouncesDifference(modes, c);
    PairsStayExclusive(modes, s, true, granted);
    PrintedIsObeyed(modes, Sequential(modes, s, true, granted), all);
  }

  // A letter that no mode has, or one whose mode the sender may not change, is passed over wherever
  // it stands.
  lemma {:induction false} PassedOver(modes: set<Mode>, front: string, c: char, back: string, plus: bool, granted: set<Mode>)
    requires c != '+' && c != '-' && forall m | m in granted :: LetterOf(m) != c
    ensures Sequential(modes, front + [c] + back, plus, granted) == Sequential(modes, front + back, plus, granted)
    decreases |front|
  {
    hide LetterOf, Sequential, Lookup;
    if front == "" {
      assert front + [c] + back == [c] + back && front + back == back;
      OneLetter(modes, c, back, plus, granted);
      Signs(c);
      forall m | Lookup(c) == Simple(m) ensures m !in granted { ReadAsPrinted(m, c); }
    } else {
      var f, rest := front[0], front[1..];
      assert front + [c] + back == [f] + (rest + [c] + back) && front + back == [f] + (rest + back);
      OneLetter(modes, f, rest + [c] + back, plus, granted);
      OneLetter(modes, f, rest + back, plus, granted);
      forall n: set<Mode>, p ensures Sequential(n, rest + [c] + back, p, granted) == Sequential(n, rest + back, p, granted) {
        PassedOver(n, rest, c, back, p, granted);
      }
    }
  }

  // ---------- The code ----------

  // Flags of a call: may the sender change modes at all, and is the change to be made.
  datatype Flags = Flags(notOper: bool, notMember: bool, halfOp: bool, set_: bool)

  // The two flag words of a ModeBuf.
  class FlagBuf {
    var add: set<Mode>
    var rem: set<Mode>

    constructor ()
      ensures add == {} && rem == {}
    {
      add, rem := {}, {};
    }

    // modebuf_mode: the last word on a mode counts.
    method Mode(plus: bool, modes: set<Mode>)
      modifies this
      ensures modes == {} ==> add == old(add) && rem == old(rem)
      ensures modes != {} && plus ==> add == old(add) + modes && rem == old(rem) - modes
      ensures modes != {} && !plus ==> add == old(add) - modes && rem == old(rem) + modes
    {
      if modes == {} { return; }
      if plus {
        rem := rem - modes;
        add := add + modes;
      } else {
        add := add - modes;
        rem := rem + modes;
      }
    }
  }

  class ParseState {
    const flags: Flags
    const granted: set<Mode>
    const mbuf: FlagBuf?
    var plus: bool
    var add: set<Mode>
    var del: set<Mode>

    ghost function Changes(): Change
      reads this
    {
      Change(add, del)
    }

    ghost predicate Able() {
      !flags.notOper && !flags.notMember && mbuf != null
    }

    constructor (flags: Flags, granted: set<Mode>, mbuf: FlagBuf?)
      ensures this.flags == flags && this.granted == granted && this.mbuf == mbuf
      ensures plus && Changes() == Change({}, {})
    {
      this.flags, this.granted, this.mbuf := flags, granted, mbuf;
      plus, add, del := true, {}, {};
    }

    method ParseMode(m: Mode)
      requires Consistent(Changes())
      modifies `add, `del
      ensures Changes() == if Able() then Step(old(Changes()), m, plus) else old(Changes())
      ensures Consistent(Changes())
    {
      hide Consistent;
      StepIsSwitch({}, Changes(), m, plus);
      if flags.notOper || flags.notMember { return; }
      if mbuf == null { return; }
      if plus {
        add := add + {m};
        del := del - {m};
        if m == Secret {
          add := add - {Private};
          del := del + {Private};
        } else if m == Private {
          add := add - {Secret};
          del := del + {Secret};
        }
        if m == NoColour {
          add := add - {Strip};
          del := del + {Strip};
        } else if m == Strip {
          add := add - {NoColour};
          del := del + {NoColour};
        }
      } else {
        add := add - {m};
        del := del + {m};
      }
    }

    method ParseLetters(modestr: string)
      requires Consistent(Changes())
      modifies `add, `del, `plus
      ensures Consistent(Changes())
      ensures Able() ==> Changes() == Accumulate(old(Changes()), modestr, old(plus), granted)
      ensures !Able() ==> Changes() == old(Changes())
    {
      for i := 0 to |modestr|
        invariant Consistent(Changes())
        invariant Able() ==>
          Accumulate(Changes(), modestr[i..], plus, granted) == Accumulate(old(Changes()), modestr, old(plus), granted)
        invariant !Able() ==> Changes() == old(Changes())
      {
        assert modestr[i..][0] == modestr[i] && modestr[i..][1..] == modestr[i + 1..];
        match Lookup(modestr[i]) {
          case Plus => plus := true;
          case Minus => plus := false;
          case Simple(m) => if m in granted { ParseMode(m); }
          case Other =>
        }
      }
    }

    // The end of mode_parse: announces the change and, if told to, makes it.
    method Finish(modes: set<Mode>) returns (after: set<Mode>)
      requires Consistent(Changes()) && (!Able() ==> Changes() == Change({}, {}))
      modifies mbuf
      ensures after == if flags.set_ then Apply(modes, Changes()) else modes
      ensures mbuf != null ==>
        Announced(mbuf.add, mbuf.rem) == Announce(old(Announced(mbuf.add, mbuf.rem)), modes, Changes())
    {
      after := modes;
      if mbuf == null || ((flags.notOper || flags.notMember) && !flags.halfOp) { return; }
      var t := modes;
      EmptySets(del, t);
      if del * t != {} {
        mbuf.Mode(false, del * t);
        t := t - del;
      }
      EmptySets(add, t);
      if add - t != {} {
        mbuf.Mode(true, add - t);
        t := t + add;
      }
      if flags.set_ { after := t; }
    }
  }

  // A whole command on a fresh buffer: the channel ends up with the letters obeyed one at a time,
  // and the buffer with the smallest announcement of that.
  method ModeCommand(modes: set<Mode>, modestr: string, flags: Flags, granted: set<Mode>)
    returns (after: set<Mode>, announced: Announced)
    ensures var goal := if flags.notOper || flags.notMember then modes else Sequential(modes, modestr, true, granted);
      after == (if flags.set_ then goal else modes) && announced == Announced(goal - modes, modes - goal)
  {
    var mbuf := new FlagBuf();
    var state := new ParseState(flags, granted, mbuf);
    state.ParseLetters(modestr);
    BatchIsSequential(modes, Change({}, {}), modestr, true, granted);
    assert Apply(modes, Change({}, {})) == modes;
    AnnouncesDifference(modes, state.Changes());
    after := state.Finish(modes);
    announced := Announced(mbuf.add, mbuf.rem);
  }
}
