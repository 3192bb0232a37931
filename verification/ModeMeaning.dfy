// What the MODE messages of a buffer mean to those who read them.  Users know members by nick and
// servers know them by numeric; both read a message letter by letter.  What they then hold to be true
// of the channel is compared with the changes that were sent, applied directly.
module ModeMeaning {
  import opened Common
  import opened ModeBuffer

  // A letter with what it is about: 'o' and a member, 'b' and a mask, 'k' and the key, 'n' and "".
  type Fact = (char, string)

  type View = set<Fact>

  datatype Audience = Users | Servers

  // A channel has one key, one limit and one channel to redirect to.
  predicate OneOnly(letter: char) { letter in "kLl" }

  function Put(v: View, plus: bool, f: Fact): View {
    var others := if OneOnly(f.0) then set g | g in v && g.0 != f.0 else v - {f};
    if plus then others + {f} else others
  }

  function PutAll(v: View, plus: bool, fs: seq<Fact>): View
    decreases |fs|
  {
    if fs == [] then v else PutAll(Put(v, plus, fs[0]), plus, fs[1..])
  }

  // ---------- The reader ----------

  function FactOf(i: Item): Fact { (i.letter, if i.params == [] then "" else i.params[0]) }

  function FactsOf(items: seq<Item>): seq<Fact> {
    if items == [] then [] else [FactOf(items[0])] + FactsOf(items[1..])
  }

  // A message read and obeyed: removals, then additions.
  function Told(v: View, m: Message): View {
    match ReadMessage(m.minus, m.plus, m.params)
    case None => v
    case Some((gone, new_)) => PutAll(PutAll(v, false, FactsOf(gone)), true, FactsOf(new_))
  }

  // All messages for an audience, in order.
  function Hear(v: View, out: seq<Message>, to: Audience): View {
    if out == [] then v
    else
      var m, before := out[|out| - 1], Hear(v, out[..|out| - 1], to);
      if m.ToUsers? == to.Users? then Told(before, m) else before
  }

  // ---------- The changes applied directly ----------

  // How an audience knows the argument of a slot.
  function Known(s: Slot, to: Audience, nokey: bool): Fact {
    match s.arg
    case Member(letter, nick, numeric) => (letter, if to.Users? then nick else numeric)
    case Text(letter, text) => (letter, if to.Users? && letter == 'k' && nokey then "*" else text)
    case Limit(n) => ('l', Digits(n))
  }

  function KnownAll(slots: seq<Slot>, to: Audience, nokey: bool): seq<Fact> {
    if slots == [] then [] else [Known(slots[0], to, nokey)] + KnownAll(slots[1..], to, nokey)
  }

  function Cleared(v: View, modes: set<char>): View {
    set g | g in v && !(g.0 in modes && g.0 in FLAGS && (g.1 == "" || g.0 == 'l'))
  }

  function Given(v: View, modes: set<char>): View {
    v + set c | c in modes && c in FLAGS :: (c, "")
  }

  // A bounce takes back, at other servers, what was set and sets what was taken away.
  predicate Back(d: Dest, to: Audience) { to.Servers? && d.bounce }

  function Lost(b: Buf, to: Audience): set<char> { if Back(b.dest, to) then b.add else b.rem - b.add }

  function Gained(b: Buf, to: Audience): set<char> { if Back(b.dest, to) then b.rem - b.add else b.add }

  function Source(b: Buf, to: Audience): seq<Fact> {
    if to.Servers? && b.dest.deop then [('o', b.source)] else []
  }

  // The changes a flush sends: those that take away, then those that give.
  function Direct(v: View, b: Buf, to: Audience): View {
    var back := Back(b.dest, to);
    var gone := KnownAll(Side(Going(b), back), to, b.dest.nokey) + if back then Source(b, to) else [];
    var new_ := KnownAll(Side(Going(b), !back), to, b.dest.nokey) + if back then [] else Source(b, to);
    PutAll(Given(PutAll(Cleared(v, Lost(b, to)), false, gone), Gained(b, to)), true, new_)
  }

  // What callers put into a buffer that can be read: see BounceReadBack.
  ghost predicate ReadableBuf(b: Buf) {
    ValidBuf(b) && b.dest.hack2 == b.dest.bounce && (b.dest.bounce ==> 'l' !in b.rem)
  }

  function MessageTo(b: Buf, to: Audience): Message {
    if to.Users? then UsersMessage(b) else ServersMessage(b)
  }

  // The limit that is set last on the line is the last one waiting.
  ghost predicate LimitTold(b: Buf, to: Audience) {
    var new_ := Side(Going(b), !Back(b.dest, to));
    (exists s | s in new_ :: s.arg.Limit?) ==> LastLimit(new_, 0) == LastLimit(b.slots, 0)
  }

  // ---------- Putting facts ----------

  lemma {:induction false} PutAllJoin(v: View, plus: bool, a: seq<Fact>, b: seq<Fact>)
    ensures PutAll(v, plus, a + b) == PutAll(PutAll(v, plus, a), plus, b)
    decreases |a|
  {
    if a == [] {
      assert a + b == b;
    } else {
      assert (a + b)[1..] == a[1..] + b;
      PutAllJoin(Put(v, plus, a[0]), plus, a[1..], b);
    }
  }

  ghost predicate About(fs: seq<Fact>, g: Fact) {
    exists f | f in fs :: f == g || (OneOnly(g.0) && f.0 == g.0)
  }

  lemma {:induction false} PutOthers(v: View, plus: bool, fs: seq<Fact>, g: Fact)
    requires !About(fs, g)
    ensures g in PutAll(v, plus, fs) <==> g in v
    decreases |fs|
  {
    hide OneOnly;
    if fs != [] {
      assert fs == [fs[0]] + fs[1..] && fs[0] in fs;
      assert !About(fs[1..], g);
      PutOthers(Put(v, plus, fs[0]), plus, fs[1..], g);
    }
  }

  // The last fact with the letter of `g` decides, or the one `g` if there may be many.
  lemma PutLast(v: View, plus: bool, a: seq<Fact>, f: Fact, c: seq<Fact>, g: Fact)
    requires f == g || (OneOnly(g.0) && f.0 == g.0)
    requires !About(c, g)
    ensures g in PutAll(v, plus, a + [f] + c) <==> plus && f == g
  {
    hide OneOnly, About;
    PutAllJoin(v, plus, a + [f], c);
    PutAllJoin(v, plus, a, [f]);
    var w := PutAll(v, plus, a);
    assert PutAll(w, plus, [f]) == PutAll(Put(w, plus, f), plus, [f][1..]) == Put(w, plus, f);
    PutOthers(Put(w, plus, f), plus, c, g);
  }

  // The last fact about `g`.
  lemma {:induction false} LastAbout(fs: seq<Fact>, g: Fact) returns (k: nat)
    requires About(fs, g)
    ensures k < |fs| && (fs[k] == g || (OneOnly(g.0) && fs[k].0 == g.0)) && !About(fs[k + 1..], g)
  {
    hide OneOnly;
    if About(fs[1..], g) {
      var j := LastAbout(fs[1..], g);
      k := j + 1;
      assert fs[1..][j + 1..] == fs[k + 1..];
    } else {
      k := 0;
      var f :| f in fs && (f == g || (OneOnly(g.0) && f.0 == g.0));
      assert fs == [fs[0]] + fs[1..];
    }
  }

  // All facts about `g` that are put agree: either all are `g` itself, or none is.
  lemma PutDecides(v: View, plus: bool, fs: seq<Fact>, g: Fact, word: bool)
    requires forall f | f in fs && (f == g || (OneOnly(g.0) && f.0 == g.0)) :: (plus && f == g) == word
    ensures g in PutAll(v, plus, fs) <==> if About(fs, g) then word else g in v
  {
    hide OneOnly, About;
    if About(fs, g) {
      var k := LastAbout(fs, g);
      PutLast(v, plus, fs[..k], fs[k], fs[k + 1..], g);
      assert fs[..k] + [fs[k]] + fs[k + 1..] == fs;
      assert fs[k] in fs;
    } else {
      PutOthers(v, plus, fs, g);
    }
  }

  // ---------- Modes without argument ----------

  lemma {:induction false} PlainFacts(letters: string, f: Fact)
    ensures f in FactsOf(Plain(letters)) <==> f.1 == "" && f.0 in letters
  {
    if letters != "" {
      PlainFacts(letters[1..], f);
      var items := Plain(letters);
      assert items[0] == Item(letters[0], []) && items[1..] == Plain(letters[1..]);
      assert letters == [letters[0]] + letters[1..];
    }
  }

  lemma OneOfFlags(c: char)
    requires c in FLAGS && OneOnly(c)
    ensures c == 'l'
  {
    var i :| 0 <= i < |FLAGS| && FLAGS[i] == c;
    OneOfFlagsAt(i);
  }

  lemma OneOfFlagsAt(i: nat)
    requires i < |FLAGS| && OneOnly(FLAGS[i])
    ensures FLAGS[i] == 'l'
  {
  }

  lemma PutFlags(v: View, plus: bool, modes: set<char>)
    requires plus ==> 'l' !in modes
    ensures PutAll(v, plus, FactsOf(Plain(Chosen(FLAGS, modes)))) == if plus then Given(v, modes) else Cleared(v, modes)
  {
    hide FactsOf, Plain, Chosen, OneOnly;
    var letters := Chosen(FLAGS, modes);
    var fs := FactsOf(Plain(letters));
    ChosenFrom(FLAGS, modes);
    forall f ensures f in fs <==> f.1 == "" && f.0 in modes && f.0 in FLAGS { PlainFacts(letters, f); }
    forall g ensures g in PutAll(v, plus, fs) <==> g in if plus then Given(v, modes) else Cleared(v, modes) {
      if OneOnly(g.0) && g.0 in FLAGS { OneOfFlags(g.0); }
      assert 'l' in FLAGS ==> OneOnly('l') by { OneLimit(); }
      assert About(fs, g) <==> g.0 in modes && g.0 in FLAGS && (g.1 == "" || g.0 == 'l') by {
        if g.0 in modes && g.0 in FLAGS { assert (g.0, "") in fs; }
      }
      PutDecides(v, plus, fs, g, plus);
    }
  }

  lemma OneLimit()
    ensures OneOnly('l') && !OneOnly('o')
  {
  }

  // ---------- Slots as they stand on a line ----------

  // All limits are shown with the one text, those taken away without.
  function Shown(s: Slot, to: Audience, nokey: bool, sense: bool, text: string): Fact {
    if s.arg.Limit? then ('l', if sense then text else "") else Known(s, to, nokey)
  }

  function ShownAll(slots: seq<Slot>, to: Audience, nokey: bool, sense: bool, text: string): seq<Fact> {
    if slots == [] then [] else [Shown(slots[0], to, nokey, sense, text)] + ShownAll(slots[1..], to, nokey, sense, text)
  }

  ghost predicate Sided(slots: seq<Slot>, plus: bool) {
    forall s | s in slots :: ValidSlot(s) && s.plus == plus
  }

  lemma {:induction false} UserFacts(slots: seq<Slot>, plus: bool, nokey: bool, text: string)
    requires Sided(slots, plus)
    ensures FactsOf(UserItems(slots, nokey, text)) == ShownAll(slots, Users, nokey, plus, text)
  {
    if slots != [] {
      assert slots[0] in slots && forall s | s in slots[1..] :: s in slots;
      UserFacts(slots[1..], plus, nokey, text);
      var items := UserItems(slots, nokey, text);
      assert items[1..] == UserItems(slots[1..], nokey, text);
    }
  }

  lemma {:induction false} ServerFacts(slots: seq<Slot>, plus: bool, nokey: bool, hack2: bool, text: string)
    requires Sided(slots, plus)
    ensures FactsOf(ServerItems(slots, hack2, text)) == ShownAll(slots, Servers, nokey, plus != hack2, text)
  {
    if slots != [] {
      assert slots[0] in slots && forall s | s in slots[1..] :: s in slots;
      ServerFacts(slots[1..], plus, nokey, hack2, text);
      var items := ServerItems(slots, hack2, text);
      assert items[1..] == ServerItems(slots[1..], hack2, text);
    }
  }

  lemma OneShown(v: View, w: View, s: Slot, to: Audience, nokey: bool, sense: bool, text: string, g: Fact)
    requires ValidSlot(s) && (g in v <==> g in w) && (g.0 != 'l' || !sense)
    ensures g in Put(v, sense, Shown(s, to, nokey, sense, text)) <==> g in Put(w, sense, Known(s, to, nokey))
  {
    hide Digits;
  }

  // But for limits that are set, the line says what the slots say.
  lemma {:induction false} ShownIsKnown(v: View, w: View, slots: seq<Slot>, to: Audience, nokey: bool, sense: bool, text: string, g: Fact)
    requires (forall s | s in slots :: ValidSlot(s)) && (g in v <==> g in w) && (g.0 != 'l' || !sense)
    ensures g in PutAll(v, sense, ShownAll(slots, to, nokey, sense, text)) <==> g in PutAll(w, sense, KnownAll(slots, to, nokey))
    decreases |slots|
  {
    hide Put, Shown, Known, ValidSlot;
    if slots != [] {
      var s, rest := slots[0], slots[1..];
      assert s in slots && forall x | x in rest :: x in slots;
      OneShown(v, w, s, to, nokey, sense, text, g);
      FirstShown(slots, to, nokey, sense, text);
      ShownIsKnown(Put(v, sense, Shown(s, to, nokey, sense, text)), Put(w, sense, Known(s, to, nokey)), rest, to, nokey, sense, text, g);
    }
  }

  lemma FirstShown(slots: seq<Slot>, to: Audience, nokey: bool, sense: bool, text: string)
    requires slots != []
    ensures var fs, gs := ShownAll(slots, to, nokey, sense, text), KnownAll(slots, to, nokey);
      && fs != [] && fs[0] == Shown(slots[0], to, nokey, sense, text) && fs[1..] == ShownAll(slots[1..], to, nokey, sense, text)
      && gs != [] && gs[0] == Known(slots[0], to, nokey) && gs[1..] == KnownAll(slots[1..], to, nokey)
  {
    hide Shown, Known;
  }

  lemma OneLimitSet(v: View, s: Slot, to: Audience, nokey: bool, text: string, x: string)
    requires ValidSlot(s)
    ensures ('l', x) in Put(v, true, Shown(s, to, nokey, true, text)) <==> if s.arg.Limit? then x == text else ('l', x) in v
    ensures ('l', x) in Put(v, true, Known(s, to, nokey)) <==> if s.arg.Limit? then x == Digits(s.arg.number) else ('l', x) in v
  {
    hide Digits;
  }

  ghost predicate HasLimit(slots: seq<Slot>) { exists s | s in slots :: s.arg.Limit? }

  // The limit that stands in the end: on the line the one text, by the slots the last one's number.
  lemma {:induction false} LimitsSet(v: View, slots: seq<Slot>, to: Audience, nokey: bool, text: string, x: string, before: nat)
    requires forall s | s in slots :: ValidSlot(s)
    ensures ('l', x) in PutAll(v, true, ShownAll(slots, to, nokey, true, text)) <==>
      if HasLimit(slots) then x == text else ('l', x) in v
    ensures ('l', x) in PutAll(v, true, KnownAll(slots, to, nokey)) <==>
      if HasLimit(slots) then x == Digits(LastLimit(slots, before)) else ('l', x) in v
    decreases |slots|
  {
    hide Put, Shown, Known, ValidSlot, Digits;
    if slots != [] {
      var s, rest := slots[0], slots[1..];
      assert slots == [s] + rest && s in slots && forall x | x in rest :: x in slots;
      var next := if s.arg.Limit? then s.arg.number else before;
      assert HasLimit(slots) == (s.arg.Limit? || HasLimit(rest));
      OneLimitSet(v, s, to, nokey, text, x);
      FirstShown(slots, to, nokey, true, text);
      LimitsSet(Put(v, true, Shown(s, to, nokey, true, text)), rest, to, nokey, text, x, next);
      LimitsSet(Put(v, true, Known(s, to, nokey)), rest, to, nokey, text, x, next);
      if !HasLimit(rest) { LastStays(rest, next); }
    }
  }

  // ---------- One message ----------

  lemma {:induction false} FactsJoin(a: seq<Item>, b: seq<Item>)
    ensures FactsOf(a + b) == FactsOf(a) + FactsOf(b)
  {
    if a == [] {
      assert a + b == b;
      assert FactsOf(a) + FactsOf(b) == FactsOf(b);
    } else {
      FactsJoin(a[1..], b);
      assert (a + b)[1..] == a[1..] + b;
      FirstFact(a);
      FirstFact(a + b);
      hide FactsOf;
      Assoc([FactOf(a[0])], FactsOf(a[1..]), FactsOf(b));
    }
  }

  lemma FirstFact(items: seq<Item>)
    requires items != []
    ensures FactsOf(items) == [FactOf(items[0])] + FactsOf(items[1..])
  {
  }

  function ItemsTo(b: Buf, plus: bool, to: Audience): seq<Item> {
    if to.Users? then ToUsersItems(b, plus) else ToServersItems(b, plus)
  }

  // The facts of one sign of the line.
  function SignFacts(b: Buf, sense: bool, to: Audience): seq<Fact> {
    var back := Back(b.dest, to);
    ShownAll(Side(Going(b), sense != back), to, b.dest.nokey, sense, LimitText(b.slots, "")) +
    if sense != back then Source(b, to) else []
  }

  lemma ReadBack(b: Buf, to: Audience)
    requires ReadableBuf(b)
    ensures var m, back := MessageTo(b, to), Back(b.dest, to);
      ReadMessage(m.minus, m.plus, m.params) == Some((ItemsTo(b, back, to), ItemsTo(b, !back, to)))
  {
    hide ReadMessage, ToUsersItems, ToServersItems, Going, Letters, Params;
    match to
    case Users => UsersReadBack(b);
    case Servers => if b.dest.bounce { BounceReadBack(b); } else { ServersReadBack(b); }
  }

  lemma SourceFacts(b: Buf, to: Audience)
    ensures FactsOf(if b.dest.deop then [Item('o', [b.source])] else []) == if b.dest.deop then [('o', b.source)] else []
  {
    assert [Item('o', [b.source])][1..] == [];
  }

  lemma SignRead(v: View, b: Buf, sense: bool, to: Audience)
    requires ReadableBuf(b)
    ensures PutAll(v, sense, FactsOf(ItemsTo(b, sense != Back(b.dest, to), to))) ==
      PutAll(if sense then Given(v, Gained(b, to)) else Cleared(v, Lost(b, to)), sense, SignFacts(b, sense, to))
  {
    var plus, nokey, text := sense != Back(b.dest, to), b.dest.nokey, LimitText(b.slots, "");
    var slots, simple := Side(Going(b), plus), SimpleItems(b, plus);
    GoingSides(b, plus);
    assert Sided(slots, plus);
    UserFacts(slots, plus, nokey, text);
    ServerFacts(slots, plus, nokey, b.dest.hack2, text);
    PutFlags(v, sense, if plus then b.add else b.rem - b.add);
    SourceFacts(b, to);
    hide Going, FactsOf, UserItems, ServerItems, ShownAll, Plain, Chosen, PutAll, Given, Cleared, Sided, ValidBuf;
    if to.Users? {
      FactsJoin(simple, UserItems(slots, nokey, text));
      PutAllJoin(v, sense, FactsOf(simple), FactsOf(UserItems(slots, nokey, text)));
      assert SignFacts(b, sense, to) == FactsOf(UserItems(slots, nokey, text));
    } else {
      var tail := if plus && b.dest.deop then [Item('o', [b.source])] else [];
      var items := ServerItems(slots, b.dest.hack2, text);
      FactsJoin(simple + items, tail);
      FactsJoin(simple, items);
      Assoc(FactsOf(simple), FactsOf(items), FactsOf(tail));
      PutAllJoin(v, sense, FactsOf(simple), FactsOf(items) + FactsOf(tail));
      NoFacts();
      assert SignFacts(b, sense, to) == FactsOf(items) + FactsOf(tail);
    }
  }

  lemma NoFacts()
    ensures FactsOf([]) == []
  {
  }

  lemma MessageRead(v: View, b: Buf, to: Audience)
    requires ReadableBuf(b)
    ensures Told(v, MessageTo(b, to)) ==
      PutAll(Given(PutAll(Cleared(v, Lost(b, to)), false, SignFacts(b, false, to)), Gained(b, to)), true, SignFacts(b, true, to))
  {
    hide ReadMessage, ItemsTo, MessageTo, FactsOf, PutAll, Given, Cleared, SignFacts, Lost, Gained, ReadableBuf;
    ReadBack(b, to);
    SignRead(v, b, false, to);
    SignRead(PutAll(Cleared(v, Lost(b, to)), false, SignFacts(b, false, to)), b, true, to);
    assert (false != Back(b.dest, to)) == Back(b.dest, to);
    assert (true != Back(b.dest, to)) == !Back(b.dest, to);
  }

  lemma SignMeans(v: View, w: View, b: Buf, sense: bool, to: Audience, g: Fact)
    requires ReadableBuf(b) && (g in v <==> g in w) && (g.0 != 'l' || !sense)
    ensures var back := Back(b.dest, to);
      g in PutAll(v, sense, SignFacts(b, sense, to)) <==>
      g in PutAll(w, sense, KnownAll(Side(Going(b), sense != back), to, b.dest.nokey) + if sense != back then Source(b, to) else [])
  {
    var plus := sense != Back(b.dest, to);
    var slots, nokey, text := Side(Going(b), plus), b.dest.nokey, LimitText(b.slots, "");
    var tail := if plus then Source(b, to) else [];
    GoingSides(b, plus);
    ShownIsKnown(v, w, slots, to, nokey, sense, text, g);
    PutAllJoin(v, sense, ShownAll(slots, to, nokey, sense, text), tail);
    PutAllJoin(w, sense, KnownAll(slots, to, nokey), tail);
    hide Going, ShownAll, KnownAll, ReadableBuf, PutAll;
    PutAlike(PutAll(v, sense, ShownAll(slots, to, nokey, sense, text)), PutAll(w, sense, KnownAll(slots, to, nokey)), sense, tail, g);
  }

  // What a fact is worth after the same changes depends on that fact alone.
  lemma {:induction false} PutAlike(v: View, w: View, sense: bool, fs: seq<Fact>, g: Fact)
    requires g in v <==> g in w
    ensures g in PutAll(v, sense, fs) <==> g in PutAll(w, sense, fs)
    decreases |fs|
  {
    hide OneOnly;
    if fs != [] { PutAlike(Put(v, sense, fs[0]), Put(w, sense, fs[0]), sense, fs[1..], g); }
  }

  // A reader of one message knows what the slots sent say, applied directly: everything but the limit
  // in any case.
  lemma MessageMeans(v: View, w: View, b: Buf, to: Audience, g: Fact)
    requires ReadableBuf(b) && (g in v <==> g in w) && g.0 != 'l'
    ensures g in Told(v, MessageTo(b, to)) <==> g in Direct(w, b, to)
  {
    hide Told, MessageTo, PutAll, SignFacts, KnownAll, Source, Lost, Gained, ReadableBuf, Back;
    MessageRead(v, b, to);
    var v1, w1 := Cleared(v, Lost(b, to)), Cleared(w, Lost(b, to));
    SignMeans(v1, w1, b, false, to, g);
    var back := Back(b.dest, to);
    var gone := KnownAll(Side(Going(b), back), to, b.dest.nokey) + if back then Source(b, to) else [];
    assert (false != back) == back && (true != back) == !back;
    var v2, w2 := PutAll(v1, false, SignFacts(b, false, to)), PutAll(w1, false, gone);
    assert g in v2 <==> g in w2;
    SignMeans(Given(v2, Gained(b, to)), Given(w2, Gained(b, to)), b, true, to, g);
  }

  lemma SourceIsNoLimit(v: View, b: Buf, plus: bool, to: Audience, x: string)
    ensures var tail := if plus then Source(b, to) else [];
      ('l', x) in PutAll(v, true, tail) <==> ('l', x) in v
  {
    var tail := if plus then Source(b, to) else [];
    OneLimit();
    assert !About(tail, ('l', x));
    PutOthers(v, true, tail, ('l', x));
  }

  // The limit of a reader, and the limit by the slots.
  lemma LimitMeans(v: View, w: View, b: Buf, to: Audience, x: string)
    requires ReadableBuf(b) && (('l', x) in v <==> ('l', x) in w)
    ensures var new_ := Side(Going(b), !Back(b.dest, to));
      if HasLimit(new_) then
        && (('l', x) in Told(v, MessageTo(b, to)) <==> x == Digits(LastLimit(b.slots, 0)))
        && (('l', x) in Direct(w, b, to) <==> x == Digits(LastLimit(new_, 0)))
      else ('l', x) in Told(v, MessageTo(b, to)) <==> ('l', x) in Direct(w, b, to)
  {
    var back, g := Back(b.dest, to), ('l', x);
    var new_, nokey, text := Side(Going(b), !back), b.dest.nokey, LimitText(b.slots, "");
    GoingSides(b, !back);
    SideFrom(Going(b), !back);
    LimitNumber(b);
    hide Told, MessageTo, PutAll, KnownAll, ShownAll, Source, Lost, Gained, ReadableBuf, Back, Going, LimitText, LastLimit, Digits;
    MessageRead(v, b, to);
    var v1, w1 := Cleared(v, Lost(b, to)), Cleared(w, Lost(b, to));
    SignMeans(v1, w1, b, false, to, g);
    var gone := KnownAll(Side(Going(b), back), to, nokey) + if back then Source(b, to) else [];
    assert (false != back) == back && (true != back) == !back;
    var v2, w2 := PutAll(v1, false, SignFacts(b, false, to)), PutAll(w1, false, gone);
    assert g in v2 <==> g in w2;
    var v3, w3 := Given(v2, Gained(b, to)), Given(w2, Gained(b, to));
    assert g in v3 <==> g in w3;
    LimitsSet(v3, new_, to, nokey, text, x, 0);
    LimitsSet(w3, new_, to, nokey, text, x, 0);
    var tail := if !back then Source(b, to) else [];
    PutAllJoin(v3, true, ShownAll(new_, to, nokey, true, text), tail);
    PutAllJoin(w3, true, KnownAll(new_, to, nokey), tail);
    SourceIsNoLimit(PutAll(v3, true, ShownAll(new_, to, nokey, true, text)), b, !back, to, x);
    SourceIsNoLimit(PutAll(w3, true, KnownAll(new_, to, nokey)), b, !back, to, x);
  }

  // A reader knows exactly what the slots sent say if and only if the limit set last on the line, if
  // any is set, is the last one waiting.
  lemma MessageMeansExactly(v: View, b: Buf, to: Audience)
    requires ReadableBuf(b)
    ensures Told(v, MessageTo(b, to)) == Direct(v, b, to) <==> LimitTold(b, to)
  {
    hide Told, MessageTo, Direct, ReadableBuf, Going, LastLimit, Digits;
    var told, direct, new_ := Told(v, MessageTo(b, to)), Direct(v, b, to), Side(Going(b), !Back(b.dest, to));
    if LimitTold(b, to) {
      forall g ensures g in told <==> g in direct {
        if g.0 == 'l' { LimitMeans(v, v, b, to, g.1); } else { MessageMeans(v, v, b, to, g); }
      }
      assert told == direct;
    } else {
      var text := Digits(LastLimit(b.slots, 0));
      LimitMeans(v, v, b, to, text);
      assert ('l', text) in told;
      if text == Digits(LastLimit(new_, 0)) { DigitsInjective(LastLimit(b.slots, 0), LastLimit(new_, 0)); }
    }
  }

  // ---------- Whole runs ----------

  // The buffers flushed, applied directly one after the other, and the slots that went with them.
  function DirectAll(v: View, log: seq<Buf>, to: Audience): View {
    if log == [] then v else Direct(DirectAll(v, log[..|log| - 1], to), log[|log| - 1], to)
  }

  function SentIn(log: seq<Buf>): seq<Slot> {
    if log == [] then [] else SentIn(log[..|log| - 1]) + Going(log[|log| - 1])
  }

  // The audience gets the messages of the buffer, and can read them.
  ghost predicate Reaches(b: Buf, to: Audience) {
    ReadableBuf(b) && if to.Users? then b.dest.visible else b.dest.server
  }

  ghost predicate ValidOp(op: Op, d: Dest) {
    match op
    case Modes(plus, modes) => plus || d.bounce ==> 'l' !in modes
    case Arg(slot) => ValidSlot(slot)
    case Flush => true
  }

  // The slots recorded as sent are those of the buffers flushed, and what was heard is what these
  // buffers say, applied directly.
  ghost predicate Explained(t: Trace, log: seq<Buf>, v: View, to: Audience) {
    t.sent == SentIn(log) && Agreed(Hear(v, t.out, to), DirectAll(v, log, to), AllLimitsTold(log, to))
  }

  // The same but for the limit, and that too if `exactly`.
  ghost predicate Agreed(heard: View, known: View, exactly: bool) {
    (forall g: Fact | g.0 != 'l' :: g in heard <==> g in known) && (exactly ==> heard == known)
  }

  ghost predicate AllLimitsTold(log: seq<Buf>, to: Audience) { forall b | b in log :: LimitTold(b, to) }

  lemma AgreedStep(heard: View, known: View, exactly: bool, b: Buf, to: Audience)
    requires Agreed(heard, known, exactly) && ReadableBuf(b)
    ensures Agreed(Told(heard, MessageTo(b, to)), Direct(known, b, to), exactly && LimitTold(b, to))
  {
    hide Told, MessageTo, Direct, ReadableBuf, LimitTold;
    forall g: Fact | g.0 != 'l' ensures g in Told(heard, MessageTo(b, to)) <==> g in Direct(known, b, to) {
      MessageMeans(heard, known, b, to, g);
    }
    MessageMeansExactly(heard, b, to);
  }

  lemma FlushReaches(b: Buf, to: Audience)
    requires Reaches(b, to)
    ensures Reaches(Flushed(b), to) && SameKind(Flushed(b).dest, b.dest)
  {
    SentFrom(b.slots, b.dest.nokey, Room(b.dest));
    hide ValidSlot, Saved, Sent;
  }

  lemma HearOne(v: View, out: seq<Message>, m: Message, to: Audience)
    ensures Hear(v, out + [m], to) == if m.ToUsers? == to.Users? then Told(Hear(v, out, to), m) else Hear(v, out, to)
  {
    var all := out + [m];
    assert all[|all| - 1] == m && all[..|all| - 1] == out;
  }

  lemma HearFlush(v: View, t: Trace, to: Audience)
    requires Reaches(t.buf, to)
    ensures Hear(v, FlushOnce(t).out, to) ==
      if Empty(t.buf) then Hear(v, t.out, to) else Told(Hear(v, t.out, to), MessageTo(t.buf, to))
  {
    hide Told, Hear, UsersMessage, ServersMessage, Going, Staying, ReadableBuf, Empty;
    var b, out := t.buf, t.out;
    if Empty(b) {
      assert out + [] == out;
    } else {
      var users, servers := if b.dest.visible then [UsersMessage(b)] else [], if b.dest.server then [ServersMessage(b)] else [];
      Assoc(out, users, servers);
      SideOf(b);
      HearSome(v, out, users, to);
      HearSome(v, out + users, servers, to);
    }
  }

  lemma SideOf(b: Buf)
    ensures UsersMessage(b).ToUsers? && ServersMessage(b).ToServers?
  {
  }

  lemma HearSome(v: View, out: seq<Message>, ms: seq<Message>, to: Audience)
    requires |ms| <= 1
    ensures Hear(v, out + ms, to) ==
      if ms != [] && ms[0].ToUsers? == to.Users? then Told(Hear(v, out, to), ms[0]) else Hear(v, out, to)
  {
    if ms == [] { assert out + ms == out; } else { assert ms == [ms[0]]; HearOne(v, out, ms[0], to); }
  }

  lemma LogGrows(v: View, log: seq<Buf>, b: Buf, to: Audience)
    ensures DirectAll(v, log + [b], to) == Direct(DirectAll(v, log, to), b, to)
    ensures SentIn(log + [b]) == SentIn(log) + Going(b)
  {
    var all := log + [b];
    assert all[|all| - 1] == b && all[..|all| - 1] == log;
  }

  lemma FlushExplained(t: Trace, log: seq<Buf>, v: View, to: Audience) returns (log': seq<Buf>)
    requires Explained(t, log, v, to) && Reaches(t.buf, to)
    ensures Explained(FlushOnce(t), log', v, to) && Reaches(FlushOnce(t).buf, to)
  {
    var b := t.buf;
    FlushReaches(b, to);
    HearFlush(v, t, to);
    log' := if Empty(b) then log else log + [b];
    LogGrows(v, log, b, to);
    if Empty(b) {
      assert t.sent + Going(b) == t.sent;
    } else {
      AgreedStep(Hear(v, t.out, to), DirectAll(v, log, to), AllLimitsTold(log, to), b, to);
      hide Told, Hear, Direct, DirectAll, MessageTo, Going, LimitTold, SentIn, Agreed, Reaches, Messages, Flushed;
      assert AllLimitsTold(log + [b], to) == (AllLimitsTold(log, to) && LimitTold(b, to)) by {
        assert forall c :: c in log + [b] <==> c in log || c == b;
      }
    }
  }

  lemma {:induction false} FlushAllExplained(t: Trace, log: seq<Buf>, v: View, to: Audience) returns (log': seq<Buf>)
    requires AllShort(t.buf) && Explained(t, log, v, to) && Reaches(t.buf, to)
    ensures Explained(FlushAll(t), log', v, to) && Reaches(FlushAll(t).buf, to) && SameKind(FlushAll(t).buf.dest, t.buf.dest)
    decreases Rank(t.buf)
  {
    hide Explained, Reaches;
    var u := FlushOnce(t);
    log' := FlushExplained(t, log, v, to);
    FlushKeeps(t.buf);
    if u.buf.slots != [] {
      ShortFlush(t.buf);
      log' := FlushAllExplained(u, log', v, to);
    }
  }

  ghost predicate SameKind(d: Dest, e: Dest) {
    d.visible == e.visible && d.server == e.server && d.bounce == e.bounce && d.hack2 == e.hack2 && d.nokey == e.nokey
  }

  lemma DoExplained(t: Trace, op: Op, log: seq<Buf>, v: View, to: Audience) returns (log': seq<Buf>)
    requires Roomy(t.buf) && ShortOp(op, t.buf.dest) && ValidOp(op, t.buf.dest)
    requires Explained(t, log, v, to) && Reaches(t.buf, to)
    ensures Explained(Do(t, op), log', v, to) && Reaches(Do(t, op).buf, to) && SameKind(Do(t, op).buf.dest, t.buf.dest)
  {
    hide Agreed, Hear, DirectAll, AllLimitsTold, SentIn;
    match op
    case Modes(plus, modes) => log' := log;
    case Arg(slot) =>
      var u := t.(buf := t.buf.(slots := t.buf.slots + [slot]));
      assert Explained(u, log, v, to) && Reaches(u.buf, to);
      FlushReaches(u.buf, to);
      hide Explained, Reaches, ReadableBuf, Roomy, Flushed;
      if |u.buf.slots| >= Capacity(u.buf.dest) { log' := FlushExplained(u, log, v, to); } else { log' := log; }
    case Flush =>
      RoomyIsShort(t.buf);
      hide Explained, Reaches, Roomy;
      log' := FlushAllExplained(t, log, v, to);
  }

  lemma {:induction false} RunExplained(t: Trace, ops: seq<Op>, log: seq<Buf>, v: View, to: Audience) returns (log': seq<Buf>)
    requires Roomy(t.buf) && ShortOps(ops, t.buf.dest) && forall op | op in ops :: ValidOp(op, t.buf.dest)
    requires Explained(t, log, v, to) && Reaches(t.buf, to)
    ensures Explained(Run(t, ops), log', v, to)
    decreases |ops|
  {
    hide Explained, Reaches, Roomy, Do, ShortOps, ShortOp;
    if ops == [] {
      log' := log;
    } else {
      ShortTail(t, ops);
      assert ops[0] in ops && forall op | op in ops[1..] :: op in ops;
      log' := DoExplained(t, ops[0], log, v, to);
      log' := RunExplained(Do(t, ops[0]), ops[1..], log', v, to);
    }
  }

  function Fresh(d: Dest, source: string): Trace { Trace(Buf({}, {}, [], d, source), [], []) }

  // Over every run from a fresh buffer: what was recorded as sent is what stands on the lines.  An
  // audience that reads them knows what the slots sent say, batch by batch, applied directly; and the
  // limit too if in each batch the limit set last is the last one waiting.
  lemma SentIsHeard(d: Dest, source: string, ops: seq<Op>, v: View, to: Audience) returns (log: seq<Buf>)
    requires ShortOps(ops, d) && (forall op | op in ops :: ValidOp(op, d)) && Reaches(Fresh(d, source).buf, to)
    ensures var t := Run(Fresh(d, source), ops);
      t.sent == SentIn(log) && Agreed(Hear(v, t.out, to), DirectAll(v, log, to), AllLimitsTold(log, to))
  {
    hide ShortOps, Reaches, ReadableBuf;
    log := RunExplained(Fresh(d, source), ops, [], v, to);
  }

  // ---------- What the operations of a run come to ----------

  // What a change says about a fact, if anything.
  function SlotSays(s: Slot, g: Fact, to: Audience, d: Dest): Option<bool> {
    var f := Known(s, to, d.nokey);
    if f == g then Some(s.plus != Back(d, to))
    else if OneOnly(g.0) && f.0 == g.0 then Some(false)
    else None
  }

  function ModesSay(plus: bool, modes: set<char>, g: Fact, to: Audience, d: Dest): Option<bool> {
    if g.0 in modes && g.0 in FLAGS && (g.1 == "" || g.0 == 'l') then Some(plus != Back(d, to)) else None
  }

  function Says(op: Op, g: Fact, to: Audience, d: Dest): Option<bool> {
    match op
    case Modes(plus, modes) => ModesSay(plus, modes, g, to, d)
    case Arg(slot) => SlotSays(slot, g, to, d)
    case Flush => None
  }

  ghost predicate FlagsSay(b: Buf, g: Fact, to: Audience, word: bool) {
    ModesSay(true, b.add, g, to, b.dest) == Some(word) || ModesSay(false, b.rem, g, to, b.dest) == Some(word)
  }

  ghost predicate SlotsSay(slots: seq<Slot>, g: Fact, to: Audience, d: Dest, word: bool) {
    exists s | s in slots :: SlotSays(s, g, to, d) == Some(word)
  }

  // `g` is not the membership of a source about to be deopped.
  ghost predicate Apart(b: Buf, g: Fact, to: Audience) {
    to.Servers? && b.dest.deop ==> g != ('o', b.source)
  }

  lemma {:induction false} KnownFrom(slots: seq<Slot>, to: Audience, nokey: bool)
    ensures forall f | f in KnownAll(slots, to, nokey) :: exists s | s in slots :: Known(s, to, nokey) == f
    ensures forall s | s in slots :: Known(s, to, nokey) in KnownAll(slots, to, nokey)
  {
    hide Known;
    if slots != [] {
      KnownFrom(slots[1..], to, nokey);
      assert slots == [slots[0]] + slots[1..];
      forall f | f in KnownAll(slots, to, nokey) ensures exists s | s in slots :: Known(s, to, nokey) == f {
        if f == Known(slots[0], to, nokey) {
          assert slots[0] in slots;
        } else {
          var s :| s in slots[1..] && Known(s, to, nokey) == f;
          assert s in slots;
        }
      }
    }
  }

  lemma SlotWord(s: Slot, g: Fact, to: Audience, d: Dest)
    ensures var f := Known(s, to, d.nokey);
      SlotSays(s, g, to, d) == if f == g || (OneOnly(g.0) && f.0 == g.0) then Some((s.plus != Back(d, to)) && f == g) else None
  {
    hide Known;
  }

  lemma SideWords(side: seq<Slot>, sense: bool, g: Fact, to: Audience, d: Dest, word: bool)
    requires (forall s | s in side :: (s.plus != Back(d, to)) == sense) && !SlotsSay(side, g, to, d, !word)
    ensures About(KnownAll(side, to, d.nokey), g) <==> SlotsSay(side, g, to, d, word)
    ensures forall f | f in KnownAll(side, to, d.nokey) && (f == g || (OneOnly(g.0) && f.0 == g.0)) :: (sense && f == g) == word
  {
    KnownFrom(side, to, d.nokey);
    var known := KnownAll(side, to, d.nokey);
    forall s | s in side ensures SlotSays(s, g, to, d) != Some(!word) { }
    hide Known, KnownAll, OneOnly, SlotSays, Back;
    forall f | f in known && (f == g || (OneOnly(g.0) && f.0 == g.0))
      ensures (sense && f == g) == word && SlotsSay(side, g, to, d, word)
    {
      var s :| s in side && Known(s, to, d.nokey) == f;
      SlotWord(s, g, to, d);
    }
    if s :| s in side && SlotSays(s, g, to, d) == Some(word) { SlotWord(s, g, to, d); }
  }

  // One sign of a flush: the slots of that sense decide, if they say anything.
  lemma SignDecides(v: View, b: Buf, sense: bool, to: Audience, g: Fact, word: bool)
    requires Apart(b, g, to) && !SlotsSay(Going(b), g, to, b.dest, !word)
    ensures var back := Back(b.dest, to);
      var side := Side(Going(b), sense != back);
      var fs := KnownAll(side, to, b.dest.nokey) + if sense != back then Source(b, to) else [];
      g in PutAll(v, sense, fs) <==> if SlotsSay(side, g, to, b.dest, word) then word else g in v
  {
    var back := Back(b.dest, to);
    var side := Side(Going(b), sense != back);
    var known, tail := KnownAll(side, to, b.dest.nokey), if sense != back then Source(b, to) else [];
    SideFrom(Going(b), sense != back);
    assert !SlotsSay(side, g, to, b.dest, !word);
    SideWords(side, sense, g, to, b.dest, word);
    OneLimit();
    assert !About(tail, g) by { hide OneOnly; }
    hide *;
    PutDecides(v, sense, known, g, word);
    PutAllJoin(v, sense, known, tail);
    PutOthers(PutAll(v, sense, known), sense, tail, g);
  }

  // A flush of changes that agree about `g`: it stands as they say, if they say anything.
  lemma DirectSays(v: View, b: Buf, to: Audience, g: Fact, word: bool)
    requires ReadableBuf(b) && Apart(b, g, to)
    requires !SlotsSay(Going(b), g, to, b.dest, !word) && !FlagsSay(b, g, to, !word)
    ensures g in Direct(v, b, to) <==> if SlotsSay(Going(b), g, to, b.dest, word) || FlagsSay(b, g, to, word) then word else g in v
  {
    var back := Back(b.dest, to);
    var gone := KnownAll(Side(Going(b), back), to, b.dest.nokey) + if back then Source(b, to) else [];
    assert (false != back) == back && (true != back) == !back;
    var v1 := Cleared(v, Lost(b, to));
    var v2 := PutAll(v1, false, gone);
    var v3 := Given(v2, Gained(b, to));
    SignDecides(v1, b, false, to, g, word);
    SignDecides(v3, b, true, to, g, word);
    SidesSay(Going(b), g, to, b.dest, word, back);
    hide Going, Side, KnownAll, SlotSays, PutAll, Source;
    assert SlotsSay(Side(Going(b), back), g, to, b.dest, word) ==> !word;
  }

  // What the slots say is what those of one sign or of the other say; those that take away say no.
  lemma SidesSay(slots: seq<Slot>, g: Fact, to: Audience, d: Dest, word: bool, back: bool)
    requires back == Back(d, to)
    ensures SlotsSay(slots, g, to, d, word) <==>
      SlotsSay(Side(slots, back), g, to, d, word) || SlotsSay(Side(slots, !back), g, to, d, word)
    ensures SlotsSay(Side(slots, back), g, to, d, word) ==> !word
  {
    SideFrom(slots, true);
    SideFrom(slots, false);
    hide Side, Known;
    if s :| s in slots && SlotSays(s, g, to, d) == Some(word) { SideHas(slots, s); }
  }

  lemma {:induction false} SameLast(slots: seq<Slot>, before: nat, n: nat)
    requires HasLimit(slots) && forall s | s in slots && s.arg.Limit? :: s.arg.number == n
    ensures LastLimit(slots, before) == n
    decreases |slots|
  {
    var rest, next := slots[1..], if slots[0].arg.Limit? then slots[0].arg.number else before;
    assert slots == [slots[0]] + rest;
    assert forall s | s in rest :: s in slots;
    if HasLimit(rest) { SameLast(rest, next, n); } else { LastStays(rest, next); }
  }

  // If limits matter to `g`, all that wait have the number `n`.
  ghost predicate OneNumber(slots: seq<Slot>, g: Fact, n: nat) {
    g.0 == 'l' ==> forall s | s in slots && s.arg.Limit? :: s.arg.number == n
  }

  lemma ReaderSays(v: View, b: Buf, to: Audience, g: Fact, n: nat)
    requires ReadableBuf(b) && OneNumber(b.slots, g, n)
    ensures g in Told(v, MessageTo(b, to)) <==> g in Direct(v, b, to)
  {
    var new_ := Side(Going(b), !Back(b.dest, to));
    SideSlots(b, !Back(b.dest, to));
    hide Told, MessageTo, Direct, Going, Side, LastLimit, ReadableBuf;
    if g.0 != 'l' {
      MessageMeans(v, v, b, to, g);
    } else {
      if HasLimit(new_) {
        SameLast(new_, 0, n);
        SameLast(b.slots, 0, n);
      }
      MessageMeansExactly(v, b, to);
    }
  }

  // The state of a run as far as `g` is concerned, all changes that speak of it saying `word`.
  // `said`: some have.
  ghost predicate Follows(t: Trace, said: bool, v: View, g: Fact, to: Audience, word: bool, n: nat) {
    var b := t.buf;
    && Apart(b, g, to) && OneNumber(b.slots, g, n)
    && !SlotsSay(b.slots, g, to, b.dest, !word) && !FlagsSay(b, g, to, !word)
    && Heeded(g in Hear(v, t.out, to), SlotsSay(b.slots, g, to, b.dest, word) || FlagsSay(b, g, to, word), said, g in v, word)
  }

  // What was said is waiting or has been heard; nothing else has changed.
  ghost predicate Heeded(heard: bool, waits: bool, said: bool, was: bool, word: bool) {
    (waits ==> said) && (said ==> waits || heard == word) && (!said ==> heard == was)
  }

  lemma GoingOrStaying(b: Buf)
    ensures forall s :: s in b.slots <==> s in Going(b) || s in Staying(b)
  {
    SentFrom(b.slots, b.dest.nokey, Room(b.dest));
    forall s | s in b.slots ensures s in Going(b) || s in Staying(b) {
      SplitConserves(b.slots, b.dest.nokey, Room(b.dest), s);
      assert s in multiset(b.slots);
    }
  }

  lemma FlushFollows(t: Trace, said: bool, v: View, g: Fact, to: Audience, word: bool, n: nat)
    requires Follows(t, said, v, g, to, word, n) && Reaches(t.buf, to)
    ensures Follows(FlushOnce(t), said, v, g, to, word, n) && Reaches(FlushOnce(t).buf, to)
    ensures SameKind(FlushOnce(t).buf.dest, t.buf.dest)
  {
    var b, u := t.buf, FlushOnce(t);
    FlushReaches(b, to);
    HearFlush(v, t, to);
    if Empty(b) { return; }
    GoingOrStaying(b);
    var heard := Hear(v, t.out, to);
    SlotsOfFlush(b, g, to);
    ReaderSays(heard, b, to, g, n);
    assert !SlotsSay(Going(b), g, to, b.dest, !word);
    DirectSays(heard, b, to, g, word);
    hide Going, Staying, Told, Hear, Direct, MessageTo, Messages, ReadableBuf, SlotSays, SlotsSay, ModesSay;
    FlushedFlags(b, g, to);
  }

  lemma FlushedFlags(b: Buf, g: Fact, to: Audience)
    requires !Empty(b)
    ensures forall w :: !FlagsSay(Flushed(b), g, to, w)
  {
  }

  lemma SlotsOfFlush(b: Buf, g: Fact, to: Audience)
    requires !Empty(b)
    ensures forall w :: SlotsSay(b.slots, g, to, b.dest, w) <==>
      SlotsSay(Going(b), g, to, b.dest, w) || SlotsSay(Flushed(b).slots, g, to, Flushed(b).dest, w)
  {
    GoingOrStaying(b);
    hide Going, Staying, Known;
    assert forall s :: SlotSays(s, g, to, Flushed(b).dest) == SlotSays(s, g, to, b.dest);
  }

  lemma {:induction false} FlushAllFollows(t: Trace, said: bool, v: View, g: Fact, to: Audience, word: bool, n: nat)
    requires AllShort(t.buf) && Follows(t, said, v, g, to, word, n) && Reaches(t.buf, to)
    ensures Follows(FlushAll(t), said, v, g, to, word, n) && Reaches(FlushAll(t).buf, to)
    ensures SameKind(FlushAll(t).buf.dest, t.buf.dest) && Empty(FlushAll(t).buf)
    decreases Rank(t.buf)
  {
    hide Follows, Reaches;
    var u := FlushOnce(t);
    FlushFollows(t, said, v, g, to, word, n);
    FlushKeeps(t.buf);
    if u.buf.slots != [] {
      ShortFlush(t.buf);
      FlushAllFollows(u, said, v, g, to, word, n);
    }
  }

  lemma ModesFollow(t: Trace, plus: bool, modes: set<char>, said: bool, v: View, g: Fact, to: Audience, word: bool, n: nat)
    requires Follows(t, said, v, g, to, word, n) && ModesSay(plus, modes, g, to, t.buf.dest) != Some(!word)
    ensures Follows(t.(buf := SetModes(t.buf, plus, modes)), said || ModesSay(plus, modes, g, to, t.buf.dest) == Some(word), v, g, to, word, n)
  {
    hide SlotsSay, Hear, Back;
  }

  lemma SlotFollows(t: Trace, slot: Slot, said: bool, v: View, g: Fact, to: Audience, word: bool, n: nat)
    requires Follows(t, said, v, g, to, word, n) && SlotSays(slot, g, to, t.buf.dest) != Some(!word)
    requires OneNumber([slot], g, n)
    ensures Follows(t.(buf := t.buf.(slots := t.buf.slots + [slot])),
      said || SlotSays(slot, g, to, t.buf.dest) == Some(word), v, g, to, word, n)
  {
    hide SlotSays, Hear;
    var slots := t.buf.slots + [slot];
    assert slot in [slot] && forall s :: s in slots <==> s in t.buf.slots || s == slot;
  }

  // What an operation has to satisfy for the run to settle `g`.
  ghost predicate Fair(op: Op, g: Fact, to: Audience, d: Dest, word: bool, n: nat) {
    && ValidOp(op, d) && Says(op, g, to, d) != Some(!word)
    && (op.Arg? ==> OneNumber([op.slot], g, n))
  }

  lemma DoFollows(t: Trace, op: Op, said: bool, v: View, g: Fact, to: Audience, word: bool, n: nat)
    requires Roomy(t.buf) && ShortOp(op, t.buf.dest) && Reaches(t.buf, to)
    requires Follows(t, said, v, g, to, word, n) && Fair(op, g, to, t.buf.dest, word, n)
    ensures var u := Do(t, op);
      && Follows(u, said || Says(op, g, to, t.buf.dest) == Some(word), v, g, to, word, n) && Reaches(u.buf, to)
      && SameKind(u.buf.dest, t.buf.dest) && (op.Flush? ==> Empty(u.buf))
  {
    hide Follows, SlotSays, ModesSay, Roomy, OneNumber, FlushOnce, ValidSlot, Empty;
    match op
    case Modes(plus, modes) => ModesFollow(t, plus, modes, said, v, g, to, word, n);
    case Arg(slot) =>
      var u := t.(buf := t.buf.(slots := t.buf.slots + [slot]));
      SlotFollows(t, slot, said, v, g, to, word, n);
      assert Reaches(u.buf, to);
      hide Reaches;
      if |u.buf.slots| >= Capacity(u.buf.dest) { FlushFollows(u, said || SlotSays(slot, g, to, t.buf.dest) == Some(word), v, g, to, word, n); }
    case Flush =>
      RoomyIsShort(t.buf);
      FlushAllFollows(t, said, v, g, to, word, n);
  }

  lemma FairAlike(op: Op, g: Fact, to: Audience, d: Dest, e: Dest, word: bool, n: nat)
    requires SameKind(d, e)
    ensures Fair(op, g, to, d, word, n) == Fair(op, g, to, e, word, n) && Says(op, g, to, d) == Says(op, g, to, e)
  {
    hide Known, OneNumber, ValidSlot;
  }

  lemma {:induction false} RunFollows(t: Trace, ops: seq<Op>, said: bool, v: View, g: Fact, to: Audience, word: bool, n: nat)
    requires Roomy(t.buf) && ShortOps(ops, t.buf.dest) && Reaches(t.buf, to)
    requires Follows(t, said, v, g, to, word, n) && forall op | op in ops :: Fair(op, g, to, t.buf.dest, word, n)
    ensures Follows(Run(t, ops), said || exists op | op in ops :: Says(op, g, to, t.buf.dest) == Some(word), v, g, to, word, n)
    ensures ops != [] && ops[|ops| - 1] == Flush ==> Empty(Run(t, ops).buf)
    decreases |ops|
  {
    hide Follows, Reaches, Roomy, Do, ShortOps, ShortOp, Fair, Says, SameKind, Empty;
    if ops != [] {
      var op, rest, u := ops[0], ops[1..], Do(t, ops[0]);
      ShortTail(t, ops);
      assert ops == [op] + rest && op in ops && forall x | x in rest :: x in ops;
      DoFollows(t, op, said, v, g, to, word, n);
      forall x ensures Fair(x, g, to, t.buf.dest, word, n) == Fair(x, g, to, u.buf.dest, word, n)
        && Says(x, g, to, t.buf.dest) == Says(x, g, to, u.buf.dest) { FairAlike(x, g, to, u.buf.dest, t.buf.dest, word, n); }
      RunFollows(u, rest, said || Says(op, g, to, t.buf.dest) == Some(word), v, g, to, word, n);
    }
  }

  // Over every run that ends with a flush, whatever lines it was cut into: if all operations that
  // speak of a fact say the same of it, the audience in the end knows it so; and it keeps its mind if
  // none does.  Limits are told right if they all have one number.
  lemma RunTells(d: Dest, source: string, ops: seq<Op>, v: View, g: Fact, to: Audience, word: bool, n: nat)
    requires ShortOps(ops, d) && ops != [] && ops[|ops| - 1] == Flush
    requires Reaches(Fresh(d, source).buf, to) && Apart(Fresh(d, source).buf, g, to)
    requires forall op | op in ops :: Fair(op, g, to, d, word, n)
    ensures g in Hear(v, Run(Fresh(d, source), ops).out, to) <==>
      if exists op | op in ops :: Says(op, g, to, d) == Some(word) then word else g in v
  {
    hide ShortOps, Reaches, Fair, Says, Known;
    var t := Fresh(d, source);
    assert Hear(v, t.out, to) == v;
    RunFollows(t, ops, false, v, g, to, word, n);
    hide Run, Hear, Apart, OneNumber, SlotSays;
  }
}
