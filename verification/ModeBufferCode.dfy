// The modebuf functions of ircd/channel.c on their six slots, proved to do what `ModeBuffer` says.
module ModeBufferCode {
  import opened Common
  import opened ModeBuffer

  // One of the six slots; MODE_SAVE marks an argument that has to wait for another line.
  datatype Entry = Blank | Entry(slot: Slot, save: bool)

  // ---------- Sequences of slots ----------

  // The slots after the first loop of a flush.
  ghost function Tag(slots: seq<Slot>, nokey: bool, room: int): seq<Entry> {
    if slots == [] then []
    else
      [Entry(slots[0], !Fits(slots[0].arg, nokey, room))] +
      Tag(slots[1..], nokey, RoomAfter(slots[0].arg, nokey, room))
  }

  ghost function Live(es: seq<Entry>): seq<Slot> {
    if es == [] then [] else (if es[0].Entry? && !es[0].save then [es[0].slot] else []) + Live(es[1..])
  }

  ghost function Held(es: seq<Entry>): seq<Slot> {
    if es == [] then [] else (if es[0].Entry? && es[0].save then [es[0].slot] else []) + Held(es[1..])
  }

  ghost function SlotsOf(es: seq<Entry>): (r: seq<Slot>)
    requires forall e | e in es :: e.Entry?
    ensures |r| == |es| && forall i :: 0 <= i < |es| ==> r[i] == es[i].slot
  {
    if es == [] then [] else [es[0].slot] + SlotsOf(es[1..])
  }

  ghost function LettersOf(slots: seq<Slot>): string {
    if slots == [] then "" else [Letter(slots[0].arg)] + LettersOf(slots[1..])
  }

  lemma {:induction false} TagSplits(slots: seq<Slot>, nokey: bool, room: int)
    ensures |Tag(slots, nokey, room)| == |slots|
    ensures Live(Tag(slots, nokey, room)) == Sent(slots, nokey, room)
    ensures Held(Tag(slots, nokey, room)) == Saved(slots, nokey, room)
  {
    if slots != [] {
      var room' := RoomAfter(slots[0].arg, nokey, room);
      TagSplits(slots[1..], nokey, room');
      var es := Tag(slots, nokey, room);
      assert es[1..] == Tag(slots[1..], nokey, room');
    }
  }

  lemma {:induction false} ItemLetters(slots: seq<Slot>, nokey: bool, hack2: bool, limit: string)
    ensures Letters(UserItems(slots, nokey, limit)) == LettersOf(slots)
    ensures Letters(ServerItems(slots, hack2, limit)) == LettersOf(slots)
  {
    if slots != [] {
      ItemLetters(slots[1..], nokey, hack2, limit);
      FirstItem(UserItems(slots, nokey, limit));
      FirstItem(ServerItems(slots, hack2, limit));
      assert UserItems(slots, nokey, limit)[1..] == UserItems(slots[1..], nokey, limit);
      assert ServerItems(slots, hack2, limit)[1..] == ServerItems(slots[1..], hack2, limit);
    }
  }

  lemma {:induction false} LettersConcat(a: seq<Item>, b: seq<Item>)
    ensures Letters(a + b) == Letters(a) + Letters(b)
  {
    if a == [] {
      assert a + b == b;
    } else {
      LettersConcat(a[1..], b);
      assert (a + b)[1..] == a[1..] + b;
    }
  }

  lemma {:induction false} PlainLetters(letters: string)
    ensures Letters(Plain(letters)) == letters
  {
    if letters != "" {
      PlainLetters(letters[1..]);
      var items := Plain(letters);
      assert items[1..] == Plain(letters[1..]);
      assert letters == [letters[0]] + letters[1..];
    }
  }

  // The letters the first loop collects, and the parameters the other two do, for one sign.
  ghost function SentLetters(slots: seq<Slot>, nokey: bool, room: int, plus: bool): string {
    LettersOf(Side(Sent(slots, nokey, room), plus))
  }

  ghost function UserText(es: seq<Entry>, plus: bool, nokey: bool, limit: string): seq<string> {
    Params(UserItems(Side(Live(es), plus), nokey, limit))
  }

  ghost function ServerText(es: seq<Entry>, plus: bool, hack2: bool, limit: string): seq<string> {
    Params(ServerItems(Side(Live(es), plus), hack2, limit))
  }

  lemma Drop<T>(s: seq<T>, i: nat)
    requires i < |s|
    ensures s[i..] != [] && s[i..][0] == s[i] && s[i..][1..] == s[i + 1..]
  {
  }

  lemma Uncons<T>(s: seq<T>, i: nat, x: T, rest: seq<T>)
    requires i < |s| && s[i..] == [x] + rest
    ensures s[i] == x && s[i + 1..] == rest
  {
    Drop(s, i);
    assert ([x] + rest)[1..] == rest;
  }

  // One more piece moved from what is to come to what is done.
  lemma Moved<T>(done: seq<T>, piece: seq<T>, rest: seq<T>, all: seq<T>)
    requires done + (piece + rest) == all
    ensures (done + piece) + rest == all
    ensures piece == [] ==> done + rest == all
  {
    if piece == [] { assert piece + rest == rest; }
  }

  lemma SentStep(slots: seq<Slot>, i: nat, nokey: bool, room: int, plus: bool)
    requires i < |slots|
    ensures var s, rest, room' := slots[i], slots[i + 1..], RoomAfter(slots[i].arg, nokey, room);
      && Tag(slots[i..], nokey, room) == [Entry(s, !Fits(s.arg, nokey, room))] + Tag(rest, nokey, room')
      && SentLetters(slots[i..], nokey, room, plus) ==
           (if s.plus == plus && Fits(s.arg, nokey, room) then [Letter(s.arg)] else []) +
           SentLetters(rest, nokey, room', plus)
  {
    Drop(slots, i);
    var s := slots[i];
    var rest := Sent(slots[i + 1..], nokey, RoomAfter(s.arg, nokey, room));
    assert [] + rest == rest;
    assert ([s] + rest)[1..] == rest;
    var side := Side(rest, plus);
    assert [] + side == side;
    assert ([s] + side)[1..] == side;
    assert [] + LettersOf(side) == LettersOf(side);
  }

  lemma LiveStep(es: seq<Entry>, i: nat, plus: bool)
    requires i < |es|
    ensures
      var e, rest := es[i], Side(Live(es[i + 1..]), plus);
      Side(Live(es[i..]), plus) == (if e.Entry? && !e.save && e.slot.plus == plus then [e.slot] else []) + rest
  {
    Drop(es, i);
    var live := Live(es[i + 1..]);
    assert [] + live == live;
    if es[i].Entry? && !es[i].save {
      assert ([es[i].slot] + live)[1..] == live;
    }
    assert [] + Side(live, plus) == Side(live, plus);
  }

  lemma NoUserText(nokey: bool, limit: string)
    ensures UserText([], true, nokey, limit) == [] && UserText([], false, nokey, limit) == []
  {
  }

  lemma UserTextStep(es: seq<Entry>, i: nat, plus: bool, nokey: bool, limit: string)
    requires i < |es|
    ensures
      var e := es[i];
      UserText(es[i..], plus, nokey, limit) ==
        (if e.Entry? && !e.save && e.slot.plus == plus then UserItem(e.slot, nokey, limit).params else []) +
        UserText(es[i + 1..], plus, nokey, limit)
  {
    LiveStep(es, i, plus);
    var rest := Side(Live(es[i + 1..]), plus);
    hide Side, Live;
    if es[i].Entry? && !es[i].save && es[i].slot.plus == plus {
      var s := [es[i].slot] + rest;
      assert s[1..] == rest;
      assert UserItems(s, nokey, limit)[1..] == UserItems(rest, nokey, limit);
    } else {
      assert [] + rest == rest;
      assert [] + UserText(es[i + 1..], plus, nokey, limit) == UserText(es[i + 1..], plus, nokey, limit);
    }
  }

  lemma NoServerText(hack2: bool, limit: string)
    ensures ServerText([], true, hack2, limit) == [] && ServerText([], false, hack2, limit) == []
  {
  }

  lemma ServerTextStep(es: seq<Entry>, i: nat, plus: bool, hack2: bool, limit: string)
    requires i < |es|
    ensures
      var e := es[i];
      ServerText(es[i..], plus, hack2, limit) ==
        (if e.Entry? && !e.save && e.slot.plus == plus then ServerItem(e.slot, hack2, limit).params else []) +
        ServerText(es[i + 1..], plus, hack2, limit)
  {
    LiveStep(es, i, plus);
    var rest := Side(Live(es[i + 1..]), plus);
    hide Side, Live;
    if es[i].Entry? && !es[i].save && es[i].slot.plus == plus {
      var s := [es[i].slot] + rest;
      assert s[1..] == rest;
      assert ServerItems(s, hack2, limit)[1..] == ServerItems(rest, hack2, limit);
    } else {
      assert [] + rest == rest;
      assert [] + ServerText(es[i + 1..], plus, hack2, limit) == ServerText(es[i + 1..], plus, hack2, limit);
    }
  }

  // What the first loop has when it has been through `slots`, having started with the given strings.
  datatype Collection = Collection(tags: seq<Entry>, add: string, rem: string, limit: string)

  ghost function Collected(slots: seq<Slot>, nokey: bool, room: int, add: string, rem: string, limit: string): Collection {
    Collection(Tag(slots, nokey, room), add + SentLetters(slots, nokey, room, true), rem + SentLetters(slots, nokey, room, false),
               LimitText(slots, limit))
  }

  lemma CollectedAll(slots: seq<Slot>, nokey: bool, room: int, add: string, rem: string)
    ensures Collected(slots, nokey, room, add, rem, "") ==
            Collection(Tag(slots, nokey, room), add + SentLetters(slots, nokey, room, true),
                       rem + SentLetters(slots, nokey, room, false), LimitText(slots, ""))
    ensures |Tag(slots, nokey, room)| == |slots|
  {
    TagEntries(slots, nokey, room);
  }

  lemma CollectedNone(nokey: bool)
    ensures forall r, a, b, l :: Collected([], nokey, r, a, b, l) == Collection([], a, b, l)
  {
    forall r, a, b, l ensures Collected([], nokey, r, a, b, l) == Collection([], a, b, l) {
      assert a + "" == a && b + "" == b;
    }
  }

  lemma CollectStep(slots: seq<Slot>, i: nat, nokey: bool, room: int, add: string, rem: string, limit: string, tags: seq<Entry>)
    requires i < |slots| == |tags| && Collected(slots[i..], nokey, room, add, rem, limit).tags == tags[i..]
    ensures
      var s := slots[i];
      var fit := Fits(s.arg, nokey, room);
      && tags[i] == Entry(s, !fit)
      && Collected(slots[i + 1..], nokey, RoomAfter(s.arg, nokey, room), if fit && s.plus then add + [Letter(s.arg)] else add,
                   if fit && !s.plus then rem + [Letter(s.arg)] else rem, if s.arg.Limit? then Digits(s.arg.number) else limit) ==
         Collected(slots[i..], nokey, room, add, rem, limit).(tags := tags[i + 1..])
  {
    var s := slots[i];
    var fit, room' := Fits(s.arg, nokey, room), RoomAfter(s.arg, nokey, room);
    var here := if fit then [Letter(s.arg)] else [];
    SentStep(slots, i, nokey, room, true);
    SentStep(slots, i, nokey, room, false);
    LimitStep(slots, i, limit);
    hide Tag, SentLetters, LimitText, Fits, RoomAfter, Letter, Digits;
    Uncons(tags, i, Entry(s, !fit), Tag(slots[i + 1..], nokey, room'));
    var adds, rems := SentLetters(slots[i + 1..], nokey, room', true), SentLetters(slots[i + 1..], nokey, room', false);
    Assoc(add, here, adds);
    Assoc(rem, here, rems);
    assert [] + adds == adds && [] + rems == rems && add + [] == add && rem + [] == rem;
  }

  lemma LimitStep(slots: seq<Slot>, i: nat, before: string)
    requires i < |slots|
    ensures LimitText(slots[i..], before) ==
            LimitText(slots[i + 1..], if slots[i].arg.Limit? then Digits(slots[i].arg.number) else before)
  {
    Drop(slots, i);
  }

  // The lines the loops put together are the messages of `ModeBuffer`.
  lemma UsersLine(b: Buf, plus: bool)
    ensures Letters(ToUsersItems(b, plus)) ==
            Chosen(FLAGS, if plus then b.add else b.rem - b.add) + SentLetters(b.slots, b.dest.nokey, Room(b.dest), plus)
    ensures Params(ToUsersItems(b, plus)) ==
            UserText(Tag(b.slots, b.dest.nokey, Room(b.dest)), plus, b.dest.nokey, LimitText(b.slots, ""))
  {
    var modes, limit := if plus then b.add else b.rem - b.add, LimitText(b.slots, "");
    var side := Side(Going(b), plus);
    TagSplits(b.slots, b.dest.nokey, Room(b.dest));
    ItemLetters(side, b.dest.nokey, b.dest.hack2, limit);
    PlainLetters(Chosen(FLAGS, modes));
    PlainParams(Chosen(FLAGS, modes));
    hide Tag, Sent, Side, LimitText, Chosen, Plain, UserItems, Letters, Params;
    LettersConcat(SimpleItems(b, plus), UserItems(side, b.dest.nokey, limit));
    ParamsConcat(SimpleItems(b, plus), UserItems(side, b.dest.nokey, limit));
    assert [] + Params(UserItems(side, b.dest.nokey, limit)) == Params(UserItems(side, b.dest.nokey, limit));
  }

  lemma ServersLine(b: Buf, plus: bool)
    ensures Letters(ToServersItems(b, plus)) ==
            Chosen(FLAGS, if plus then b.add else b.rem - b.add) + SentLetters(b.slots, b.dest.nokey, Room(b.dest), plus) +
            (if plus && b.dest.deop then "o" else "")
    ensures Params(ToServersItems(b, plus)) ==
            ServerText(Tag(b.slots, b.dest.nokey, Room(b.dest)), plus, b.dest.hack2, LimitText(b.slots, "")) +
            (if plus && b.dest.deop then [b.source] else [])
  {
    var modes, limit := if plus then b.add else b.rem - b.add, LimitText(b.slots, "");
    var side := Side(Going(b), plus);
    var items := ServerItems(side, b.dest.hack2, limit);
    var deop := if plus && b.dest.deop then [Item('o', [b.source])] else [];
    TagSplits(b.slots, b.dest.nokey, Room(b.dest));
    ItemLetters(side, b.dest.nokey, b.dest.hack2, limit);
    PlainLetters(Chosen(FLAGS, modes));
    PlainParams(Chosen(FLAGS, modes));
    assert plus && b.dest.deop ==> deop[1..] == [];
    assert Letters(deop) == if plus && b.dest.deop then "o" else "";
    assert Params(deop) == if plus && b.dest.deop then [b.source] else [];
    hide Tag, Sent, Side, LimitText, Chosen, Plain, ServerItems, Letters, Params;
    LettersConcat(SimpleItems(b, plus), items);
    LettersConcat(SimpleItems(b, plus) + items, deop);
    ParamsConcat(SimpleItems(b, plus), items);
    ParamsConcat(SimpleItems(b, plus) + items, deop);
    assert [] + Params(items) == Params(items);
  }

  // ---------- The code ----------

  class ModeBuf {
    var add: set<char>
    var rem: set<char>
    const modeargs: array<Entry>
    var count: nat
    var dest: Dest
    const source: string
    var out: seq<Message>
    ghost var sent: seq<Slot>

    ghost predicate Valid()
      reads this, modeargs
    {
      && modeargs.Length == MAXMODEPARAMS && count <= MAXMODEPARAMS
      && (forall i :: 0 <= i < count ==> modeargs[i].Entry? && !modeargs[i].save)
      && (forall i :: count <= i < MAXMODEPARAMS ==> modeargs[i].Blank?)
    }

    ghost function Slots(): seq<Slot>
      requires Valid()
      reads this, modeargs
    {
      SlotsOf(modeargs[..count])
    }

    ghost function State(): Trace
      requires Valid()
      reads this, modeargs
    {
      Trace(Buf(add, rem, Slots(), dest, source), sent, out)
    }

    constructor (dest: Dest, source: string)
      ensures Valid() && fresh(modeargs)
      ensures State() == Trace(Buf({}, {}, [], dest, source), [], [])
    {
      add, rem, count := {}, {}, 0;
      this.dest, this.source := dest, source;
      out, sent := [], [];
      modeargs := new Entry[MAXMODEPARAMS](_ => Blank);
    }

    // The modes without argument, for both signs, in the order of the table.
    static method Simple(table: string, add: set<char>, rem: set<char>) returns (addbuf: string, rembuf: string)
      ensures addbuf == Chosen(table, add) && rembuf == Chosen(table, rem - add)
    {
      addbuf, rembuf := "", "";
      assert table[0..] == table;
      for i := 0 to |table|
        invariant addbuf + Chosen(table[i..], add) == Chosen(table, add)
        invariant rembuf + Chosen(table[i..], rem - add) == Chosen(table, rem - add)
      {
        var was, wasRem := addbuf, rembuf;
        ChosenStep(table, i, add);
        ChosenStep(table, i, rem - add);
        if table[i] in add {
          addbuf := addbuf + [table[i]];
        } else if table[i] in rem {
          rembuf := rembuf + [table[i]];
        }
        Assoc(was, if table[i] in add then [table[i]] else [], Chosen(table[i + 1..], add));
        Assoc(wasRem, if table[i] in rem - add then [table[i]] else [], Chosen(table[i + 1..], rem - add));
      }
      assert table[|table|..] == "";
    }

    // Charges one argument against the room of the line, and marks it to be saved if it does not fit.
    method ChargeSlot(i: nat, room: int) returns (fit: bool, left: int)
      requires i < modeargs.Length && modeargs[i].Entry? && !modeargs[i].save
      modifies modeargs
      ensures fit == Fits(old(modeargs[i].slot.arg), dest.nokey, room)
      ensures left == RoomAfter(old(modeargs[i].slot.arg), dest.nokey, room)
      ensures modeargs[i] == Entry(old(modeargs[i].slot), !fit)
      ensures forall j :: 0 <= j < modeargs.Length && j != i ==> modeargs[j] == old(modeargs[j])
    {
      var s := modeargs[i].slot;
      var cost := Cost(s.arg, dest.nokey);
      if room - cost <= 0 {
        modeargs[i] := Entry(s, true);
        return false, room;
      }
      return true, room - (cost + 1);
    }

    // The first loop of a flush: charges every argument against the room of the line, collects its
    // letter if it fits and saves it if it does not.
    method Measure(addbuf0: string, rembuf0: string) returns (addbuf: string, rembuf: string, limitbuf: string)
      requires Valid()
      modifies modeargs
      ensures modeargs[..count] == Tag(old(Slots()), dest.nokey, Room(dest))
      ensures forall i :: count <= i < MAXMODEPARAMS ==> modeargs[i].Blank?
      ensures addbuf == addbuf0 + SentLetters(old(Slots()), dest.nokey, Room(dest), true)
      ensures rembuf == rembuf0 + SentLetters(old(Slots()), dest.nokey, Room(dest), false)
      ensures limitbuf == LimitText(old(Slots()), "")
    {
      hide Collected, Tag, SentLetters, LimitText, Cost, Digits, Letter, RoomAfter, SlotsOf;
      addbuf, rembuf, limitbuf := addbuf0, rembuf0, "";
      var room := Room(dest);
      ghost var slots, nokey := Slots(), dest.nokey;
      ghost var goal := Collected(slots, nokey, room, addbuf, rembuf, "");
      CollectedAll(slots, nokey, room, addbuf, rembuf);
      CollectedNone(nokey);
      assert slots[0..] == slots && slots[count..] == [] && goal.tags[0..] == goal.tags;
      for i := 0 to count
        invariant forall j :: i <= j < count ==> modeargs[j] == Entry(slots[j], false)
        invariant forall j :: count <= j < MAXMODEPARAMS ==> modeargs[j].Blank?
        invariant forall j :: 0 <= j < i ==> modeargs[j] == goal.tags[j]
        invariant Collected(slots[i..], nokey, room, addbuf, rembuf, limitbuf) == goal.(tags := goal.tags[i..])
      {
        var s := modeargs[i].slot;
        CollectStep(slots, i, nokey, room, addbuf, rembuf, limitbuf, goal.tags);
        if s.arg.Limit? { limitbuf := Digits(s.arg.number); }
        var fit;
        fit, room := ChargeSlot(i, room);
        if fit {
          if s.plus { addbuf := addbuf + [Letter(s.arg)]; } else { rembuf := rembuf + [Letter(s.arg)]; }
        }
      }
    }

    // The second loop: the parameters as users see them.
    method UserParams(limitbuf: string) returns (addstr: seq<string>, remstr: seq<string>)
      requires modeargs.Length == MAXMODEPARAMS && count <= MAXMODEPARAMS
      requires forall i :: 0 <= i < count ==> modeargs[i].Entry?
      ensures addstr == UserText(modeargs[..count], true, dest.nokey, limitbuf)
      ensures remstr == UserText(modeargs[..count], false, dest.nokey, limitbuf)
    {
      hide *;
      addstr, remstr := [], [];
      ghost var es := modeargs[..count];
      ghost var adds, rems := UserText(es, true, dest.nokey, limitbuf), UserText(es, false, dest.nokey, limitbuf);
      assert es[0..] == es && es[count..] == [];
      NoUserText(dest.nokey, limitbuf);
      for i := 0 to count
        invariant addstr + UserText(es[i..], true, dest.nokey, limitbuf) == adds
        invariant remstr + UserText(es[i..], false, dest.nokey, limitbuf) == rems
      {
        var e := modeargs[i];
        assert e == es[i];
        UserTextStep(es, i, true, dest.nokey, limitbuf);
        UserTextStep(es, i, false, dest.nokey, limitbuf);
        var ps := UserItem(e.slot, dest.nokey, limitbuf).params;
        Moved(addstr, if !e.save && e.slot.plus then ps else [], UserText(es[i + 1..], true, dest.nokey, limitbuf), adds);
        Moved(remstr, if !e.save && !e.slot.plus then ps else [], UserText(es[i + 1..], false, dest.nokey, limitbuf), rems);
        if !e.save {
          if e.slot.plus { addstr := addstr + ps; } else { remstr := remstr + ps; }
        }
      }
    }

    // The third loop: the parameters as servers see them.
    method ServerParams(limitbuf: string) returns (addstr: seq<string>, remstr: seq<string>)
      requires modeargs.Length == MAXMODEPARAMS && count <= MAXMODEPARAMS
      requires forall i :: 0 <= i < count ==> modeargs[i].Entry?
      ensures addstr == ServerText(modeargs[..count], true, dest.hack2, limitbuf)
      ensures remstr == ServerText(modeargs[..count], false, dest.hack2, limitbuf)
    {
      hide *;
      addstr, remstr := [], [];
      ghost var es := modeargs[..count];
      ghost var adds, rems := ServerText(es, true, dest.hack2, limitbuf), ServerText(es, false, dest.hack2, limitbuf);
      assert es[0..] == es && es[count..] == [];
      NoServerText(dest.hack2, limitbuf);
      for i := 0 to count
        invariant addstr + ServerText(es[i..], true, dest.hack2, limitbuf) == adds
        invariant remstr + ServerText(es[i..], false, dest.hack2, limitbuf) == rems
      {
        var e := modeargs[i];
        assert e == es[i];
        ServerTextStep(es, i, true, dest.hack2, limitbuf);
        ServerTextStep(es, i, false, dest.hack2, limitbuf);
        var ps := ServerItem(e.slot, dest.hack2, limitbuf).params;
        Moved(addstr, if !e.save && e.slot.plus then ps else [], ServerText(es[i + 1..], true, dest.hack2, limitbuf), adds);
        Moved(remstr, if !e.save && !e.slot.plus then ps else [], ServerText(es[i + 1..], false, dest.hack2, limitbuf), rems);
        if !e.save {
          if e.slot.plus { addstr := addstr + ps; } else { remstr := remstr + ps; }
        }
      }
    }

    // A saved argument moves to the first free slot; its own slot is cleared unless it is that one.
    method PackSlot(i: nat)
      requires count <= i < modeargs.Length
      modifies modeargs, `count
      ensures var e := old(modeargs[i]);
        if e.Entry? && e.save then
          && count == old(count) + 1 && modeargs[old(count)] == Entry(e.slot, false)
          && (old(count) != i ==> modeargs[i] == Blank)
        else count == old(count) && modeargs[i] == Blank
      ensures forall j :: 0 <= j < modeargs.Length && j != i && j != old(count) ==> modeargs[j] == old(modeargs[j])
      ensures !(old(modeargs[i]).Entry? && old(modeargs[i]).save) && old(count) != i ==>
              modeargs[old(count)] == old(modeargs[count])
    {
      var e := modeargs[i];
      if e.Entry? && e.save {
        modeargs[count] := Entry(e.slot, false);
        count := count + 1;
        if count - 1 == i { return; }
      }
      modeargs[i] := Blank;
    }

    // Packs the saved arguments down and clears the other slots.
    method Pack()
      requires modeargs.Length == MAXMODEPARAMS && count <= MAXMODEPARAMS
      requires forall i :: 0 <= i < count ==> modeargs[i].Entry?
      requires forall i :: count <= i < MAXMODEPARAMS ==> modeargs[i].Blank?
      modifies modeargs, `count
      ensures Valid() && Slots() == Held(old(modeargs[..count]))
    {
      hide Held, SlotsOf;
      ghost var es, packed := modeargs[..], [];
      HeldBlanks(es, count);
      assert es[..count] == modeargs[..count];
      count := 0;
      assert es[0..] == es && es[MAXMODEPARAMS..] == [];
      for i := 0 to MAXMODEPARAMS
        invariant |packed| == count <= i
        invariant forall j :: 0 <= j < count ==> modeargs[j] == Entry(packed[j], false)
        invariant forall j :: count <= j < i ==> modeargs[j].Blank?
        invariant forall j :: i <= j < MAXMODEPARAMS ==> modeargs[j] == es[j]
        invariant packed + Held(es[i..]) == Held(es)
      {
        var e := modeargs[i];
        HeldStep(es, i);
        Moved(packed, if e.Entry? && e.save then [e.slot] else [], Held(es[i + 1..]), Held(es));
        PackSlot(i);
        if e.Entry? && e.save { packed := packed + [e.slot]; }
      }
      assert Slots() == packed;
    }

    // The slots of `b` have been measured and their letters collected.
    ghost predicate Measured(b: Buf, addbuf: string, rembuf: string, limitbuf: string)
      reads this, modeargs
    {
      && modeargs.Length == MAXMODEPARAMS && count <= MAXMODEPARAMS
      && modeargs[..count] == Tag(b.slots, b.dest.nokey, Room(b.dest)) && count == |b.slots|
      && (forall i :: 0 <= i < count ==> modeargs[i].Entry?)
      && addbuf == Chosen(FLAGS, b.add) + SentLetters(b.slots, b.dest.nokey, Room(b.dest), true)
      && rembuf == Chosen(FLAGS, b.rem - b.add) + SentLetters(b.slots, b.dest.nokey, Room(b.dest), false)
      && limitbuf == LimitText(b.slots, "") && dest == b.dest && source == b.source
    }

    method SendUsers(addbuf: string, rembuf: string, limitbuf: string, ghost b: Buf)
      requires Measured(b, addbuf, rembuf, limitbuf)
      modifies `out
      ensures out == old(out) + [UsersMessage(b)]
    {
      UsersLine(b, false);
      UsersLine(b, true);
      hide Tag, SentLetters, UserText, LimitText, Chosen, ToUsersItems, Letters, Params;
      var addstr, remstr := UserParams(limitbuf);
      out := out + [ToUsers(rembuf, addbuf, remstr + addstr)];
    }

    method SendServers(addbuf: string, rembuf: string, limitbuf: string, ghost b: Buf)
      requires Measured(b, addbuf, rembuf, limitbuf)
      modifies `out, `dest
      ensures out == old(out) + [ServersMessage(b)] && dest == b.dest.(deop := false)
    {
      ServersLine(b, false);
      ServersLine(b, true);
      hide Tag, SentLetters, ServerText, LimitText, Chosen, ToServersItems, Letters, Params;
      var adds := addbuf;
      var addstr, remstr := ServerParams(limitbuf);
      assert adds + "" == adds && addstr + [] == addstr && rembuf + "" == rembuf && remstr + [] == remstr;
      if dest.deop {
        adds := adds + "o";
        addstr := addstr + [source];
        dest := dest.(deop := false);
      }
      if dest.bounce {
        out := out + [ToServers(adds, rembuf, addstr + remstr)];
      } else {
        out := out + [ToServers(rembuf, adds, remstr + addstr)];
      }
    }

    // Puts the lines together and sends them; what did not fit is left marked.
    method SendLines(ghost b: Buf)
      requires Valid() && b == State().buf
      modifies modeargs, `out, `dest, `sent
      ensures modeargs[..count] == Tag(b.slots, b.dest.nokey, Room(b.dest))
      ensures forall i :: 0 <= i < count ==> modeargs[i].Entry?
      ensures forall i :: count <= i < MAXMODEPARAMS ==> modeargs[i].Blank?
      ensures out == old(out) + (if b.dest.visible then [UsersMessage(b)] else []) +
                     (if b.dest.server then [ServersMessage(b)] else [])
      ensures dest == b.dest.(deop := b.dest.deop && !b.dest.server) && sent == old(sent) + Going(b)
    {
      TagSplits(b.slots, b.dest.nokey, Room(b.dest));
      hide Tag, SentLetters, LimitText, Chosen, Live, Held, Sent, Saved, UsersMessage, ServersMessage;
      var addbuf, rembuf := Simple(FLAGS, add, rem);
      var limitbuf;
      addbuf, rembuf, limitbuf := Measure(addbuf, rembuf);
      TagEntries(b.slots, b.dest.nokey, Room(b.dest));
      assert forall i :: 0 <= i < count ==> modeargs[i] == modeargs[..count][i];
      if dest.visible { SendUsers(addbuf, rembuf, limitbuf, b); }
      if dest.server { SendServers(addbuf, rembuf, limitbuf, b); }
      sent := sent + Live(modeargs[..count]);
    }

    // One round of lines.
    method FlushRound()
      requires Valid()
      modifies this, modeargs
      ensures Valid() && State() == FlushOnce(old(State()))
    {
      hide Tag, Held, Sent, Saved, UsersMessage, ServersMessage, FlushAll, SlotsOf, AllShort;
      ghost var t := State();
      ghost var b := t.buf;
      FlushOfNothing(t);
      TagSplits(b.slots, b.dest.nokey, Room(b.dest));
      if add == {} && rem == {} && count == 0 { return; }
      SendLines(b);
      add, rem := {}, {};
      Pack();
      Assoc(t.out, if b.dest.visible then [UsersMessage(b)] else [], if b.dest.server then [ServersMessage(b)] else []);
    }

    // `all` repeats until no argument waits.
    method FlushInt(all: bool)
      requires Valid() && (all ==> AllShort(State().buf))
      modifies this, modeargs
      ensures Valid()
      ensures State() == if all then FlushAll(old(State())) else FlushOnce(old(State()))
      decreases all, Rank(State().buf)
    {
      ghost var t := State();
      FlushRound();
      hide FlushOnce, AllShort, Rank;
      if all && count > 0 {
        RoundShort(t);
        FlushInt(true);
      }
    }

    // modebuf_mode: modes without argument; the last word on a mode counts.
    method Mode(plus: bool, modes: set<char>)
      requires Valid()
      modifies `add, `rem
      ensures Valid() && State() == old(State()).(buf := SetModes(old(State().buf), plus, modes))
    {
      if modes == {} { return; }
      if plus {
        rem := rem - modes;
        add := add + modes;
      } else {
        add := add - modes;
        rem := rem + modes;
      }
    }

    // A mode with an argument: the slot is filled, and the buffer flushed once it is full.
    method Put(s: Slot)
      requires Valid() && count < MAXMODEPARAMS
      modifies this, modeargs
      ensures Valid() && State() == Queue(old(State()), s)
    {
      ghost var t := State();
      modeargs[count] := Entry(s, false);
      count := count + 1;
      assert Slots() == t.buf.slots + [s];
      hide FlushOnce;
      if count >= MAXMODEPARAMS - (if dest.deop then 1 else 0) {
        FlushInt(false);
      }
    }

    // modebuf_mode_uint: a limit taken away needs no argument.
    method ModeUint(plus: bool, number: nat)
      requires Valid() && count < MAXMODEPARAMS
      modifies this, modeargs
      ensures Valid()
      ensures State() == if plus then Queue(old(State()), Slot(true, Limit(number)))
                         else old(State()).(buf := old(State().buf).(rem := old(rem) + {'l'}))
    {
      if !plus {
        rem := rem + {'l'};
        return;
      }
      Put(Slot(true, Limit(number)));
    }

    // modebuf_flush.
    method FlushBuf()
      requires Valid() && AllShort(State().buf)
      modifies this, modeargs
      ensures Valid() && State() == FlushAll(old(State())) && count == 0
    {
      FlushAllRoomy(State());
      FlushInt(true);
    }
  }

  lemma RoundShort(t: Trace)
    requires AllShort(t.buf) && FlushOnce(t).buf.slots != []
    ensures AllShort(FlushOnce(t).buf) && Rank(FlushOnce(t).buf) < Rank(t.buf)
  {
    FlushKeeps(t.buf);
    ShortFlush(t.buf);
  }

  lemma {:induction false} TagEntries(slots: seq<Slot>, nokey: bool, room: int)
    ensures |Tag(slots, nokey, room)| == |slots|
    ensures forall i :: 0 <= i < |slots| ==> Tag(slots, nokey, room)[i].Entry?
  {
    if slots != [] { TagEntries(slots[1..], nokey, RoomAfter(slots[0].arg, nokey, room)); }
  }

  lemma FlushOfNothing(t: Trace)
    ensures Empty(t.buf) ==> FlushOnce(t) == t && AllShort(t.buf) && FlushAll(t) == t
  {
    if !Empty(t.buf) { return; }
    assert Going(t.buf) == [];
    assert t.sent + [] == t.sent && t.out + [] == t.out;
  }

  lemma HeldStep(es: seq<Entry>, i: nat)
    requires i < |es|
    ensures Held(es[i..]) == (if es[i].Entry? && es[i].save then [es[i].slot] else []) + Held(es[i + 1..])
  {
    Drop(es, i);
  }

  lemma {:induction false} HeldBlanks(es: seq<Entry>, n: nat)
    requires n <= |es| && forall i :: n <= i < |es| ==> es[i].Blank?
    ensures Held(es) == Held(es[..n]) && Held([]) == []
  {
    if es != [] {
      if n == 0 {
        HeldBlanks(es[1..], 0);
        assert es[1..][..0] == [] && es[..0] == [];
      } else {
        HeldBlanks(es[1..], n - 1);
        assert es[..n][1..] == es[1..][..n - 1];
      }
    }
  }

  lemma ChosenStep(table: string, i: nat, modes: set<char>)
    requires i < |table|
    ensures Chosen(table[i..], modes) == (if table[i] in modes then [table[i]] else []) + Chosen(table[i + 1..], modes)
  {
    assert table[i..][0] == table[i] && table[i..][1..] == table[i + 1..];
  }
}
