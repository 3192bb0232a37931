// The buffer that gathers mode changes into MODE messages (ircd/channel.c, the modebuf functions).
// Changes with an argument wait in six slots; a flush sends as many as fit on one line and packs the
// rest down for the next.
module ModeBuffer {
  import opened Common

  const MAXMODEPARAMS := 6

  // BUFSIZE - 200, what a line has for its parameters.
  const LINE_ROOM := 312

  // A numeric nick and the space before it.
  const DEOP_ROOM := 6

  // The argument of a change: a member, by name for users and by numeric for servers; a text; or a
  // limit.
  datatype Arg =
    | Member(letter: char, nick: string, numeric: string)
    | Text(letter: char, text: string)
    | Limit(number: nat)

  datatype Slot = Slot(plus: bool, arg: Arg)

  // Where a buffer is flushed to.  `visible` stands for the channel, the notices and the log, which
  // get the same text.
  datatype Dest = Dest(visible: bool, server: bool, bounce: bool, hack2: bool, nokey: bool, deop: bool)

  // A MODE message: letters after '-', letters after '+', parameters in order.
  datatype Message = ToUsers(minus: string, plus: string, params: seq<string>)
                   | ToServers(minus: string, plus: string, params: seq<string>)

  ghost predicate ValidSlot(s: Slot) {
    match s.arg
    case Member(letter, _, numeric) => letter in "ohv" && |numeric| == 5
    case Text(letter, _) => letter in "bekL"
    case Limit(_) => true
  }

  function Letter(a: Arg): char {
    match a
    case Member(letter, _, _) => letter
    case Text(letter, _) => letter
    case Limit(_) => 'l'
  }

  function Digits(n: nat): string {
    (if n < 10 then "" else Digits(n / 10)) + [('0' as int + n % 10) as char]
  }

  // ---------- Which slots fit ----------

  // What a slot is charged for its argument.
  function Cost(a: Arg, nokey: bool): nat {
    match a
    case Member(_, nick, _) => if |nick| > 5 then |nick| else 5
    case Text(letter, text) => if letter == 'k' && nokey then 1 else |text|
    case Limit(n) => |Digits(n)|
  }

  function Room(d: Dest): int {
    LINE_ROOM - if d.deop then DEOP_ROOM else 0
  }

  predicate Fits(a: Arg, nokey: bool, room: int) {
    room - Cost(a, nokey) > 0
  }

  function RoomAfter(a: Arg, nokey: bool, room: int): int {
    if Fits(a, nokey, room) then room - Cost(a, nokey) - 1 else room
  }

  // The slots that go on the line, and those saved for later.
  function Sent(slots: seq<Slot>, nokey: bool, room: int): seq<Slot> {
    if slots == [] then []
    else
      (if Fits(slots[0].arg, nokey, room) then [slots[0]] else []) +
      Sent(slots[1..], nokey, RoomAfter(slots[0].arg, nokey, room))
  }

  function Saved(slots: seq<Slot>, nokey: bool, room: int): seq<Slot> {
    if slots == [] then []
    else
      (if Fits(slots[0].arg, nokey, room) then [] else [slots[0]]) +
      Saved(slots[1..], nokey, RoomAfter(slots[0].arg, nokey, room))
  }

  // Nothing is lost and nothing sent twice.
  lemma {:induction false} SplitConserves(slots: seq<Slot>, nokey: bool, room: int, s: Slot)
    ensures multiset(Sent(slots, nokey, room))[s] + multiset(Saved(slots, nokey, room))[s] == multiset(slots)[s]
    ensures |Sent(slots, nokey, room)| + |Saved(slots, nokey, room)| == |slots|
  {
    if slots != [] {
      assert slots == [slots[0]] + slots[1..];
      SplitConserves(slots[1..], nokey, RoomAfter(slots[0].arg, nokey, room), s);
    }
  }

  // ---------- The text of a line ----------

  // A change as it stands on a line.
  datatype Item = Item(letter: char, params: seq<string>)

  function Letters(items: seq<Item>): string {
    if items == [] then "" else [items[0].letter] + Letters(items[1..])
  }

  function Params(items: seq<Item>): seq<string> {
    if items == [] then [] else items[0].params + Params(items[1..])
  }

  // The room parameters take, each with the space before it.
  function Width(params: seq<string>): nat {
    if params == [] then 0 else |params[0]| + 1 + Width(params[1..])
  }

  // Whether a reader of the line expects a parameter for a letter.
  predicate TakesParam(plus: bool, letter: char) {
    letter in "ohvbekL" || (letter == 'l' && plus)
  }

  // Reading letters and parameters back.
  function Read(plus: bool, letters: string, params: seq<string>): Option<(seq<Item>, seq<string>)> {
    if letters == "" then Some(([], params))
    else if TakesParam(plus, letters[0]) then
      if params == [] then None
      else
        match Read(plus, letters[1..], params[1..])
        case None => None
        case Some((items, rest)) => Some(([Item(letters[0], [params[0]])] + items, rest))
    else
      match Read(plus, letters[1..], params)
      case None => None
      case Some((items, rest)) => Some(([Item(letters[0], [])] + items, rest))
  }

  ghost predicate Readable(plus: bool, items: seq<Item>) {
    forall i | i in items :: |i.params| == if TakesParam(plus, i.letter) then 1 else 0
  }

  lemma ReadStep(plus: bool, item: Item, letters: string, ps: seq<string>, items: seq<Item>, rest: seq<string>)
    requires |item.params| == if TakesParam(plus, item.letter) then 1 else 0
    requires Read(plus, letters, ps) == Some((items, rest))
    ensures Read(plus, [item.letter] + letters, item.params + ps) == Some(([item] + items, rest))
  {
    var ls, qs := [item.letter] + letters, item.params + ps;
    assert ls[0] == item.letter && ls[1..] == letters;
    if TakesParam(plus, item.letter) {
      assert qs[0] == item.params[0] && qs[1..] == ps && item.params == [qs[0]];
    } else {
      assert qs == ps && item.params == [];
    }
  }

  lemma FirstItem(items: seq<Item>)
    requires items != []
    ensures items == [items[0]] + items[1..]
    ensures Letters(items) == [items[0].letter] + Letters(items[1..])
    ensures Params(items) == items[0].params + Params(items[1..])
  {
  }

  lemma {:induction false} ReadUndoesPrint(plus: bool, items: seq<Item>, rest: seq<string>)
    requires Readable(plus, items)
    ensures Read(plus, Letters(items), Params(items) + rest) == Some((items, rest))
  {
    if items == [] {
      assert Params(items) + rest == rest;
    } else {
      assert items[0] in items && forall i | i in items[1..] :: i in items;
      hide TakesParam, Read, Letters, Params;
      ReadUndoesPrint(plus, items[1..], rest);
      FirstItem(items);
      Assoc(items[0].params, Params(items[1..]), rest);
      ReadStep(plus, items[0], Letters(items[1..]), Params(items[1..]) + rest, items[1..], rest);
    }
  }

  // The whole message: removals, then additions.
  function ReadMessage(minus: string, plus: string, params: seq<string>): Option<(seq<Item>, seq<Item>)> {
    match Read(false, minus, params)
    case None => None
    case Some((gone, rest)) =>
      match Read(true, plus, rest)
      case None => None
      case Some((new_, left)) => if left == [] then Some((gone, new_)) else None
  }

  lemma MessageRoundTrip(gone: seq<Item>, added: seq<Item>)
    requires Readable(false, gone) && Readable(true, added)
    ensures ReadMessage(Letters(gone), Letters(added), Params(gone) + Params(added)) == Some((gone, added))
  {
    ReadUndoesPrint(false, gone, Params(added));
    ReadUndoesPrint(true, added, []);
    assert Params(added) + [] == Params(added);
  }

  // ---------- What a flush sends ----------

  // The modes without argument, in the order they are printed.
  const FLAGS := "psmtinrlcSCMNOaQZTz"

  function Chosen(table: string, modes: set<char>): string {
    if table == "" then ""
    else (if table[0] in modes then [table[0]] else []) + Chosen(table[1..], modes)
  }

  function Plain(letters: string): seq<Item> {
    if letters == "" then [] else [Item(letters[0], [])] + Plain(letters[1..])
  }

  function Side(slots: seq<Slot>, plus: bool): seq<Slot> {
    if slots == [] then []
    else (if slots[0].plus == plus then [slots[0]] else []) + Side(slots[1..], plus)
  }

  // The one string all limits of a flush are formatted into; the last one written stays.
  function LimitText(slots: seq<Slot>, before: string): string {
    if slots == [] then before
    else LimitText(slots[1..], if slots[0].arg.Limit? then Digits(slots[0].arg.number) else before)
  }

  // A slot as users, and as servers, are shown it.
  function UserItem(s: Slot, nokey: bool, limit: string): Item {
    match s.arg
    case Member(letter, nick, _) => Item(letter, [nick])
    case Text(letter, text) => Item(letter, [if letter == 'k' && nokey then "*" else text])
    case Limit(_) => Item('l', if s.plus then [limit] else [])
  }

  function ServerItem(s: Slot, hack2: bool, limit: string): Item {
    match s.arg
    case Member(letter, _, numeric) => Item(letter, [numeric])
    case Text(letter, text) => Item(letter, [text])
    case Limit(_) => Item('l', if s.plus == !hack2 then [limit] else [])
  }

  function UserItems(slots: seq<Slot>, nokey: bool, limit: string): seq<Item> {
    if slots == [] then [] else [UserItem(slots[0], nokey, limit)] + UserItems(slots[1..], nokey, limit)
  }

  function ServerItems(slots: seq<Slot>, hack2: bool, limit: string): seq<Item> {
    if slots == [] then [] else [ServerItem(slots[0], hack2, limit)] + ServerItems(slots[1..], hack2, limit)
  }

  // A buffer: modes without argument to set and to clear, the waiting slots, the destination, and the
  // numeric of the source.
  datatype Buf = Buf(add: set<char>, rem: set<char>, slots: seq<Slot>, dest: Dest, source: string)

  function Empty(b: Buf): bool {
    b.add == {} && b.rem == {} && b.slots == []
  }

  function Going(b: Buf): seq<Slot> {
    Sent(b.slots, b.dest.nokey, Room(b.dest))
  }

  function Staying(b: Buf): seq<Slot> {
    Saved(b.slots, b.dest.nokey, Room(b.dest))
  }

  function SimpleItems(b: Buf, plus: bool): seq<Item> {
    Plain(Chosen(FLAGS, if plus then b.add else b.rem - b.add))
  }

  function ToUsersItems(b: Buf, plus: bool): seq<Item> {
    SimpleItems(b, plus) + UserItems(Side(Going(b), plus), b.dest.nokey, LimitText(b.slots, ""))
  }

  function ToServersItems(b: Buf, plus: bool): seq<Item> {
    SimpleItems(b, plus) + ServerItems(Side(Going(b), plus), b.dest.hack2, LimitText(b.slots, "")) +
    (if plus && b.dest.deop then [Item('o', [b.source])] else [])
  }

  function UsersMessage(b: Buf): Message {
    var gone, added := ToUsersItems(b, false), ToUsersItems(b, true);
    ToUsers(Letters(gone), Letters(added), Params(gone) + Params(added))
  }

  // A bounce goes back with the senses reversed.
  function ServersMessage(b: Buf): Message {
    var gone, added := ToServersItems(b, false), ToServersItems(b, true);
    if b.dest.bounce then ToServers(Letters(added), Letters(gone), Params(added) + Params(gone))
    else ToServers(Letters(gone), Letters(added), Params(gone) + Params(added))
  }

  function Messages(b: Buf): seq<Message> {
    if Empty(b) then []
    else (if b.dest.visible then [UsersMessage(b)] else []) + (if b.dest.server then [ServersMessage(b)] else [])
  }

  // The buffer after a flush; the order to deop the source is carried out once, to servers.
  function Flushed(b: Buf): Buf {
    if Empty(b) then b
    else Buf({}, {}, Staying(b), b.dest.(deop := b.dest.deop && !b.dest.server), b.source)
  }

  // ---------- Reading what was sent ----------

  // What the callers put into a buffer: a limit to set has an argument.
  ghost predicate ValidBuf(b: Buf) {
    && 'l' !in b.add
    && (forall s | s in b.slots :: ValidSlot(s))
  }

  lemma {:induction false} ChosenFrom(table: string, modes: set<char>)
    ensures forall c :: c in Chosen(table, modes) <==> c in table && c in modes
  {
    if table != "" {
      ChosenFrom(table[1..], modes);
      assert table == [table[0]] + table[1..];
    }
  }

  lemma {:induction false} PlainItems(letters: string)
    ensures forall i | i in Plain(letters) :: i.params == [] && i.letter in letters
    ensures forall c | c in letters :: Item(c, []) in Plain(letters)
  {
    if letters != "" {
      PlainItems(letters[1..]);
      assert letters == [letters[0]] + letters[1..];
    }
  }

  lemma {:induction false} SentFrom(slots: seq<Slot>, nokey: bool, room: int)
    ensures forall s | s in Sent(slots, nokey, room) :: s in slots
    ensures forall s | s in Saved(slots, nokey, room) :: s in slots
  {
    if slots != [] { SentFrom(slots[1..], nokey, RoomAfter(slots[0].arg, nokey, room)); }
  }

  lemma {:induction false} SideFrom(slots: seq<Slot>, plus: bool)
    ensures forall s | s in Side(slots, plus) :: s in slots && s.plus == plus
  {
    if slots != [] { SideFrom(slots[1..], plus); }
  }

  lemma GoingSides(b: Buf, plus: bool)
    requires ValidBuf(b)
    ensures forall s | s in Side(Going(b), plus) :: ValidSlot(s) && s.plus == plus
  {
    SentFrom(b.slots, b.dest.nokey, Room(b.dest));
    SideFrom(Going(b), plus);
    hide ValidSlot;
    forall s | s in Side(Going(b), plus) ensures ValidSlot(s) {
      assert s in Going(b) && s in b.slots;
    }
  }

  lemma {:induction false} UserItemsReadable(slots: seq<Slot>, plus: bool, nokey: bool, limit: string)
    requires forall s | s in slots :: ValidSlot(s) && s.plus == plus
    ensures Readable(plus, UserItems(slots, nokey, limit))
  {
    if slots != [] {
      assert slots[0] in slots && forall s | s in slots[1..] :: s in slots;
      UserItemsReadable(slots[1..], plus, nokey, limit);
    }
  }

  // Going to servers the sense `plus` of the line is that of the slots, reversed in a bounce.
  lemma {:induction false} ServerItemsReadable(slots: seq<Slot>, plus: bool, bounce: bool, limit: string)
    requires forall s | s in slots :: ValidSlot(s) && s.plus == plus
    ensures Readable(plus != bounce, ServerItems(slots, bounce, limit))
  {
    if slots != [] {
      assert slots[0] in slots && forall s | s in slots[1..] :: s in slots;
      ServerItemsReadable(slots[1..], plus, bounce, limit);
    }
  }

  lemma FlagTakesNone(c: char, sense: bool)
    requires c in FLAGS && (sense ==> c != 'l')
    ensures !TakesParam(sense, c)
  {
    hide TakesParam;
    var i :| 0 <= i < |FLAGS| && FLAGS[i] == c;
    FlagAt(i, sense);
  }

  lemma FlagAt(i: nat, sense: bool)
    requires i < |FLAGS| && (sense ==> FLAGS[i] != 'l')
    ensures !TakesParam(sense, FLAGS[i])
  {
  }

  // Modes without argument take none, but for the limit under '+'.
  lemma SimpleReadable(b: Buf, plus: bool, sense: bool)
    requires ValidBuf(b) && (sense && !plus ==> 'l' !in b.rem)
    ensures Readable(sense, SimpleItems(b, plus))
  {
    var modes := if plus then b.add else b.rem - b.add;
    ChosenFrom(FLAGS, modes);
    PlainItems(Chosen(FLAGS, modes));
    forall i | i in SimpleItems(b, plus) ensures |i.params| == if TakesParam(sense, i.letter) then 1 else 0 {
      FlagTakesNone(i.letter, sense);
    }
  }

  // Users can read back every change a flush announces.
  lemma UsersReadBack(b: Buf)
    requires ValidBuf(b)
    ensures var m := UsersMessage(b);
      ReadMessage(m.minus, m.plus, m.params) == Some((ToUsersItems(b, false), ToUsersItems(b, true)))
  {
    var limit := LimitText(b.slots, "");
    GoingSides(b, false);
    GoingSides(b, true);
    hide Going, ValidBuf;
    SimpleReadable(b, false, false);
    SimpleReadable(b, true, true);
    UserItemsReadable(Side(Going(b), false), false, b.dest.nokey, limit);
    UserItemsReadable(Side(Going(b), true), true, b.dest.nokey, limit);
    hide SimpleItems, UserItems;
    MessageRoundTrip(ToUsersItems(b, false), ToUsersItems(b, true));
  }

  lemma ServerSideReadable(b: Buf, plus: bool)
    requires ValidBuf(b) && b.dest.hack2 == b.dest.bounce && (b.dest.bounce && !plus ==> 'l' !in b.rem)
    ensures Readable(plus != b.dest.bounce, ToServersItems(b, plus))
  {
    var limit := LimitText(b.slots, "");
    GoingSides(b, plus);
    hide Going, ValidBuf;
    SimpleReadable(b, plus, plus != b.dest.bounce);
    ServerItemsReadable(Side(Going(b), plus), plus, b.dest.bounce, limit);
  }

  lemma ServersReadBack(b: Buf)
    requires ValidBuf(b) && !b.dest.bounce && !b.dest.hack2
    ensures var m := ServersMessage(b);
      ReadMessage(m.minus, m.plus, m.params) == Some((ToServersItems(b, false), ToServersItems(b, true)))
  {
    ServerSideReadable(b, false);
    ServerSideReadable(b, true);
    hide ValidBuf, ToServersItems;
    MessageRoundTrip(ToServersItems(b, false), ToServersItems(b, true));
  }

  // ---------- Bouncing ----------

  function Needs(plus: bool, letters: string): nat {
    if letters == "" then 0 else (if TakesParam(plus, letters[0]) then 1 else 0) + Needs(plus, letters[1..])
  }

  lemma {:induction false} TooFewParams(plus: bool, letters: string, params: seq<string>)
    requires |params| < Needs(plus, letters)
    ensures Read(plus, letters, params) == None
  {
    if TakesParam(plus, letters[0]) {
      if params != [] { TooFewParams(plus, letters[1..], params[1..]); }
    } else {
      TooFewParams(plus, letters[1..], params);
    }
  }

  ghost predicate Lean(plus: bool, items: seq<Item>) {
    forall i | i in items :: |i.params| <= if TakesParam(plus, i.letter) then 1 else 0
  }

  lemma {:induction false} LeanNeeds(plus: bool, items: seq<Item>)
    requires Lean(plus, items)
    ensures |Params(items)| <= Needs(plus, Letters(items))
    ensures (exists i | i in items :: i.params == [] && TakesParam(plus, i.letter)) ==> |Params(items)| < Needs(plus, Letters(items))
  {
    if items != [] {
      assert items[0] in items && forall i | i in items[1..] :: i in items;
      FirstItem(items);
      LeanNeeds(plus, items[1..]);
    }
  }

  // A bounced line can be read back exactly when it does not restore a limit: the number the limit
  // had is not among the parameters.
  lemma BounceReadBack(b: Buf)
    requires ValidBuf(b) && b.dest.bounce && b.dest.hack2
    ensures var m := ServersMessage(b);
      ReadMessage(m.minus, m.plus, m.params) == (if 'l' in b.rem then None
                                                 else Some((ToServersItems(b, true), ToServersItems(b, false))))
  {
    var gone, added := ToServersItems(b, false), ToServersItems(b, true);
    ServerSideReadable(b, true);
    if 'l' !in b.rem {
      ServerSideReadable(b, false);
      hide ValidBuf, ToServersItems;
      MessageRoundTrip(added, gone);
    } else {
      BouncedLimit(b);
      hide ValidBuf, ToServersItems;
      ReadUndoesPrint(false, added, Params(gone));
      TooFewParams(true, Letters(gone), Params(gone));
    }
  }

  lemma BouncedLimit(b: Buf)
    requires ValidBuf(b) && b.dest.bounce && b.dest.hack2 && 'l' in b.rem
    ensures |Params(ToServersItems(b, false))| < Needs(true, Letters(ToServersItems(b, false)))
  {
    hide LimitText, Side, Going, Needs, Letters, Params, Chosen, Plain;
    var gone, simple := ToServersItems(b, false), SimpleItems(b, false);
    var slots := ServerItems(Side(Going(b), false), true, LimitText(b.slots, ""));
    ChosenFrom(FLAGS, b.rem - b.add);
    PlainItems(Chosen(FLAGS, b.rem - b.add));
    assert 'l' in b.rem - b.add;
    assert FLAGS[7] == 'l';
    assert Item('l', []) in simple;
    assert gone == simple + slots;
    GoingSides(b, false);
    ServerItemsReadable(Side(Going(b), false), false, true, LimitText(b.slots, ""));
    forall i | i in gone ensures |i.params| <= if TakesParam(true, i.letter) then 1 else 0 {
      if i in slots { } else { assert i in simple; }
    }
    LeanNeeds(true, gone);
  }

  // ---------- Limits ----------

  function Lead(n: nat): string {
    if n < 10 then "" else Digits(n / 10)
  }

  lemma DigitsSplit(n: nat)
    ensures Digits(n) == Lead(n) + [('0' as int + n % 10) as char]
  {
  }

  lemma LastDigits(p: string, c: char, q: string, d: char)
    requires p + [c] == q + [d]
    ensures p == q && c == d
  {
    assert (p + [c])[|p|] == c && (q + [d])[|q|] == d;
    assert p == (p + [c])[..|p|] && q == (q + [d])[..|q|];
  }

  lemma {:induction false} DigitsInjective(m: nat, n: nat)
    requires Digits(m) == Digits(n)
    ensures m == n
  {
    DigitsSplit(m);
    DigitsSplit(n);
    LastDigits(Lead(m), ('0' as int + m % 10) as char, Lead(n), ('0' as int + n % 10) as char);
    assert ('0' as int + m % 10) as char as int == ('0' as int + n % 10) as char as int;
    assert m % 10 == n % 10;
    DigitsSplit(m / 10);
    DigitsSplit(n / 10);
    if m >= 10 && n >= 10 {
      DigitsInjective(m / 10, n / 10);
    }
  }

  // The number of the last limit; `before` if there is none.
  function LastLimit(slots: seq<Slot>, before: nat): nat {
    if slots == [] then before
    else LastLimit(slots[1..], if slots[0].arg.Limit? then slots[0].arg.number else before)
  }

  lemma {:induction false} LimitTextIsLast(slots: seq<Slot>, before: nat, text: string)
    requires text == Digits(before) || exists s | s in slots :: s.arg.Limit?
    ensures LimitText(slots, text) == Digits(LastLimit(slots, before))
  {
    if slots != [] {
      var l := slots[0].arg.Limit?;
      assert slots == [slots[0]] + slots[1..];
      LimitTextIsLast(slots[1..], if l then slots[0].arg.number else before, if l then Digits(slots[0].arg.number) else text);
    }
  }

  // A slot shown with its own argument.
  function OwnText(s: Slot): string {
    if s.arg.Limit? then Digits(s.arg.number) else ""
  }

  function OwnUserItems(slots: seq<Slot>, nokey: bool): seq<Item> {
    if slots == [] then [] else [UserItem(slots[0], nokey, OwnText(slots[0]))] + OwnUserItems(slots[1..], nokey)
  }

  function OwnServerItems(slots: seq<Slot>, hack2: bool): seq<Item> {
    if slots == [] then [] else [ServerItem(slots[0], hack2, OwnText(slots[0]))] + OwnServerItems(slots[1..], hack2)
  }

  function OwnToUsers(b: Buf, plus: bool): seq<Item> {
    SimpleItems(b, plus) + OwnUserItems(Side(Going(b), plus), b.dest.nokey)
  }

  function OwnToServers(b: Buf, plus: bool): seq<Item> {
    SimpleItems(b, plus) + OwnServerItems(Side(Going(b), plus), b.dest.hack2) +
    (if plus && b.dest.deop then [Item('o', [b.source])] else [])
  }

  // The messages that would show every limit with its own number.
  function OwnUsersMessage(b: Buf): Message {
    var gone, added := OwnToUsers(b, false), OwnToUsers(b, true);
    ToUsers(Letters(gone), Letters(added), Params(gone) + Params(added))
  }

  function OwnServersMessage(b: Buf): Message {
    var gone, added := OwnToServers(b, false), OwnToServers(b, true);
    if b.dest.bounce then ToServers(Letters(added), Letters(gone), Params(added) + Params(gone))
    else ToServers(Letters(gone), Letters(added), Params(gone) + Params(added))
  }

  // The limits of the slots that are shown with a number, under the sign `sense`, are all `number`.
  ghost predicate LimitsAre(slots: seq<Slot>, sense: bool, number: nat) {
    forall s | s in slots && s.plus == sense && s.arg.Limit? :: s.arg.number == number
  }

  // The same letters, and as many parameters each.
  ghost predicate SameShape(a: seq<Item>, b: seq<Item>) {
    |a| == |b| && forall i :: 0 <= i < |a| ==> a[i].letter == b[i].letter && |a[i].params| == |b[i].params|
  }

  lemma {:induction false} ShapeParams(a: seq<Item>, b: seq<Item>)
    requires SameShape(a, b)
    ensures |Params(a)| == |Params(b)| && Letters(a) == Letters(b)
    ensures Params(a) == Params(b) <==> a == b
  {
    if a != [] {
      FirstItem(a);
      FirstItem(b);
      ShapeParams(a[1..], b[1..]);
      SameFront(a[0].params, Params(a[1..]), b[0].params, Params(b[1..]));
    }
  }

  lemma SameFront<T>(a: seq<T>, c: seq<T>, b: seq<T>, d: seq<T>)
    requires |a| == |b|
    ensures a + c == b + d <==> a == b && c == d
  {
    if a + c == b + d {
      assert a == (a + c)[..|a|] && b == (b + d)[..|a|];
      assert c == (a + c)[|a|..] && d == (b + d)[|a|..];
    }
  }

  lemma {:induction false} UserItemsOwn(slots: seq<Slot>, plus: bool, nokey: bool, number: nat)
    requires forall s | s in slots :: s.plus == plus
    ensures SameShape(UserItems(slots, nokey, Digits(number)), OwnUserItems(slots, nokey))
    ensures UserItems(slots, nokey, Digits(number)) == OwnUserItems(slots, nokey) <==> LimitsAre(slots, true, number)
  {
    if slots != [] {
      var s, rest := slots[0], slots[1..];
      assert slots == [s] + rest;
      UserItemsOwn(rest, plus, nokey, number);
      SameFront([UserItem(s, nokey, Digits(number))], UserItems(rest, nokey, Digits(number)),
                [UserItem(s, nokey, OwnText(s))], OwnUserItems(rest, nokey));
      if s.arg.Limit? && Digits(s.arg.number) == Digits(number) { DigitsInjective(s.arg.number, number); }
      assert s in slots && LimitsAre(slots, true, number) == (LimitsAre([s], true, number) && LimitsAre(rest, true, number));
      assert s in [s];
    }
  }

  lemma {:induction false} ServerItemsOwn(slots: seq<Slot>, plus: bool, hack2: bool, number: nat)
    requires forall s | s in slots :: s.plus == plus
    ensures SameShape(ServerItems(slots, hack2, Digits(number)), OwnServerItems(slots, hack2))
    ensures ServerItems(slots, hack2, Digits(number)) == OwnServerItems(slots, hack2) <==> LimitsAre(slots, !hack2, number)
  {
    if slots != [] {
      var s, rest := slots[0], slots[1..];
      assert slots == [s] + rest;
      ServerItemsOwn(rest, plus, hack2, number);
      SameFront([ServerItem(s, hack2, Digits(number))], ServerItems(rest, hack2, Digits(number)),
                [ServerItem(s, hack2, OwnText(s))], OwnServerItems(rest, hack2));
      if s.arg.Limit? && Digits(s.arg.number) == Digits(number) { DigitsInjective(s.arg.number, number); }
      assert s in slots && LimitsAre(slots, !hack2, number) == (LimitsAre([s], !hack2, number) && LimitsAre(rest, !hack2, number));
      assert s in [s];
    }
  }

  lemma {:induction false} SideHas(slots: seq<Slot>, s: Slot)
    requires s in slots
    ensures s in Side(slots, s.plus)
  {
    if slots[0] != s { SideHas(slots[1..], s); }
  }

  lemma SidesLimits(slots: seq<Slot>, sense: bool, number: nat)
    ensures LimitsAre(slots, sense, number) <==>
      LimitsAre(Side(slots, false), sense, number) && LimitsAre(Side(slots, true), sense, number)
  {
    SideFrom(slots, false);
    SideFrom(slots, true);
    forall s | s in slots ensures s in Side(slots, s.plus) { SideHas(slots, s); }
  }

  lemma MessagesDiffer(gone: seq<Item>, added: seq<Item>, gone': seq<Item>, added': seq<Item>)
    requires SameShape(gone, gone') && SameShape(added, added')
    ensures Letters(gone) == Letters(gone') && Letters(added) == Letters(added')
    ensures Params(gone) + Params(added) == Params(gone') + Params(added') <==> gone == gone' && added == added'
    ensures Params(added) + Params(gone) == Params(added') + Params(gone') <==> gone == gone' && added == added'
  {
    ShapeParams(gone, gone');
    ShapeParams(added, added');
    SameFront(Params(gone), Params(added), Params(gone'), Params(added'));
    SameFront(Params(added), Params(gone), Params(added'), Params(gone'));
  }

  lemma ShapeAround(front: seq<Item>, a: seq<Item>, b: seq<Item>, back: seq<Item>)
    requires SameShape(a, b)
    ensures SameShape(front + a + back, front + b + back)
    ensures front + a + back == front + b + back <==> a == b
  {
    SameFront(front, a, front, b);
    SameFront(front + a, back, front + b, back);
  }

  lemma LimitNumber(b: Buf)
    ensures (exists s | s in b.slots :: s.arg.Limit?) ==> LimitText(b.slots, "") == Digits(LastLimit(b.slots, 0))
    ensures forall s | s in Going(b) :: s in b.slots
  {
    if exists s | s in b.slots :: s.arg.Limit? { LimitTextIsLast(b.slots, 0, ""); }
    SentFrom(b.slots, b.dest.nokey, Room(b.dest));
  }

  lemma {:induction false} NoLimitNoMatter(slots: seq<Slot>, nokey: bool, hack2: bool, text: string)
    requires forall s | s in slots :: !s.arg.Limit?
    ensures UserItems(slots, nokey, text) == UserItems(slots, nokey, Digits(0))
    ensures ServerItems(slots, hack2, text) == ServerItems(slots, hack2, Digits(0))
  {
    if slots != [] {
      assert slots == [slots[0]] + slots[1..];
      NoLimitNoMatter(slots[1..], nokey, hack2, text);
    }
  }

  // All limits of a line are printed with the number of the last limit that waits, sent or not.  What
  // users are shown is right exactly when every limit set on the line has that number.
  lemma LimitsShareText(b: Buf)
    ensures UsersMessage(b) == OwnUsersMessage(b) <==> LimitsAre(Going(b), true, LastLimit(b.slots, 0))
  {
    hide SimpleItems, Going, LimitsAre, SameShape, Letters, Params;
    SideOwnUsers(b, false);
    SideOwnUsers(b, true);
    SidesLimits(Going(b), true, LastLimit(b.slots, 0));
    MessagesDiffer(ToUsersItems(b, false), ToUsersItems(b, true), OwnToUsers(b, false), OwnToUsers(b, true));
  }

  lemma SideOwnUsers(b: Buf, plus: bool)
    ensures SameShape(ToUsersItems(b, plus), OwnToUsers(b, plus))
    ensures ToUsersItems(b, plus) == OwnToUsers(b, plus) <==> LimitsAre(Side(Going(b), plus), true, LastLimit(b.slots, 0))
  {
    hide SimpleItems, Going, LimitsAre, SameShape;
    var n, slots := LastLimit(b.slots, 0), Side(Going(b), plus);
    LimitNumber(b);
    SideFrom(Going(b), plus);
    UserItemsOwn(slots, plus, b.dest.nokey, n);
    if !exists s | s in b.slots :: s.arg.Limit? {
      NoLimitNoMatter(slots, b.dest.nokey, false, LimitText(b.slots, ""));
      NoLimitNoMatter(slots, b.dest.nokey, false, Digits(n));
    }
    ShapeAround(SimpleItems(b, plus), UserItems(slots, b.dest.nokey, Digits(n)), OwnUserItems(slots, b.dest.nokey), []);
    assert ToUsersItems(b, plus) == SimpleItems(b, plus) + UserItems(slots, b.dest.nokey, Digits(n)) + [];
    assert OwnToUsers(b, plus) == SimpleItems(b, plus) + OwnUserItems(slots, b.dest.nokey) + [];
  }

  // The same for what servers get: the limits that are shown with a number are those set, or in a
  // bounce those taken away.
  lemma ServerLimitsShareText(b: Buf)
    ensures ServersMessage(b) == OwnServersMessage(b) <==> LimitsAre(Going(b), !b.dest.hack2, LastLimit(b.slots, 0))
  {
    hide SimpleItems, Going, LimitsAre, SameShape, Letters, Params;
    SideOwnServers(b, false);
    SideOwnServers(b, true);
    SidesLimits(Going(b), !b.dest.hack2, LastLimit(b.slots, 0));
    MessagesDiffer(ToServersItems(b, false), ToServersItems(b, true), OwnToServers(b, false), OwnToServers(b, true));
  }

  lemma SideOwnServers(b: Buf, plus: bool)
    ensures SameShape(ToServersItems(b, plus), OwnToServers(b, plus))
    ensures ToServersItems(b, plus) == OwnToServers(b, plus) <==>
      LimitsAre(Side(Going(b), plus), !b.dest.hack2, LastLimit(b.slots, 0))
  {
    hide SimpleItems, Going, LimitsAre, SameShape;
    var n, slots := LastLimit(b.slots, 0), Side(Going(b), plus);
    LimitNumber(b);
    SideFrom(Going(b), plus);
    ServerItemsOwn(slots, plus, b.dest.hack2, n);
    if !exists s | s in b.slots :: s.arg.Limit? {
      NoLimitNoMatter(slots, false, b.dest.hack2, LimitText(b.slots, ""));
      NoLimitNoMatter(slots, false, b.dest.hack2, Digits(n));
    }
    ShapeAround(SimpleItems(b, plus), ServerItems(slots, b.dest.hack2, Digits(n)), OwnServerItems(slots, b.dest.hack2),
      if plus && b.dest.deop then [Item('o', [b.source])] else []);
  }

  // Two limits of one burst, the second lower: both are announced with the number of the second.
  lemma TwoLimitsMixedUp()
    ensures var d := Dest(true, true, false, false, false, false);
      var b := Buf({}, {}, [Slot(true, Limit(7)), Slot(true, Limit(5))], d, "AAAAA");
      && UsersMessage(b) == ToUsers("", "ll", ["5", "5"]) && OwnUsersMessage(b) == ToUsers("", "ll", ["7", "5"])
      && ServersMessage(b) == ToServers("", "ll", ["5", "5"]) && OwnServersMessage(b) == ToServers("", "ll", ["7", "5"])
  {
    hide LimitText, Digits, Chosen, Sent;
    var d := Dest(true, true, false, false, false, false);
    var l7, l5 := Slot(true, Limit(7)), Slot(true, Limit(5));
    var b := Buf({}, {}, [l7, l5], d, "AAAAA");
    BothGo(l7, l5);
    SidesOfTwo(l7, l5);
    NoneChosen(FLAGS);
    assert {} - b.add == {};
    ItemsOfTwo(l7, l5, "5", "5");
    ItemsOfTwo(l7, l5, "7", "5");
    NothingShown();
  }

  lemma NothingShown()
    ensures UserItems([], false, "5") == [] && ServerItems([], false, "5") == [] && OwnUserItems([], false) == []
    ensures OwnServerItems([], false) == [] && Letters([]) == "" && Params([]) == []
  {
  }

  lemma SidesOfTwo(a: Slot, c: Slot)
    requires a.plus && c.plus
    ensures Side([a, c], true) == [a, c] && Side([a, c], false) == []
  {
    assert [a, c][1..] == [c] && [c][1..] == [];
    assert Side([c], true) == [c] + Side([], true) && Side([c], false) == [] + Side([], false);
  }

  lemma ItemsOfTwo(a: Slot, c: Slot, x: string, y: string)
    requires a.plus && c.plus && a.arg.Limit? && c.arg.Limit?
    ensures x == y ==> UserItems([a, c], false, x) == [Item('l', [x]), Item('l', [y])]
    ensures x == y ==> ServerItems([a, c], false, x) == [Item('l', [x]), Item('l', [y])]
    ensures x == OwnText(a) && y == OwnText(c) ==> OwnUserItems([a, c], false) == [Item('l', [x]), Item('l', [y])]
    ensures x == OwnText(a) && y == OwnText(c) ==> OwnServerItems([a, c], false) == [Item('l', [x]), Item('l', [y])]
    ensures var items := [Item('l', [x]), Item('l', [y])]; Letters(items) == "ll" && Params(items) == [x, y]
  {
    var i, j := Item('l', [x]), Item('l', [y]);
    assert [a, c][1..] == [c] && [c][1..] == [] && [i, j][1..] == [j] && [j][1..] == [];
    assert UserItems([c], false, x) == [UserItem(c, false, x)] + UserItems([], false, x);
    assert ServerItems([c], false, x) == [ServerItem(c, false, x)] + ServerItems([], false, x);
    assert OwnUserItems([c], false) == [UserItem(c, false, OwnText(c))] + OwnUserItems([], false);
    assert OwnServerItems([c], false) == [ServerItem(c, false, OwnText(c))] + OwnServerItems([], false);
    assert Letters([j]) == ['l'] + Letters([]) && Params([j]) == [y] + Params([]);
  }

  lemma BothGo(l7: Slot, l5: Slot)
    requires l7 == Slot(true, Limit(7)) && l5 == Slot(true, Limit(5))
    ensures Sent([l7, l5], false, LINE_ROOM) == [l7, l5] && LimitText([l7, l5], "") == "5" == Digits(5) && Digits(7) == "7"
  {
    assert Digits(5) == "5" && Digits(7) == "7";
    assert [l7, l5][1..] == [l5] && [l5][1..] == [];
    assert Sent([l5], false, 310) == [l5] + Sent([], false, 308);
    assert LimitText([l5], "7") == LimitText([], "5");
  }

  lemma {:induction false} NoneChosen(table: string)
    ensures Chosen(table, {}) == ""
  {
    if table != "" { NoneChosen(table[1..]); }
  }

  // ---------- The length of a line ----------

  function Charge(slots: seq<Slot>, nokey: bool): nat {
    if slots == [] then 0 else Cost(slots[0].arg, nokey) + 1 + Charge(slots[1..], nokey)
  }

  // What servers get beyond the charge: keys are charged as one character when they are hidden.
  function KeySlack(slots: seq<Slot>, nokey: bool): nat {
    if slots == [] then 0
    else
      (if nokey && slots[0].arg.Text? && slots[0].arg.letter == 'k' && |slots[0].arg.text| > 1
       then |slots[0].arg.text| - 1 else 0) + KeySlack(slots[1..], nokey)
  }

  lemma {:induction false} SentCharge(slots: seq<Slot>, nokey: bool, room: nat)
    ensures Charge(Sent(slots, nokey, room), nokey) <= room
  {
    if slots != [] {
      SentCharge(slots[1..], nokey, RoomAfter(slots[0].arg, nokey, room));
      var rest := Sent(slots[1..], nokey, RoomAfter(slots[0].arg, nokey, room));
      if Fits(slots[0].arg, nokey, room) { assert ([slots[0]] + rest)[1..] == rest; } else { assert [] + rest == rest; }
    }
  }

  lemma {:induction false} SideCharge(slots: seq<Slot>, nokey: bool)
    ensures Charge(Side(slots, false), nokey) + Charge(Side(slots, true), nokey) == Charge(slots, nokey)
    ensures KeySlack(Side(slots, false), nokey) + KeySlack(Side(slots, true), nokey) == KeySlack(slots, nokey)
  {
    if slots != [] {
      SideCharge(slots[1..], nokey);
      var a, b := Side(slots[1..], slots[0].plus), Side(slots[1..], !slots[0].plus);
      assert ([slots[0]] + a)[1..] == a && [] + b == b;
    }
  }

  lemma {:induction false} WidthConcat(a: seq<string>, b: seq<string>)
    ensures Width(a + b) == Width(a) + Width(b)
  {
    if a == [] { assert a + b == b; } else { WidthConcat(a[1..], b); assert (a + b)[1..] == a[1..] + b; }
  }

  lemma {:induction false} ParamsConcat(a: seq<Item>, b: seq<Item>)
    ensures Params(a + b) == Params(a) + Params(b)
  {
    if a == [] {
      assert a + b == b;
    } else {
      hide Params, Letters;
      ParamsConcat(a[1..], b);
      FirstItem(a);
      FirstItem(a + b);
      assert (a + b)[1..] == a[1..] + b && (a + b)[0] == a[0];
      Assoc(a[0].params, Params(a[1..]), Params(b));
    }
  }

  lemma {:induction false} PlainParams(letters: string)
    ensures Params(Plain(letters)) == []
  {
    if letters != "" {
      PlainParams(letters[1..]);
      var items := Plain(letters);
      assert items[0].params == [] && items[1..] == Plain(letters[1..]);
    }
  }

  lemma {:induction false} UserWidth(slots: seq<Slot>, nokey: bool, limit: string)
    requires forall s | s in slots && s.arg.Limit? :: |limit| <= |Digits(s.arg.number)|
    ensures Width(Params(UserItems(slots, nokey, limit))) <= Charge(slots, nokey)
  {
    if slots != [] {
      assert slots[0] in slots && forall s | s in slots[1..] :: s in slots;
      UserWidth(slots[1..], nokey, limit);
      var items := UserItems(slots, nokey, limit);
      assert items[1..] == UserItems(slots[1..], nokey, limit);
      WidthConcat(items[0].params, Params(items[1..]));
      OneWidth(items[0].params);
    }
  }

  lemma OneWidth(ps: seq<string>)
    ensures |ps| == 0 ==> Width(ps) == 0
    ensures |ps| == 1 ==> Width(ps) == |ps[0]| + 1
  {
    if |ps| == 1 { assert ps[1..] == []; }
  }

  lemma {:induction false} ServerWidth(slots: seq<Slot>, nokey: bool, hack2: bool, limit: string)
    requires forall s | s in slots :: ValidSlot(s)
    requires forall s | s in slots && s.arg.Limit? :: |limit| <= |Digits(s.arg.number)|
    ensures Width(Params(ServerItems(slots, hack2, limit))) <= Charge(slots, nokey) + KeySlack(slots, nokey)
  {
    if slots != [] {
      assert slots[0] in slots && forall s | s in slots[1..] :: s in slots;
      ServerWidth(slots[1..], nokey, hack2, limit);
      var items := ServerItems(slots, hack2, limit);
      assert items[1..] == ServerItems(slots[1..], hack2, limit);
      WidthConcat(items[0].params, Params(items[1..]));
      OneWidth(items[0].params);
    }
  }

  // The one text is not longer than the number of any limit on the line.
  ghost predicate LimitsFit(b: Buf) {
    forall s | s in Going(b) && s.arg.Limit? :: |LimitText(b.slots, "")| <= |Digits(s.arg.number)|
  }

  // Limits never rise while a buffer fills: one command sets at most one, and a burst skips a limit
  // above the one it has set already.
  ghost predicate LimitsFall(slots: seq<Slot>) {
    forall i, j :: 0 <= i < j < |slots| && slots[i].arg.Limit? && slots[j].arg.Limit? ==> slots[j].arg.number <= slots[i].arg.number
  }

  lemma {:induction false} LongerNumber(m: nat, n: nat)
    requires m <= n
    ensures |Digits(m)| <= |Digits(n)|
  {
    DigitsSplit(m);
    DigitsSplit(n);
    if m >= 10 { LongerNumber(m / 10, n / 10); }
  }

  lemma {:induction false} LastIsLowest(slots: seq<Slot>, before: nat, s: Slot)
    requires LimitsFall(slots) && s in slots && s.arg.Limit?
    ensures LastLimit(slots, before) <= s.arg.number
    decreases |slots|
  {
    var rest, next := slots[1..], if slots[0].arg.Limit? then slots[0].arg.number else before;
    assert forall i :: 0 <= i < |rest| ==> rest[i] == slots[i + 1];
    if s in rest {
      LastIsLowest(rest, next, s);
    } else if t :| t in rest && t.arg.Limit? {
      LastIsLowest(rest, next, t);
    } else {
      LastStays(rest, next);
    }
  }

  lemma {:induction false} LastStays(slots: seq<Slot>, before: nat)
    requires forall s | s in slots :: !s.arg.Limit?
    ensures LastLimit(slots, before) == before
  {
    if slots != [] {
      assert slots == [slots[0]] + slots[1..];
      LastStays(slots[1..], before);
    }
  }

  // So the lines of every command and of every burst have room for their limits.
  lemma FallingLimitsFit(b: Buf)
    requires LimitsFall(b.slots)
    ensures LimitsFit(b)
  {
    hide Going, LimitsFall;
    LimitNumber(b);
    forall s | s in Going(b) && s.arg.Limit? ensures |LimitText(b.slots, "")| <= |Digits(s.arg.number)| {
      LastIsLowest(b.slots, 0, s);
      LongerNumber(LastLimit(b.slots, 0), s.arg.number);
    }
  }

  // The parameters users get fit in the room of a line.
  lemma UsersFit(b: Buf)
    requires ValidBuf(b) && LimitsFit(b)
    ensures Width(UsersMessage(b).params) <= Room(b.dest)
  {
    var limit := LimitText(b.slots, "");
    GoingFit(b);
    SideUsersWidth(b, false, limit);
    SideUsersWidth(b, true, limit);
    WidthConcat(Params(ToUsersItems(b, false)), Params(ToUsersItems(b, true)));
  }

  lemma GoingFit(b: Buf)
    ensures Charge(Side(Going(b), false), b.dest.nokey) + Charge(Side(Going(b), true), b.dest.nokey) <= Room(b.dest)
    ensures KeySlack(Side(Going(b), false), b.dest.nokey) + KeySlack(Side(Going(b), true), b.dest.nokey)
         == KeySlack(Going(b), b.dest.nokey)
  {
    SentCharge(b.slots, b.dest.nokey, Room(b.dest));
    SideCharge(Going(b), b.dest.nokey);
  }

  lemma SideSlots(b: Buf, plus: bool)
    ensures forall s | s in Side(Going(b), plus) :: s in b.slots && s in Going(b)
  {
    SentFrom(b.slots, b.dest.nokey, Room(b.dest));
    SideFrom(Going(b), plus);
  }

  lemma SideUsersWidth(b: Buf, plus: bool, limit: string)
    requires LimitsFit(b) && limit == LimitText(b.slots, "")
    ensures Width(Params(ToUsersItems(b, plus))) <= Charge(Side(Going(b), plus), b.dest.nokey)
  {
    SideSlots(b, plus);
    hide Going;
    var items := UserItems(Side(Going(b), plus), b.dest.nokey, limit);
    UserWidth(Side(Going(b), plus), b.dest.nokey, limit);
    PlainParams(Chosen(FLAGS, if plus then b.add else b.rem - b.add));
    ParamsConcat(SimpleItems(b, plus), items);
    assert Params(ToUsersItems(b, plus)) == Params(items);
  }

  lemma SideServersWidth(b: Buf, plus: bool, limit: string)
    requires ValidBuf(b) && LimitsFit(b) && limit == LimitText(b.slots, "") && |b.source| == 5
    ensures Width(Params(ToServersItems(b, plus))) <=
      Charge(Side(Going(b), plus), b.dest.nokey) + KeySlack(Side(Going(b), plus), b.dest.nokey) +
      (if plus && b.dest.deop then DEOP_ROOM else 0)
  {
    SideSlots(b, plus);
    hide Going;
    var simple, items := SimpleItems(b, plus), ServerItems(Side(Going(b), plus), b.dest.hack2, limit);
    var deop := if plus && b.dest.deop then [Item('o', [b.source])] else [];
    ServerWidth(Side(Going(b), plus), b.dest.nokey, b.dest.hack2, limit);
    PlainParams(Chosen(FLAGS, if plus then b.add else b.rem - b.add));
    ParamsConcat(simple, items);
    ParamsConcat(simple + items, deop);
    assert [] + Params(items) == Params(items);
    WidthConcat(Params(items), Params(deop));
    assert plus && b.dest.deop ==> deop[1..] == [] && Params(deop) == [b.source];
    OneWidth(Params(deop));
  }

  // So do those servers get, with the order to deop the source, but for hidden keys.
  lemma ServersFit(b: Buf)
    requires ValidBuf(b) && LimitsFit(b) && |b.source| == 5
    ensures Width(ServersMessage(b).params) <= LINE_ROOM + KeySlack(Going(b), b.dest.nokey)
  {
    var limit := LimitText(b.slots, "");
    GoingFit(b);
    SideServersWidth(b, false, limit);
    SideServersWidth(b, true, limit);
    WidthConcat(Params(ToServersItems(b, false)), Params(ToServersItems(b, true)));
    WidthConcat(Params(ToServersItems(b, true)), Params(ToServersItems(b, false)));
  }

  // ---------- Flushing it all ----------

  // The room of a line once the source has been deopped, if servers are told at all.
  function FinalRoom(d: Dest): int {
    LINE_ROOM - if d.deop && !d.server then DEOP_ROOM else 0
  }

  ghost predicate AllShort(b: Buf) {
    forall s | s in b.slots :: Cost(s.arg, b.dest.nokey) < FinalRoom(b.dest)
  }

  // Repeated flushes.
  ghost function FlushedTimes(b: Buf, n: nat): Buf
    decreases n
  {
    if n == 0 then b else FlushedTimes(Flushed(b), n - 1)
  }

  lemma FlushKeeps(b: Buf)
    ensures Flushed(b).dest.nokey == b.dest.nokey && (b.slots != [] ==> FinalRoom(Flushed(b).dest) == FinalRoom(b.dest))
    ensures forall s | s in Flushed(b).slots :: s in b.slots
    ensures |Flushed(b).slots| <= |b.slots|
    ensures b.slots != [] && Cost(b.slots[0].arg, b.dest.nokey) < Room(b.dest) ==> |Flushed(b).slots| < |b.slots|
  {
    var slots, nokey, room := b.slots, b.dest.nokey, Room(b.dest);
    SentFrom(slots, nokey, room);
    if slots != [] {
      SplitConserves(slots, nokey, room, slots[0]);
      FirstGoes(slots, nokey, room);
    }
    hide Sent, Saved, Cost;
  }

  lemma FirstGoes(slots: seq<Slot>, nokey: bool, room: int)
    requires slots != []
    ensures Cost(slots[0].arg, nokey) < room ==> Sent(slots, nokey, room) != []
  {
    hide Cost;
  }

  ghost function Rank(b: Buf): nat {
    |b.slots| + if b.dest.deop && b.dest.server then 1 else 0
  }

  lemma ShortFlush(b: Buf)
    requires AllShort(b) && b.slots != []
    ensures AllShort(Flushed(b)) && Rank(Flushed(b)) < Rank(b)
  {
    FlushKeeps(b);
    assert b.slots[0] in b.slots;
  }

  lemma {:induction false} LongStays(slots: seq<Slot>, nokey: bool, room: int, s: Slot)
    requires s in slots && Cost(s.arg, nokey) >= room
    ensures s in Saved(slots, nokey, room)
  {
    if slots[0] != s { LongStays(slots[1..], nokey, RoomAfter(slots[0].arg, nokey, room), s); }
  }

  lemma {:induction false} LongNeverGoes(b: Buf, n: nat, s: Slot)
    requires s in b.slots && Cost(s.arg, b.dest.nokey) >= FinalRoom(b.dest)
    ensures s in FlushedTimes(b, n).slots
    decreases n
  {
    if n > 0 {
      LongStays(b.slots, b.dest.nokey, Room(b.dest), s);
      FlushKeeps(b);
      LongNeverGoes(Flushed(b), n - 1, s);
    }
  }

  lemma {:induction false} ShortDrain(b: Buf) returns (n: nat)
    requires AllShort(b)
    ensures FlushedTimes(b, n).slots == []
    decreases Rank(b)
  {
    if b.slots == [] {
      n := 0;
    } else {
      ShortFlush(b);
      var k := ShortDrain(Flushed(b));
      n := k + 1;
    }
  }

  // The recursion of a full flush ends exactly when every argument is shorter than a line.
  lemma FlushEndsExactly(b: Buf)
    ensures (exists n: nat :: FlushedTimes(b, n).slots == []) <==> AllShort(b)
  {
    if AllShort(b) {
      var n := ShortDrain(b);
    } else {
      var s :| s in b.slots && Cost(s.arg, b.dest.nokey) >= FinalRoom(b.dest);
      forall n: nat ensures FlushedTimes(b, n).slots != [] { LongNeverGoes(b, n, s); }
    }
  }

  // ---------- Whole runs ----------

  // A buffer with what went out so far: the slots sent and the messages.
  datatype Trace = Trace(buf: Buf, sent: seq<Slot>, out: seq<Message>)

  function FlushOnce(t: Trace): Trace {
    Trace(Flushed(t.buf), t.sent + Going(t.buf), t.out + Messages(t.buf))
  }

  // modebuf_flush: until no slot is left.
  function FlushAll(t: Trace): Trace
    requires AllShort(t.buf)
    decreases Rank(t.buf)
  {
    var u := FlushOnce(t);
    if u.buf.slots == [] then u
    else
      FlushKeeps(t.buf);
      assert t.buf.slots != [];
      ShortFlush(t.buf);
      FlushAll(u)
  }

  // How many slots may wait; the order to deop takes one.
  function Capacity(d: Dest): nat {
    MAXMODEPARAMS - if d.deop then 1 else 0
  }

  function Queue(t: Trace, s: Slot): Trace {
    var u := t.(buf := t.buf.(slots := t.buf.slots + [s]));
    if |u.buf.slots| >= Capacity(u.buf.dest) then FlushOnce(u) else u
  }

  // Modes without argument; the last word on a mode counts.
  function SetModes(b: Buf, plus: bool, modes: set<char>): Buf {
    if modes == {} then b
    else if plus then b.(rem := b.rem - modes, add := b.add + modes)
    else b.(add := b.add - modes, rem := b.rem + modes)
  }

  datatype Op = Modes(plus: bool, modes: set<char>) | Arg(slot: Slot) | Flush

  // Every waiting argument fits a fresh line and there is room for one more slot.
  ghost predicate Roomy(b: Buf) {
    |b.slots| < Capacity(b.dest) && forall s | s in b.slots :: Cost(s.arg, b.dest.nokey) < Room(b.dest)
  }

  lemma RoomyIsShort(b: Buf)
    requires Roomy(b)
    ensures AllShort(b)
  {
  }

  lemma FlushOnceRoomy(b: Buf)
    requires |b.slots| <= Capacity(b.dest)
    requires forall s | s in b.slots :: Cost(s.arg, b.dest.nokey) < Room(b.dest)
    ensures Roomy(Flushed(b)) && Room(Flushed(b).dest) >= Room(b.dest)
  {
    FlushKeeps(b);
    if b.slots != [] { assert b.slots[0] in b.slots; }
  }

  ghost predicate ShortOp(op: Op, d: Dest) {
    op.Arg? ==> Cost(op.slot.arg, d.nokey) < Room(d)
  }

  function Do(t: Trace, op: Op): Trace
    requires Roomy(t.buf)
  {
    match op
    case Modes(plus, modes) => t.(buf := SetModes(t.buf, plus, modes))
    case Arg(slot) => Queue(t, slot)
    case Flush => RoomyIsShort(t.buf); FlushAll(t)
  }

  // After any operation there is again room for a slot, so the six are never overrun.
  lemma DoKeepsRoomy(t: Trace, op: Op)
    requires Roomy(t.buf) && ShortOp(op, t.buf.dest)
    ensures Roomy(Do(t, op).buf)
    ensures Do(t, op).buf.dest.nokey == t.buf.dest.nokey && Room(Do(t, op).buf.dest) >= Room(t.buf.dest)
  {
    match op
    case Modes(plus, modes) =>
    case Arg(slot) =>
      var b := t.buf.(slots := t.buf.slots + [slot]);
      FlushOnceRoomy(b);
      FlushKeeps(b);
    case Flush =>
      RoomyIsShort(t.buf);
      FlushAllRoomy(t);
  }

  lemma {:induction false} FlushAllRoomy(t: Trace)
    requires AllShort(t.buf)
    ensures FlushAll(t).buf.slots == [] && FlushAll(t).buf.dest.nokey == t.buf.dest.nokey
    ensures Room(FlushAll(t).buf.dest) >= Room(t.buf.dest)
    decreases Rank(t.buf)
  {
    var u := FlushOnce(t);
    FlushKeeps(t.buf);
    if u.buf.slots != [] {
      ShortFlush(t.buf);
      FlushAllRoomy(u);
    }
  }

  // How often a slot was sent or is waiting.
  ghost function Copies(t: Trace, s: Slot): nat {
    multiset(t.sent)[s] + multiset(t.buf.slots)[s]
  }

  lemma FlushOnceConserves(t: Trace, s: Slot)
    ensures Copies(FlushOnce(t), s) == Copies(t, s)
  {
    SplitConserves(t.buf.slots, t.buf.dest.nokey, Room(t.buf.dest), s);
  }

  lemma {:induction false} FlushAllConserves(t: Trace, s: Slot)
    requires AllShort(t.buf)
    ensures Copies(FlushAll(t), s) == Copies(t, s)
    decreases Rank(t.buf)
  {
    var u := FlushOnce(t);
    FlushOnceConserves(t, s);
    FlushKeeps(t.buf);
    if u.buf.slots != [] {
      ShortFlush(t.buf);
      FlushAllConserves(u, s);
    }
  }

  lemma DoConserves(t: Trace, op: Op, s: Slot)
    requires Roomy(t.buf)
    ensures Copies(Do(t, op), s) == Copies(t, s) + if op == Op.Arg(s) then 1 else 0
  {
    match op
    case Modes(plus, modes) =>
    case Arg(slot) =>
      var u := t.(buf := t.buf.(slots := t.buf.slots + [slot]));
      assert Copies(u, s) == Copies(t, s) + if slot == s then 1 else 0;
      FlushOnceConserves(u, s);
    case Flush =>
      RoomyIsShort(t.buf);
      FlushAllConserves(t, s);
  }

  ghost predicate ShortOps(ops: seq<Op>, d: Dest) {
    forall op | op in ops :: ShortOp(op, d)
  }

  function Run(t: Trace, ops: seq<Op>): Trace
    requires Roomy(t.buf) && ShortOps(ops, t.buf.dest)
    decreases |ops|
  {
    if ops == [] then t
    else
      assert ops[0] in ops && forall op | op in ops[1..] :: op in ops;
      DoKeepsRoomy(t, ops[0]);
      Run(Do(t, ops[0]), ops[1..])
  }

  lemma ShortTail(t: Trace, ops: seq<Op>)
    requires Roomy(t.buf) && ops != [] && ShortOps(ops, t.buf.dest)
    ensures ShortOp(ops[0], t.buf.dest) && Roomy(Do(t, ops[0]).buf) && ShortOps(ops[1..], Do(t, ops[0]).buf.dest)
  {
    hide Roomy, Do;
    assert ops[0] in ops && forall op | op in ops[1..] :: op in ops;
    DoKeepsRoomy(t, ops[0]);
  }

  lemma FlushLeavesNone(t: Trace)
    requires Roomy(t.buf)
    ensures Do(t, Flush).buf.slots == []
  {
    RoomyIsShort(t.buf);
    FlushAllRoomy(t);
  }

  // Over any run every argument queued is sent or still waiting, exactly once; after a flush none
  // waits; and there is always room for one more.
  lemma {:induction false} RunConserves(t: Trace, ops: seq<Op>, s: Slot)
    requires Roomy(t.buf) && ShortOps(ops, t.buf.dest)
    ensures Copies(Run(t, ops), s) == Copies(t, s) + multiset(ops)[Op.Arg(s)]
    ensures Roomy(Run(t, ops).buf)
    ensures ops != [] && ops[|ops| - 1] == Flush ==> Run(t, ops).buf.slots == []
    decreases |ops|
  {
    hide Roomy, Do, Copies, ShortOps, ShortOp;
    if ops != [] {
      ShortTail(t, ops);
      DoConserves(t, ops[0], s);
      assert ops == [ops[0]] + ops[1..];
      if ops == [Flush] { FlushLeavesNone(t); }
      RunConserves(Do(t, ops[0]), ops[1..], s);
    }
  }
}
