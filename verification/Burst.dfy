// The burst of a channel to a new server: members and bans over as many messages as it takes
// (ircd/channel.c, send_channel_modes).
module Burst {
  import opened Common

  datatype Flags = Flags(op: bool, half: bool, voice: bool)

  const NONE := Flags(false, false, false)

  // The order in which members are listed, one pass for each combination.
  const GROUPS: seq<Flags> := [
    NONE, Flags(false, false, true), Flags(false, true, false), Flags(true, false, false),
    Flags(true, false, true), Flags(true, true, false), Flags(false, true, true), Flags(true, true, true)
  ]

  const NUMNICKLEN := 5

  datatype Member = Member(numeric: string, flags: Flags)

  // A member on the line, with the modes that follow its name, if any.
  datatype Entry = Entry(numeric: string, suffix: string)

  datatype Message = Message(entries: seq<Entry>, bans: seq<string>)

  ghost predicate ValidMember(m: Member) {
    |m.numeric| == NUMNICKLEN && m.numeric[0] != ':'
  }

  // ---------- The text of a message, after its prefix ----------

  function Suffix(f: Flags): string {
    ":" + (if f.op then "o" else "") + (if f.half then "h" else "") + (if f.voice then "v" else "")
  }

  function NickText(entries: seq<Entry>, first: bool): string {
    if entries == [] then ""
    else [if first then ' ' else ','] + entries[0].numeric + entries[0].suffix + NickText(entries[1..], false)
  }

  // The first ban follows " :%"; `vfirst` and `first` are both set before it and cleared by it.
  function BanText(bans: seq<string>, first: bool): string {
    if bans == [] then ""
    else (if first then " :%" else " ") + bans[0] + BanText(bans[1..], false)
  }

  function Text(m: Message): string {
    NickText(m.entries, true) + BanText(m.bans, true)
  }

  // ---------- Reading a message ----------

  function ModeLetters(s: string): nat
    ensures ModeLetters(s) <= |s|
  {
    if s != "" && s[0] in "ohv" then 1 + ModeLetters(s[1..]) else 0
  }

  // Names of five characters, each perhaps followed by ':' and modes.
  function ReadNicks(text: string, first: bool): (seq<Entry>, string)
    decreases |text|
  {
    if |text| < 6 || text[0] != (if first then ' ' else ',') || text[1] == ':' then ([], text)
    else
      var numeric, rest := text[1..6], text[6..];
      var k := if rest != "" && rest[0] == ':' then 1 + ModeLetters(rest[1..]) else 0;
      var (entries, left) := ReadNicks(rest[k..], false);
      ([Entry(numeric, rest[..k])] + entries, left)
  }

  function Word(s: string): nat
    ensures Word(s) <= |s|
  {
    if s == "" || s[0] == ' ' then 0 else 1 + Word(s[1..])
  }

  function ReadBans(text: string): seq<string>
    decreases |text|
  {
    if text == "" || text[0] != ' ' then []
    else
      var rest := text[1..];
      [rest[..Word(rest)]] + ReadBans(rest[Word(rest)..])
  }

  function Read(text: string): Message {
    var (entries, rest) := ReadNicks(text, true);
    Message(entries, if |rest| >= 3 && rest[..3] == " :%" then ReadBans(" " + rest[3..]) else [])
  }

  ghost predicate ValidEntry(e: Entry) {
    |e.numeric| == NUMNICKLEN && e.numeric[0] != ':' && (e.suffix == "" || exists f :: f != NONE && e.suffix == Suffix(f))
  }

  // What may follow the names: nothing, or the bans.
  ghost predicate EndsNicks(rest: string) {
    rest == "" || (|rest| >= 2 && rest[0] == ' ' && rest[1] == ':')
  }

  lemma {:induction false} LettersCount(letters: string, rest: string)
    requires forall c | c in letters :: c in "ohv"
    requires rest == "" || rest[0] == ',' || rest[0] == ' '
    ensures ModeLetters(letters + rest) == |letters|
  {
    if letters == "" {
      assert letters + rest == rest;
    } else {
      assert letters[0] in letters;
      LettersCount(letters[1..], rest);
      assert (letters + rest)[1..] == letters[1..] + rest;
    }
  }

  lemma LettersStop(f: Flags, rest: string)
    requires rest == "" || rest[0] == ',' || rest[0] == ' '
    ensures ModeLetters(Suffix(f)[1..] + rest) == |Suffix(f)| - 1
  {
    LettersCount(Suffix(f)[1..], rest);
  }

  lemma SuffixLength(e: Entry, more: string)
    requires ValidEntry(e) && (more == "" || more[0] == ',' || more[0] == ' ')
    ensures var rest := e.suffix + more;
      (if rest != "" && rest[0] == ':' then 1 + ModeLetters(rest[1..]) else 0) == |e.suffix|
  {
    var rest := e.suffix + more;
    if e.suffix == "" {
      assert rest == more;
    } else {
      var f :| f != NONE && e.suffix == Suffix(f);
      assert rest[0] == ':' && rest[1..] == Suffix(f)[1..] + more;
      LettersStop(f, more);
    }
  }

  // One name in front of a text that goes on with a comma, with the bans, or not at all.
  lemma ReadOne(e: Entry, first: bool, more: string)
    requires ValidEntry(e) && (more == "" || more[0] == ',' || more[0] == ' ')
    ensures var text := [if first then ' ' else ','] + e.numeric + e.suffix + more;
      var (es, left) := ReadNicks(more, false);
      ReadNicks(text, first) == ([e] + es, left)
  {
    var text := [if first then ' ' else ','] + e.numeric + e.suffix + more;
    assert text[0] == (if first then ' ' else ',') && text[1] == e.numeric[0];
    assert text[1..6] == e.numeric && text[6..] == e.suffix + more;
    var rest := text[6..];
    var k := if rest != "" && rest[0] == ':' then 1 + ModeLetters(rest[1..]) else 0;
    SuffixLength(e, more);
    hide ModeLetters, ValidEntry, Suffix;
    assert k == |e.suffix|;
    assert rest[..k] == e.suffix && rest[k..] == more;
  }

  lemma NickSplit(entries: seq<Entry>, first: bool)
    requires entries != []
    ensures entries == [entries[0]] + entries[1..]
    ensures NickText(entries, first) ==
      [if first then ' ' else ','] + entries[0].numeric + entries[0].suffix + NickText(entries[1..], false)
  {
  }

  lemma FirstNick(entries: seq<Entry>, first: bool, rest: string)
    requires entries != []
    ensures NickText(entries, first) + rest ==
      [if first then ' ' else ','] + entries[0].numeric + entries[0].suffix + (NickText(entries[1..], false) + rest)
    ensures entries == [entries[0]] + entries[1..]
  {
    var here, tail := [if first then ' ' else ','] + entries[0].numeric + entries[0].suffix, NickText(entries[1..], false);
    NickSplit(entries, first);
    hide NickText;
    Assoc(here, tail, rest);
  }

  lemma MoreStarts(entries: seq<Entry>, rest: string)
    requires EndsNicks(rest)
    ensures var more := NickText(entries, false) + rest; more == "" || more[0] == ',' || more[0] == ' '
  {
  }

  lemma {:induction false} ReadNicksBack(entries: seq<Entry>, first: bool, rest: string)
    requires (forall e | e in entries :: ValidEntry(e)) && EndsNicks(rest)
    ensures ReadNicks(NickText(entries, first) + rest, first) == (entries, rest)
  {
    if entries == [] {
      assert NickText(entries, first) + rest == rest;
    } else {
      hide NickText, ReadNicks, EndsNicks, ValidEntry;
      var e, more := entries[0], NickText(entries[1..], false) + rest;
      assert e in entries && forall x | x in entries[1..] :: x in entries;
      ReadNicksBack(entries[1..], false, rest);
      MoreStarts(entries[1..], rest);
      ReadOne(e, first, more);
      FirstNick(entries, first, rest);
    }
  }

  lemma {:induction false} WordStops(w: string, rest: string)
    requires ' ' !in w && (rest == "" || rest[0] == ' ')
    ensures Word(w + rest) == |w|
  {
    if w == "" {
      assert w + rest == rest;
    } else {
      WordStops(w[1..], rest);
      assert (w + rest)[1..] == w[1..] + rest;
    }
  }

  lemma {:induction false} ReadBansBack(bans: seq<string>)
    requires forall b | b in bans :: ' ' !in b
    ensures ReadBans(BanText(bans, false)) == bans
  {
    if bans != [] {
      var text, more := BanText(bans, false), BanText(bans[1..], false);
      assert bans[0] in bans;
      ReadBansBack(bans[1..]);
      assert text[1..] == bans[0] + more;
      WordStops(bans[0], more);
      assert (bans[0] + more)[..|bans[0]|] == bans[0] && (bans[0] + more)[|bans[0]|..] == more;
      assert bans == [bans[0]] + bans[1..];
    }
  }

  lemma ReadBanPart(bans: seq<string>)
    requires forall b | b in bans :: ' ' !in b
    ensures var rest := BanText(bans, true);
      && EndsNicks(rest)
      && (if |rest| >= 3 && rest[..3] == " :%" then ReadBans(" " + rest[3..]) else []) == bans
  {
    if bans != [] {
      var rest, tail := BanText(bans, true), bans[0] + BanText(bans[1..], false);
      assert rest == " :%" + tail;
      assert rest[..3] == " :%" && rest[3..] == tail;
      assert " " + tail == BanText(bans, false);
      ReadBansBack(bans);
    }
  }

  // A message can be read back.
  lemma ReadUndoesText(m: Message)
    requires Readable(m) && (forall b | b in m.bans :: ' ' !in b)
    ensures Read(Text(m)) == m
  {
    ReadBanPart(m.bans);
    ReadNicksBack(m.entries, true, BanText(m.bans, true));
    hide ReadNicks, ReadBans, BanText, NickText;
  }

  // ---------- Which modes are written, and what they say ----------

  // A member is written with its modes when they are not those of the member before it on the line.
  function EntriesOf(ms: seq<Member>, prev: Flags): seq<Entry> {
    if ms == [] then []
    else
      [Entry(ms[0].numeric, if ms[0].flags != prev && ms[0].flags != NONE then Suffix(ms[0].flags) else "")] +
      EntriesOf(ms[1..], ms[0].flags)
  }

  function FlagsOf(suffix: string): Flags {
    Flags('o' in suffix, 'h' in suffix, 'v' in suffix)
  }

  // The reader lets a name without modes inherit those of the name before it.
  function Decode(entries: seq<Entry>, prev: Flags): seq<Member> {
    if entries == [] then []
    else
      var f := if entries[0].suffix == "" then prev else FlagsOf(entries[0].suffix);
      [Member(entries[0].numeric, f)] + Decode(entries[1..], f)
  }

  // Members without modes stand before all others.
  ghost predicate NoneFirst(ms: seq<Member>) {
    forall i, j :: 0 <= i < j < |ms| && ms[j].flags == NONE ==> ms[i].flags == NONE
  }

  lemma SuffixSays(f: Flags)
    ensures FlagsOf(Suffix(f)) == f && Suffix(f) != ""
  {
    var s := Suffix(f);
    var n1 := 1 + if f.op then 1 else 0;
    var n2 := n1 + if f.half then 1 else 0;
    assert f.op ==> s[1] == 'o';
    assert f.half ==> s[n1] == 'h';
    assert f.voice ==> s[n2] == 'v';
    assert forall i :: 0 <= i < |s| ==> s[i] == ':' || (f.op && s[i] == 'o') || (f.half && s[i] == 'h') || (f.voice && s[i] == 'v');
  }

  lemma NoneFirstTail(ms: seq<Member>)
    requires NoneFirst(ms) && ms != []
    ensures NoneFirst(ms[1..])
    ensures ms[0].flags != NONE ==> forall m | m in ms[1..] :: m.flags != NONE
  {
    assert forall j :: 0 <= j < |ms[1..]| ==> ms[1..][j] == ms[j + 1];
  }

  lemma DecodeStep(ms: seq<Member>, prev: Flags)
    requires ms != [] && (prev != NONE ==> ms[0].flags != NONE)
    ensures Decode(EntriesOf(ms, prev), prev) == [ms[0]] + Decode(EntriesOf(ms[1..], ms[0].flags), ms[0].flags)
  {
    SuffixSays(ms[0].flags);
    hide Suffix, FlagsOf;
    assert EntriesOf(ms, prev)[1..] == EntriesOf(ms[1..], ms[0].flags);
  }

  lemma {:induction false} DecodeEntries(ms: seq<Member>, prev: Flags)
    requires NoneFirst(ms) && (prev != NONE ==> forall m | m in ms :: m.flags != NONE)
    ensures Decode(EntriesOf(ms, prev), prev) == ms
  {
    if ms != [] {
      assert ms[0] in ms;
      NoneFirstTail(ms);
      DecodeStep(ms, prev);
      hide Decode, EntriesOf, NoneFirst;
      DecodeEntries(ms[1..], ms[0].flags);
    }
  }

  function Last(ms: seq<Member>, prev: Flags): Flags {
    if ms == [] then prev else ms[|ms| - 1].flags
  }

  lemma {:induction false} EntriesPush(ms: seq<Member>, m: Member, prev: Flags)
    ensures EntriesOf(ms + [m], prev) ==
      EntriesOf(ms, prev) +
      [Entry(m.numeric, if m.flags != Last(ms, prev) && m.flags != NONE then Suffix(m.flags) else "")]
  {
    if ms == [] {
      assert ([] + [m])[1..] == [];
    } else {
      EntriesPush(ms[1..], m, ms[0].flags);
      assert (ms + [m])[1..] == ms[1..] + [m];
      assert Last(ms, prev) == Last(ms[1..], ms[0].flags);
    }
  }

  lemma {:induction false} NickTextPush(es: seq<Entry>, e: Entry, first: bool)
    ensures |NickText(es + [e], first)| == |NickText(es, first)| + 1 + |e.numeric| + |e.suffix|
  {
    if es == [] {
      assert ([] + [e])[1..] == [];
    } else {
      NickTextPush(es[1..], e, false);
      assert (es + [e])[1..] == es[1..] + [e];
    }
  }

  lemma {:induction false} BanTextPush(bans: seq<string>, b: string, first: bool)
    ensures |BanText(bans + [b], first)| == |BanText(bans, first)| + |b| + if bans == [] && first then 3 else 1
  {
    if bans == [] {
      assert ([] + [b])[1..] == [];
    } else {
      BanTextPush(bans[1..], b, false);
      assert (bans + [b])[1..] == bans[1..] + [b];
    }
  }

  // ---------- The order of the members ----------

  function Filter(ms: seq<Member>, f: Flags): seq<Member> {
    if ms == [] then [] else (if ms[0].flags == f then [ms[0]] else []) + Filter(ms[1..], f)
  }

  // The passes from group `g` on.
  function Later(ms: seq<Member>, g: nat): seq<Member>
    decreases |GROUPS| - g
  {
    if g >= |GROUPS| then [] else Filter(ms, GROUPS[g]) + Later(ms, g + 1)
  }

  // What is left to list in group `g` from the `i`-th member on, and in the later groups.
  function Pending(ms: seq<Member>, g: nat, i: nat): seq<Member>
    requires i <= |ms|
  {
    if g >= |GROUPS| then [] else Filter(ms[i..], GROUPS[g]) + Later(ms, g + 1)
  }

  function GroupOf(f: Flags): (g: nat)
    ensures g < |GROUPS| && forall k :: 0 <= k < |GROUPS| ==> (GROUPS[k] == f <==> k == g)
  {
    if f == GROUPS[0] then 0 else if f == GROUPS[1] then 1 else if f == GROUPS[2] then 2
    else if f == GROUPS[3] then 3 else if f == GROUPS[4] then 4 else if f == GROUPS[5] then 5
    else if f == GROUPS[6] then 6 else 7
  }

  lemma {:induction false} FilterCounts(ms: seq<Member>, f: Flags, m: Member)
    ensures multiset(Filter(ms, f))[m] == if m.flags == f then multiset(ms)[m] else 0
  {
    if ms != [] {
      assert ms == [ms[0]] + ms[1..];
      FilterCounts(ms[1..], f, m);
    }
  }

  lemma {:induction false} LaterCounts(ms: seq<Member>, g: nat, m: Member)
    ensures multiset(Later(ms, g))[m] == if GroupOf(m.flags) >= g then multiset(ms)[m] else 0
    decreases |GROUPS| - g
  {
    if g < |GROUPS| {
      FilterCounts(ms, GROUPS[g], m);
      LaterCounts(ms, g + 1, m);
    }
  }

  // Every member is listed exactly once.
  lemma ScheduleIsPermutation(ms: seq<Member>)
    ensures multiset(Pending(ms, 0, 0)) == multiset(ms)
  {
    assert ms[0..] == ms;
    assert Pending(ms, 0, 0) == Later(ms, 0);
    forall m: Member ensures multiset(Later(ms, 0))[m] == multiset(ms)[m] { LaterCounts(ms, 0, m); }
  }

  lemma PendingStep(ms: seq<Member>, g: nat, i: nat)
    requires g < |GROUPS| && i < |ms|
    ensures Pending(ms, g, i) == (if ms[i].flags == GROUPS[g] then [ms[i]] else []) + Pending(ms, g, i + 1)
  {
    assert ms[i..][0] == ms[i] && ms[i..][1..] == ms[i + 1..];
    var here, rest := if ms[i].flags == GROUPS[g] then [ms[i]] else [], Filter(ms[i + 1..], GROUPS[g]);
    assert Filter(ms[i..], GROUPS[g]) == here + rest;
    hide Filter, Later;
    Assoc(here, rest, Later(ms, g + 1));
  }

  lemma PendingNext(ms: seq<Member>, g: nat)
    requires g < |GROUPS|
    ensures Pending(ms, g, |ms|) == Pending(ms, g + 1, 0)
  {
    assert ms[|ms|..] == [] && ms[0..] == ms;
    assert [] + Later(ms, g + 1) == Later(ms, g + 1);
  }

  // ---------- The code ----------

  // Where the walk over the members stands: the pass, the member, and whether the next name needs
  // its modes.
  datatype Place = Place(pass: nat, next: nat, newMode: bool)

  // The names of one line: `page` is what they stand for.
  ghost predicate PageOk(page: seq<Member>, entries: seq<Entry>, p: Place) {
    && entries == EntriesOf(page, NONE) && NoneFirst(page)
    && (forall m | m in page :: GroupOf(m.flags) <= p.pass)
    && (0 < p.pass < |GROUPS| ==> (p.newMode <==> Last(page, NONE) != GROUPS[p.pass]))
  }

  lemma PagePush(page: seq<Member>, entries: seq<Entry>, p: Place, m: Member)
    requires PageOk(page, entries, p) && p.pass < |GROUPS| && m.flags == GROUPS[p.pass]
    ensures PageOk(page + [m], entries + [Named(m, p.newMode)], p.(newMode := false))
  {
    EntriesPush(page, m, NONE);
    assert forall x | x in page + [m] :: x in page || x == m;
    assert GroupOf(m.flags) == p.pass && (p.pass > 0 <==> m.flags != NONE);
    assert p.pass == 0 ==> forall x | x in page :: x.flags == NONE;
    hide EntriesOf, Suffix, GroupOf;
  }

  // After a pass the next one starts with a name that needs its modes.
  lemma PageNext(page: seq<Member>, entries: seq<Entry>, p: Place)
    requires PageOk(page, entries, p) && p.pass < |GROUPS|
    ensures PageOk(page, entries, Place(p.pass + 1, 0, true))
  {
    if page != [] && p.pass + 1 < |GROUPS| {
      var m := page[|page| - 1];
      assert m in page && GroupOf(m.flags) <= p.pass;
    }
  }

  function Named(m: Member, newMode: bool): Entry {
    Entry(m.numeric, if newMode && m.flags != NONE then Suffix(m.flags) else "")
  }

  lemma NamedFits(m: Member, newMode: bool)
    requires ValidMember(m)
    ensures ValidEntry(Named(m, newMode)) && 1 + |m.numeric| + |Named(m, newMode).suffix| <= NUMNICKLEN + 5
  {
  }

  // The names of one line so far, and where the walk stands.
  ghost predicate Filling(ms: seq<Member>, all: seq<Member>, page: seq<Member>, entries: seq<Entry>, p: Place, left: nat, room: nat) {
    && p.pass <= |GROUPS| && p.next <= |ms| && PageOk(page, entries, p)
    && page + Pending(ms, p.pass, p.next) == all
    && (forall e | e in entries :: ValidEntry(e))
    && |NickText(entries, true)| + left == room
  }

  lemma FillSkip(ms: seq<Member>, all: seq<Member>, page: seq<Member>, entries: seq<Entry>, p: Place, left: nat, room: nat)
    requires Filling(ms, all, page, entries, p, left, room) && p.pass < |GROUPS| && p.next < |ms|
    requires ms[p.next].flags != GROUPS[p.pass]
    ensures Filling(ms, all, page, entries, p.(next := p.next + 1), left, room)
  {
    PendingStep(ms, p.pass, p.next);
    assert [] + Pending(ms, p.pass, p.next + 1) == Pending(ms, p.pass, p.next + 1);
    hide Pending, NickText, ValidEntry, EntriesOf, GroupOf, NoneFirst;
  }

  lemma FillName(ms: seq<Member>, all: seq<Member>, page: seq<Member>, entries: seq<Entry>, p: Place, left: nat, room: nat)
    requires Filling(ms, all, page, entries, p, left, room) && p.pass < |GROUPS| && p.next < |ms|
    requires ms[p.next].flags == GROUPS[p.pass] && ValidMember(ms[p.next]) && left >= NUMNICKLEN + 5
    ensures var m := ms[p.next];
      var e := Named(m, p.newMode);
      && 1 + |e.numeric| + |e.suffix| <= left
      && Filling(ms, all, page + [m], entries + [e], Place(p.pass, p.next + 1, false), left - (1 + |e.numeric| + |e.suffix|), room)
  {
    hide Pending, NickText, EntriesOf, GroupOf, ValidEntry, PageOk, ValidMember, Named;
    var m, e := ms[p.next], Named(ms[p.next], p.newMode);
    PendingStep(ms, p.pass, p.next);
    PagePush(page, entries, p, m);
    PageNextFrame(page + [m], entries + [e], p.pass, p.next, p.next + 1, false);
    NickTextPush(entries, e, true);
    NamedFits(m, p.newMode);
    NamedNumeric(m, p.newMode);
    Assoc(page, [m], Pending(ms, p.pass, p.next + 1));
  }

  lemma NamedNumeric(m: Member, newMode: bool)
    ensures Named(m, newMode).numeric == m.numeric
  {
  }

  lemma PageNextFrame(page: seq<Member>, entries: seq<Entry>, pass: nat, i: nat, j: nat, newMode: bool)
    requires PageOk(page, entries, Place(pass, i, newMode))
    ensures PageOk(page, entries, Place(pass, j, newMode))
  {
  }

  lemma FillNext(ms: seq<Member>, all: seq<Member>, page: seq<Member>, entries: seq<Entry>, p: Place, left: nat, room: nat)
    requires Filling(ms, all, page, entries, p, left, room) && p.pass < |GROUPS| && p.next == |ms|
    ensures Filling(ms, all, page, entries, Place(p.pass + 1, 0, true), left, room)
  {
    PendingNext(ms, p.pass);
    PageNext(page, entries, p);
  }

  lemma FillStart(ms: seq<Member>, p: Place, room: nat)
    requires p.pass <= |GROUPS| && p.next <= |ms| && (0 < p.pass < |GROUPS| ==> p.newMode)
    ensures Filling(ms, Pending(ms, p.pass, p.next), [], [], p, room, room)
  {
    assert [] + Pending(ms, p.pass, p.next) == Pending(ms, p.pass, p.next);
  }

  lemma FillDone(ms: seq<Member>, all: seq<Member>, page: seq<Member>, entries: seq<Entry>, p: Place, left: nat, room: nat)
    requires Filling(ms, all, page, entries, p, left, room)
    ensures p.pass <= |GROUPS| && p.next <= |ms|
    ensures Decode(entries, NONE) + Pending(ms, p.pass, p.next) == all
    ensures (forall e | e in entries :: ValidEntry(e)) && |NickText(entries, true)| + left == room
  {
    DecodeEntries(page, NONE);
  }

  // Fills one line with names: goes on from place `p` until every member is listed or the line is
  // full.
  method FillNicks(ms: seq<Member>, p: Place, room: nat)
    returns (entries: seq<Entry>, q: Place, full: bool, left: nat)
    requires p.pass <= |GROUPS| && p.next <= |ms| && (0 < p.pass < |GROUPS| ==> p.newMode)
    requires forall m | m in ms :: ValidMember(m)
    ensures q.pass <= |GROUPS| && q.next <= |ms| && (0 < q.pass < |GROUPS| ==> q.newMode)
    ensures Decode(entries, NONE) + Pending(ms, q.pass, q.next) == Pending(ms, p.pass, p.next)
    ensures forall e | e in entries :: ValidEntry(e)
    ensures |NickText(entries, true)| + left == room
    ensures !full ==> q.pass == |GROUPS|
    ensures full ==> entries != [] || room < NUMNICKLEN + 5
    ensures room < NUMNICKLEN + 5 ==> entries == []
  {
    hide Filling, ValidMember, ValidEntry, Pending, Decode, NickText;
    entries, full, left := [], false, room;
    var pass: nat, next: nat, newMode := p.pass, p.next, p.newMode;
    ghost var page: seq<Member>, all := [], Pending(ms, p.pass, p.next);
    FillStart(ms, p, room);
    while pass < |GROUPS|
      invariant pass <= |GROUPS| && !full
      invariant Filling(ms, all, page, entries, Place(pass, next, newMode), left, room)
      invariant next <= |ms| && (entries == [] ==> left == room) && (room < NUMNICKLEN + 5 ==> entries == [])
      decreases |GROUPS| - pass
    {
      while next < |ms|
        invariant next <= |ms| && !full
        invariant Filling(ms, all, page, entries, Place(pass, next, newMode), left, room)
        invariant (entries == [] ==> left == room) && (room < NUMNICKLEN + 5 ==> entries == [])
        decreases |ms| - next
      {
        var m := ms[next];
        ghost var here := Place(pass, next, newMode);
        if m.flags != GROUPS[pass] {
          FillSkip(ms, all, page, entries, here, left, room);
          next := next + 1;
          continue;
        }
        if left < NUMNICKLEN + 5 {
          full := true;
          break;
        }
        FillName(ms, all, page, entries, here, left, room);
        var e := Named(m, newMode);
        entries, left := entries + [e], left - (1 + |e.numeric| + |e.suffix|);
        page := page + [m];
        newMode := false;
        next := next + 1;
      }
      if full { break; }
      FillNext(ms, all, page, entries, Place(pass, next, newMode), left, room);
      pass, next, newMode := pass + 1, 0, true;
    }
    FillDone(ms, all, page, entries, Place(pass, next, newMode), left, room);
    q := Place(pass, next, newMode || full);
  }

  // Adds bans to a line from the `b0`-th on, as long as they fit.
  method FillBans(bans: seq<string>, b0: nat, room: nat) returns (b: nat, full: bool)
    requires b0 <= |bans|
    ensures b0 <= b <= |bans| && |BanText(bans[b0..b], true)| <= room
    ensures full <==> b < |bans|
    ensures full && b == b0 ==> room < |bans[b]| + 3
  {
    hide BanText;
    b, full := b0, false;
    var left, first := room, 2;
    assert bans[b0..b0] == [];
    NoBans();
    while b < |bans|
      invariant b0 <= b <= |bans| && !full && left >= 0
      invariant |BanText(bans[b0..b], true)| + left == room && first == if b == b0 then 2 else 0
    {
      var len := |bans[b]|;
      if left < len + 1 + first {
        full := true;
        break;
      }
      BanTextPush(bans[b0..b], bans[b], true);
      assert bans[b0..b] + [bans[b]] == bans[b0..b + 1];
      left := left - (len + 1 + first);
      first := 0;
      b := b + 1;
    }
  }

  lemma NoBans()
    ensures BanText([], true) == ""
  {
  }

  // What the messages say, put together.
  function AllMembers(msgs: seq<Message>): seq<Member> {
    if msgs == [] then [] else AllMembers(msgs[..|msgs| - 1]) + Decode(msgs[|msgs| - 1].entries, NONE)
  }

  function AllBans(msgs: seq<Message>): seq<string> {
    if msgs == [] then [] else AllBans(msgs[..|msgs| - 1]) + msgs[|msgs| - 1].bans
  }

  ghost predicate Readable(m: Message) {
    forall e | e in m.entries :: ValidEntry(e)
  }

  // The lines as they are sent, and what they are read as.
  function Lines(msgs: seq<Message>): (r: seq<string>)
    ensures |r| == |msgs| && forall i :: 0 <= i < |msgs| ==> r[i] == Text(msgs[i])
  {
    if msgs == [] then [] else [Text(msgs[0])] + Lines(msgs[1..])
  }

  function ReadLines(lines: seq<string>): (r: seq<Message>)
    ensures |r| == |lines| && forall i :: 0 <= i < |lines| ==> r[i] == Read(lines[i])
  {
    if lines == [] then [] else [Read(lines[0])] + ReadLines(lines[1..])
  }

  lemma {:induction false} BansWithin(msgs: seq<Message>, i: nat, b: string)
    requires i < |msgs| && b in msgs[i].bans
    ensures b in AllBans(msgs)
  {
    var n := |msgs| - 1;
    if i < n {
      assert msgs[..n][i] == msgs[i];
      BansWithin(msgs[..n], i, b);
    }
  }

  // If no ban has a blank, the lines are read as the messages they stand for.
  lemma LinesReadBack(msgs: seq<Message>, bans: seq<string>)
    requires (forall m | m in msgs :: Readable(m)) && AllBans(msgs) == bans && forall b | b in bans :: ' ' !in b
    ensures ReadLines(Lines(msgs)) == msgs
  {
    hide Readable, Read, Text, AllBans;
    forall i | 0 <= i < |msgs| ensures Read(Text(msgs[i])) == msgs[i] {
      assert msgs[i] in msgs;
      forall b | b in msgs[i].bans ensures ' ' !in b { BansWithin(msgs, i, b); }
      ReadUndoesText(msgs[i]);
    }
  }

  // One message, as full as it gets.
  method OneMessage(ms: seq<Member>, bans: seq<string>, p: Place, b0: nat, room: nat)
    returns (m: Message, q: Place, b: nat, full: bool)
    requires p.pass <= |GROUPS| && p.next <= |ms| && (0 < p.pass < |GROUPS| ==> p.newMode) && b0 <= |bans|
    requires forall m | m in ms :: ValidMember(m)
    ensures q.pass <= |GROUPS| && q.next <= |ms| && (0 < q.pass < |GROUPS| ==> q.newMode) && b0 <= b <= |bans|
    ensures Decode(m.entries, NONE) + Pending(ms, q.pass, q.next) == Pending(ms, p.pass, p.next)
    ensures m.bans == bans[b0..b] && Readable(m) && |Text(m)| <= room
    ensures !full ==> q.pass == |GROUPS| && b == |bans|
    ensures full ==> m.entries != [] || b > b0 || room < NUMNICKLEN + 5 || (b < |bans| && room < |bans[b]| + 3)
  {
    hide Pending, Decode, Text, ValidMember, ValidEntry, BanText, NickText;
    var entries, left;
    b := b0;
    entries, q, full, left := FillNicks(ms, p, room);
    if !full { b, full := FillBans(bans, b, left); }
    m := Message(entries, bans[b0..b]);
    assert bans[b0..b0] == [];
    NoBans();
    NoNicks();
    MessageFits(m, room, left);
  }

  lemma NoNicks()
    ensures NickText([], true) == ""
  {
  }

  // The whole burst: `firstRoom` is what the first message has left after the channel's modes, `room`
  // what every later one has.
  method SendChannelModes(ms: seq<Member>, bans: seq<string>, firstRoom: nat, room: nat) returns (msgs: seq<Message>)
    requires forall m | m in ms :: ValidMember(m)
    requires room >= NUMNICKLEN + 5 && forall b | b in bans :: |b| + 3 <= room
    ensures |msgs| > 0 && |Text(msgs[0])| <= firstRoom
    ensures forall i :: 0 < i < |msgs| ==> |Text(msgs[i])| <= room
    ensures forall m | m in msgs :: Readable(m)
    ensures AllMembers(msgs) == Pending(ms, 0, 0) && multiset(AllMembers(msgs)) == multiset(ms)
    ensures AllBans(msgs) == bans
    ensures (forall b | b in bans :: ' ' !in b) ==>
      var read := ReadLines(Lines(msgs)); multiset(AllMembers(read)) == multiset(ms) && AllBans(read) == bans
  {
    hide Pending, Decode, Text, ValidMember, Readable, AllMembers, AllBans, Sound, Lines, ReadLines, Read;
    msgs := [];
    var p, b, full, space := Place(0, 0, false), 0, true, firstRoom;
    StartMessages(ms, bans, firstRoom, room);
    while full
      invariant p.pass <= |GROUPS| && p.next <= |ms| && (0 < p.pass < |GROUPS| ==> p.newMode) && b <= |bans|
      invariant Sound(ms, bans, msgs, p, b, firstRoom, room)
      invariant !full ==> p.pass == |GROUPS| && b == |bans| && msgs != []
      invariant space == (if msgs == [] then firstRoom else room)
      decreases full, msgs == [], |Pending(ms, p.pass, p.next)| + |bans| - b
    {
      ghost var q := p;
      var m, b0 := Message([], []), b;
      m, p, b, full := OneMessage(ms, bans, p, b, space);
      MessageAdds(ms, bans, msgs, m, q, p, b0, b, firstRoom, room);
      msgs, space := msgs + [m], room;
    }
    EndMessages(ms, bans, msgs, p, firstRoom, room);
    if forall b | b in bans :: ' ' !in b { LinesReadBack(msgs, bans); }
  }

  // The messages so far are sound, and with what is left to list they make up the channel.
  ghost predicate Sound(ms: seq<Member>, bans: seq<string>, msgs: seq<Message>, p: Place, b: nat, firstRoom: nat, room: nat) {
    && p.next <= |ms| && b <= |bans|
    && AllMembers(msgs) + Pending(ms, p.pass, p.next) == Pending(ms, 0, 0)
    && AllBans(msgs) + bans[b..] == bans
    && (forall i :: 0 <= i < |msgs| ==> |Text(msgs[i])| <= if i == 0 then firstRoom else room)
    && (forall m | m in msgs :: Readable(m))
  }

  lemma MessageAdds(ms: seq<Member>, bans: seq<string>, msgs: seq<Message>, m: Message, q: Place, p: Place, b0: nat, b: nat,
                    firstRoom: nat, room: nat)
    requires Sound(ms, bans, msgs, q, b0, firstRoom, room) && q.next <= |ms|
    requires p.next <= |ms| && b0 <= b <= |bans| && m.bans == bans[b0..b] && Readable(m)
    requires Decode(m.entries, NONE) + Pending(ms, p.pass, p.next) == Pending(ms, q.pass, q.next)
    requires |Text(m)| <= if msgs == [] then firstRoom else room
    ensures Sound(ms, bans, msgs + [m], p, b, firstRoom, room)
    ensures |Pending(ms, p.pass, p.next)| <= |Pending(ms, q.pass, q.next)|
    ensures m.entries != [] ==> |Pending(ms, p.pass, p.next)| < |Pending(ms, q.pass, q.next)|
  {
    hide Pending, Decode, Text, Readable, AllMembers, AllBans;
    MembersAdd(msgs, m, Pending(ms, p.pass, p.next), Pending(ms, q.pass, q.next));
    BansAdd(bans, msgs, m, b0, b);
  }

  lemma StartMessages(ms: seq<Member>, bans: seq<string>, firstRoom: nat, room: nat)
    ensures Sound(ms, bans, [], Place(0, 0, false), 0, firstRoom, room)
  {
    hide Pending;
    assert [] + Pending(ms, 0, 0) == Pending(ms, 0, 0);
  }

  lemma EndMessages(ms: seq<Member>, bans: seq<string>, msgs: seq<Message>, p: Place, firstRoom: nat, room: nat)
    requires Sound(ms, bans, msgs, p, |bans|, firstRoom, room) && p.pass == |GROUPS|
    ensures AllMembers(msgs) == Pending(ms, 0, 0) && multiset(AllMembers(msgs)) == multiset(ms) && AllBans(msgs) == bans
    ensures forall i :: 0 <= i < |msgs| ==> |Text(msgs[i])| <= if i == 0 then firstRoom else room
    ensures forall m | m in msgs :: Readable(m)
  {
    assert Pending(ms, p.pass, p.next) == [];
    hide Pending, AllMembers, AllBans, Text, Readable;
    ScheduleIsPermutation(ms);
    assert AllMembers(msgs) + [] == AllMembers(msgs) && AllBans(msgs) + bans[|bans|..] == AllBans(msgs);
  }

  lemma MembersAdd(msgs: seq<Message>, m: Message, after: seq<Member>, before: seq<Member>)
    requires Decode(m.entries, NONE) + after == before
    ensures AllMembers(msgs + [m]) + after == AllMembers(msgs) + before
    ensures |after| <= |before| && (m.entries != [] ==> |after| < |before|)
  {
    assert (msgs + [m])[..|msgs|] == msgs;
    assert AllMembers(msgs + [m]) == AllMembers(msgs) + Decode(m.entries, NONE);
    assert |Decode(m.entries, NONE)| > 0 <==> m.entries != [];
    hide AllMembers, Decode;
    Assoc(AllMembers(msgs), Decode(m.entries, NONE), after);
  }

  lemma BansAdd(bans: seq<string>, msgs: seq<Message>, m: Message, b0: nat, b: nat)
    requires b0 <= b <= |bans| && m.bans == bans[b0..b] && AllBans(msgs) + bans[b0..] == bans
    ensures AllBans(msgs + [m]) + bans[b..] == bans
  {
    assert (msgs + [m])[..|msgs|] == msgs;
    assert AllBans(msgs + [m]) == AllBans(msgs) + m.bans;
    hide AllBans;
    Assoc(AllBans(msgs), m.bans, bans[b..]);
    assert bans[b0..b] + bans[b..] == bans[b0..];
  }

  lemma MessageFits(m: Message, room: nat, left: nat)
    requires |NickText(m.entries, true)| + left == room && |BanText(m.bans, true)| <= left
    ensures |Text(m)| <= room
  {
  }
}
