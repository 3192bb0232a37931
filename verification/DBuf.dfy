/** Byte queues: what the calls of ircd/dbuf.c mean on sequences of bytes, and the 2048-byte chunks the
    bytes are kept in. */
module DBuf {

  const DBUF_SIZE := 2048

  newtype byte = x: int | 0 <= x < 256

  /** `struct DBufBuffer`: the bytes held are `data[start..end]`. */
  datatype Chunk = Chunk(data: seq<byte>, start: nat, end: nat) {
    predicate Ok() { start <= end <= |data| == DBUF_SIZE }

    function Bytes(): seq<byte> requires Ok() { data[start..end] }
  }

  predicate AllOk(cs: seq<Chunk>) { forall i :: 0 <= i < |cs| ==> cs[i].Ok() }

  predicate NoneEmpty(cs: seq<Chunk>) { forall i :: 0 <= i < |cs| ==> cs[i].start < cs[i].end }

  function Flat(cs: seq<Chunk>): seq<byte>
    requires AllOk(cs)
  {
    if cs == [] then [] else cs[0].Bytes() + Flat(cs[1..])
  }

  lemma {:induction false} FlatJoins(a: seq<Chunk>, b: seq<Chunk>)
    requires AllOk(a) && AllOk(b)
    ensures AllOk(a + b) && Flat(a + b) == Flat(a) + Flat(b)
  {
    if a == [] {
      assert a + b == b;
    } else {
      assert (a + b)[1..] == a[1..] + b;
      FlatJoins(a[1..], b);
    }
  }

  lemma FlatOne(c: Chunk)
    requires c.Ok()
    ensures AllOk([c]) && Flat([c]) == c.Bytes()
  {
  }

  lemma FlatHead(cs: seq<Chunk>)
    requires AllOk(cs) && cs != []
    ensures AllOk(cs[1..]) && Flat(cs) == cs[0].Bytes() + Flat(cs[1..])
  {
  }

  lemma FlatLast(cs: seq<Chunk>)
    requires AllOk(cs) && cs != []
    ensures var n := |cs| - 1; AllOk(cs[..n]) && Flat(cs) == Flat(cs[..n]) + cs[n].Bytes()
  {
    var n := |cs| - 1;
    FlatJoins(cs[..n], [cs[n]]);
    FlatOne(cs[n]);
    assert cs == cs[..n] + [cs[n]];
  }

  lemma {:induction false} FlatEmpty(cs: seq<Chunk>)
    requires AllOk(cs) && NoneEmpty(cs)
    ensures |Flat(cs)| >= |cs| && (Flat(cs) == [] <==> cs == [])
  {
    if cs != [] { FlatEmpty(cs[1..]); }
  }

  // ---------------------------------------------------------------- room

  function Min(a: nat, b: nat): nat { if a < b then a else b }

  /** How many chunks `n` more bytes take behind the chain `cs`. */
  function Need(cs: seq<Chunk>, n: nat): nat
    requires AllOk(cs)
  {
    var room := RoomLeft(cs);
    if n <= room then 0 else (n - room + DBUF_SIZE - 1) / DBUF_SIZE
  }

  function RoomLeft(cs: seq<Chunk>): nat
    requires AllOk(cs)
  {
    if cs == [] then 0 else DBUF_SIZE - cs[|cs| - 1].end
  }

  lemma NeedAfterGrowing(cs: seq<Chunk>, db: Chunk, n: nat)
    requires AllOk(cs) && db.Ok() && RoomLeft(cs) == 0 && db.end == 0 && n > 0
    ensures Need(cs, n) == Need(cs + [db], n) + 1
  {
  }

  lemma NeedAfterFilling(cs: seq<Chunk>, cs': seq<Chunk>, n: nat, k: nat)
    requires AllOk(cs) && AllOk(cs') && k == Min(RoomLeft(cs), n) && RoomLeft(cs') == RoomLeft(cs) - k
    ensures Need(cs', n - k) == Need(cs, n)
  {
  }

  /** How many more chunks may ever be count while the total stays under BUFFERPOOL. */
  function CanGrow(count: nat, bufferPool: int): nat {
    var most := if bufferPool <= 0 then 0 else (bufferPool + DBUF_SIZE - 1) / DBUF_SIZE;
    if most <= count then 0 else most - count
  }

  lemma CanGrowStep(count: nat, bufferPool: int)
    ensures count * DBUF_SIZE < bufferPool <==> CanGrow(count, bufferPool) > 0
    ensures CanGrow(count, bufferPool) > 0 ==> CanGrow(count + 1, bufferPool) == CanGrow(count, bufferPool) - 1
  {
  }

  // ---------------------------------------------------------------- end-of-line bytes

  predicate IsEol(b: byte) { b == 10 || b == 13 }

  /** `s` without the end-of-line bytes it starts with. */
  function Strip(s: seq<byte>): (r: seq<byte>)
    ensures r == [] || !IsEol(r[0])
    ensures |r| <= |s| && r == s[|s| - |r|..]
  {
    if s != [] && IsEol(s[0]) then Strip(s[1..]) else s
  }

  /** How many bytes come before the first end-of-line byte. */
  function LineLength(s: seq<byte>): (n: nat)
    ensures n <= |s| && (n < |s| ==> IsEol(s[n])) && forall i :: 0 <= i < n ==> !IsEol(s[i])
  {
    if s == [] || IsEol(s[0]) then 0 else 1 + LineLength(s[1..])
  }

  /** What `dbuf_getmsg` is for: `line` is the next line and `rest` what stays; no line if none ends
      within the first `length` bytes. */
  datatype Message = Message(line: seq<byte>, rest: seq<byte>)

  function NextMessage(s: seq<byte>, length: nat): Message {
    var t := Strip(s);
    var n := LineLength(t);
    if n < |t| && n < length then Message(t[..n], Strip(t[n..])) else Message([], t)
  }

  // ---------------------------------------------------------------- chunks and lines

  lemma StripStarts(s: seq<byte>)
    ensures Strip(s) == [] || !IsEol(Strip(s)[0])
  {
  }

  predicate NoEol(s: seq<byte>) { forall i :: 0 <= i < |s| ==> !IsEol(s[i]) }

  lemma NoMessage(s: seq<byte>, limit: nat)
    requires Strip(s) == []
    ensures NextMessage(s, limit) == Message([], [])
  {
  }

  lemma MessageFound(s: seq<byte>, t: seq<byte>, limit: nat, n: nat)
    requires t == Strip(s) && n < |t| && n < limit && IsEol(t[n]) && NoEol(t[..n])
    ensures NextMessage(s, limit) == Message(t[..n], Strip(t[n..]))
  {
    hide Strip;
    assert forall i :: 0 <= i < n ==> t[..n][i] == t[i];
    LineLengthIs(t, n);
  }

  lemma {:induction false} LineLengthIs(t: seq<byte>, n: nat)
    requires n < |t| && IsEol(t[n]) && forall i :: 0 <= i < n ==> !IsEol(t[i])
    ensures LineLength(t) == n
  {
    if n > 0 { LineLengthIs(t[1..], n - 1); }
  }

  lemma MessageTooLong(s: seq<byte>, t: seq<byte>, limit: nat, line: seq<byte>)
    requires t == Strip(s) && NoEol(line) && line == t[..Min(limit, |t|)]
    ensures NextMessage(s, limit) == Message([], t)
  {
    hide Strip;
    var n := LineLength(t);
    assert forall i :: 0 <= i < |line| ==> line[i] == t[i] && !IsEol(t[i]);
  }

  /** Lines as they come over a connection, each with CR LF behind it, and what has come of the next. */
  function Wire(lines: seq<seq<byte>>, part: seq<byte>): seq<byte> {
    if lines == [] then part else lines[0] + [13, 10] + Wire(lines[1..], part)
  }

  /** Not empty, without CR and LF. */
  predicate IsLine(l: seq<byte>) { l != [] && forall b :: b in l ==> b != 10 && b != 13 }

  lemma WireStripped(lines: seq<seq<byte>>, part: seq<byte>)
    requires (forall l :: l in lines ==> IsLine(l)) && (part == [] || IsLine(part))
    ensures Strip(Wire(lines, part)) == Wire(lines, part)
  {
    if lines != [] { assert IsLine(lines[0]) && Wire(lines, part)[0] == lines[0][0] && lines[0][0] in lines[0]; }
    if part != [] { assert part[0] in part; }
  }

  lemma NoEolInLine(l: seq<byte>)
    requires l == [] || IsLine(l)
    ensures NoEol(l)
  {
    forall i | 0 <= i < |l| ensures !IsEol(l[i]) { assert l[i] in l; }
  }

  lemma LineEnds(l: seq<byte>, rest: seq<byte>)
    requires NoEol(l)
    ensures var s := l + [13, 10] + rest; LineLength(s) == |l| < |s| && s[..|l|] == l && s[|l|..] == [13, 10] + rest
  {
    var s := l + [13, 10] + rest;
    assert s[|l|] == 13 && forall i :: 0 <= i < |l| ==> s[i] == l[i];
    hide LineLength;
    LineLengthIs(s, |l|);
  }

  lemma StripCrLf(rest: seq<byte>)
    requires Strip(rest) == rest
    ensures Strip([13, 10] + rest) == rest
  {
    var s: seq<byte> := [13, 10] + rest;
    var t: seq<byte> := [10] + rest;
    hide Strip;
    assert s[1..] == t && t[1..] == rest;
    StripStep(s);
    StripStep(t);
  }

  /** The next line comes back without its CR LF, whatever else has come, and the others stay.  A line
      that has not yet ended, or is not shorter than the room for it, stays as it is. */
  lemma LinesComeBack(lines: seq<seq<byte>>, part: seq<byte>, room: nat)
    requires (forall l :: l in lines ==> IsLine(l)) && (part == [] || IsLine(part))
    ensures NextMessage(Wire(lines, part), room) ==
      if lines != [] && |lines[0]| < room then Message(lines[0], Wire(lines[1..], part)) else Message([], Wire(lines, part))
  {
    hide Strip, LineLength, IsLine;
    WireStripped(lines, part);
    if lines == [] {
      NoEolInLine(part);
      assert !(LineLength(part) < |part|);
    } else {
      var rest := Wire(lines[1..], part);
      assert lines[0] in lines && forall l :: l in lines[1..] ==> l in lines;
      WireStripped(lines[1..], part);
      NoEolInLine(lines[0]);
      LineEnds(lines[0], rest);
      StripCrLf(rest);
    }
  }

  /** The bytes of chunk `k`, seen in the whole contents. */
  lemma SliceHead(cs: seq<Chunk>, k: nat, t: seq<byte>, done: nat)
    requires AllOk(cs) && k < |cs| && done <= |t| && Flat(cs[k..]) == t[done..]
    ensures var n := cs[k].end - cs[k].start; done + n <= |t| && AllOk(cs[k + 1..]) && Flat(cs[k + 1..]) == t[done + n..]
    ensures forall i :: cs[k].start <= i <= cs[k].end ==>
      t[..done] + cs[k].data[cs[k].start..i] == t[..done + (i - cs[k].start)]
    ensures forall i :: cs[k].start <= i < cs[k].end ==> cs[k].data[i] == t[done + (i - cs[k].start)]
  {
    var rest, b, n := cs[k..], cs[k].Bytes(), cs[k].end - cs[k].start;
    FlatHead(rest);
    assert rest[1..] == cs[k + 1..] && rest[0] == cs[k];
    assert t[done..] == b + Flat(cs[k + 1..]);
    assert t[done..][n..] == t[done + n..];
    forall i | cs[k].start <= i < cs[k].end ensures cs[k].data[i] == t[done + (i - cs[k].start)] {
      assert t[done..][i - cs[k].start] == b[i - cs[k].start];
    }
  }

  lemma FirstByte(cs: seq<Chunk>)
    requires AllOk(cs) && NoneEmpty(cs)
    ensures Flat(cs) == [] <==> cs == []
    ensures cs != [] ==> Flat(cs)[0] == cs[0].data[cs[0].start]
  {
    FlatEmpty(cs);
    if cs != [] {
      FlatHead(cs);
      assert cs[0].Bytes()[0] == cs[0].data[cs[0].start];
    }
  }

  lemma StripStep(s: seq<byte>)
    ensures Strip(s) == if s != [] && IsEol(s[0]) then Strip(s[1..]) else s
  {
  }

  /** Taking bytes off the first chunk, which goes when it is empty. */
  lemma DropFromHead(cs: seq<Chunk>, n: nat)
    requires AllOk(cs) && NoneEmpty(cs) && cs != [] && n <= cs[0].end - cs[0].start
    ensures var db := cs[0].(start := cs[0].start + n);
      var r := if db.start == db.end then cs[1..] else cs[0 := db];
      AllOk(r) && NoneEmpty(r) && n <= |Flat(cs)| && Flat(r) == Flat(cs)[n..]
  {
    var db := cs[0].(start := cs[0].start + n);
    FlatHead(cs);
    assert db.Bytes() == cs[0].Bytes()[n..];
    assert (cs[0].Bytes() + Flat(cs[1..]))[n..] == cs[0].Bytes()[n..] + Flat(cs[1..]);
    assert forall i :: 0 <= i < |cs| - 1 ==> cs[1..][i] == cs[i + 1];
    if db.start < db.end { FlatHead(cs[0 := db]); }
  }

  lemma MoveFront<T>(c0: seq<T>, bytes: seq<T>, c: seq<T>, b: seq<T>, n: nat)
    requires c0 == bytes + c && b <= c && n <= |b|
    ensures c0 == (bytes + b[..n]) + c[n..]
  {
    assert c == b[..n] + c[n..];
  }

  lemma NoRoomInNothing()
    ensures RoomLeft([]) == 0
  {
  }

  lemma NeedSome(cs: seq<Chunk>, n: nat)
    requires AllOk(cs) && RoomLeft(cs) == 0 && n > 0
    ensures Need(cs, n) > 0
  {
  }

  lemma NeedNothing(cs: seq<Chunk>)
    requires AllOk(cs)
    ensures Need(cs, 0) == 0
  {
  }

  lemma Split<T>(buf: seq<T>, c: seq<T>, done: seq<T>, rest: seq<T>, n: nat)
    requires buf == done + rest && n <= |rest|
    ensures buf == (done + rest[..n]) + rest[n..] && (c + done) + rest[..n] == c + (done + rest[..n])
  {
  }

  // ---------------------------------------------------------------- the first block

  /** The bytes of the first chunk. */
  function FirstBlock(cs: seq<Chunk>): int {
    if cs == [] then 0 else cs[0].end - cs[0].start
  }

  /** A queue is its first block if and only if it has at most one chunk. */
  lemma FirstBlockIsAll(cs: seq<Chunk>)
    requires AllOk(cs) && NoneEmpty(cs)
    ensures |Flat(cs)| == FirstBlock(cs) <==> |cs| <= 1
  {
    if cs != [] {
      FlatHead(cs);
      assert forall i :: 0 <= i < |cs| - 1 ==> cs[1..][i] == cs[i + 1];
      FlatEmpty(cs[1..]);
    }
  }

  /** One byte more than a chunk holds: the queue has 2049 bytes, its first block 2048. */
  lemma FirstBlockIsNotAll()
    ensures var a := seq(DBUF_SIZE, _ => 65 as byte);
      var cs := [Chunk(a, 0, DBUF_SIZE), Chunk(a, 0, 1)];
      AllOk(cs) && NoneEmpty(cs) && |Flat(cs)| == 2049 && FirstBlock(cs) == 2048
  {
    var a := seq(DBUF_SIZE, _ => 65 as byte);
    var c, d := Chunk(a, 0, DBUF_SIZE), Chunk(a, 0, 1);
    FlatOne(c);
    FlatOne(d);
    FlatJoins([c], [d]);
    assert [c] + [d] == [c, d];
  }

  // ---------------------------------------------------------------- whole runs over several queues

  datatype Op = PutOp(q: nat, bytes: seq<byte>) | DeleteOp(q: nat, n: nat) | GetOp(q: nat, n: nat) | MessageOp(q: nat, n: nat)

  /** What a call returns: whether it worked, and the bytes handed out. */
  datatype Reply = Reply(ok: bool, bytes: seq<byte>)

  /** The meaning of one call on queues of bytes: `before` becomes `after` for the queue named, and
      no other queue changes. */
  ghost predicate Means(before: seq<seq<byte>>, op: Op, r: Reply, after: seq<seq<byte>>) {
    op.q < |before| && var s := before[op.q];
    match op
    case PutOp(q, bytes) => r.bytes == [] && after == before[q := if r.ok then s + bytes else []]
    case DeleteOp(q, n) => r == Reply(true, []) && after == before[q := s[Min(n, |s|)..]]
    case GetOp(q, n) => r == Reply(true, s[..Min(n, |s|)]) && after == before[q := s[Min(n, |s|)..]]
    case MessageOp(q, n) =>
      && r.ok == (NextMessage(s, n).line != []) && (r.ok ==> r.bytes == NextMessage(s, n).line)
      && after == before[q := NextMessage(s, n).rest]
  }

  ghost predicate RunMeans(before: seq<seq<byte>>, ops: seq<Op>, rs: seq<Reply>, after: seq<seq<byte>>)
    decreases |ops|
  {
    if ops == [] then rs == [] && before == after
    else rs != [] && exists mid :: Means(before, ops[0], rs[0], mid) && RunMeans(mid, ops[1..], rs[1..], after)
  }

  lemma {:induction false} RunMeansAppend(a: seq<seq<byte>>, ops: seq<Op>, rs: seq<Reply>, b: seq<seq<byte>>, op: Op, r: Reply, c: seq<seq<byte>>)
    requires RunMeans(a, ops, rs, b) && Means(b, op, r, c)
    ensures RunMeans(a, ops + [op], rs + [r], c)
    decreases |ops|
  {
    hide Means;
    if ops == [] {
      assert ops + [op] == [op] && rs + [r] == [r];
      assert RunMeans(c, [op][1..], [r][1..], c);
    } else {
      var mid :| Means(a, ops[0], rs[0], mid) && RunMeans(mid, ops[1..], rs[1..], b);
      RunMeansAppend(mid, ops[1..], rs[1..], b, op, r, c);
      assert (ops + [op])[1..] == ops[1..] + [op] && (rs + [r])[1..] == rs[1..] + [r];
    }
  }

  ghost function Sum(s: seq<nat>): nat { if s == [] then 0 else s[0] + Sum(s[1..]) }

  lemma {:induction false} SumUpdate(s: seq<nat>, i: nat, v: nat)
    requires i < |s|
    ensures Sum(s[i := v]) == Sum(s) - s[i] + v && Sum(s) >= s[i]
  {
    if i == 0 {
      assert s[0 := v][1..] == s[1..];
    } else {
      assert s[i := v][1..] == s[1..][i - 1 := v];
      SumUpdate(s[1..], i - 1, v);
    }
  }

  lemma MeansElsewhere(st: seq<seq<byte>>, op: Op, r: Reply, after: seq<byte>)
    requires op.q < |st| && Means([st[op.q]], op.(q := 0), r, [after])
    ensures Means(st, op, r, st[op.q := after])
  {
    hide NextMessage;
    assert [after][0] == after;
    assert forall x: seq<byte> :: [st[op.q]][0 := x] == [x];
  }

  lemma RunMeansNothing(st: seq<seq<byte>>)
    ensures RunMeans(st, [], [], st)
  {
  }
}
