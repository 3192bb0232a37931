/** The chunks, queues and free list of ircd/dbuf.c: chunks are known by their address and linked by
    `next`, a queue by `head` and `tail`.  The routines are proved to do what `DBuf` says, and every
    chunk ever made stays on exactly one list. */
module DBufCode {
  import opened LinkedLists
  import opened DBuf

  type Store = map<Link, Chunk>

  // ---------------------------------------------------------------- who has which chunk

  /** The free list, one chain and everybody else share out the chunks made so far. */
  ghost predicate Shared(free: seq<Link>, chain: seq<Link>, others: set<Link>, allocCount: nat) {
    && (forall l: Link :: l <= allocCount <==> l in free || l in chain || l in others)
    && (forall l | l in chain :: l !in free && l !in others)
    && (forall l | l in free :: l !in others)
  }

  ghost predicate Shown(chain: seq<Link>, store: Store, chunks: seq<Chunk>) {
    |chunks| == |chain| && forall i :: 0 <= i < |chain| ==> chain[i] in store && store[chain[i]] == chunks[i]
  }

  /** What others have is as it was. */
  ghost predicate Untouched(others: set<Link>, next: Ptrs, store: Store, next': Ptrs, store': Store) {
    && (forall l | l in others && l in next :: l in next' && next'[l] == next[l])
    && (forall l | l in others && l in store :: l in store' && store'[l] == store[l])
  }

  lemma HeadReleased(free: seq<Link>, chain: seq<Link>, others: set<Link>, allocCount: nat)
    requires Shared(free, chain, others, allocCount) && NoDup(chain) && chain != []
    ensures chain[0] !in free && chain[0] !in others && chain[0] !in chain[1..] && NoDup(chain[1..])
    ensures Shared([chain[0]] + free, chain[1..], others, allocCount)
  {
    var m, rest, free' := chain[0], chain[1..], [chain[0]] + free;
    assert chain == [m] + rest;
    assert m !in rest;
    assert forall l :: (l in chain <==> l == m || l in rest) && (l in free' <==> l == m || l in free);
  }

  lemma FreeTaken(free: seq<Link>, chain: seq<Link>, others: set<Link>, allocCount: nat)
    requires Shared(free, chain, others, allocCount) && NoDup(free) && free != []
    ensures free[0] !in chain && free[0] !in others && Shared(free[1..], chain + [free[0]], others, allocCount)
  {
    var m, rest, chain' := free[0], free[1..], chain + [free[0]];
    assert free == [m] + rest;
    assert m !in rest;
    assert forall l :: (l in free <==> l == m || l in rest) && (l in chain' <==> l == m || l in chain);
  }

  lemma NewTaken(free: seq<Link>, chain: seq<Link>, others: set<Link>, allocCount: nat)
    requires Shared(free, chain, others, allocCount)
    ensures var m: Link := allocCount + 1; m !in chain && m !in others && m !in free && Shared(free, chain + [m], others, allocCount + 1)
  {
  }

  lemma ShownFrame(chain: seq<Link>, store: Store, chunks: seq<Chunk>, store': Store)
    requires Shown(chain, store, chunks) && forall l | l in chain && l in store :: l in store' && store'[l] == store[l]
    ensures Shown(chain, store', chunks)
  {
  }

  lemma ShownUpdate(chain: seq<Link>, store: Store, chunks: seq<Chunk>, k: nat, c: Chunk)
    requires Shown(chain, store, chunks) && NoDup(chain) && k < |chain|
    ensures Shown(chain, store[chain[k] := c], chunks[k := c])
  {
  }

  lemma ShownTail(chain: seq<Link>, store: Store, chunks: seq<Chunk>)
    requires Shown(chain, store, chunks) && chain != []
    ensures chunks != [] && Shown(chain[1..], store, chunks[1..])
  {
    assert forall i :: 0 <= i < |chain| - 1 ==> chain[1..][i] == chain[i + 1] && chunks[1..][i] == chunks[i + 1];
  }

  lemma ShownMore(chain: seq<Link>, store: Store, chunks: seq<Chunk>, m: Link, c: Chunk)
    requires Shown(chain, store, chunks) && m !in chain
    ensures Shown(chain + [m], store[m := c], chunks + [c])
  {
  }

  // ---------------------------------------------------------------- the pool

  /** The file-scope counts and the free list, and the memory of all chunks. */
  class Pool {
    const bufferPool: int
    var allocCount: nat
    var usedCount: nat
    var freeList: Ptr
    var next: Ptrs
    var store: Store
    ghost var free: seq<Link>

    constructor (bufferPool: int)
      ensures Valid() && allocCount == 0 && free == [] && this.bufferPool == bufferPool
    {
      this.bufferPool := bufferPool;
      allocCount, usedCount, freeList, next, store, free := 0, 0, NULL, map[], map[], [];
    }

    ghost predicate Valid()
      reads this
    {
      && Listed(free, freeList, next) && usedCount + |free| == allocCount && (forall l | l in free :: l in store)
      && (forall l: Link :: l in store <==> l <= allocCount)
      && (forall l | l in store :: store[l].Ok())
      && (allocCount > 0 ==> allocCount * DBUF_SIZE < bufferPool + DBUF_SIZE)
    }

    /** How many calls of `Alloc` would succeed from here. */
    ghost function Available(): nat
      reads this
    {
      |free| + CanGrow(allocCount, bufferPool)
    }

    /** `dbuf_alloc`: the first of the free list, or a new chunk. */
    method Alloc() returns (db: Ptr)
      requires Valid()
      modifies this
      ensures Valid() && (db != NULL <==> old(Available()) > 0) && (db == NULL ==> unchanged(this))
      ensures db != NULL ==> usedCount == old(usedCount) + 1 && Available() == old(Available()) - 1 && next == old(next) && db in store
      ensures db != NULL ==>
        if old(free) != [] then db == old(free)[0] && free == old(free)[1..] && allocCount == old(allocCount) && store == old(store)
        else db == allocCount == old(allocCount) + 1 && free == [] && store == old(store)[db := store[db]]
    {
      CanGrowStep(allocCount, bufferPool);
      db := freeList;
      if db != NULL {
        ListPop(free, freeList, next);
        assert free[0] in free;
        freeList := next[db];
        free := free[1..];
        usedCount := usedCount + 1;
      } else if allocCount * DBUF_SIZE < bufferPool {
        db := allocCount + 1;
        store := store[db := Chunk(seq(DBUF_SIZE, _ => 0), 0, 0)];
        allocCount, usedCount := allocCount + 1, usedCount + 1;
      }
    }

    /** `dbuf_free`, for a chunk that is in use. */
    method Release(db: Link)
      requires Valid() && db in store && db !in free && usedCount > 0
      modifies this
      ensures Valid() && free == [db] + old(free) && next == old(next)[db := old(freeList)] && store == old(store)
      ensures usedCount == old(usedCount) - 1 && allocCount == old(allocCount)
    {
      ListPush(free, freeList, next, db);
      usedCount := usedCount - 1;
      next := next[db := freeList];
      freeList := db;
      free := [db] + free;
    }

    /** The first chunk of a chain goes to the free list; `after`: the next one. */
    method ReleaseFirst(db: Ptr, ghost chain: seq<Link>, ghost others: set<Link>) returns (after: Ptr)
      requires Valid() && Listed(chain, db, next) && chain != [] && Shared(free, chain, others, allocCount) && usedCount >= |chain|
      modifies this
      ensures Valid() && Listed(chain[1..], after, next) && Shared(free, chain[1..], others, allocCount)
      ensures usedCount == old(usedCount) - 1 && allocCount == old(allocCount) && store == old(store)
      ensures Untouched(others, old(next), old(store), next, store)
    {
      hide Shared, Listed, NoDup, Untouched;
      HeadOf(chain, db, next);
      HeadReleased(free, chain, others, allocCount);
      Held(free, chain, others, allocCount, chain[0]);
      ListPop(chain, db, next);
      ListKeys(chain[1..], next[db], next);
      after := next[db];
      ListFrame(chain[1..], after, next, next[db := freeList]);
      OnlyNextOf(others, next, store, db, freeList);
      Release(db);
    }
  }

  lemma Held(free: seq<Link>, chain: seq<Link>, others: set<Link>, allocCount: nat, l: Link)
    requires Shared(free, chain, others, allocCount) && (l in chain || l in others)
    ensures l <= allocCount && l !in free
  {
  }

  lemma OnlyNextOf(others: set<Link>, next: Ptrs, store: Store, m: Link, to: Ptr)
    requires m !in others
    ensures Untouched(others, next, store, next[m := to], store)
  {
  }

  lemma OnlyStoreOf(others: set<Link>, next: Ptrs, store: Store, m: Link, c: Chunk)
    requires m !in others
    ensures Untouched(others, next, store, next, store[m := c])
  {
  }

  lemma UntouchedTwice(others: set<Link>, next: Ptrs, store: Store, next1: Ptrs, store1: Store, next2: Ptrs, store2: Store)
    requires Untouched(others, next, store, next1, store1) && Untouched(others, next1, store1, next2, store2)
    ensures Untouched(others, next, store, next2, store2)
  {
  }

  // ---------------------------------------------------------------- a queue

  /** The pointer `h` of `dbuf_put`: to `head`, to `tail`, or to the `next` of a chunk. */
  datatype Where = AtHead | AtTail | After(db: Link)

  /** `struct DBuf`; `chain` are the chunks from head to tail, `chunks` what they hold. */
  class Queue {
    var length: nat
    var head: Ptr
    var tail: Ptr
    ghost var chain: seq<Link>
    ghost var chunks: seq<Chunk>

    constructor ()
      ensures Valid() && Contents() == [] && chunks == [] && chain == [] && head == tail == NULL
    {
      length, head, tail, chain, chunks := 0, NULL, NULL, [], [];
    }

    ghost function Contents(): seq<byte>
      requires AllOk(chunks)
      reads this
    {
      Flat(chunks)
    }

    ghost predicate Valid()
      reads this
    {
      AllOk(chunks) && NoneEmpty(chunks) && length == |Contents()|
    }

    /** The chain runs from `head` to `tail`; a queue that has just lost its last chunk may still have
        an old `tail`. */
    ghost predicate Linked(pool: Pool, others: set<Link>)
      reads this, pool
    {
      && pool.Valid() && Listed(chain, head, pool.next) && (chain != [] ==> tail == Last(chain))
      && Shown(chain, pool.store, chunks) && Shared(pool.free, chain, others, pool.allocCount)
      && pool.usedCount >= |chain|
    }

    ghost predicate In(pool: Pool, others: set<Link>)
      reads this, pool
    {
      Linked(pool, others) && tail == Last(chain)
    }

    /** A call leaves what others have alone, and counts its own chunks. */
    twostate predicate Kept(pool: Pool, others: set<Link>)
      reads this, pool
    {
      && Untouched(others, old(pool.next), old(pool.store), pool.next, pool.store)
      && pool.usedCount - |chain| == old(pool.usedCount) - |old(chain)|
    }

    /** The first chunk goes to the free list. */
    method FreeHead(pool: Pool, ghost others: set<Link>)
      requires Linked(pool, others) && chain != []
      modifies `head, `chain, `chunks, pool
      ensures Linked(pool, others) && Kept(pool, others)
      ensures chain == old(chain)[1..] && chunks == old(chunks)[1..] && pool.store == old(pool.store)
    {
      hide Shared, Shown, Listed, NoDup, Untouched;
      ShownTail(chain, pool.store, chunks);
      HeadOf(chain, head, pool.next);
      head := pool.ReleaseFirst(head, chain, others);
      chain, chunks := chain[1..], chunks[1..];
    }

    /** `dbuf_malloc_error` */
    method MallocError(pool: Pool, ghost others: set<Link>)
      requires Linked(pool, others)
      modifies this, pool
      ensures In(pool, others) && Kept(pool, others) && Valid() && chain == [] && Contents() == []
    {
      hide Shared, Shown, Listed, NoDup, Untouched;
      var db := head;
      ghost var rest := chain;
      UntouchedSame(others, pool.next, pool.store);
      HeadOf(chain, head, pool.next);
      while db != NULL
        invariant pool.Valid() && Listed(rest, db, pool.next) && Shared(pool.free, rest, others, pool.allocCount)
        invariant unchanged(this) && Untouched(others, old(pool.next), old(pool.store), pool.next, pool.store)
        invariant pool.usedCount - |rest| == old(pool.usedCount) - |chain| >= 0
        decreases |rest|
      {
        HeadOf(rest, db, pool.next);
        ghost var n, st := pool.next, pool.store;
        db := pool.ReleaseFirst(db, rest, others);
        UntouchedTwice(others, old(pool.next), old(pool.store), n, st, pool.next, pool.store);
        rest := rest[1..];
      }
      HeadOf(rest, db, pool.next);
      tail, head, length := NULL, NULL, 0;
      chain, chunks := [], [];
      NothingShown(pool.store);
    }

    /** The bytes of the first chunk up to `start` go. */
    method Advance(pool: Pool, n: nat, ghost others: set<Link>)
      requires Linked(pool, others) && chain != [] && AllOk(chunks) && n <= chunks[0].end - chunks[0].start
      modifies `chunks, pool`store
      ensures Linked(pool, others) && Kept(pool, others)
      ensures chunks == old(chunks)[0 := old(chunks)[0].(start := old(chunks)[0].start + n)]
    {
      hide Shared, Shown, Listed, NoDup, Untouched;
      HeadOf(chain, head, pool.next);
      Held(pool.free, chain, others, pool.allocCount, chain[0]);
      NotOthers(pool.free, chain, others, pool.allocCount, chain[0]);
      HeldIsStored(chain, pool.store, chunks, 0);
      var db := pool.store[head];
      db := db.(start := db.start + n);
      ShownUpdate(chain, pool.store, chunks, 0, db);
      OnlyStoreOf(others, pool.next, pool.store, chain[0], db);
      pool.store := pool.store[head := db];
      chunks := chunks[0 := db];
    }

    /** Copy bytes behind those of the last chunk. */
    method Fill(pool: Pool, db: Ptr, bytes: seq<byte>, ghost others: set<Link>)
      requires Linked(pool, others) && AllOk(chunks) && chain != [] && db == Last(chain) && |bytes| <= RoomLeft(chunks)
      modifies `chunks, pool`store
      ensures Linked(pool, others) && Kept(pool, others)
      ensures AllOk(chunks) && Contents() == old(Contents()) + bytes && |chunks| == |old(chunks)|
      ensures NoneEmpty(old(chunks)[..|chunks| - 1]) && (bytes != [] || NoneEmpty(old(chunks))) ==> NoneEmpty(chunks)
      ensures RoomLeft(chunks) == RoomLeft(old(chunks)) - |bytes|
    {
      hide Shared, Shown, Listed, NoDup, Untouched, Flat;
      HeadOf(chain, head, pool.next);
      ghost var n := |chain| - 1;
      HeldIsStored(chain, pool.store, chunks, n);
      Held(pool.free, chain, others, pool.allocCount, chain[n]);
      NotOthers(pool.free, chain, others, pool.allocCount, chain[n]);
      LengthShown(chain, pool.store, chunks);
      var c := pool.store[db];
      var c' := c.(data := c.data[..c.end] + bytes + c.data[c.end + |bytes|..], end := c.end + |bytes|);
      Filled(chunks, bytes, c');
      ShownUpdate(chain, pool.store, chunks, n, c');
      OnlyStoreOf(others, pool.next, pool.store, chain[n], c');
      pool.store := pool.store[db := c'];
      chunks := chunks[n := c'];
    }

    /** What the pointer `h` points to. */
    method Follow(pool: Pool, h: Where, ghost others: set<Link>) returns (db: Ptr)
      requires Linked(pool, others) && Points(h)
      ensures db == if h.AtTail? then Last(chain) else NULL
    {
      hide Shared, Shown, Listed;
      HeadOf(chain, head, pool.next);
      match h
      case AtHead => db := head;
      case AtTail => db := tail;
      case After(l) => db := pool.next[l];
    }

    ghost predicate Points(h: Where)
      reads this
    {
      match h
      case AtHead => chain == []
      case AtTail => chain != []
      case After(l) => chain != [] && l == Last(chain)
    }

    /** A chunk that is nobody's is hooked on behind the others, empty. */
    method Hook(pool: Pool, h: Where, db: Link, ghost others: set<Link>)
      requires pool.Valid() && Listed(chain, head, pool.next) && Shown(chain, pool.store, chunks) && AllOk(chunks)
      requires Taken(db, pool.free, chain, others, pool.allocCount) && db in pool.store
      requires Points(h) && !h.AtTail? && pool.usedCount > |chain|
      modifies `head, `tail, `chain, `chunks, pool`next, pool`store
      ensures Linked(pool, others) && AllOk(chunks) && Contents() == old(Contents())
      ensures Untouched(others, old(pool.next), old(pool.store), pool.next, pool.store)
      ensures chain == old(chain) + [db] && |chunks| == |old(chunks)| + 1 && chunks[..|old(chunks)|] == old(chunks)
      ensures RoomLeft(chunks) == DBUF_SIZE
    {
      hide Shown, Listed, NoDup, Untouched, Flat, Shared;
      var c := pool.store[db].(start := 0, end := 0);
      GrowLinks(chain, head, pool.next, db);
      GrowPool(pool.free, pool.freeList, chain, others, pool.allocCount, pool.next, db);
      GrowShown(chain, pool.store, chunks, db, c);
      GrowUntouched(others, chain, pool.next, pool.store, db, c);
      FlatJoins(chunks, [c]);
      FlatOne(c);
      tail := db;
      match h {
        case AtHead => head := db;
        case After(l) => pool.next := pool.next[l := db];
        case AtTail => assert false;
      }
      pool.next := pool.next[db := NULL];
      pool.store := pool.store[db := c];
      chain, chunks := chain + [db], chunks + [c];
    }

    /** A chunk from the pool is hooked on, if there is one to be had. */
    method Grow(pool: Pool, h: Where, ghost others: set<Link>) returns (db: Ptr)
      requires AllOk(chunks) && Linked(pool, others) && Points(h) && !h.AtTail?
      modifies `head, `tail, `chain, `chunks, pool
      ensures AllOk(chunks) && Linked(pool, others) && Kept(pool, others) && Contents() == old(Contents())
      ensures db != NULL <==> old(pool.Available()) > 0
      ensures db != NULL ==> chain != [] && db == Last(chain) && |chunks| == |old(chunks)| + 1
      ensures db != NULL ==> chunks[..|chunks| - 1] == old(chunks) && RoomLeft(chunks) == DBUF_SIZE
      ensures db != NULL ==> pool.Available() == old(pool.Available()) - 1
      ensures db == NULL ==> unchanged(this) && unchanged(pool)
    {
      hide Shared, Shown, Listed, NoDup, Untouched, Flat, CanGrow;
      ghost var n0, s0 := pool.next, pool.store;
      UntouchedSame(others, n0, s0);
      FreshTaken(pool.free, pool.freeList, pool.next, chain, others, pool.allocCount);
      db := pool.Alloc();
      if db == NULL { return; }
      TakenIsOutside(db, pool.free, chain, others, pool.allocCount);
      OnlyStoreOf(others, n0, s0, db, pool.store[db]);
      ShownFrame(chain, s0, chunks, pool.store);
      ghost var n1, s1 := pool.next, pool.store;
      Hook(pool, h, db, others);
      UntouchedTwice(others, n0, s0, n1, s1, pool.next, pool.store);
    }

    /** As many of the bytes as the last chunk takes. */
    method FillSome(pool: Pool, db: Ptr, rest: seq<byte>, ghost others: set<Link>) returns (n: nat)
      requires Linked(pool, others) && AllOk(chunks) && rest != [] && chain != [] && db == Last(chain)
      requires NoneEmpty(chunks) || (NoneEmpty(chunks[..|chunks| - 1]) && RoomLeft(chunks) > 0)
      modifies `chunks, pool`store
      ensures Linked(pool, others) && Kept(pool, others)
      ensures n == (if RoomLeft(old(chunks)) > |rest| then |rest| else RoomLeft(old(chunks))) <= |rest|
      ensures AllOk(chunks) && NoneEmpty(chunks) && Contents() == old(Contents()) + rest[..n] && |chunks| == |old(chunks)|
      ensures n == |rest| || RoomLeft(chunks) == 0
      ensures Need(chunks, |rest| - n) == Need(old(chunks), |rest|)
    {
      hide Need, Flat, Shared, Shown, Listed, Untouched, Last;
      LengthShown(chain, pool.store, chunks);
      HeldIsStored(chain, pool.store, chunks, |chain| - 1);
      LastOf(chain);
      var room := DBUF_SIZE - pool.store[db].end;
      n := if room > |rest| then |rest| else room;
      ghost var before := chunks;
      UntouchedSame(others, pool.next, pool.store);
      if n > 0 { Fill(pool, db, rest[..n], others); } else { assert Contents() + rest[..0] == Contents(); }
      NeedAfterFilling(before, chunks, |rest|, n);
    }

    /** One turn of the loop of `dbuf_put`. */
    method PutSome(pool: Pool, h: Where, rest: seq<byte>, ghost others: set<Link>) returns (db: Ptr, n: nat)
      requires AllOk(chunks) && NoneEmpty(chunks) && Linked(pool, others) && rest != []
      requires Points(h) && (h.AtTail? || RoomLeft(chunks) == 0)
      modifies `head, `tail, `chain, `chunks, pool
      ensures AllOk(chunks) && Linked(pool, others) && Kept(pool, others)
      ensures db == NULL ==> unchanged(this) && unchanged(pool) && Need(chunks, |rest|) > pool.Available()
      ensures db != NULL ==> NoneEmpty(chunks) && n <= |rest| && (n > 0 || h.AtTail?) && Contents() == old(Contents()) + rest[..n]
      ensures db != NULL ==> chain != [] && db == Last(chain) && (n == |rest| || RoomLeft(chunks) == 0)
      ensures db != NULL ==> Need(chunks, |rest| - n) - pool.Available() == Need(old(chunks), |rest|) - old(pool.Available())
    {
      hide Need, Flat, CanGrow, Shared, Shown, Listed, Untouched, Last;
      n := 0;
      ghost var n0, s0 := pool.next, pool.store;
      db := Follow(pool, h, others);
      LastOf(chain);
      UntouchedSame(others, n0, s0);
      if db == NULL {
        NeedSome(chunks, |rest|);
        db := Grow(pool, h, others);
        if db == NULL { return; }
        LengthShown(chain, pool.store, chunks);
        NeedAfterGrowing(old(chunks), chunks[|chunks| - 1], |rest|);
        assert chunks == old(chunks) + [chunks[|chunks| - 1]];
      }
      ghost var n1, s1 := pool.next, pool.store;
      n := FillSome(pool, db, rest, others);
      UntouchedTwice(others, n0, s0, n1, s1, pool.next, pool.store);
    }

    /** `dbuf_put` */
    method Put(pool: Pool, buf: seq<byte>, ghost others: set<Link>) returns (ok: bool)
      requires Valid() && In(pool, others)
      modifies this, pool
      ensures Valid() && In(pool, others) && Kept(pool, others)
      ensures ok <==> Need(old(chunks), |buf|) <= old(pool.Available())
      ensures Contents() == if ok then old(Contents()) + buf else []
    {
      hide Need, Flat, CanGrow, RoomLeft, Shared, Shown, Listed, Untouched, Last, AllOk, NoneEmpty;
      var h, rest := if length == 0 then AtHead else AtTail, buf;
      FlatEmpty(chunks);
      LengthShown(chain, pool.store, chunks);
      LastOf(chain);
      length := length + |buf|;
      ghost var c0, done := Contents(), [];
      NoRoomInNothing();
      UntouchedSame(others, pool.next, pool.store);
      assert buf == [] + buf && c0 + [] == c0;
      while |rest| > 0
        invariant AllOk(chunks) && NoneEmpty(chunks) && In(pool, others) && length == |c0| + |buf|
        invariant buf == done + rest && Contents() == c0 + done
        invariant rest != [] ==> Points(h) && (h.AtTail? || RoomLeft(chunks) == 0)
        invariant Kept(pool, others)
        invariant Need(chunks, |rest|) - pool.Available() == Need(old(chunks), |buf|) - old(pool.Available())
        decreases |rest|, h.AtTail?
      {
        ghost var n1, s1 := pool.next, pool.store;
        var db, n := PutSome(pool, h, rest, others);
        UntouchedTwice(others, old(pool.next), old(pool.store), n1, s1, pool.next, pool.store);
        if db == NULL {
          ghost var n2, s2 := pool.next, pool.store;
          MallocError(pool, others);
          UntouchedTwice(others, old(pool.next), old(pool.store), n2, s2, pool.next, pool.store);
          return false;
        }
        Split(buf, c0, done, rest, n);
        LastOf(chain);
        done, rest, h := done + rest[..n], rest[n..], After(db);
      }
      NeedNothing(chunks);
      assert done == buf;
      return true;
    }

    /** Bytes of the first chunk go, and the chunk with them if they were all it held. */
    method DropSome(pool: Pool, n: nat, ghost others: set<Link>)
      requires Linked(pool, others) && chain != [] && AllOk(chunks) && NoneEmpty(chunks) && n <= chunks[0].end - chunks[0].start
      modifies `head, `chain, `chunks, pool
      ensures Linked(pool, others) && Kept(pool, others)
      ensures AllOk(chunks) && NoneEmpty(chunks) && n <= |old(Contents())| && Contents() == old(Contents())[n..]
    {
      hide Flat, Shared, Shown, Listed, Untouched, Last, AllOk, NoneEmpty;
      LengthShown(chain, pool.store, chunks);
      DropFromHead(chunks, n);
      Advance(pool, n, others);
      ghost var n1, s1 := pool.next, pool.store;
      HeldIsStored(chain, pool.store, chunks, 0);
      LinkedHead(chain, head, pool.next);
      UntouchedSame(others, n1, s1);
      if pool.store[head].start == pool.store[head].end { FreeHead(pool, others); }
      UntouchedTwice(others, old(pool.next), old(pool.store), n1, s1, pool.next, pool.store);
    }

    /** `dbuf_delete` */
    method Delete(pool: Pool, n: nat, ghost others: set<Link>)
      requires Valid() && In(pool, others)
      modifies this, pool
      ensures Valid() && In(pool, others) && Kept(pool, others)
      ensures Contents() == old(Contents())[Min(n, |old(Contents())|)..]
    {
      hide Flat, Shared, Shown, Listed, Untouched, Last, AllOk, NoneEmpty;
      ghost var c0 := Contents();
      var left := if n > length then length else n;
      ghost var gone := 0;
      UntouchedSame(others, pool.next, pool.store);
      while left > 0
        invariant Valid() && Linked(pool, others) && 0 <= gone && 0 <= left && gone + left == Min(n, |c0|) && Contents() == c0[gone..]
        invariant Kept(pool, others) && (gone == 0 ==> tail == Last(chain))
        decreases left
      {
        FlatEmpty(chunks);
        LinkedHead(chain, head, pool.next);
        LengthShown(chain, pool.store, chunks);
        if head == NULL { break; }
        HeldIsStored(chain, pool.store, chunks, 0);
        FirstSome(chunks);
        var db := pool.store[head];
        var chunk := if db.end - db.start > left then left else db.end - db.start;
        ghost var n1, s1 := pool.next, pool.store;
        DropSome(pool, chunk, others);
        UntouchedTwice(others, old(pool.next), old(pool.store), n1, s1, pool.next, pool.store);
        left, length := left - chunk, length - chunk;
        gone := gone + chunk;
      }
      FlatEmpty(chunks);
      LinkedHead(chain, head, pool.next);
      LengthShown(chain, pool.store, chunks);
      LastOf(chain);
      if head == NULL { length, tail := 0, NULL; }
    }

    /** `dbuf_map`: the bytes of the first chunk. */
    method Map(pool: Pool, ghost others: set<Link>) returns (block: seq<byte>)
      requires Valid() && In(pool, others)
      ensures block <= Contents() && |block| == FirstBlock(chunks) && (block == [] <==> Contents() == [])
    {
      hide Shared, Listed, Shown, Untouched;
      FlatEmpty(chunks);
      LinkedHead(chain, head, pool.next);
      LengthShown(chain, pool.store, chunks);
      if length == 0 { return []; }
      HeldIsStored(chain, pool.store, chunks, 0);
      FlatHead(chunks);
      block := pool.store[head].Bytes();
    }

    /** `dbuf_get` */
    method Get(pool: Pool, n: nat, ghost others: set<Link>) returns (bytes: seq<byte>)
      requires Valid() && In(pool, others)
      modifies this, pool
      ensures Valid() && In(pool, others) && Kept(pool, others)
      ensures var k := Min(n, |old(Contents())|); bytes == old(Contents())[..k] && Contents() == old(Contents())[k..]
    {
      hide Flat, Shared, Listed, Shown, Untouched, AllOk, NoneEmpty;
      ghost var c0 := Contents();
      var left := n;
      bytes := [];
      UntouchedSame(others, pool.next, pool.store);
      while left > 0
        invariant Valid() && In(pool, others) && 0 <= left && |bytes| + left == n && c0 == bytes + Contents()
        invariant Kept(pool, others)
        decreases left
      {
        var b := Map(pool, others);
        if b == [] { break; }
        ghost var c, n1, s1 := Contents(), pool.next, pool.store;
        var chunk := if |b| > left then left else |b|;
        Delete(pool, chunk, others);
        UntouchedTwice(others, old(pool.next), old(pool.store), n1, s1, pool.next, pool.store);
        MoveFront(c0, bytes, c, b, chunk);
        bytes := bytes + b[..chunk];
        left := left - chunk;
      }
      assert c0[..|bytes|] == bytes && c0[|bytes|..] == Contents();
    }

    /** The first byte goes, as in the loop of `dbuf_flush`. */
    method DropByte(pool: Pool, ghost others: set<Link>)
      requires Valid() && In(pool, others) && chain != []
      modifies this, pool
      ensures Valid() && In(pool, others) && Kept(pool, others)
      ensures old(Contents()) != [] && Contents() == old(Contents())[1..]
    {
      hide Flat, Shared, Listed, Shown, Untouched, AllOk, NoneEmpty;
      LengthShown(chain, pool.store, chunks);
      FirstSome(chunks);
      DropSome(pool, 1, others);
      FlatEmpty(chunks);
      LinkedHead(chain, head, pool.next);
      LengthShown(chain, pool.store, chunks);
      LastOf(chain);
      if head == NULL {
        tail, length := NULL, 0;
      } else {
        length := length - 1;
      }
    }

    /** Drops one end of line from the front. */
    method DropEol(pool: Pool, ghost others: set<Link>)
      requires Valid() && In(pool, others) && Contents() != [] && IsEol(Contents()[0])
      modifies this, pool
      ensures Valid() && In(pool, others) && length < old(length) && Kept(pool, others)
      ensures Strip(Contents()) == Strip(old(Contents()))
    {
      hide Flat, Strip, Shared, Listed, Shown, Untouched;
      FirstByte(chunks);
      StripStep(Contents());
      LengthShown(chain, pool.store, chunks);
      DropByte(pool, others);
    }

    /** `dbuf_flush`.  The result is the length of the whole queue; it is the length of the first block,
        as documented, if and only if at most one chunk is left. */
    method Flush(pool: Pool, ghost others: set<Link>) returns (n: nat)
      requires Valid() && In(pool, others)
      modifies this, pool
      ensures Valid() && In(pool, others) && Kept(pool, others) && n == length
      ensures Contents() == Strip(old(Contents()))
      ensures n == FirstBlock(chunks) <==> |chunks| <= 1
    {
      hide Flat, Strip, IsEol, Shared, Listed, Shown, Untouched, AllOk, NoneEmpty;
      HeadByte(chain, head, pool.next, pool.store, chunks);
      UntouchedSame(others, pool.next, pool.store);
      while head != NULL && IsEol(pool.store[head].data[pool.store[head].start])
        invariant Valid() && In(pool, others) && Strip(Contents()) == Strip(old(Contents()))
        invariant head != NULL ==> head in pool.store && pool.store[head].start < |pool.store[head].data|
        invariant Kept(pool, others)
        decreases length
      {
        ghost var n1, s1 := pool.next, pool.store;
        HeadByte(chain, head, pool.next, pool.store, chunks);
        DropEol(pool, others);
        UntouchedTwice(others, old(pool.next), old(pool.store), n1, s1, pool.next, pool.store);
        HeadByte(chain, head, pool.next, pool.store, chunks);
      }
      HeadByte(chain, head, pool.next, pool.store, chunks);
      StripStep(Contents());
      FirstBlockIsAll(chunks);
      return length;
    }

    /** `dbuf_getmsg`: `line` is what has been copied to the caller. */
    method GetMessage(pool: Pool, limit: nat, ghost others: set<Link>) returns (copied: nat, line: seq<byte>)
      requires Valid() && In(pool, others)
      modifies this, pool
      ensures Valid() && In(pool, others) && Kept(pool, others)
      ensures var m := NextMessage(old(Contents()), limit); Contents() == m.rest && copied == |m.line|
      ensures copied > 0 ==> line == NextMessage(old(Contents()), limit).line
    {
      hide Flat, Strip, LineLength, NextMessage, AllOk, NoneEmpty, NoEol, IsEol, Shared, Listed, Shown, Untouched;
      ghost var c0 := Contents();
      var available := Flush(pool, others);
      FirstByte(chunks);
      if available == 0 {
        NoMessage(c0, limit);
        return 0, [];
      }
      StripStarts(c0);
      ghost var n1, s1 := pool.next, pool.store;
      copied, line := TakeLine(pool, limit, c0, others);
      UntouchedTwice(others, old(pool.next), old(pool.store), n1, s1, pool.next, pool.store);
    }

    /** The rest of it, once no end of line is at the front; `c0` is what there was before. */
    method TakeLine(pool: Pool, limit: nat, ghost c0: seq<byte>, ghost others: set<Link>) returns (copied: nat, line: seq<byte>)
      requires Valid() && In(pool, others) && length > 0 && Contents() == Strip(c0) && !IsEol(Contents()[0])
      modifies this, pool
      ensures Valid() && In(pool, others) && Kept(pool, others)
      ensures var m := NextMessage(c0, limit); Contents() == m.rest && copied == |m.line|
      ensures copied > 0 ==> line == NextMessage(c0, limit).line
    {
      hide Flat, Strip, LineLength, NextMessage, AllOk, NoneEmpty, NoEol, IsEol, Shared, Listed, Shown, Untouched;
      ghost var t := Contents();
      UntouchedSame(others, pool.next, pool.store);
      var found;
      found, line := FindLine(pool, if limit > length then length else limit, others);
      if !found {
        MessageTooLong(c0, t, limit, line);
        return 0, line;
      }
      copied := |line|;
      assert line == t[..copied];
      MessageFound(c0, t, limit, copied);
      Delete(pool, copied, others);
      ghost var n1, s1 := pool.next, pool.store;
      var _ := Flush(pool, others);
      UntouchedTwice(others, old(pool.next), old(pool.store), n1, s1, pool.next, pool.store);
    }

    /** The loop of `dbuf_getmsg` over the chunks; `db` is the one looked at, chunk `k` of the chain. */
    method FindLine(pool: Pool, limit: nat, ghost others: set<Link>) returns (found: bool, line: seq<byte>)
      requires Valid() && In(pool, others) && Contents() != [] && limit <= |Contents()|
      ensures line <= Contents() && NoEol(line)
      ensures found ==> |line| < limit && IsEol(Contents()[|line|])
      ensures !found ==> |line| == limit
    {
      hide Flat, Shared, Listed, Shown, AllOk, NoneEmpty, IsEol, NoEol;
      ghost var t, k := Contents(), 0;
      line := [];
      var left, db := limit, head;
      assert chunks[0..] == chunks && t[0..] == t;
      FlatEmpty(chunks);
      ChainAt(chain, head, pool.next, pool.store, chunks, 0);
      NoEolYet();
      while left > 0
        invariant 0 <= k < |chain| == |chunks| && db == chain[k] && 0 <= left && |line| + left == limit
        invariant AllOk(chunks[k..]) && line <= t && NoEol(line) && (left > 0 ==> Flat(chunks[k..]) == t[|line|..])
        decreases left
      {
        ChainAt(chain, head, pool.next, pool.store, chunks, k);
        AllOkAt(chunks, k);
        SliceHead(chunks, k, t, |line|);
        var c := pool.store[db];
        var start := ScanChunk(c, left);
        ghost var n := |line| + (start - c.start);
        NoEolJoins(line, c.data[c.start..start]);
        line := line + c.data[c.start..start];
        assert line == t[..n];
        if start < c.end && start < c.start + left { return true, line; }
        left := left - (start - c.start);
        db := pool.next[db];
        if db == NULL {
          FlatEmpty(chunks[k + 1..]);
          break;
        }
        k := k + 1;
      }
      return false, line;
    }
  }

  /** The inner loop of `dbuf_getmsg`: up to an end-of-line byte, the end of the chunk, or `left` bytes. */
  method ScanChunk(db: Chunk, left: nat) returns (start: nat)
    requires db.Ok()
    ensures db.start <= start <= db.end && start <= db.start + left && NoEol(db.data[db.start..start])
    ensures start < db.end && start < db.start + left ==> IsEol(db.data[start])
    ensures start == db.end || start == db.start + left || IsEol(db.data[start])
  {
    hide IsEol, NoEol;
    start := db.start;
    NoEolYet();
    assert db.data[db.start..start] == [];
    while start < db.end && start < db.start + left && !IsEol(db.data[start])
      invariant db.start <= start <= db.end && start <= db.start + left && NoEol(db.data[db.start..start])
    {
      assert db.data[db.start..start + 1] == db.data[db.start..start] + [db.data[start]];
      NoEolOne(db.data[start]);
      NoEolJoins(db.data[db.start..start], [db.data[start]]);
      start := start + 1;
    }
  }

  lemma NoEolYet()
    ensures NoEol([])
  {
  }

  lemma NoEolOne(b: byte)
    requires !IsEol(b)
    ensures NoEol([b])
  {
  }

  lemma NoEolJoins(a: seq<byte>, b: seq<byte>)
    requires NoEol(a) && NoEol(b)
    ensures NoEol(a + b)
  {
  }

  lemma AllOkAt(cs: seq<Chunk>, k: nat)
    requires AllOk(cs) && NoneEmpty(cs) && k < |cs|
    ensures cs[k].Ok() && cs[k].start < cs[k].end && AllOk(cs[k..]) && AllOk(cs[k + 1..]) && NoneEmpty(cs[k + 1..])
  {
  }

  lemma FirstSome(cs: seq<Chunk>)
    requires AllOk(cs) && NoneEmpty(cs) && cs != []
    ensures cs[0].Ok() && cs[0].start < cs[0].end
  {
  }

  lemma LinkedHead(chain: seq<Link>, head: Ptr, next: Ptrs)
    requires Listed(chain, head, next)
    ensures head == NULL <==> chain == []
    ensures chain != [] ==> head == chain[0]
  {
  }

  /** Chunk `k` of the chain, and the pointer to the next. */
  lemma ChainAt(chain: seq<Link>, head: Ptr, next: Ptrs, store: Store, chunks: seq<Chunk>, k: nat)
    requires Listed(chain, head, next) && Shown(chain, store, chunks)
    ensures |chain| == |chunks| && (chain != [] ==> head == chain[0])
    ensures k < |chain| ==> chain[k] in store && store[chain[k]] == chunks[k] && chain[k] in next
    ensures k < |chain| ==> next[chain[k]] == if k + 1 < |chain| then chain[k + 1] else NULL
  {
  }

  /** The first byte, seen through `head`. */
  lemma HeadByte(chain: seq<Link>, head: Ptr, next: Ptrs, store: Store, chunks: seq<Chunk>)
    requires Listed(chain, head, next) && Shown(chain, store, chunks) && AllOk(chunks) && NoneEmpty(chunks)
    ensures head == NULL <==> Flat(chunks) == []
    ensures head != NULL ==> head in store && store[head].start < |store[head].data|
    ensures head != NULL ==> Flat(chunks)[0] == store[head].data[store[head].start]
  {
    hide Flat;
    ChainAt(chain, head, next, store, chunks, 0);
    FirstByte(chunks);
  }

  lemma LastOf(chain: seq<Link>)
    ensures chain == [] ==> Last(chain) == NULL
    ensures chain != [] ==> Last(chain) == chain[|chain| - 1] != NULL
  {
  }

  lemma TakenIsOutside(m: Link, free: seq<Link>, chain: seq<Link>, others: set<Link>, allocCount: nat)
    requires Taken(m, free, chain, others, allocCount)
    ensures m !in chain && m !in others
  {
    assert (chain + [m])[|chain|] == m;
  }

  lemma LengthShown(chain: seq<Link>, store: Store, chunks: seq<Chunk>)
    requires Shown(chain, store, chunks)
    ensures |chunks| == |chain|
  {
  }

  lemma Filled(cs: seq<Chunk>, bytes: seq<byte>, c: Chunk)
    requires AllOk(cs) && cs != [] && |bytes| <= RoomLeft(cs)
    requires var d := cs[|cs| - 1]; c == d.(data := d.data[..d.end] + bytes + d.data[d.end + |bytes|..], end := d.end + |bytes|)
    ensures var r := cs[|cs| - 1 := c];
      && AllOk(r) && Flat(r) == Flat(cs) + bytes && RoomLeft(r) == RoomLeft(cs) - |bytes|
      && (NoneEmpty(cs[..|cs| - 1]) && (bytes != [] || NoneEmpty(cs)) ==> NoneEmpty(r))
  {
    var n, d, r := |cs| - 1, cs[|cs| - 1], cs[|cs| - 1 := c];
    FlatLast(cs);
    assert c.Bytes() == d.Bytes() + bytes;
    FlatLast(r);
    assert r[..n] == cs[..n];
    assert forall i :: 0 <= i < n ==> r[i] == cs[..n][i];
  }

  /** A chunk the pool gives away is nobody's. */
  lemma FreshTaken(free: seq<Link>, freeList: Ptr, next: Ptrs, chain: seq<Link>, others: set<Link>, allocCount: nat)
    requires Shared(free, chain, others, allocCount) && Listed(free, freeList, next)
    ensures free != [] ==> Taken(free[0], free[1..], chain, others, allocCount)
    ensures Taken(allocCount + 1, free, chain, others, allocCount + 1)
  {
    if free != [] { FreeTaken(free, chain, others, allocCount); }
    NewTaken(free, chain, others, allocCount);
  }

  ghost predicate Taken(m: Link, free: seq<Link>, chain: seq<Link>, others: set<Link>, allocCount: nat) {
    m !in chain && Shared(free, chain + [m], others, allocCount) && forall l | l in chain + [m] :: l !in others
  }

  /** The pointers after `m` is hooked on behind the chain. */
  ghost function Hooked(chain: seq<Link>, next: Ptrs, m: Link): Ptrs {
    (if chain == [] then next else next[chain[|chain| - 1] := m])[m := NULL]
  }

  lemma GrowLinks(chain: seq<Link>, head: Ptr, next: Ptrs, m: Link)
    requires Listed(chain, head, next) && m !in chain
    ensures Listed(chain + [m], if chain == [] then m else head, Hooked(chain, next, m))
    ensures Last(chain + [m]) == m && (chain != [] ==> Last(chain) == chain[|chain| - 1])
  {
    hide Listed;
    ListAppend(chain, head, next, m, Hooked(chain, next, m));
  }

  lemma GrowPool(free: seq<Link>, freeList: Ptr, chain: seq<Link>, others: set<Link>, allocCount: nat, next: Ptrs, m: Link)
    requires Listed(free, freeList, next) && Shared(free, chain + [m], others, allocCount)
    ensures Listed(free, freeList, Hooked(chain, next, m))
  {
    var all := chain + [m];
    assert all[|chain|] == m && (chain != [] ==> all[|chain| - 1] == chain[|chain| - 1]);
    ListKeys(free, freeList, next);
    ListFrame(free, freeList, next, Hooked(chain, next, m));
  }

  lemma GrowShown(chain: seq<Link>, store: Store, chunks: seq<Chunk>, m: Link, c: Chunk)
    requires Shown(chain, store, chunks) && m !in chain
    ensures Shown(chain + [m], store[m := c], chunks + [c]) && |chunks| == |chain|
  {
    ShownMore(chain, store, chunks, m, c);
  }

  lemma GrowUntouched(others: set<Link>, chain: seq<Link>, next: Ptrs, store: Store, m: Link, c: Chunk)
    requires forall l | l in chain + [m] :: l !in others
    ensures Untouched(others, next, store, Hooked(chain, next, m), store[m := c])
  {
    var all := chain + [m];
    assert all[|chain|] == m && (chain != [] ==> all[|chain| - 1] == chain[|chain| - 1]);
  }

  lemma NotOthers(free: seq<Link>, chain: seq<Link>, others: set<Link>, allocCount: nat, l: Link)
    requires Shared(free, chain, others, allocCount) && l in chain
    ensures l !in others
  {
  }

  lemma UntouchedSame(others: set<Link>, next: Ptrs, store: Store)
    ensures Untouched(others, next, store, next, store)
  {
  }

  lemma NothingShown(store: Store)
    ensures Shown([], store, [])
  {
  }

  lemma HeadOf(chain: seq<Link>, head: Ptr, next: Ptrs)
    requires Listed(chain, head, next)
    ensures NoDup(chain) && head == First(chain) && (chain != [] ==> chain[0] in next)
    ensures chain != [] ==> Last(chain) in next && next[Last(chain)] == NULL
    ensures |chain| > 1 ==> Last(chain[1..]) == Last(chain)
  {
  }

  lemma HeldIsStored(chain: seq<Link>, store: Store, chunks: seq<Chunk>, k: nat)
    requires Shown(chain, store, chunks) && k < |chain|
    ensures chain[k] in store && k < |chunks| && store[chain[k]] == chunks[k]
  {
  }

  lemma ListKeys(s: seq<Link>, head: Ptr, next: Ptrs)
    requires Listed(s, head, next)
    ensures forall l | l in s :: l in next
  {
  }

  // ---------------------------------------------------------------- several queues

  /** The chunks on all chains but one. */
  ghost function Rest(chains: seq<seq<Link>>, k: nat): set<Link> {
    set i, l | 0 <= i < |chains| && i != k && l in chains[i] :: l
  }

  /** Every chunk ever made is on the free list or on a chain, and on one of them only. */
  ghost predicate Spread(free: seq<Link>, chains: seq<seq<Link>>, allocCount: nat) {
    && (forall l: Link | l <= allocCount :: l in free || OnSome(chains, l))
    && (forall l | l in free :: l <= allocCount && !OnSome(chains, l))
    && (forall i, l | 0 <= i < |chains| && l in chains[i] :: l <= allocCount)
    && (forall i, j, l | 0 <= i < j < |chains| && l in chains[i] :: l !in chains[j])
  }

  ghost predicate OnSome(chains: seq<seq<Link>>, l: Link) { exists i :: 0 <= i < |chains| && l in chains[i] }

  lemma SpreadIsShared(free: seq<Link>, chains: seq<seq<Link>>, allocCount: nat, k: nat)
    requires Spread(free, chains, allocCount) && k < |chains|
    ensures Shared(free, chains[k], Rest(chains, k), allocCount)
  {
    var others := Rest(chains, k);
    forall l: Link ensures l in others <==> (OnSome(chains, l) && l !in chains[k]) {
      if l in others { var i :| 0 <= i < |chains| && i != k && l in chains[i]; }
      if OnSome(chains, l) && l !in chains[k] { var i :| 0 <= i < |chains| && l in chains[i]; }
    }
    forall l: Link ensures l in chains[k] ==> OnSome(chains, l) {}
  }

  lemma SharedIsSpread(free: seq<Link>, chains: seq<seq<Link>>, allocCount: nat, k: nat, free': seq<Link>, chain': seq<Link>, allocCount': nat)
    requires Spread(free, chains, allocCount) && k < |chains|
    requires Shared(free', chain', Rest(chains, k), allocCount')
    ensures Spread(free', chains[k := chain'], allocCount')
  {
    var others, all := Rest(chains, k), chains[k := chain'];
    forall l: Link ensures OnSome(all, l) <==> l in chain' || l in others {
      if OnSome(all, l) { var i :| 0 <= i < |all| && l in all[i]; assert i != k ==> l in chains[i]; }
      if l in chain' { assert l in all[k]; }
      if l in others { var i :| 0 <= i < |chains| && i != k && l in chains[i]; assert l in all[i]; }
    }
    forall i, l | 0 <= i < |all| && l in all[i] ensures l <= allocCount' { assert OnSome(all, l); }
    forall i, j, l | 0 <= i < j < |all| && l in all[i] ensures l !in all[j] {
      if i == k { RestHas(chains, k, j); } else if j == k { RestHas(chains, k, i); }
    }
  }

  /** The fields of a queue. */
  datatype View = View(length: nat, head: Ptr, tail: Ptr, chain: seq<Link>, chunks: seq<Chunk>)

  ghost function Look(q: Queue): View
    reads q
  {
    View(q.length, q.head, q.tail, q.chain, q.chunks)
  }

  ghost function Views(qs: seq<Queue>): (r: seq<View>)
    reads qs
    ensures |r| == |qs| && forall i :: 0 <= i < |qs| ==> r[i] == Look(qs[i])
  {
    if qs == [] then [] else [Look(qs[0])] + Views(qs[1..])
  }

  ghost function Chains(vs: seq<View>): (r: seq<seq<Link>>)
    ensures |r| == |vs| && forall i :: 0 <= i < |vs| ==> r[i] == vs[i].chain
  {
    if vs == [] then [] else [vs[0].chain] + Chains(vs[1..])
  }

  ghost function Lengths(chains: seq<seq<Link>>): (r: seq<nat>)
    ensures |r| == |chains| && forall i :: 0 <= i < |chains| ==> r[i] == |chains[i]|
  {
    if chains == [] then [] else [|chains[0]|] + Lengths(chains[1..])
  }

  /** A queue whose chain runs through memory from its `head` to its `tail`. */
  ghost predicate Good(v: View, next: Ptrs, store: Store) {
    && AllOk(v.chunks) && NoneEmpty(v.chunks) && v.length == |Flat(v.chunks)|
    && Listed(v.chain, v.head, next) && v.tail == Last(v.chain) && Shown(v.chain, store, v.chunks)
  }

  /** Several queues on one pool. */
  ghost predicate Together(pool: Pool, qs: seq<Queue>)
    reads pool, qs
  {
    && pool.Valid() && (forall i, j :: 0 <= i < j < |qs| ==> qs[i] != qs[j])
    && Tidy(Views(qs), pool.next, pool.store, pool.free, pool.allocCount, pool.usedCount)
  }

  ghost predicate AllGood(vs: seq<View>, next: Ptrs, store: Store) {
    forall i :: 0 <= i < |vs| ==> Good(vs[i], next, store)
  }

  ghost predicate Tidy(vs: seq<View>, next: Ptrs, store: Store, free: seq<Link>, allocCount: nat, usedCount: nat) {
    && AllGood(vs, next, store) && Spread(free, Chains(vs), allocCount) && usedCount == Sum(Lengths(Chains(vs)))
  }

  ghost predicate Holding(qs: seq<Queue>, st: seq<seq<byte>>)
    reads qs
  {
    |st| == |qs| && forall i :: 0 <= i < |qs| ==> qs[i].Valid() && st[i] == qs[i].Contents()
  }

  method Perform(pool: Pool, q: Queue, op: Op, ghost others: set<Link>) returns (r: Reply)
    requires q.Valid() && q.In(pool, others)
    modifies pool, q
    ensures q.Valid() && q.In(pool, others)
    ensures Untouched(others, old(pool.next), old(pool.store), pool.next, pool.store)
    ensures pool.usedCount - |q.chain| == old(pool.usedCount) - |old(q.chain)|
    ensures Means([old(q.Contents())], op.(q := 0), r, [q.Contents()])
  {
    hide NextMessage, Strip, Flat, Shared, Shown, Listed, Untouched, AllOk, NoneEmpty;
    match op
    case PutOp(_, bytes) =>
      var ok := q.Put(pool, bytes, others);
      return Reply(ok, []);
    case DeleteOp(_, n) =>
      q.Delete(pool, n, others);
      return Reply(true, []);
    case GetOp(_, n) =>
      var bytes := q.Get(pool, n, others);
      return Reply(true, bytes);
    case MessageOp(_, n) =>
      var copied, line := q.GetMessage(pool, n, others);
      return Reply(copied > 0, if copied > 0 then line else []);
  }

  lemma ChainUntouched(chain: seq<Link>, head: Ptr, chunks: seq<Chunk>, others: set<Link>, next: Ptrs, store: Store, next': Ptrs, store': Store)
    requires Listed(chain, head, next) && Shown(chain, store, chunks) && Untouched(others, next, store, next', store')
    requires forall l | l in chain :: l in others
    ensures Listed(chain, head, next') && Shown(chain, store', chunks)
  {
    ListKeys(chain, head, next);
    ListFrame(chain, head, next, next');
    ShownFrame(chain, store, chunks, store');
  }

  lemma RestHas(chains: seq<seq<Link>>, k: nat, i: nat)
    requires i < |chains| && i != k
    ensures forall l | l in chains[i] :: l in Rest(chains, k)
  {
  }

  /** A call on queue `k` leaves the others good. */
  lemma OthersStayGood(vs: seq<View>, k: nat, v: View, next: Ptrs, store: Store, next': Ptrs, store': Store)
    requires k < |vs| && AllGood(vs, next, store) && Good(v, next', store')
    requires Untouched(Rest(Chains(vs), k), next, store, next', store')
    ensures AllGood(vs[k := v], next', store')
  {
    hide Flat, AllOk, NoneEmpty, Listed, Shown, Untouched, Last, Rest;
    var chains, vs' := Chains(vs), vs[k := v];
    forall i | 0 <= i < |vs'| ensures Good(vs'[i], next', store') {
      if i != k {
        assert Good(vs[i], next, store);
        RestHas(chains, k, i);
        ChainUntouched(vs[i].chain, vs[i].head, vs[i].chunks, Rest(chains, k), next, store, next', store');
      }
    }
  }

  lemma LengthsAfter(chains: seq<seq<Link>>, k: nat, chain: seq<Link>)
    requires k < |chains|
    ensures Sum(Lengths(chains[k := chain])) == Sum(Lengths(chains)) - |chains[k]| + |chain|
    ensures Sum(Lengths(chains)) >= |chains[k]|
  {
    SumUpdate(Lengths(chains), k, |chain|);
    assert Lengths(chains[k := chain]) == Lengths(chains)[k := |chain|];
  }

  lemma InTogether(pool: Pool, qs: seq<Queue>, k: nat)
    requires Together(pool, qs) && k < |qs|
    ensures qs[k].Valid() && qs[k].In(pool, Rest(Chains(Views(qs)), k))
  {
    hide Flat, AllOk, NoneEmpty, Listed, Shown, Untouched, Last, Rest, Spread, Shared, Lengths, Sum;
    var chains := Chains(Views(qs));
    SpreadIsShared(pool.free, chains, pool.allocCount, k);
    LengthsAfter(chains, k, qs[k].chain);
    assert Good(Look(qs[k]), pool.next, pool.store);
  }

  /** After a call on queue `k` all is in order again. */
  lemma TidyAgain(vs: seq<View>, k: nat, v: View, next: Ptrs, store: Store, free: seq<Link>, allocCount: nat, usedCount: nat,
                  next': Ptrs, store': Store, free': seq<Link>, allocCount': nat, usedCount': nat)
    requires k < |vs| && Tidy(vs, next, store, free, allocCount, usedCount) && Good(v, next', store')
    requires var others := Rest(Chains(vs), k);
      Untouched(others, next, store, next', store') && Shared(free', v.chain, others, allocCount')
    requires usedCount' - |v.chain| == usedCount - |vs[k].chain|
    ensures Tidy(vs[k := v], next', store', free', allocCount', usedCount')
  {
    hide Good, Untouched, Rest, Spread, Shared, Lengths, Sum;
    var chains := Chains(vs);
    LengthsAfter(chains, k, v.chain);
    assert Chains(vs[k := v]) == chains[k := v.chain];
    SharedIsSpread(free, chains, allocCount, k, free', v.chain, allocCount');
    OthersStayGood(vs, k, v, next, store, next', store');
  }

  lemma HeldBefore(pool: Pool, qs: seq<Queue>, before: seq<seq<byte>>)
    requires Together(pool, qs) && Holding(qs, before)
    ensures |before| == |qs| && (forall i :: 0 <= i < |qs| ==> qs[i].Valid() && before[i] == qs[i].Contents())
    ensures (forall i, j :: 0 <= i < j < |qs| ==> qs[i] != qs[j])
    ensures Tidy(Views(qs), pool.next, pool.store, pool.free, pool.allocCount, pool.usedCount)
    ensures forall i :: 0 <= i < |qs| ==> Views(qs)[i].chain == qs[i].chain
  {
    hide Tidy, Flat, AllOk, NoneEmpty;
  }

  lemma OneChanged(qs: seq<Queue>, vs: seq<View>, k: nat)
    requires k < |vs| == |qs| && forall i :: 0 <= i < |qs| && i != k ==> Look(qs[i]) == vs[i]
    ensures Views(qs) == vs[k := Look(qs[k])]
  {
    hide Look;
  }

  lemma IsTogether(pool: Pool, qs: seq<Queue>)
    requires pool.Valid() && forall i, j :: 0 <= i < j < |qs| ==> qs[i] != qs[j]
    requires Tidy(Views(qs), pool.next, pool.store, pool.free, pool.allocCount, pool.usedCount)
    ensures Together(pool, qs)
  {
    hide Tidy, Views;
  }

  lemma StillHeld(qs: seq<Queue>, before: seq<seq<byte>>, op: Op, r: Reply) returns (after: seq<seq<byte>>)
    requires op.q < |before| == |qs| && forall i :: 0 <= i < |qs| ==> qs[i].Valid() && (i != op.q ==> before[i] == qs[i].Contents())
    requires qs[op.q].Valid() && Means([before[op.q]], op.(q := 0), r, [qs[op.q].Contents()])
    ensures Holding(qs, after) && Means(before, op, r, after)
  {
    hide Means, Flat, AllOk, NoneEmpty;
    MeansElsewhere(before, op, r, qs[op.q].Contents());
    after := before[op.q := qs[op.q].Contents()];
  }

  lemma GoodIn(pool: Pool, q: Queue, others: set<Link>)
    requires q.Valid() && q.In(pool, others)
    ensures Good(Look(q), pool.next, pool.store) && Shared(pool.free, Look(q).chain, others, pool.allocCount)
    ensures pool.Valid() && Look(q).chain == q.chain
  {
    hide Flat, AllOk, NoneEmpty, Listed, Shown, Last, Shared;
  }

  /** One call on one of several queues. */
  method PerformOn(pool: Pool, qs: seq<Queue>, op: Op, ghost before: seq<seq<byte>>) returns (r: Reply, ghost after: seq<seq<byte>>)
    requires Together(pool, qs) && Holding(qs, before) && op.q < |qs|
    modifies pool, qs[op.q]
    ensures Together(pool, qs) && Holding(qs, after) && Means(before, op, r, after)
  {
    hide *;
    var q := qs[op.q];
    ghost var vs, next, store, free, n, used := Views(qs), pool.next, pool.store, pool.free, pool.allocCount, pool.usedCount;
    ghost var others := Rest(Chains(vs), op.q);
    InTogether(pool, qs, op.q);
    HeldBefore(pool, qs, before);
    r := Perform(pool, q, op, others);
    GoodIn(pool, q, others);
    TidyAgain(vs, op.q, Look(q), next, store, free, n, used, pool.next, pool.store, pool.free, pool.allocCount, pool.usedCount);
    OneChanged(qs, vs, op.q);
    IsTogether(pool, qs);
    after := StillHeld(qs, before, op, r);
  }

  /** Any interleaving of calls on any number of queues sharing the pool: each queue behaves as a
      first-in first-out sequence of bytes, a failed put leaves its queue empty and touches no other,
      and every chunk ever made is on the free list or on one queue, and there once. */
  method Run(pool: Pool, qs: seq<Queue>, ops: seq<Op>, ghost before: seq<seq<byte>>) returns (rs: seq<Reply>, ghost after: seq<seq<byte>>)
    requires Together(pool, qs) && Holding(qs, before) && forall k :: 0 <= k < |ops| ==> ops[k].q < |qs|
    modifies pool, qs
    ensures Together(pool, qs) && Holding(qs, after) && RunMeans(before, ops, rs, after)
    ensures pool.allocCount > 0 ==> pool.allocCount * DBUF_SIZE < pool.bufferPool + DBUF_SIZE
  {
    hide *;
    rs, after := [], before;
    var k := 0;
    assert ops[..0] == [];
    RunMeansNothing(before);
    while k < |ops|
      invariant 0 <= k <= |ops| && Together(pool, qs) && Holding(qs, after) && RunMeans(before, ops[..k], rs, after)
    {
      ghost var mid := after;
      var r;
      r, after := PerformOn(pool, qs, ops[k], mid);
      RunMeansAppend(before, ops[..k], rs, mid, ops[k], r, after);
      assert ops[..k + 1] == ops[..k] + [ops[k]];
      rs, k := rs + [r], k + 1;
    }
    assert ops[..k] == ops;
    Bounded(pool, qs);
  }

  /** Memory for queues stays under BUFFERPOOL and one chunk; the chunks in use are those on the queues. */
  lemma Bounded(pool: Pool, qs: seq<Queue>)
    requires Together(pool, qs)
    ensures pool.allocCount > 0 ==> pool.allocCount * DBUF_SIZE < pool.bufferPool + DBUF_SIZE
    ensures Sum(Lengths(Chains(Views(qs)))) + |pool.free| == pool.allocCount
  {
  }

  /** No chunk is on two queues, twice on one, or on a queue and free; the last one is at `tail`. */
  lemma OnePlace(pool: Pool, qs: seq<Queue>, i: nat, l: Link)
    requires Together(pool, qs) && i < |qs| && l in qs[i].chain
    ensures l <= pool.allocCount && l !in pool.free && (forall j :: 0 <= j < |qs| && l in qs[j].chain ==> j == i)
    ensures multiset(qs[i].chain)[l] == 1 && (l == qs[i].tail <==> l in pool.next && pool.next[l] == NULL)
  {
    hide Flat, AllOk, NoneEmpty, Sum, Shown;
    var chains, chain := Chains(Views(qs)), qs[i].chain;
    assert Good(Look(qs[i]), pool.next, pool.store) && l in chains[i] && OnSome(chains, l);
    Once(chain, l);
    var k :| 0 <= k < |chain| && chain[k] == l;
    assert pool.next[chain[k]] == Next(chain, k);
  }

  lemma {:induction false} Once(s: seq<Link>, l: Link)
    requires NoDup(s) && l in s
    ensures multiset(s)[l] == 1
  {
    assert s == [s[0]] + s[1..];
    assert s[0] !in s[1..];
    if s[0] != l { Once(s[1..], l); }
  }
}
