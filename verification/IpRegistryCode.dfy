// The hash table, chains and free list of ircd/IPcheck.c, proved to do what `IpRegistry` says.
module IpRegistryCode {
  import opened Common
  import opened LinkedLists
  import opened IpRegistry

  // ---------- The structures ----------

  type Chains = map<nat, seq<Link>>

  // The place of every address, the chain of every bucket and the free list.
  datatype Books = Books(at: map<Addr, Link>, chains: Chains, free: seq<Link>)

  ghost predicate Heads(table: seq<Ptr>, next: Ptrs, chains: Chains) {
    && |table| == TABLE_SIZE
    && (forall k | 0 <= k < TABLE_SIZE :: k in chains && Listed(chains[k], table[k], next))
  }

  // Every entry stands in the bucket of its address, once; no two entries have one address.
  ghost predicate Placed(store: map<Link, Entry>, at: map<Addr, Link>, chains: Chains) {
    && (forall a | a in at :: Hash(a) in chains && at[a] in chains[Hash(a)] && at[a] in store && store[at[a]].addr == a)
    && (forall k, l | k in chains && l in chains[k] :: l in store && Hash(store[l].addr) == k
          && store[l].addr in at && at[store[l].addr] == l)
  }

  ghost predicate InUse(l: Link, store: map<Link, Entry>, at: map<Addr, Link>) {
    l in store && store[l].addr in at && at[store[l].addr] == l
  }

  // The free list holds what is in no bucket; together with the structure in hand they are all ever
  // made.
  ghost predicate Freed(b: Books, store: map<Link, Entry>, next: Ptrs, freeList: Ptr, allocCount: nat, hand: Ptr) {
    && Listed(b.free, freeList, next)
    && (forall a | a in b.at :: b.at[a] !in b.free && b.at[a] <= allocCount && b.at[a] != hand)
    && (forall l | l in b.free :: l <= allocCount && l != hand && l in store)
    && (forall l: Link | l <= allocCount :: l in b.free || l == hand || InUse(l, store, b.at))
  }

  // The entries as a map from addresses.
  ghost predicate Shows(r: Entries, store: map<Link, Entry>, at: map<Addr, Link>) {
    && r.Keys == at.Keys
    && (forall a | a in at :: at[a] in store && store[at[a]] == r[a])
  }

  ghost predicate Sane(r: Entries, b: Books, table: seq<Ptr>, next: Ptrs, store: map<Link, Entry>, freeList: Ptr,
                       allocCount: nat, hand: Ptr)
  {
    && Heads(table, next, b.chains) && Placed(store, b.at, b.chains)
    && Freed(b, store, next, freeList, allocCount, hand) && Shows(r, store, b.at)
  }

  // ---------- Lists ----------

  lemma ListCut(s: seq<Link>, head: Ptr, next: Ptrs, i: nat)
    requires Listed(s, head, next) && 0 < i < |s|
    ensures s[i] in next && next[s[i - 1]] == s[i]
    ensures Listed(Cut(s, i), head, next[s[i - 1] := next[s[i]]])
  {
    var t, n := Cut(s, i), next[s[i - 1] := next[s[i]]];
    assert next[s[i]] == Next(s, i) && next[s[i - 1]] == Next(s, i - 1);
    CutNoDup(s, i);
    forall k | 0 <= k < |t| ensures t[k] in n && n[t[k]] == Next(t, k) { ListCutAt(s, head, next, i, k); }
  }

  lemma CutNoDup(s: seq<Link>, i: nat)
    requires NoDup(s) && i < |s|
    ensures NoDup(Cut(s, i)) && s[i] !in Cut(s, i) && forall l | l in Cut(s, i) :: l in s
    ensures forall l | l in s && l != s[i] :: l in Cut(s, i)
  {
    forall l | l in s && l != s[i] ensures l in Cut(s, i) {
      var j :| 0 <= j < |s| && s[j] == l;
      assert Cut(s, i)[if j < i then j else j - 1] == l;
    }
  }

  lemma ListCutAt(s: seq<Link>, head: Ptr, next: Ptrs, i: nat, k: nat)
    requires Listed(s, head, next) && 0 < i < |s| && k < |s| - 1
    ensures s[i] in next && s[i - 1] in next
    ensures var t, n := Cut(s, i), next[s[i - 1] := next[s[i]]];
      |t| == |s| - 1 && t[k] in n && n[t[k]] == Next(t, k)
  {
    var j := if k < i then k else k + 1;
    assert s[j] in next && next[s[j]] == Next(s, j);
    assert s[i] in next && next[s[i]] == Next(s, i);
    assert j != i - 1 ==> s[j] != s[i - 1];
    hide Cut, Listed, NoDup;
    CutAt(s, i, k);
    if k + 1 < |s| - 1 { CutAt(s, i, k + 1); }
  }

  // ---------- All chains ----------

  ghost predicate Outside(m: Link, chains: Chains) {
    forall k, l | k in chains && l in chains[k] :: l != m
  }

  lemma AddHeads(table: seq<Ptr>, next: Ptrs, chains: Chains, m: Link, k: nat)
    requires Heads(table, next, chains) && k < TABLE_SIZE && Outside(m, chains)
    ensures k in chains && k < |table|
    ensures Heads(table[k := m], next[m := table[k]], chains[k := [m] + chains[k]])
  {
    hide Listed;
    ListPush(chains[k], table[k], next, m);
    forall j | 0 <= j < TABLE_SIZE && j != k ensures Listed(chains[j], table[j], next[m := table[k]]) {
      ListNext(chains[j], table[j], next);
      ListFrame(chains[j], table[j], next, next[m := table[k]]);
    }
  }

  ghost predicate Apart(chains: Chains) {
    forall j, k, l | j in chains && k in chains && l in chains[j] && l in chains[k] :: j == k
  }

  lemma PlacedApart(store: map<Link, Entry>, at: map<Addr, Link>, chains: Chains)
    requires Placed(store, at, chains)
    ensures Apart(chains)
  {
    forall j, k, l | j in chains && k in chains && l in chains[j] && l in chains[k] ensures j == k {
      assert Hash(store[l].addr) == j && Hash(store[l].addr) == k;
    }
  }

  // Entry `chains[k][i]` leaves its bucket; only the pointer to it is written.
  lemma RemoveHeads(table: seq<Ptr>, next: Ptrs, chains: Chains, k: nat, i: nat)
    requires Heads(table, next, chains) && k < TABLE_SIZE && Apart(chains) && k in chains && i < |chains[k]|
    ensures chains[k][i] in next && k < |table|
    ensures var m := chains[k][i];
      if i == 0 then Heads(table[k := next[m]], next, chains[k := Cut(chains[k], i)])
      else Heads(table, next[chains[k][i - 1] := next[m]], chains[k := Cut(chains[k], i)])
    ensures i == 0 <==> table[k] == chains[k][i]
  {
    var s := chains[k];
    assert table[k] == First(s) && NoDup(s) && s[i] in next;
    hide Listed, NoDup;
    if i == 0 {
      ListPop(s, table[k], next);
      assert Cut(s, 0) == s[1..];
    } else {
      assert s[0] != s[i] by { DistinctAt(s, i); }
      ListCut(s, table[k], next, i);
      var n := next[s[i - 1] := next[s[i]]];
      forall j | 0 <= j < TABLE_SIZE && j != k ensures Listed(chains[j], table[j], n) {
        assert s[i - 1] in s && s[i - 1] !in chains[j];
        ListNext(chains[j], table[j], next);
        ListFrame(chains[j], table[j], next, n);
      }
    }
  }

  lemma DistinctAt(s: seq<Link>, i: nat)
    requires NoDup(s) && 0 < i < |s|
    ensures s[0] != s[i]
  {
  }

  // A structure outside the chains can be given any next pointer.
  lemma NextHeads(table: seq<Ptr>, next: Ptrs, chains: Chains, m: Link, to: Ptr)
    requires Heads(table, next, chains) && Outside(m, chains)
    ensures Heads(table, next[m := to], chains)
  {
    hide Listed;
    forall j | 0 <= j < TABLE_SIZE ensures Listed(chains[j], table[j], next[m := to]) {
      ListNext(chains[j], table[j], next);
      ListFrame(chains[j], table[j], next, next[m := to]);
    }
  }

  // ---------- The whole state ----------

  lemma HandOutside(r: Entries, b: Books, table: seq<Ptr>, next: Ptrs, store: map<Link, Entry>, freeList: Ptr, allocCount: nat, m: Link)
    requires Sane(r, b, table, next, store, freeList, allocCount, m)
    ensures Outside(m, b.chains) && m !in b.free
  {
    hide Heads, Shows;
    forall k, l | k in b.chains && l in b.chains[k] ensures l != m {
      assert l in store && store[l].addr in b.at;
      var a := store[l].addr;
      assert b.at[a] == l && b.at[a] != m;
    }
  }

  // A structure in hand gets contents.
  lemma FillSane(r: Entries, b: Books, table: seq<Ptr>, next: Ptrs, store: map<Link, Entry>, freeList: Ptr, allocCount: nat,
                 m: Link, e: Entry)
    requires Sane(r, b, table, next, store, freeList, allocCount, m)
    ensures Sane(r, b, table, next, store[m := e], freeList, allocCount, m)
  {
    HandOutside(r, b, table, next, store, freeList, allocCount, m);
    hide Heads, Placed, Freed, Shows, Outside;
    FillPlaced(store, b.at, b.chains, m, e);
    FillFreed(b, store, next, freeList, allocCount, m, e);
    FillShows(r, b, store, next, freeList, allocCount, m, e);
  }

  lemma FillPlaced(store: map<Link, Entry>, at: map<Addr, Link>, chains: Chains, m: Link, e: Entry)
    requires Placed(store, at, chains) && Outside(m, chains)
    ensures Placed(store[m := e], at, chains)
  {
    hide Hash;
  }

  lemma FillFreed(b: Books, store: map<Link, Entry>, next: Ptrs, freeList: Ptr, allocCount: nat, m: Link, e: Entry)
    requires Freed(b, store, next, freeList, allocCount, m)
    ensures Freed(b, store[m := e], next, freeList, allocCount, m)
  {
    hide Listed;
  }

  lemma FillShows(r: Entries, b: Books, store: map<Link, Entry>, next: Ptrs, freeList: Ptr, allocCount: nat, m: Link, e: Entry)
    requires Shows(r, store, b.at) && Freed(b, store, next, freeList, allocCount, m)
    ensures Shows(r, store[m := e], b.at)
  {
    hide Listed;
  }

  lemma InsertPlaced(store: map<Link, Entry>, at: map<Addr, Link>, chains: Chains, m: Link)
    requires Placed(store, at, chains) && Outside(m, chains) && m in store && store[m].addr !in at && Hash(store[m].addr) in chains
    ensures var a := store[m].addr;
      Placed(store, at[a := m], chains[Hash(a) := [m] + chains[Hash(a)]])
  {
    hide Hash;
  }

  lemma InsertFreed(b: Books, store: map<Link, Entry>, next: Ptrs, freeList: Ptr, allocCount: nat, m: Link, chains': Chains, to: Ptr)
    requires Freed(b, store, next, freeList, allocCount, m) && m in store && store[m].addr !in b.at && m <= allocCount
    requires m !in b.free
    ensures Freed(Books(b.at[store[m].addr := m], chains', b.free), store, next[m := to], freeList, allocCount, NULL)
  {
    ListNext(b.free, freeList, next);
    ListFrame(b.free, freeList, next, next[m := to]);
    hide Listed;
  }

  lemma InsertShows(r: Entries, store: map<Link, Entry>, at: map<Addr, Link>, m: Link)
    requires Shows(r, store, at) && m in store
    ensures Shows(r[store[m].addr := store[m]], store, at[store[m].addr := m])
  {
  }

  // The structure in hand goes to the front of its bucket.
  lemma InsertSane(r: Entries, b: Books, table: seq<Ptr>, next: Ptrs, store: map<Link, Entry>, freeList: Ptr, allocCount: nat, m: Link)
    requires Sane(r, b, table, next, store, freeList, allocCount, m)
    requires m in store && store[m].addr !in r && m <= allocCount
    ensures Hash(store[m].addr) < |table| && Hash(store[m].addr) in b.chains
    ensures var e, k := store[m], Hash(store[m].addr);
      Sane(r[e.addr := e], Books(b.at[e.addr := m], b.chains[k := [m] + b.chains[k]], b.free),
           table[k := m], next[m := table[k]], store, freeList, allocCount, NULL)
  {
    HandOutside(r, b, table, next, store, freeList, allocCount, m);
    ShowsKeys(r, store, b.at);
    hide Placed, Freed, Shows, Outside, Hash;
    HasBuckets(table, next, b.chains, Hash(store[m].addr));
    hide Heads;
    var k := Hash(store[m].addr);
    AddHeads(table, next, b.chains, m, k);
    InsertPlaced(store, b.at, b.chains, m);
    InsertFreed(b, store, next, freeList, allocCount, m, b.chains[k := [m] + b.chains[k]], table[k]);
    InsertShows(r, store, b.at, m);
  }

  lemma ShowsKeys(r: Entries, store: map<Link, Entry>, at: map<Addr, Link>)
    requires Shows(r, store, at)
    ensures r.Keys == at.Keys
  {
  }

  lemma HasBuckets(table: seq<Ptr>, next: Ptrs, chains: Chains, k: nat)
    requires Heads(table, next, chains) && k < TABLE_SIZE
    ensures k < |table| && k in chains
  {
  }

  // An entry changes in place.
  lemma UpdateSane(r: Entries, b: Books, table: seq<Ptr>, next: Ptrs, store: map<Link, Entry>, freeList: Ptr, allocCount: nat, e: Entry)
    requires Sane(r, b, table, next, store, freeList, allocCount, NULL) && e.addr in r
    ensures e.addr in b.at && b.at[e.addr] in store && store[b.at[e.addr]] == r[e.addr]
    ensures Sane(r[e.addr := e], b, table, next, store[b.at[e.addr] := e], freeList, allocCount, NULL)
  {
    ShowsKeys(r, store, b.at);
    hide Heads, Placed, Freed, Shows;
    UpdateShows(r, store, b.at, b.chains, e);
    UpdatePlaced(store, b.at, b.chains, e);
    UpdateFreed(b, store, next, freeList, allocCount, e);
  }

  lemma UpdateShows(r: Entries, store: map<Link, Entry>, at: map<Addr, Link>, chains: Chains, e: Entry)
    requires Shows(r, store, at) && Placed(store, at, chains) && e.addr in r
    ensures e.addr in at && at[e.addr] in store && store[at[e.addr]] == r[e.addr]
    ensures Shows(r[e.addr := e], store[at[e.addr] := e], at)
  {
    hide Placed;
    PlacedInjective(store, at, chains);
  }

  lemma UpdateApart(store: map<Link, Entry>, at: map<Addr, Link>, chains: Chains, a: Addr, c: Addr)
    requires Placed(store, at, chains) && a in at && c in at
    ensures at[a] == at[c] ==> a == c
  {
    hide Hash;
  }

  ghost predicate Injective(at: map<Addr, Link>) {
    forall a, c | a in at && c in at && at[a] == at[c] :: a == c
  }

  lemma PlacedInjective(store: map<Link, Entry>, at: map<Addr, Link>, chains: Chains)
    requires Placed(store, at, chains)
    ensures Injective(at)
  {
    forall a, c | a in at && c in at && at[a] == at[c] ensures a == c { UpdateApart(store, at, chains, a, c); }
  }

  lemma UpdatePlaced(store: map<Link, Entry>, at: map<Addr, Link>, chains: Chains, e: Entry)
    requires Placed(store, at, chains) && e.addr in at
    ensures at[e.addr] in store && Placed(store[at[e.addr] := e], at, chains)
  {
    hide Hash;
    var m := at[e.addr];
    assert store[m].addr == e.addr;
  }

  lemma UpdateFreed(b: Books, store: map<Link, Entry>, next: Ptrs, freeList: Ptr, allocCount: nat, e: Entry)
    requires Freed(b, store, next, freeList, allocCount, NULL) && Placed(store, b.at, b.chains) && e.addr in b.at
    ensures Freed(b, store[b.at[e.addr] := e], next, freeList, allocCount, NULL)
  {
    hide Listed, Hash;
    assert store[b.at[e.addr]].addr == e.addr;
    hide Placed;
  }

  // ---------- Leaving a bucket ----------

  lemma RemoveAt(store: map<Link, Entry>, at: map<Addr, Link>, chains: Chains, a: Addr, chains': Chains)
    requires Placed(store, at, chains) && a in at && Hash(a) in chains && chains'.Keys == chains.Keys
    requires forall k | k in chains && k != Hash(a) :: chains'[k] == chains[k]
    requires forall l | l in chains[Hash(a)] && l != at[a] :: l in chains'[Hash(a)]
    ensures forall c | c in at && c != a ::
      Hash(c) in chains' && at[c] in chains'[Hash(c)] && at[c] in store && store[at[c]].addr == c
  {
    hide Hash;
    PlacedInjective(store, at, chains);
  }

  lemma RemoveFrom(store: map<Link, Entry>, at: map<Addr, Link>, chains: Chains, a: Addr, chains': Chains)
    requires Placed(store, at, chains) && a in at && Hash(a) in chains && chains'.Keys == chains.Keys
    requires forall k | k in chains && k != Hash(a) :: chains'[k] == chains[k]
    requires forall l | l in chains'[Hash(a)] :: l in chains[Hash(a)] && l != at[a]
    ensures forall k, l | k in chains' && l in chains'[k] ::
      l in store && Hash(store[l].addr) == k && store[l].addr in at && at[store[l].addr] == l && store[l].addr != a
  {
    hide Placed, Hash;
    forall k, l | k in chains' && l in chains'[k]
      ensures l in store && Hash(store[l].addr) == k && store[l].addr in at && at[store[l].addr] == l && store[l].addr != a
    {
      assert l in chains[k];
      PlacedChain(store, at, chains, k, l);
      if k == Hash(a) { PlacedDistinct(store, at, chains, l, a); }
    }
  }

  lemma PlacedChain(store: map<Link, Entry>, at: map<Addr, Link>, chains: Chains, k: nat, l: Link)
    requires Placed(store, at, chains) && k in chains && l in chains[k]
    ensures l in store && Hash(store[l].addr) == k && store[l].addr in at && at[store[l].addr] == l
  {
    hide Hash;
  }

  lemma PlacedDistinct(store: map<Link, Entry>, at: map<Addr, Link>, chains: Chains, l: Link, a: Addr)
    requires Placed(store, at, chains) && a in at && l in store && store[l].addr in at && at[store[l].addr] == l
    ensures l != at[a] ==> store[l].addr != a
  {
  }

  lemma RemovePlaced(store: map<Link, Entry>, at: map<Addr, Link>, chains: Chains, a: Addr, i: nat)
    requires Placed(store, at, chains) && a in at && Hash(a) in chains && i < |chains[Hash(a)]|
    requires chains[Hash(a)][i] == at[a] && NoDup(chains[Hash(a)])
    ensures Placed(store, at - {a}, chains[Hash(a) := Cut(chains[Hash(a)], i)])
  {
    hide Cut, NoDup, Hash, Placed;
    var chains' := chains[Hash(a) := Cut(chains[Hash(a)], i)];
    CutNoDup(chains[Hash(a)], i);
    RemoveAt(store, at, chains, a, chains');
    RemoveFrom(store, at, chains, a, chains');
    PlacedFrom(store, at - {a}, chains');
  }

  lemma PlacedFrom(store: map<Link, Entry>, at: map<Addr, Link>, chains: Chains)
    requires forall a | a in at :: Hash(a) in chains && at[a] in chains[Hash(a)] && at[a] in store && store[at[a]].addr == a
    requires forall k, l | k in chains && l in chains[k] ::
      l in store && Hash(store[l].addr) == k && store[l].addr in at && at[store[l].addr] == l
    ensures Placed(store, at, chains)
  {
    hide Hash;
  }

  lemma RemoveFreed(b: Books, store: map<Link, Entry>, next: Ptrs, freeList: Ptr, allocCount: nat, a: Addr, chains': Chains, next': Ptrs)
    requires Freed(b, store, next, freeList, allocCount, NULL) && Placed(store, b.at, b.chains) && a in b.at
    requires forall l | l in b.free :: l in next' && l in next && next'[l] == next[l]
    ensures Freed(Books(b.at - {a}, chains', b.free), store, next', freeList, allocCount, b.at[a])
  {
    hide Listed, Hash;
    ListFrame(b.free, freeList, next, next');
    PlacedInjective(store, b.at, b.chains);
    PlacedAt(store, b.at, b.chains, a);
    hide Placed;
  }

  lemma PlacedAt(store: map<Link, Entry>, at: map<Addr, Link>, chains: Chains, a: Addr)
    requires Placed(store, at, chains) && a in at
    ensures at[a] in store && store[at[a]].addr == a
  {
  }

  // What unlinking an entry writes: its bucket, or the pointer of the entry before it.
  lemma RemoveSane(r: Entries, b: Books, table: seq<Ptr>, next: Ptrs, store: map<Link, Entry>, freeList: Ptr, allocCount: nat,
                   a: Addr, i: nat)
    requires Sane(r, b, table, next, store, freeList, allocCount, NULL) && a in b.at
    requires Hash(a) in b.chains && i < |b.chains[Hash(a)]| && b.chains[Hash(a)][i] == b.at[a]
    ensures Hash(a) < |table| && b.at[a] in next && (i == 0 <==> table[Hash(a)] == b.at[a])
    ensures var k, m := Hash(a), b.at[a];
      var table' := if i == 0 then table[k := next[m]] else table;
      var next' := if i == 0 then next else next[b.chains[k][i - 1] := next[m]];
      Sane(r - {a}, Books(b.at - {a}, b.chains[k := Cut(b.chains[k], i)], b.free), table', next', store, freeList, allocCount, m)
  {
    hide Heads, Hash, Apart, NoDup, Listed, Freed, Placed, Shows, Cut;
    var k, m := Hash(a), b.at[a];
    var chains' := b.chains[k := Cut(b.chains[k], i)];
    BucketNoDup(table, next, b.chains, k);
    PlacedApart(store, b.at, b.chains);
    RemoveHeads(table, next, b.chains, k, i);
    var next' := if i == 0 then next else next[b.chains[k][i - 1] := next[m]];
    FreeUntouched(b, store, next, freeList, allocCount);
    assert i > 0 ==> b.chains[k][i - 1] in b.chains[k];
    RemovePlaced(store, b.at, b.chains, a, i);
    RemoveFreed(b, store, next, freeList, allocCount, a, chains', next');
    RemoveShows(r, store, b.at, a);
  }

  lemma RemoveShows(r: Entries, store: map<Link, Entry>, at: map<Addr, Link>, a: Addr)
    requires Shows(r, store, at)
    ensures Shows(r - {a}, store, at - {a})
  {
  }

  lemma BucketNoDup(table: seq<Ptr>, next: Ptrs, chains: Chains, k: nat)
    requires Heads(table, next, chains) && k < TABLE_SIZE
    ensures k in chains && NoDup(chains[k])
  {
  }

  lemma FreeUntouched(b: Books, store: map<Link, Entry>, next: Ptrs, freeList: Ptr, allocCount: nat)
    requires Freed(b, store, next, freeList, allocCount, NULL) && Placed(store, b.at, b.chains)
    ensures forall l | l in b.free :: l in next
    ensures forall k, l | k in b.chains && l in b.chains[k] :: l !in b.free
  {
    ListNext(b.free, freeList, next);
    hide Listed, Hash;
    forall k, l | k in b.chains && l in b.chains[k] ensures l !in b.free {
      assert b.at[store[l].addr] == l;
    }
  }

  // ---------- The free list ----------

  // The structure in hand is given back.
  lemma FreeSane(r: Entries, b: Books, table: seq<Ptr>, next: Ptrs, store: map<Link, Entry>, freeList: Ptr, allocCount: nat, m: Link)
    requires Sane(r, b, table, next, store, freeList, allocCount, m) && m in store && m <= allocCount
    ensures Sane(r, b.(free := [m] + b.free), table, next[m := freeList], store, m, allocCount, NULL)
  {
    HandOutside(r, b, table, next, store, freeList, allocCount, m);
    hide Placed, Shows, Outside, Heads;
    NextHeads(table, next, b.chains, m, freeList);
    FreeFreed(b, store, next, freeList, allocCount, m);
    hide Freed;
  }

  lemma FreeFreed(b: Books, store: map<Link, Entry>, next: Ptrs, freeList: Ptr, allocCount: nat, m: Link)
    requires Freed(b, store, next, freeList, allocCount, m) && m !in b.free && m in store && m <= allocCount
    ensures Freed(b.(free := [m] + b.free), store, next[m := freeList], m, allocCount, NULL)
  {
    ListPush(b.free, freeList, next, m);
    hide Listed;
  }

  // The first free structure is taken.
  lemma TakeSane(r: Entries, b: Books, table: seq<Ptr>, next: Ptrs, store: map<Link, Entry>, freeList: Ptr, allocCount: nat)
    requires Sane(r, b, table, next, store, freeList, allocCount, NULL) && freeList != NULL
    ensures b.free != [] && freeList == b.free[0] && freeList in next && freeList <= allocCount
    ensures Sane(r, b.(free := b.free[1..]), table, next, store, next[freeList], allocCount, freeList)
  {
    assert b.free != [] && freeList == b.free[0];
    hide Placed, Shows, Heads;
    TakeFreed(b, store, next, freeList, allocCount);
  }

  lemma TakeFreed(b: Books, store: map<Link, Entry>, next: Ptrs, freeList: Ptr, allocCount: nat)
    requires Freed(b, store, next, freeList, allocCount, NULL) && b.free != [] && freeList == b.free[0]
    ensures freeList in next && freeList <= allocCount
    ensures Freed(b.(free := b.free[1..]), store, next, next[freeList], allocCount, freeList)
  {
    hide Listed, InUse, NoDup;
    ListPop(b.free, freeList, next);
    RestOf(b.free);
  }

  lemma RestOf(s: seq<Link>)
    requires s != []
    ensures s[0] in s && forall l | l in s :: l == s[0] || l in s[1..]
    ensures forall l | l in s[1..] :: l in s
  {
  }

  // A new structure is made when none is free.
  lemma MallocSane(r: Entries, b: Books, table: seq<Ptr>, next: Ptrs, store: map<Link, Entry>, allocCount: nat)
    requires Sane(r, b, table, next, store, NULL, allocCount, NULL)
    ensures Sane(r, b, table, next, store, NULL, allocCount + 1, allocCount + 1)
  {
    hide Placed, Shows, Heads;
    assert b.free == [];
    hide Listed;
  }

  ghost function NoChains(n: nat): (c: Chains)
    ensures forall k | 0 <= k < n :: k in c
    ensures forall k | k in c :: c[k] == []
  {
    if n == 0 then map[] else NoChains(n - 1)[n - 1 := []]
  }

  // ---------- Walking a bucket ----------

  ghost function PtrAt(s: seq<Link>, i: nat): Ptr {
    if i < |s| then s[i] else NULL
  }

  lemma WalkStep(table: seq<Ptr>, next: Ptrs, chains: Chains, store: map<Link, Entry>, at: map<Addr, Link>, k: nat, i: nat)
    requires Heads(table, next, chains) && Placed(store, at, chains) && k < TABLE_SIZE && k in chains && i < |chains[k]|
    ensures var l := chains[k][i];
      l in store && l in next && next[l] == PtrAt(chains[k], i + 1) && store[l].addr in at && at[store[l].addr] == l
      && Hash(store[l].addr) == k
  {
    assert chains[k][i] in chains[k];
    hide Hash;
  }

  lemma WalkStart(table: seq<Ptr>, next: Ptrs, chains: Chains, k: nat)
    requires Heads(table, next, chains) && k < TABLE_SIZE
    ensures k < |table| && k in chains && table[k] == PtrAt(chains[k], 0)
  {
  }

  // An address that is not in its bucket is nowhere.
  lemma NotFound(store: map<Link, Entry>, at: map<Addr, Link>, chains: Chains, a: Addr)
    requires Placed(store, at, chains) && Hash(a) in chains
    requires forall l | l in chains[Hash(a)] :: l in store && store[l].addr != a
    ensures a !in at
  {
  }

  ghost function Where(at: map<Addr, Link>, a: Addr): Ptr {
    if a in at then at[a] else NULL
  }

  // ---------- The code ----------

  class Registry {
    var table: seq<Ptr>
    var next: Ptrs
    var store: map<Link, Entry>
    var freeList: Ptr
    var allocCount: nat
    ghost var entries: Entries
    ghost var books: Books

    // As `Valid`, with one structure in hand.
    ghost predicate Holding(hand: Ptr)
      reads this
    {
      Sane(entries, books, table, next, store, freeList, allocCount, hand)
    }

    ghost predicate Valid()
      reads this
    {
      Holding(NULL)
    }

    constructor ()
      ensures Valid() && entries == map[]
    {
      table := seq(TABLE_SIZE, _ => NULL);
      next, store, freeList, allocCount := map[], map[], NULL, 0;
      entries, books := map[], Books(map[], NoChains(TABLE_SIZE), []);
    }

    method Find(ip: Addr) returns (entry: Ptr)
      requires Valid()
      ensures entry == Where(books.at, ip)
    {
      hide Heads, Placed, Freed, Shows, Hash;
      var bucket := Hash(ip);
      WalkStart(table, next, books.chains, bucket);
      entry := table[bucket];
      ghost var s, i := books.chains[bucket], 0;
      if 0 < |s| { WalkStep(table, next, books.chains, store, books.at, bucket, 0); }
      while entry != NULL
        invariant i <= |s| && entry == PtrAt(s, i)
        invariant forall l | l in s[..i] :: l in store && store[l].addr != ip
        decreases |s| - i
      {
        WalkStep(table, next, books.chains, store, books.at, bucket, i);
        if store[entry].addr == ip { return; }
        entry := next[entry];
        i := i + 1;
      }
      assert s[..i] == s;
      NotFound(store, books.at, books.chains, ip);
    }

    method NewEntry(clock: nat) returns (entry: Link)
      requires Valid()
      modifies this
      ensures Holding(entry) && entries == old(entries) && table == old(table)
      ensures entry <= allocCount && entry in store && store[entry] == IpRegistry.NewEntry(0, clock)
    {
      hide Heads, Placed, Freed, Shows;
      if freeList != NULL {
        TakeSane(entries, books, table, next, store, freeList, allocCount);
        entry := freeList;
        freeList := next[entry];
        books := books.(free := books.free[1..]);
      } else {
        MallocSane(entries, books, table, next, store, allocCount);
        entry := allocCount + 1;
        allocCount := entry;
      }
      FillSane(entries, books, table, next, store, freeList, allocCount, entry, Entry(0, Now(clock), 1, 1, None));
      store := store[entry := Entry(0, Now(clock), 1, 1, None)];
    }

    method Add(entry: Link)
      requires Holding(entry) && entry in store && store[entry].addr !in entries && entry <= allocCount
      modifies this
      ensures Valid() && store == old(store) && entry in store
      ensures entries == old(entries)[store[entry].addr := store[entry]]
    {
      hide Heads, Placed, Freed, Shows, Hash;
      InsertSane(entries, books, table, next, store, freeList, allocCount, entry);
      var bucket := Hash(store[entry].addr);
      ghost var e, b := store[entry], books;
      next := next[entry := table[bucket]];
      table := table[bucket := entry];
      entries := entries[e.addr := e];
      books := Books(b.at[e.addr := entry], b.chains[bucket := [entry] + b.chains[bucket]], b.free);
    }

    // A new entry for an address that has none.
    method Register(addr: Addr, e: Entry)
      requires Valid() && addr !in entries && e.addr == addr
      modifies this
      ensures Valid() && entries == old(entries)[addr := e]
    {
      hide Sane;
      var entry := NewEntry(0);
      FillSane(entries, books, table, next, store, freeList, allocCount, entry, e);
      store := store[entry := e];
      Add(entry);
    }

    // The fields of a found entry are written.
    method Write(entry: Link, e: Entry)
      requires Valid() && e.addr in entries && entry == Where(books.at, e.addr)
      modifies `store, `entries
      ensures Valid() && entries == old(entries)[e.addr := e]
      ensures entry in old(store) && store == old(store)[entry := e]
    {
      hide Sane;
      UpdateSane(entries, books, table, next, store, freeList, allocCount, e);
      store := store[entry := e];
      entries := entries[e.addr := e];
    }

    // A found entry shows what is registered for its address.
    lemma Found(ip: Addr)
      requires Valid()
      ensures ip in entries <==> Where(books.at, ip) != NULL
      ensures ip in entries ==> Where(books.at, ip) in store && store[Where(books.at, ip)] == entries[ip] && entries[ip].addr == ip
    {
      hide Heads, Freed, Hash;
      if ip in books.at { PlacedAt(store, books.at, books.chains, ip); }
    }

    // ip_registry_update_free_targets on the fields of an entry.
    static method UpdateTargets(e: Entry, clock: nat) returns (f: Entry)
      ensures f == Updated(e, clock)
    {
      f := e;
      if e.target != None {
        var free := (e.target.value.count + Quotient(Since(clock, e.last), TARGET_DELAY)) % WORD;
        if free > STARTTARGETS { free := STARTTARGETS; }
        f := f.(target := Some(f.target.value.(count := free)));
      }
    }

    // Counting one more attempt in eight bits.
    static method CountAttempt(attempts: nat) returns (n: nat)
      requires attempts <= CHAR_MAX
      ensures n == Saturated(attempts)
    {
      n := (attempts + 1) % (CHAR_MAX + 1);
      if n == 0 { n := CHAR_MAX; }
    }

    method LocalConnect(addr: Addr, clock: nat, uptime: int, cfg: Config) returns (ok: bool)
      requires Valid() && Small(entries)
      modifies this
      ensures Valid() && (entries, ok) == IpRegistry.LocalConnect(old(entries), addr, clock, uptime, cfg)
    {
      hide Sane, FreeTargets, Since, Updated, Small;
      var entry := Find(addr);
      Found(addr);
      if entry == NULL {
        Register(addr, IpRegistry.NewEntry(addr, clock));
        return true;
      }
      SmallAt(entries, addr);
      var was, e := store[entry], store[entry];
      e := e.(connected := (e.connected + 1) % (SHORT_MAX + 1));
      if e.connected == 0 {
        e := e.(connected := SHORT_MAX);
        assert e == was;
        Write(entry, e);
        assert entries == old(entries);
        return false;
      }
      if Since(clock, e.last) > cfg.clonePeriod { e := e.(attempts := 0); }
      e := UpdateTargets(e, clock);
      assert e == Updated(was, clock).(connected := was.connected + 1, attempts := Rested(was, clock, cfg)) by { UpdatedFields(was, clock); UpdatedKeeps(was, was.connected + 1, Rested(was, clock, cfg), clock); }
      UpdatedFields(was, clock);
      e := e.(last := Now(clock));
      var n := CountAttempt(e.attempts);
      e := e.(attempts := n);
      if e.attempts >= cfg.cloneLimit && uptime < cfg.cloneDelay && !cfg.noThrottle {
        e := e.(connected := e.connected - 1);
        Write(entry, e);
        return false;
      }
      Write(entry, e);
      return true;
    }

    method RemoteConnect(addr: Addr, burst: bool, clock: nat, cfg: Config) returns (ok: bool)
      requires Valid() && Small(entries)
      modifies this
      ensures Valid() && (entries, ok) == IpRegistry.RemoteConnect(old(entries), addr, burst, clock, cfg)
    {
      hide Sane, FreeTargets, Since, Updated, Small;
      var entry := Find(addr);
      Found(addr);
      if entry == NULL {
        Register(addr, IpRegistry.NewEntry(addr, clock).(attempts := if burst then 0 else 1));
        return true;
      }
      SmallAt(entries, addr);
      var e := store[entry];
      e := e.(connected := (e.connected + 1) % (SHORT_MAX + 1));
      if e.connected == 0 {
        Write(entry, e);
        return false;
      }
      if Since(clock, e.last) > cfg.clonePeriod { e := e.(attempts := 0); }
      if !burst {
        var n := CountAttempt(e.attempts);
        UpdatedFields(e, clock);
        UpdatedKeeps(e, e.connected, n, clock);
        e := e.(attempts := n);
        e := UpdateTargets(e, clock);
        e := e.(last := Now(clock));
      }
      Write(entry, e);
      return true;
    }

    method ConnectFail(addr: Addr)
      requires Valid() && Small(entries)
      modifies this
      ensures Valid() && entries == IpRegistry.ConnectFail(old(entries), addr)
    {
      hide Sane, Small;
      var entry := Find(addr);
      Found(addr);
      if entry != NULL {
        SmallAt(entries, addr);
        var e := store[entry];
        e := e.(attempts := (e.attempts - 1) % (CHAR_MAX + 1));
        if e.attempts == 0 { e := e.(attempts := 1); }
        Write(entry, e);
      }
    }

    method DisconnectIp(addr: Addr)
      requires Valid()
      modifies this
      ensures Valid() && entries == IpRegistry.DisconnectIp(old(entries), addr)
    {
      hide Sane;
      var entry := Find(addr);
      Found(addr);
      if entry != NULL && store[entry].connected > 0 {
        Write(entry, store[entry].(connected := store[entry].connected - 1));
      }
    }

    // A client leaves; `local` holds the targets of a local one, with the times they depend on.
    method Disconnect(addr: Addr, clock: nat, local: Option<(seq<nat>, nat, nat)>, cfg: Config)
      requires Valid() && IpRegistry.Count(entries, addr) > 0
      modifies this
      ensures Valid()
      ensures addr in old(entries) && old(entries)[addr].connected > 0
      ensures entries == IpRegistry.Disconnect(old(entries), addr, clock,
        if local == None then None else Some(Target(LeftTargets(clock, local.value.1, local.value.2), local.value.0)), cfg)
    {
      hide Sane, FreeTargets, Since, Updated;
      var entry := Find(addr);
      Found(addr);
      var e := store[entry];
      e := e.(connected := e.connected - 1);
      if e.connected == 0 {
        UpdatedFields(e, clock);
        UpdatedKeeps(e, e.connected, if Since(clock, e.last) > cfg.cloneLimit * cfg.clonePeriod then 0 else e.attempts, clock);
        if Since(clock, e.last) > cfg.cloneLimit * cfg.clonePeriod { e := e.(attempts := 0); }
        e := UpdateTargets(e, clock);
        e := e.(last := Now(clock));
      }
      if local != None {
        var (targets, nextTarget, firstTime) := local.value;
        if e.target == None { e := e.(target := Some(Target(STARTTARGETS, []))); }
        e := e.(target := Some(e.target.value.(targets := targets)));
        var free := 0;
        if nextTarget < clock { free := (clock - nextTarget) / TARGET_DELAY + 1; }
        if clock - firstTime > 600 { free := free + (clock - firstTime - 600) / TARGET_DELAY; }
        free := free % WORD;
        if free < e.target.value.count { e := e.(target := Some(e.target.value.(count := free))); }
      }
      Write(entry, e);
    }

    method Count(addr: Addr) returns (n: nat)
      requires Valid()
      ensures n == IpRegistry.Count(entries, addr)
    {
      hide Sane;
      var entry := Find(addr);
      Found(addr);
      n := if entry != NULL then store[entry].connected else 0;
    }

    // The entry before the `i`-th of a bucket.
    method FindPrev(bucket: nat, entry: Link, ghost i: nat) returns (prev: Link)
      requires Valid() && bucket < TABLE_SIZE && bucket in books.chains
      requires 0 < i < |books.chains[bucket]| && books.chains[bucket][i] == entry
      ensures prev == books.chains[bucket][i - 1]
    {
      hide Sane, Hash, NoDup, Heads, Placed;
      SaneParts(entries, books, table, next, store, freeList, allocCount);
      ghost var s, j := books.chains[bucket], 0;
      WalkStart(table, next, books.chains, bucket);
      BucketNoDup(table, next, books.chains, bucket);
      WalkStep(table, next, books.chains, store, books.at, bucket, 0);
      prev := table[bucket];
      while next[prev] != entry
        invariant j < i && prev == s[j] && prev in next && next[prev] == s[j + 1]
        decreases i - j
      {
        Distinct(s, j + 1, i);
        j := j + 1;
        WalkStep(table, next, books.chains, store, books.at, bucket, j);
        prev := next[prev];
      }
      Distinct(s, j + 1, i);
    }

    // ip_registry_remove: `i` is where the entry stands in its bucket.
    method Remove(entry: Link, ghost a: Addr, ghost i: nat)
      requires Valid() && a in books.at && entry == books.at[a] && entry in store && store[entry].addr == a
      requires Hash(a) in books.chains && i < |books.chains[Hash(a)]| && books.chains[Hash(a)][i] == entry
      modifies `table, `next, `entries, `books
      ensures Holding(entry) && entries == old(entries) - {a}
      ensures books == old(books).(at := old(books).at - {a},
                                   chains := old(books).chains[Hash(a) := Cut(old(books).chains[Hash(a)], i)])
    {
      hide Sane, Hash, Cut;
      RemoveSane(entries, books, table, next, store, freeList, allocCount, a, i);
      ghost var b := books;
      var bucket := Hash(store[entry].addr);
      if table[bucket] == entry {
        table := table[bucket := next[entry]];
      } else {
        var prev := FindPrev(bucket, entry, i);
        next := next[prev := next[entry]];
      }
      entries := entries - {a};
      books := Books(b.at - {a}, b.chains[bucket := Cut(b.chains[bucket], i)], b.free);
    }

    method DeleteEntry(entry: Link)
      requires Holding(entry) && entry in store && entry <= allocCount
      modifies `next, `freeList, `books
      ensures Valid() && books == old(books).(free := [entry] + old(books).free)
    {
      hide Sane;
      FreeSane(entries, books, table, next, store, freeList, allocCount, entry);
      next := next[entry := freeList];
      freeList := entry;
      books := books.(free := [entry] + books.free);
    }

    // ip_registry_expire_entry, for an entry no client is counted on.
    method ExpireEntry(entry: Link, clock: nat, ghost a: Addr, ghost i: nat)
      requires Valid() && a in books.at && entry == books.at[a] && entry in store && store[entry].addr == a
      requires Hash(a) in books.chains && i < |books.chains[Hash(a)]| && books.chains[Hash(a)][i] == entry
      requires store[entry].connected == 0 && entry <= allocCount
      modifies this
      ensures Valid() && entries == ExpireSome(old(entries), {a}, clock)
      ensures store == old(store) || exists e: Entry :: e.addr == a && e.connected == 0 && store == old(store)[entry := e]
      ensures books.at == if Dead(old(store)[entry], clock) then old(books).at - {a} else old(books).at
      ensures books.chains ==
        if Dead(old(store)[entry], clock) then old(books).chains[Hash(a) := Cut(old(books).chains[Hash(a)], i)] else old(books).chains
    {
      hide Sane, Hash, Cut, Since;
      Found(a);
      var e := store[entry];
      ExpireOne(entries, a, clock);
      if Since(clock, e.last) > 600 {
        Remove(entry, a, i);
        DeleteEntry(entry);
      } else if Since(clock, e.last) > 120 && e.target != None {
        assert e.(target := None).addr == a;
        Write(entry, e.(target := None));
      }
    }

    // One bucket of ip_registry_expire; `done` are the addresses seen so far of those in `r0`.
    method ExpireBucket(bucket: nat, clock: nat, ghost r0: Entries, ghost done0: set<Addr>) returns (ghost done: set<Addr>)
      requires Valid() && bucket < TABLE_SIZE && entries == ExpireSome(r0, done0, clock)
      requires forall a | a in done0 :: Hash(a) < bucket
      modifies this
      ensures Valid() && entries == ExpireSome(r0, done, clock) && done0 <= done
      ensures forall a | a in done :: Hash(a) <= bucket
      ensures forall a | a in r0 && Hash(a) == bucket :: a in done
    {
      hide Sane, Hash, Heads, Placed, Dead, Cut, ExpireSome, Trimmed;
      done := done0;
      SaneParts(entries, books, table, next, store, freeList, allocCount);
      WalkStart(table, next, books.chains, bucket);
      var entry := table[bucket];
      ghost var kept: seq<Link>, rest := [], books.chains[bucket];
      BucketWhole(entries, books, table, next, store, r0, done, clock, bucket);
      assert kept + rest == rest;
      while entry != NULL
        invariant Valid() && entries == ExpireSome(r0, done, clock) && done0 <= done
        invariant bucket in books.chains && books.chains[bucket] == kept + rest && entry == First(rest)
        invariant ToVisit(r0, books, store, done, bucket, rest)
        decreases |rest|
      {
        SaneParts(entries, books, table, next, store, freeList, allocCount);
        ghost var a := store[entry].addr;
        assert (kept + rest)[|kept|] == entry;
        WalkStep(table, next, books.chains, store, books.at, bucket, |kept|);
        VisitOne(r0, entries, books, store, done, clock, bucket, kept, rest);
        Found(a);
        var entryNext := next[entry];
        ghost var b, st, dead := books, store, store[entry].connected == 0 && Dead(store[entry], clock);
        if store[entry].connected == 0 { ExpireEntry(entry, clock, a, |kept|); }
        VisitedOne(r0, b, books, st, store, done, bucket, kept, rest, dead);
        done := done + {a};
        if !dead { kept := kept + [entry]; }
        rest := rest[1..];
        entry := entryNext;
      }
    }

    // ip_registry_expire.
    method Expire(clock: nat)
      requires Valid()
      modifies this
      ensures Valid() && entries == IpRegistry.Expire(old(entries), clock)
    {
      hide Sane, Hash, ExpireSome;
      ghost var r0, done: set<Addr> := entries, {};
      ExpireNone(r0, clock);
      for i := 0 to TABLE_SIZE
        invariant Valid() && entries == ExpireSome(r0, done, clock)
        invariant forall a | a in done :: Hash(a) < i
        invariant forall a | a in r0 && Hash(a) < i :: a in done
      {
        done := ExpireBucket(i, clock, r0, done);
      }
      ExpireAll(r0, done, clock);
    }
  }

  lemma ExpireNone(r: Entries, clock: nat)
    ensures ExpireSome(r, {}, clock) == r
  {
  }

  lemma ExpireAll(r: Entries, done: set<Addr>, clock: nat)
    requires r.Keys <= done
    ensures ExpireSome(r, done, clock) == IpRegistry.Expire(r, clock)
  {
    hide Dead, Trimmed;
  }

  lemma ExpireMore(r: Entries, done: set<Addr>, a: Addr, clock: nat)
    requires a in r && a !in done
    ensures a in ExpireSome(r, done, clock) && ExpireSome(r, done, clock)[a] == r[a]
    ensures ExpireSome(ExpireSome(r, done, clock), {a}, clock) == ExpireSome(r, done + {a}, clock)
    ensures r[a].connected > 0 ==> ExpireSome(r, done + {a}, clock) == ExpireSome(r, done, clock)
  {
    hide Since;
  }

  // The addresses of the bucket are seen or among `rest`, and `rest` holds none seen.
  ghost predicate ToVisit(r0: Entries, b: Books, store: map<Link, Entry>, done: set<Addr>, bucket: nat, rest: seq<Link>) {
    && NoDup(rest)
    && (forall a | a in done :: Hash(a) <= bucket)
    && (forall l | l in rest :: l in store && store[l].addr !in done && store[l].addr in r0 && Hash(store[l].addr) == bucket
          && store[l].addr in b.at && b.at[store[l].addr] == l)
    && (forall a | a in r0 && Hash(a) == bucket :: a in done || (a in b.at && b.at[a] in rest && b.at[a] in store && store[b.at[a]].addr == a))
  }

  lemma ExpireKeeps(r: Entries, done: set<Addr>, clock: nat)
    ensures ExpireSome(r, done, clock).Keys <= r.Keys
    ensures forall a | a in r && a !in done :: a in ExpireSome(r, done, clock)
  {
    hide Dead, Trimmed;
  }

  lemma BucketWhole(r: Entries, b: Books, table: seq<Ptr>, next: Ptrs, store: map<Link, Entry>, r0: Entries, done: set<Addr>,
                    clock: nat, bucket: nat)
    requires Heads(table, next, b.chains) && Placed(store, b.at, b.chains) && r.Keys == b.at.Keys && bucket < TABLE_SIZE
    requires r == ExpireSome(r0, done, clock) && forall a | a in done :: Hash(a) < bucket
    ensures bucket in b.chains && ToVisit(r0, b, store, done, bucket, b.chains[bucket])
  {
    hide Heads, Hash, NoDup, ExpireSome, Placed;
    BucketNoDup(table, next, b.chains, bucket);
    ExpireKeeps(r0, done, clock);
    forall l | l in b.chains[bucket]
      ensures l in store && store[l].addr !in done && store[l].addr in r0 && Hash(store[l].addr) == bucket
      ensures store[l].addr in b.at && b.at[store[l].addr] == l
    {
      PlacedChain(store, b.at, b.chains, bucket, l);
      assert store[l].addr in r.Keys;
    }
    forall a | a in r0 && Hash(a) == bucket && a !in done ensures a in b.at && b.at[a] in b.chains[bucket] && b.at[a] in store && store[b.at[a]].addr == a {
      assert a in r.Keys;
      PlacedIn(store, b.at, b.chains, a);
      PlacedAt(store, b.at, b.chains, a);
    }
  }

  lemma PlacedIn(store: map<Link, Entry>, at: map<Addr, Link>, chains: Chains, a: Addr)
    requires Placed(store, at, chains) && a in at
    ensures Hash(a) in chains && at[a] in chains[Hash(a)]
  {
  }

  lemma VisitOne(r0: Entries, r: Entries, b: Books, store: map<Link, Entry>, done: set<Addr>, clock: nat, bucket: nat,
                 kept: seq<Link>, rest: seq<Link>)
    requires ToVisit(r0, b, store, done, bucket, rest) && rest != [] && r == ExpireSome(r0, done, clock)
    requires bucket in b.chains && b.chains[bucket] == kept + rest
    ensures rest[0] in store
    ensures var a := store[rest[0]].addr;
      && a in b.at && b.at[a] == rest[0] && a !in done && a in r0 && Hash(a) == bucket
      && a in r && r[a] == r0[a] && ExpireSome(r, {a}, clock) == ExpireSome(r0, done + {a}, clock)
      && (r[a].connected > 0 ==> ExpireSome(r0, done + {a}, clock) == r)
    ensures b.chains[bucket][|kept|] == rest[0] && PtrAt(b.chains[bucket], |kept| + 1) == First(rest[1..])
  {
    assert rest[0] in rest;
    hide Hash, ExpireSome;
    ExpireMore(r0, done, store[rest[0]].addr, clock);
  }

  lemma VisitedOne(r0: Entries, b: Books, b': Books, store: map<Link, Entry>, store': map<Link, Entry>, done: set<Addr>,
                   bucket: nat, kept: seq<Link>, rest: seq<Link>, dead: bool)
    requires ToVisit(r0, b, store, done, bucket, rest) && rest != []
    requires bucket in b.chains && b.chains[bucket] == kept + rest && rest[0] in store && Hash(store[rest[0]].addr) == bucket
    requires var a := store[rest[0]].addr;
      && b'.at == (if dead then b.at - {a} else b.at)
      && b'.chains == (if dead then b.chains[bucket := Cut(b.chains[bucket], |kept|)] else b.chains)
      && (store' == store || exists e: Entry :: e.addr == a && store' == store[rest[0] := e])
    ensures bucket in b'.chains
    ensures ToVisit(r0, b', store', done + {store[rest[0]].addr}, bucket, rest[1..])
    ensures b'.chains[bucket] == (if dead then kept else kept + [rest[0]]) + rest[1..]
  {
    hide Hash, Cut, ToVisit;
    CutLists(kept, rest);
    VisitNext(r0, b, b', store, store', done, bucket, rest);
  }

  lemma CutLists(kept: seq<Link>, rest: seq<Link>)
    requires rest != []
    ensures |kept| < |kept + rest| && Cut(kept + rest, |kept|) == kept + rest[1..]
    ensures kept + rest == (kept + [rest[0]]) + rest[1..]
  {
  }

  lemma FirstOut(rest: seq<Link>)
    requires NoDup(rest) && rest != []
    ensures NoDup(rest[1..]) && rest[0] !in rest[1..]
    ensures forall l | l in rest[1..] :: l in rest
    ensures forall l | l in rest && l != rest[0] :: l in rest[1..]
  {
    assert rest == [rest[0]] + rest[1..];
  }

  lemma VisitNext(r0: Entries, b: Books, b': Books, store: map<Link, Entry>, store': map<Link, Entry>, done: set<Addr>,
                  bucket: nat, rest: seq<Link>)
    requires ToVisit(r0, b, store, done, bucket, rest) && rest != [] && rest[0] in store && Hash(store[rest[0]].addr) == bucket
    requires var a := store[rest[0]].addr;
      && (b'.at == b.at || b'.at == b.at - {a})
      && (store' == store || exists e: Entry :: e.addr == a && store' == store[rest[0] := e])
    ensures ToVisit(r0, b', store', done + {store[rest[0]].addr}, bucket, rest[1..])
  {
    hide Hash, NoDup;
    FirstOut(rest);
    var a, tail := store[rest[0]].addr, rest[1..];
    assert rest[0] in rest && a in b.at && b.at[a] == rest[0];
    forall l | l in tail
      ensures l in store' && store'[l].addr !in done + {a} && store'[l].addr in r0 && Hash(store'[l].addr) == bucket
      ensures store'[l].addr in b'.at && b'.at[store'[l].addr] == l
    {
      assert l in rest && store'[l] == store[l] && b.at[store[l].addr] == l && store[l].addr != a;
    }
    forall c | c in r0 && Hash(c) == bucket && c !in done + {a} ensures c in b'.at && b'.at[c] in tail && b'.at[c] in store' && store'[b'.at[c]].addr == c {
      assert c in b.at && b.at[c] in rest && store[b.at[c]].addr == c;
    }
  }

  lemma Distinct(s: seq<Link>, i: nat, j: nat)
    requires NoDup(s) && i < |s| && j < |s|
    ensures s[i] == s[j] <==> i == j
  {
  }

  lemma ExpireOne(r: Entries, a: Addr, clock: nat)
    requires a in r && r[a].connected == 0
    ensures Dead(r[a], clock) ==> ExpireSome(r, {a}, clock) == r - {a}
    ensures !Dead(r[a], clock) ==> ExpireSome(r, {a}, clock) == r[a := Trimmed(r[a], clock)]
  {
    hide Since;
  }

  lemma SaneParts(r: Entries, b: Books, table: seq<Ptr>, next: Ptrs, store: map<Link, Entry>, freeList: Ptr, allocCount: nat)
    requires Sane(r, b, table, next, store, freeList, allocCount, NULL)
    ensures Heads(table, next, b.chains) && Placed(store, b.at, b.chains) && r.Keys == b.at.Keys
    ensures forall a | a in b.at :: b.at[a] <= allocCount
  {
    hide Heads, Placed, Listed;
  }

  lemma UpdatedFields(e: Entry, clock: nat)
    ensures var f := Updated(e, clock);
      f.addr == e.addr && f.connected == e.connected && f.attempts == e.attempts && f.last == e.last
  {
  }

  lemma UpdatedKeeps(e: Entry, connected: nat, attempts: nat, clock: nat)
    ensures Updated(e.(connected := connected, attempts := attempts), clock) ==
            Updated(e, clock).(connected := connected, attempts := attempts)
  {
  }
}
