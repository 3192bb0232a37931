// The membership links of ircd/channel.c as pointers, proved to do what `MemberMatrix` says.
module MemberLinks {
  import opened LinkedLists
  import opened MemberMatrix

  type Pair = (Channel, Client)

  // ---------- All lists together ----------

  // The contents of every link, field by field.
  datatype Heap = Heap(user: map<Link, Client>, channel: map<Link, Channel>,
                       zombie: map<Link, bool>,
                       nextMember: Ptrs, prevMember: Ptrs, nextChannel: Ptrs, prevChannel: Ptrs)

  // The links of a channel and of a client, in list order.
  ghost function Row(link: map<Pair, Link>, c: Channel, room: seq<Client>): seq<Link>
    requires forall u | u in room :: (c, u) in link
  {
    seq(|room|, i requires 0 <= i < |room| => link[(c, room[i])])
  }

  ghost function Column(link: map<Pair, Link>, u: Client, tour: seq<Channel>): seq<Link>
    requires forall c | c in tour :: (c, u) in link
  {
    seq(|tour|, i requires 0 <= i < |tour| => link[(tour[i], u)])
  }

  // The heads of those lists.
  ghost function RowHead(w: World, link: map<Pair, Link>, c: Channel): Ptr {
    if c in w.rooms && w.rooms[c] != [] && (c, w.rooms[c][0]) in link then link[(c, w.rooms[c][0])] else NULL
  }

  ghost function ColumnHead(w: World, link: map<Pair, Link>, u: Client): Ptr {
    if u in w.tours && w.tours[u] != [] && (w.tours[u][0], u) in link then link[(w.tours[u][0], u)] else NULL
  }

  ghost predicate Covered(w: World, link: map<Pair, Link>) {
    && (forall c, u | c in w.rooms && u in w.rooms[c] :: (c, u) in link)
    && (forall u, c | u in w.tours && c in w.tours[u] :: (c, u) in link)
  }

  ghost predicate Labelled(w: World, link: map<Pair, Link>, links: set<Link>, h: Heap) {
    && h.user.Keys == links && h.channel.Keys == links && h.zombie.Keys == links
    && (forall p | p in link ::
          && p.0 in w.rooms && p.1 in w.rooms[p.0] && link[p] in links
          && h.channel[link[p]] == p.0 && h.user[link[p]] == p.1
          && (h.zombie[link[p]] <==> p in w.zombies))
  }

  ghost predicate Sized(links: set<Link>, h: Heap) {
    h.nextMember.Keys == links && h.prevMember.Keys == links && h.nextChannel.Keys == links && h.prevChannel.Keys == links
  }

  ghost predicate RowsChained(w: World, link: map<Pair, Link>, next: Ptrs, prev: Ptrs) {
    Covered(w, link) && forall c | c in w.rooms :: Chained(Row(link, c, w.rooms[c]), next, prev)
  }

  ghost predicate ColumnsChained(w: World, link: map<Pair, Link>, next: Ptrs, prev: Ptrs) {
    Covered(w, link) && forall u | u in w.tours :: Chained(Column(link, u, w.tours[u]), next, prev)
  }

  // Links not in use are chained through `nextMember`.
  ghost predicate FreeChained(free: seq<Link>, link: map<Pair, Link>, next: Ptrs) {
    && NoDup(free)
    && (forall i :: 0 <= i < |free| ==> free[i] in next && next[free[i]] == Next(free, i))
    && (forall p | p in link :: link[p] !in free)
  }

  ghost predicate Good(w: World, link: map<Pair, Link>, free: seq<Link>, links: set<Link>, h: Heap) {
    && Agree(w) && Covered(w, link) && Labelled(w, link, links, h) && Sized(links, h)
    && RowsChained(w, link, h.nextMember, h.prevMember)
    && ColumnsChained(w, link, h.nextChannel, h.prevChannel)
    && FreeChained(free, link, h.nextMember)
  }

  ghost predicate InUse(m: Link, link: map<Pair, Link>, h: Heap)
    requires m in h.channel && m in h.user
  {
    (h.channel[m], h.user[m]) in link && link[(h.channel[m], h.user[m])] == m
  }

  // Every link ever allocated is in use, free, or the one in hand.
  ghost predicate Accounted(link: map<Pair, Link>, free: seq<Link>, links: set<Link>, h: Heap, hand: Ptr)
    requires h.channel.Keys == h.user.Keys == links
  {
    && (forall m | m in free :: m in links)
    && (forall m | m in links :: m in free || m == hand || InUse(m, link, h))
  }

  lemma RowFrame(link: map<Pair, Link>, link': map<Pair, Link>, c: Channel, room: seq<Client>)
    requires forall u | u in room :: (c, u) in link && (c, u) in link' && link[(c, u)] == link'[(c, u)]
    ensures Row(link, c, room) == Row(link', c, room)
  {
  }

  lemma ColumnFrame(link: map<Pair, Link>, link': map<Pair, Link>, u: Client, tour: seq<Channel>)
    requires forall c | c in tour :: (c, u) in link && (c, u) in link' && link[(c, u)] == link'[(c, u)]
    ensures Column(link, u, tour) == Column(link', u, tour)
  {
  }

  lemma RowPush(link: map<Pair, Link>, c: Channel, room: seq<Client>, u: Client, m: Link)
    requires u !in room && forall v | v in room :: (c, v) in link
    ensures Row(link[(c, u) := m], c, [u] + room) == [m] + Row(link, c, room)
  {
    var s := [u] + room;
    assert forall i | 1 <= i < |s| :: s[i] == room[i - 1] && s[i] in room;
  }

  lemma ColumnPush(link: map<Pair, Link>, u: Client, tour: seq<Channel>, c: Channel, m: Link)
    requires c !in tour && forall e | e in tour :: (e, u) in link
    ensures Column(link[(c, u) := m], u, [c] + tour) == [m] + Column(link, u, tour)
  {
    var s := [c] + tour;
    assert forall i | 1 <= i < |s| :: s[i] == tour[i - 1] && s[i] in tour;
  }

  lemma NotAround<T>(s: seq<T>, i: nat)
    requires NoDup(s) && i < |s|
    ensures s[i] !in Cut(s, i)
  {
  }

  lemma CutAll<T>(s: seq<T>, i: nat)
    requires i < |s|
    ensures IsCut(Cut(s, i), s, i)
    ensures forall x | x in Cut(s, i) :: x in s
  {
  }

  lemma CutMap<T>(t: seq<T>, i: nat, u: seq<T>)
    requires IsCut(u, t, i)
    ensures i < |t| && u == Cut(t, i)
  {
    assert t[..i] == u[..i];
    assert t[i + 1..] == u[i..];
    assert u == u[..i] + u[i..];
  }

  // `s` is `t` without the element at `i`.
  ghost predicate IsCut<T>(s: seq<T>, t: seq<T>, i: nat) {
    && i < |t| && |s| == |t| - 1
    && (forall k | 0 <= k < i :: s[k] == t[k])
    && (forall k | i <= k < |s| :: s[k] == t[k + 1])
  }

  lemma RowCutMap(link: map<Pair, Link>, link': map<Pair, Link>, c: Channel, room: seq<Client>, s: seq<Client>, i: nat)
    requires IsCut(s, room, i) && forall v | v in room :: (c, v) in link
    requires forall v | v in s :: (c, v) in link' && link'[(c, v)] == link[(c, v)]
    ensures IsCut(Row(link', c, s), Row(link, c, room), i)
  {
    assert forall k | 0 <= k < |s| :: s[k] in s;
  }

  lemma ColumnCutMap(link: map<Pair, Link>, link': map<Pair, Link>, u: Client, tour: seq<Channel>, s: seq<Channel>, i: nat)
    requires IsCut(s, tour, i) && forall e | e in tour :: (e, u) in link
    requires forall e | e in s :: (e, u) in link' && link'[(e, u)] == link[(e, u)]
    ensures IsCut(Column(link', u, s), Column(link, u, tour), i)
  {
    assert forall k | 0 <= k < |s| :: s[k] in s;
  }

  lemma RowCut(link: map<Pair, Link>, c: Channel, room: seq<Client>, i: nat)
    requires NoDup(room) && i < |room| && forall v | v in room :: (c, v) in link
    ensures forall v | v in Cut(room, i) :: (c, v) in link - {(c, room[i])}
    ensures Row(link - {(c, room[i])}, c, Cut(room, i)) == Cut(Row(link, c, room), i)
  {
    NotAround(room, i);
    hide NoDup, Cut, IsCut;
    CutAll(room, i);
    var s, link' := Cut(room, i), link - {(c, room[i])};
    RowCutMap(link, link', c, room, s, i);
    CutMap(Row(link, c, room), i, Row(link', c, s));
  }

  lemma ColumnCut(link: map<Pair, Link>, u: Client, tour: seq<Channel>, i: nat)
    requires NoDup(tour) && i < |tour| && forall e | e in tour :: (e, u) in link
    ensures forall e | e in Cut(tour, i) :: (e, u) in link - {(tour[i], u)}
    ensures Column(link - {(tour[i], u)}, u, Cut(tour, i)) == Cut(Column(link, u, tour), i)
  {
    NotAround(tour, i);
    hide NoDup, Cut, IsCut;
    CutAll(tour, i);
    var s, link' := Cut(tour, i), link - {(tour[i], u)};
    ColumnCutMap(link, link', u, tour, s, i);
    CutMap(Column(link, u, tour), i, Column(link', u, s));
  }

  // ---------- Joining ----------

  ghost function JoinHeap(h: Heap, m: Link, u: Client, c: Channel, zombie: bool,
                          row: Ptr, column: Ptr): Heap
  {
    Heap(h.user[m := u], h.channel[m := c], h.zombie[m := zombie],
         h.nextMember[m := row], SetPtr(h.prevMember, row, m)[m := NULL],
         h.nextChannel[m := column], SetPtr(h.prevChannel, column, m)[m := NULL])
  }

  lemma RowLinks(w: World, link: map<Pair, Link>, links: set<Link>, h: Heap, c: Channel)
    requires Covered(w, link) && Labelled(w, link, links, h) && c in w.rooms
    ensures forall m | m in Row(link, c, w.rooms[c]) :: m in links && h.channel[m] == c && InUse(m, link, h)
  {
    var s := Row(link, c, w.rooms[c]);
    forall m | m in s ensures m in links && h.channel[m] == c && InUse(m, link, h) {
      var i :| 0 <= i < |s| && s[i] == m;
      assert (c, w.rooms[c][i]) in link;
    }
  }

  lemma ColumnLinks(w: World, link: map<Pair, Link>, links: set<Link>, h: Heap, u: Client)
    requires Covered(w, link) && Labelled(w, link, links, h) && u in w.tours
    ensures forall m | m in Column(link, u, w.tours[u]) :: m in links && h.user[m] == u && InUse(m, link, h)
  {
    var s := Column(link, u, w.tours[u]);
    forall m | m in s ensures m in links && h.user[m] == u && InUse(m, link, h) {
      var i :| 0 <= i < |s| && s[i] == m;
      assert (w.tours[u][i], u) in link;
    }
  }

  // `m` is taken from the free list or newly made, and on no list.
  ghost predicate Spare(m: Link, link: map<Pair, Link>) {
    forall p | p in link :: link[p] != m
  }

  lemma JoinRows(w: World, link: map<Pair, Link>, links: set<Link>, h: Heap,
                 m: Link, u: Client, c: Channel, zombie: bool)
    requires Agree(w) && Covered(w, link) && Labelled(w, link, links, h)
    requires RowsChained(w, link, h.nextMember, h.prevMember) && Sized(links, h)
    requires m in links && Spare(m, link)
    requires c in w.rooms && u in w.tours && u !in w.rooms[c]
    requires Covered(Joined(w, u, c, zombie), link[(c, u) := m])
    ensures var row := RowHead(w, link, c);
      RowsChained(Joined(w, u, c, zombie), link[(c, u) := m],
                  h.nextMember[m := row], SetPtr(h.prevMember, row, m)[m := NULL])
  {
    hide Agree, Chained;
    var w', link' := Joined(w, u, c, zombie), link[(c, u) := m];
    var s := Row(link, c, w.rooms[c]);
    var head := RowHead(w, link, c);
    assert head == First(s);
    var next, prev := h.nextMember[m := head], SetPtr(h.prevMember, head, m)[m := NULL];
    RowLinks(w, link, links, h, c);
    assert m !in s;
    forall e | e in w'.rooms ensures Chained(Row(link', e, w'.rooms[e]), next, prev) {
      if e == c {
        RowPush(link, c, w.rooms[c], u, m);
        PushChained(s, m, h.nextMember, h.prevMember);
      } else {
        var t := Row(link, e, w.rooms[e]);
        RowFrame(link, link', e, w.rooms[e]);
        RowLinks(w, link, links, h, e);
        ChainFrame(t, h.nextMember, h.prevMember, next, prev);
      }
    }
  }

  lemma JoinColumns(w: World, link: map<Pair, Link>, links: set<Link>, h: Heap,
                    m: Link, u: Client, c: Channel, zombie: bool)
    requires Agree(w) && Covered(w, link) && Labelled(w, link, links, h)
    requires ColumnsChained(w, link, h.nextChannel, h.prevChannel) && Sized(links, h)
    requires m in links && Spare(m, link)
    requires c in w.rooms && u in w.tours && c !in w.tours[u]
    requires Covered(Joined(w, u, c, zombie), link[(c, u) := m])
    ensures var column := ColumnHead(w, link, u);
      ColumnsChained(Joined(w, u, c, zombie), link[(c, u) := m],
                     h.nextChannel[m := column], SetPtr(h.prevChannel, column, m)[m := NULL])
  {
    hide Agree, Chained;
    var w', link' := Joined(w, u, c, zombie), link[(c, u) := m];
    var s := Column(link, u, w.tours[u]);
    var head := ColumnHead(w, link, u);
    assert head == First(s);
    var next, prev := h.nextChannel[m := head], SetPtr(h.prevChannel, head, m)[m := NULL];
    ColumnLinks(w, link, links, h, u);
    assert m !in s;
    forall v | v in w'.tours ensures Chained(Column(link', v, w'.tours[v]), next, prev) {
      if v == u {
        ColumnPush(link, u, w.tours[u], c, m);
        PushChained(s, m, h.nextChannel, h.prevChannel);
      } else {
        var t := Column(link, v, w.tours[v]);
        ColumnFrame(link, link', v, w.tours[v]);
        ColumnLinks(w, link, links, h, v);
        ChainFrame(t, h.nextChannel, h.prevChannel, next, prev);
      }
    }
  }

  lemma JoinCovers(w: World, link: map<Pair, Link>, m: Link, u: Client, c: Channel, zombie: bool)
    requires Covered(w, link) && c in w.rooms && u in w.tours
    ensures Covered(Joined(w, u, c, zombie), link[(c, u) := m])
  {
  }

  lemma JoinLabels(w: World, link: map<Pair, Link>, links: set<Link>, h: Heap, h': Heap,
                   m: Link, u: Client, c: Channel, zombie: bool)
    requires Labelled(w, link, links, h) && m in links && Spare(m, link)
    requires c in w.rooms && u in w.tours && (c, u) !in w.zombies && (c, u) !in link
    requires h'.user == h.user[m := u] && h'.channel == h.channel[m := c] && h'.zombie == h.zombie[m := zombie]
    ensures Labelled(Joined(w, u, c, zombie), link[(c, u) := m], links, h')
  {
    var w', link' := Joined(w, u, c, zombie), link[(c, u) := m];
    forall p | p in link'
      ensures p.0 in w'.rooms && p.1 in w'.rooms[p.0] && link'[p] in links
      ensures h'.channel[link'[p]] == p.0 && h'.user[link'[p]] == p.1
      ensures h'.zombie[link'[p]] <==> p in w'.zombies
    {
      if p != (c, u) { assert link[p] != m; }
    }
  }

  lemma JoinSizes(links: set<Link>, h: Heap, m: Link, u: Client, c: Channel, zombie: bool,
                  row: Ptr, column: Ptr)
    requires Sized(links, h) && m in links && (row == NULL || row in links) && (column == NULL || column in links)
    ensures Sized(links, JoinHeap(h, m, u, c, zombie, row, column))
  {
  }

  // The first link of each list is NULL or one of the links.
  lemma Heads(w: World, link: map<Pair, Link>, links: set<Link>, h: Heap, u: Client, c: Channel)
    requires Covered(w, link) && Labelled(w, link, links, h) && c in w.rooms && u in w.tours
    ensures var row := RowHead(w, link, c); row == NULL || row in links
    ensures var column := ColumnHead(w, link, u); column == NULL || column in links
  {
    RowLinks(w, link, links, h, c);
    ColumnLinks(w, link, links, h, u);
    var s, t := Row(link, c, w.rooms[c]), Column(link, u, w.tours[u]);
    assert s != [] ==> s[0] in s;
    assert t != [] ==> t[0] in t;
  }

  lemma NotLinked(w: World, link: map<Pair, Link>, links: set<Link>, h: Heap, u: Client, c: Channel)
    requires Agree(w) && Labelled(w, link, links, h) && c in w.rooms && u in w.tours && c !in w.tours[u]
    ensures u !in w.rooms[c] && (c, u) !in link && (c, u) !in w.zombies
  {
  }

  lemma JoinGood(w: World, link: map<Pair, Link>, free: seq<Link>, links: set<Link>, h: Heap,
                 m: Link, u: Client, c: Channel, zombie: bool)
    requires Good(w, link, free, links, h) && Accounted(link, free, links, h, m)
    requires m in links && Spare(m, link) && m !in free
    requires c in w.rooms && u in w.tours && c !in w.tours[u] && !u.kind.Server?
    ensures
      var row, column := RowHead(w, link, c), ColumnHead(w, link, u);
      var w', link', h' := Joined(w, u, c, zombie), link[(c, u) := m], JoinHeap(h, m, u, c, zombie, row, column);
      Good(w', link', free, links, h') && Accounted(link', free, links, h', NULL)
  {
    var row, column := RowHead(w, link, c), ColumnHead(w, link, u);
    hide Agree, Covered, Labelled, RowsChained, ColumnsChained, Joined, FreeChained, Sized, Accounted, Spare, SetPtr, RowHead, ColumnHead;
    Domains(w, link, links, h);
    var w', link', h' := Joined(w, u, c, zombie), link[(c, u) := m], JoinHeap(h, m, u, c, zombie, row, column);
    NotLinked(w, link, links, h, u, c);
    Heads(w, link, links, h, u, c);
    JoinCovers(w, link, m, u, c, zombie);
    JoinLabels(w, link, links, h, h', m, u, c, zombie);
    JoinSizes(links, h, m, u, c, zombie, row, column);
    JoinRows(w, link, links, h, m, u, c, zombie);
    JoinColumns(w, link, links, h, m, u, c, zombie);
    Domains(w', link', links, h');
    JoinAccounts(link, free, links, h, h', m, u, c);
    JoinAgrees(w, u, c, zombie);
  }

  lemma Domains(w: World, link: map<Pair, Link>, links: set<Link>, h: Heap)
    requires Labelled(w, link, links, h) && Sized(links, h)
    ensures h.channel.Keys == h.user.Keys == h.nextMember.Keys == links
  {
  }

  lemma JoinAgrees(w: World, u: Client, c: Channel, zombie: bool)
    requires Agree(w) && c in w.rooms && u in w.tours && c !in w.tours[u] && !u.kind.Server?
    ensures Agree(Joined(w, u, c, zombie))
  {
  }

  lemma JoinAccounts(link: map<Pair, Link>, free: seq<Link>, links: set<Link>, h: Heap, h': Heap,
                     m: Link, u: Client, c: Channel)
    requires h.channel.Keys == h.user.Keys == h.nextMember.Keys == links
    requires Accounted(link, free, links, h, m) && FreeChained(free, link, h.nextMember)
    requires m in links && m !in free && (c, u) !in link
    requires h'.channel == h.channel[m := c] && h'.user == h.user[m := u]
    requires h'.nextMember.Keys == links
    requires forall l | l in links && l != m :: h'.nextMember[l] == h.nextMember[l]
    ensures Accounted(link[(c, u) := m], free, links, h', NULL)
    ensures FreeChained(free, link[(c, u) := m], h'.nextMember)
  {
  }

  // ---------- Leaving ----------

  ghost function DetachHeap(h: Heap, m: Link, free: Ptr): Heap
    requires m in h.nextMember && m in h.prevMember && m in h.nextChannel && m in h.prevChannel
  {
    h.(nextMember := SetPtr(h.nextMember, h.prevMember[m], h.nextMember[m])[m := free],
       prevMember := SetPtr(h.prevMember, h.nextMember[m], h.prevMember[m]),
       nextChannel := SetPtr(h.nextChannel, h.prevChannel[m], h.nextChannel[m]),
       prevChannel := SetPtr(h.prevChannel, h.nextChannel[m], h.prevChannel[m]))
  }

  lemma DetachCovers(w: World, link: map<Pair, Link>, u: Client, c: Channel)
    requires Agree(w) && Covered(w, link) && c in w.rooms && u in w.rooms[c] && u in w.tours
    ensures Covered(Detached(w, u, c), link - {(c, u)})
  {
    var w', link' := Detached(w, u, c), link - {(c, u)};
    forall e, v | e in w'.rooms && v in w'.rooms[e] ensures (e, v) in link' {
      assert v in w.rooms[e];
    }
    forall v, e | v in w'.tours && e in w'.tours[v] ensures (e, v) in link' {
      assert e in w.tours[v];
    }
  }

  lemma DetachLabels(w: World, link: map<Pair, Link>, links: set<Link>, h: Heap, h': Heap, u: Client, c: Channel)
    requires Labelled(w, link, links, h) && c in w.rooms && u in w.rooms[c] && u in w.tours
    requires h'.user == h.user && h'.channel == h.channel && h'.zombie == h.zombie
    ensures Labelled(Detached(w, u, c), link - {(c, u)}, links, h')
  {
    var w', link' := Detached(w, u, c), link - {(c, u)};
    forall p | p in link'
      ensures p.0 in w'.rooms && p.1 in w'.rooms[p.0]
      ensures h'.zombie[link'[p]] <==> p in w'.zombies
    {
      assert p in link && p.1 in w.rooms[p.0];
      assert p.0 == c ==> p.1 in Without(w.rooms[c], u);
    }
  }

  // `m` leaves list `s`: the pointers around it are set, and its own are then overwritten.
  lemma UnlinkAndReuse(s: seq<Link>, i: nat, next: Ptrs, prev: Ptrs, free: Ptr)
    requires Chained(s, next, prev) && i < |s|
    ensures s[i] in next && s[i] in prev
    ensures Chained(Cut(s, i), SetPtr(next, prev[s[i]], next[s[i]])[s[i] := free], SetPtr(prev, next[s[i]], prev[s[i]]))
    ensures Chained(Cut(s, i), SetPtr(next, prev[s[i]], next[s[i]]), SetPtr(prev, next[s[i]], prev[s[i]]))
    ensures First(Cut(s, i)) == if prev[s[i]] == NULL then next[s[i]] else First(s)
    ensures prev[s[i]] == NULL || (prev[s[i]] in s && prev[s[i]] != s[i])
    ensures next[s[i]] == NULL || (next[s[i]] in s && next[s[i]] != s[i])
  {
    UnlinkChained(s, i, next, prev);
    NotAround(s, i);
    var n, p := SetPtr(next, prev[s[i]], next[s[i]]), SetPtr(prev, next[s[i]], prev[s[i]]);
    assert forall m | m in Cut(s, i) :: m in n && m in p;
    ChainFrame(Cut(s, i), n, p, n[s[i] := free], p);
  }

  // What stands beside link `m` on a list: nothing, or another link in use.
  ghost predicate Around(at: Ptr, m: Link, links: set<Link>, link: map<Pair, Link>, h: Heap)
    requires h.channel.Keys == h.user.Keys == links
  {
    at == NULL || (at != m && at in links && InUse(at, link, h))
  }

  // The row the link leaves.
  lemma DetachRow(w: World, link: map<Pair, Link>, links: set<Link>, h: Heap,
                  u: Client, c: Channel, free: Ptr)
    requires c in w.rooms && NoDup(w.rooms[c])
    requires Covered(w, link) && Labelled(w, link, links, h) && Sized(links, h)
    requires u in w.rooms[c] && (c, u) in link && link[(c, u)] in links
    requires Chained(Row(link, c, w.rooms[c]), h.nextMember, h.prevMember)
    ensures
      var m, next, prev := link[(c, u)], h.nextMember, h.prevMember;
      var room, link' := Without(w.rooms[c], u), link - {(c, u)};
      && (forall v | v in room :: (c, v) in link')
      && Chained(Row(link', c, room), SetPtr(next, prev[m], next[m])[m := free], SetPtr(prev, next[m], prev[m]))
      && Around(next[m], m, links, link, h) && (next[m] != NULL ==> h.channel[next[m]] == c)
      && Around(prev[m], m, links, link, h) && (prev[m] != NULL ==> h.channel[prev[m]] == c)
      && First(Row(link', c, room)) == if prev[m] == NULL then next[m] else RowHead(w, link, c)
  {
    var room := w.rooms[c];
    var i :| 0 <= i < |room| && room[i] == u;
    var s := Row(link, c, room);
    RowLinks(w, link, links, h, c);
    WithoutAt(room, i);
    RowCut(link, c, room, i);
    assert First(s) == RowHead(w, link, c);
    hide Labelled, Covered, Row, NoDup, InUse, Cut, Chained, RowHead;
    UnlinkAndReuse(s, i, h.nextMember, h.prevMember, free);
  }

  lemma DetachRows(w: World, link: map<Pair, Link>, links: set<Link>, h: Heap,
                   u: Client, c: Channel, free: Ptr)
    requires Agree(w) && Covered(w, link) && Labelled(w, link, links, h) && Sized(links, h)
    requires RowsChained(w, link, h.nextMember, h.prevMember)
    requires c in w.rooms && u in w.rooms[c] && u in w.tours && (c, u) in link && link[(c, u)] in links
    requires Covered(Detached(w, u, c), link - {(c, u)})
    ensures
      var m, next, prev := link[(c, u)], h.nextMember, h.prevMember;
      && RowsChained(Detached(w, u, c), link - {(c, u)},
                     SetPtr(next, prev[m], next[m])[m := free], SetPtr(prev, next[m], prev[m]))
      && Around(next[m], m, links, link, h) && Around(prev[m], m, links, link, h)
      && (c in Detached(w, u, c).rooms ==>
           RowHead(Detached(w, u, c), link - {(c, u)}, c) == if prev[m] == NULL then next[m] else RowHead(w, link, c))
  {
    hide Agree, Chained, InUse, NoDup;
    AgreesAt(w, u, c);
    DetachRow(w, link, links, h, u, c, free);
    var w', link', m := Detached(w, u, c), link - {(c, u)}, link[(c, u)];
    var next, prev := SetPtr(h.nextMember, h.prevMember[m], h.nextMember[m]), SetPtr(h.prevMember, h.nextMember[m], h.prevMember[m]);
    forall e | e in w'.rooms ensures Chained(Row(link', e, w'.rooms[e]), next[m := free], prev) {
      if e != c {
        RowFrame(link, link', e, w.rooms[e]);
        RowLinks(w, link, links, h, e);
        ChainFrame(Row(link, e, w.rooms[e]), h.nextMember, h.prevMember, next[m := free], prev);
      }
    }
  }

  // The column the link leaves.
  lemma DetachColumn(w: World, link: map<Pair, Link>, links: set<Link>, h: Heap, u: Client, c: Channel)
    requires u in w.tours && NoDup(w.tours[u])
    requires Covered(w, link) && Labelled(w, link, links, h) && Sized(links, h)
    requires c in w.tours[u] && (c, u) in link && link[(c, u)] in links
    requires Chained(Column(link, u, w.tours[u]), h.nextChannel, h.prevChannel)
    ensures
      var m, next, prev := link[(c, u)], h.nextChannel, h.prevChannel;
      var tour, link' := Without(w.tours[u], c), link - {(c, u)};
      && (forall e | e in tour :: (e, u) in link')
      && Chained(Column(link', u, tour), SetPtr(next, prev[m], next[m]), SetPtr(prev, next[m], prev[m]))
      && Around(next[m], m, links, link, h) && (next[m] != NULL ==> h.user[next[m]] == u)
      && Around(prev[m], m, links, link, h) && (prev[m] != NULL ==> h.user[prev[m]] == u)
      && First(Column(link', u, tour)) == if prev[m] == NULL then next[m] else ColumnHead(w, link, u)
  {
    var tour := w.tours[u];
    var i :| 0 <= i < |tour| && tour[i] == c;
    var s := Column(link, u, tour);
    ColumnLinks(w, link, links, h, u);
    WithoutAt(tour, i);
    ColumnCut(link, u, tour, i);
    assert First(s) == ColumnHead(w, link, u);
    hide Labelled, Covered, Column, NoDup, InUse, Cut, Chained, ColumnHead;
    UnlinkChained(s, i, h.nextChannel, h.prevChannel);
  }

  lemma DetachColumns(w: World, link: map<Pair, Link>, links: set<Link>, h: Heap, u: Client, c: Channel)
    requires Agree(w) && Covered(w, link) && Labelled(w, link, links, h) && Sized(links, h)
    requires ColumnsChained(w, link, h.nextChannel, h.prevChannel)
    requires c in w.rooms && u in w.rooms[c] && u in w.tours && (c, u) in link && link[(c, u)] in links
    requires Covered(Detached(w, u, c), link - {(c, u)})
    ensures
      var m, next, prev := link[(c, u)], h.nextChannel, h.prevChannel;
      && ColumnsChained(Detached(w, u, c), link - {(c, u)},
                        SetPtr(next, prev[m], next[m]), SetPtr(prev, next[m], prev[m]))
      && Around(next[m], m, links, link, h) && Around(prev[m], m, links, link, h)
      && ColumnHead(Detached(w, u, c), link - {(c, u)}, u) == if prev[m] == NULL then next[m] else ColumnHead(w, link, u)
  {
    hide Agree, Chained, InUse, NoDup;
    AgreesAt(w, u, c);
    DetachColumn(w, link, links, h, u, c);
    var w', link', m := Detached(w, u, c), link - {(c, u)}, link[(c, u)];
    var next, prev := SetPtr(h.nextChannel, h.prevChannel[m], h.nextChannel[m]), SetPtr(h.prevChannel, h.nextChannel[m], h.prevChannel[m]);
    forall v | v in w'.tours ensures Chained(Column(link', v, w'.tours[v]), next, prev) {
      if v != u {
        ColumnFrame(link, link', v, w.tours[v]);
        ColumnLinks(w, link, links, h, v);
        ChainFrame(Column(link, v, w.tours[v]), h.nextChannel, h.prevChannel, next, prev);
      }
    }
  }

  lemma DetachAccounts(link: map<Pair, Link>, free: seq<Link>, links: set<Link>, h: Heap, h': Heap,
                       m: Link, u: Client, c: Channel)
    requires h.channel.Keys == links && h.user.Keys == links && h'.channel == h.channel && h'.user == h.user
    requires Accounted(link, free, links, h, NULL)
    requires (c, u) in link && link[(c, u)] == m && m in links && h.channel[m] == c && h.user[m] == u
    ensures Accounted(link - {(c, u)}, [m] + free, links, h', NULL)
  {
    var free' := [m] + free;
    assert forall l | l in free' :: l == m || l in free;
    assert m == free'[0] && forall l | l in free :: l in free';
  }

  lemma DetachFrees(link: map<Pair, Link>, free: seq<Link>, links: set<Link>, h: Heap, h': Heap,
                    m: Link, u: Client, c: Channel, at: Ptr)
    requires h.channel.Keys == links && h.user.Keys == links && h.nextMember.Keys == links
    requires FreeChained(free, link, h.nextMember) && forall l | l in free :: l in links
    requires (c, u) in link && link[(c, u)] == m && m in links && h.channel[m] == c && h.user[m] == u
    requires forall p | p in link :: link[p] in links && h.channel[link[p]] == p.0 && h.user[link[p]] == p.1
    requires Around(at, m, links, link, h) && h'.nextMember.Keys == links
    requires h'.nextMember[m] == First(free)
    requires forall l | l in links && l != m && l != at :: h'.nextMember[l] == h.nextMember[l]
    ensures FreeChained([m] + free, link - {(c, u)}, h'.nextMember)
  {
    assert at != NULL ==> at !in free;
    hide Around, InUse;
    FreePush(free, m, h.nextMember, h'.nextMember);
    assert forall p | p in link - {(c, u)} :: link[p] != m;
  }

  lemma AccountedFree(link: map<Pair, Link>, free: seq<Link>, links: set<Link>, h: Heap)
    requires h.channel.Keys == h.user.Keys == links && Accounted(link, free, links, h, NULL)
    ensures forall l | l in free :: l in links
  {
  }

  lemma DetachSizes(links: set<Link>, h: Heap, m: Link, free: Ptr)
    requires Sized(links, h) && m in links
    requires Neighbours(h, m, links)
    ensures Sized(links, DetachHeap(h, m, free))
  {
  }

  ghost predicate Beside(at: Ptr, m: Link, links: set<Link>) {
    at == NULL || (at != m && at in links)
  }

  // All four pointers of `m` lead to other links.
  ghost predicate Neighbours(h: Heap, m: Link, links: set<Link>)
    requires m in h.nextMember && m in h.prevMember && m in h.nextChannel && m in h.prevChannel
  {
    && Beside(h.nextMember[m], m, links) && Beside(h.prevMember[m], m, links)
    && Beside(h.nextChannel[m], m, links) && Beside(h.prevChannel[m], m, links)
  }

  lemma NeighboursFrom(h: Heap, m: Link, links: set<Link>, link: map<Pair, Link>)
    requires h.channel.Keys == h.user.Keys == links
    requires m in h.nextMember && m in h.prevMember && m in h.nextChannel && m in h.prevChannel
    requires Around(h.nextMember[m], m, links, link, h) && Around(h.prevMember[m], m, links, link, h)
    requires Around(h.nextChannel[m], m, links, link, h) && Around(h.prevChannel[m], m, links, link, h)
    ensures Neighbours(h, m, links)
  {
  }

  lemma KnownLinks(w: World, link: map<Pair, Link>, links: set<Link>, h: Heap)
    requires Agree(w) && Labelled(w, link, links, h) && Sized(links, h)
    ensures h.channel.Keys == h.user.Keys == h.nextMember.Keys == links
    ensures h.prevMember.Keys == h.nextChannel.Keys == h.prevChannel.Keys == links
    ensures forall p | p in link :: p.0 in w.rooms && p.1 in w.rooms[p.0] && p.1 in w.tours
    ensures forall p | p in link :: link[p] in links && h.channel[link[p]] == p.0 && h.user[link[p]] == p.1
  {
  }

  lemma DetachPointers(links: set<Link>, h: Heap, m: Link, free: Ptr)
    requires Sized(links, h) && m in links
    ensures DetachHeap(h, m, free).nextMember[m] == free
    ensures forall l | l in links && l != m && l != h.prevMember[m] ::
      l in DetachHeap(h, m, free).nextMember && DetachHeap(h, m, free).nextMember[l] == h.nextMember[l]
  {
  }

  lemma DetachGood(w: World, link: map<Pair, Link>, free: seq<Link>, links: set<Link>, h: Heap,
                   u: Client, c: Channel)
    requires Good(w, link, free, links, h) && Accounted(link, free, links, h, NULL)
    requires (c, u) in link
    ensures c in w.rooms && u in w.rooms[c] && u in w.tours && link[(c, u)] in links
    ensures
      var m := link[(c, u)];
      var w', link', free', h' := Detached(w, u, c), link - {(c, u)}, [m] + free, DetachHeap(h, m, First(free));
      && Good(w', link', free', links, h') && Accounted(link', free', links, h', NULL)
      && Neighbours(h, m, links)
      && (c in w'.rooms ==>
            RowHead(w', link', c) == if h.prevMember[m] == NULL then h.nextMember[m] else RowHead(w, link, c))
      && ColumnHead(w', link', u) == (if h.prevChannel[m] == NULL then h.nextChannel[m] else ColumnHead(w, link, u))
  {
    hide Agree, Covered, Labelled, RowsChained, ColumnsChained, Detached, FreeChained, Accounted, RowHead, ColumnHead,
         InUse, SetPtr, Sized, First, Around, Neighbours;
    KnownLinks(w, link, links, h);
    var m := link[(c, u)];
    var w', link', free', h' := Detached(w, u, c), link - {(c, u)}, [m] + free, DetachHeap(h, m, First(free));
    DetachCovers(w, link, u, c);
    DetachLabels(w, link, links, h, h', u, c);
    DetachRows(w, link, links, h, u, c, First(free));
    DetachColumns(w, link, links, h, u, c);
    DetachedAgrees(w, u, c);
    NeighboursFrom(h, m, links, link);
    DetachSizes(links, h, m, First(free));
    DetachPointers(links, h, m, First(free));
    KnownLinks(w', link', links, h');
    hide DetachHeap;
    AccountedFree(link, free, links, h);
    DetachAccounts(link, free, links, h, h', m, u, c);
    DetachFrees(link, free, links, h, h', m, u, c, h.prevMember[m]);
  }

  lemma ZombieGood(w: World, link: map<Pair, Link>, free: seq<Link>, links: set<Link>, h: Heap, p: Pair)
    requires Good(w, link, free, links, h) && Accounted(link, free, links, h, NULL) && p in link
    ensures Good(w.(zombies := w.zombies + {p}), link, free, links, h.(zombie := h.zombie[link[p] := true]))
    ensures Accounted(link, free, links, h.(zombie := h.zombie[link[p] := true]), NULL)
  {
    hide Agree, RowsChained, ColumnsChained, FreeChained, Covered, Labelled, Accounted, Sized;
    ZombieAgrees(w, link, links, h, p);
    ZombieLabels(w, link, free, links, h, p);
    var w' := w.(zombies := w.zombies + {p});
    CoveredFrame(w, w', link, h.nextMember, h.prevMember, h.nextChannel, h.prevChannel);
  }

  lemma ZombieLabels(w: World, link: map<Pair, Link>, free: seq<Link>, links: set<Link>, h: Heap, p: Pair)
    requires Labelled(w, link, links, h) && Accounted(link, free, links, h, NULL) && Sized(links, h) && p in link
    ensures var w', h' := w.(zombies := w.zombies + {p}), h.(zombie := h.zombie[link[p] := true]);
      Labelled(w', link, links, h') && Accounted(link, free, links, h', NULL) && Sized(links, h')
  {
  }

  lemma CoveredFrame(w: World, w': World, link: map<Pair, Link>, nextM: Ptrs, prevM: Ptrs, nextC: Ptrs, prevC: Ptrs)
    requires w'.rooms == w.rooms && w'.tours == w.tours
    ensures Covered(w, link) ==> Covered(w', link)
    ensures RowsChained(w, link, nextM, prevM) ==> RowsChained(w', link, nextM, prevM)
    ensures ColumnsChained(w, link, nextC, prevC) ==> ColumnsChained(w', link, nextC, prevC)
  {
    hide Chained;
  }

  lemma ZombieAgrees(w: World, link: map<Pair, Link>, links: set<Link>, h: Heap, p: Pair)
    requires Agree(w) && Labelled(w, link, links, h) && p in link
    ensures Agree(w.(zombies := w.zombies + {p}))
  {
  }

  // The counters and heads a detached link leaves behind.
  lemma DetachCounts(w: World, link: map<Pair, Link>, u: Client, c: Channel)
    requires Agree(w) && Covered(w, link) && c in w.rooms && u in w.rooms[c] && u in w.tours
    ensures var w', link' := Detached(w, u, c), link - {(c, u)};
      && (c in w'.rooms <==> c.persist || |w.rooms[c]| > 1)
      && (c in w'.rooms ==> |w'.rooms[c]| == |w.rooms[c]| - 1)
      && (c in w'.rooms && |w.rooms[c]| > 1 && Covered(w', link') ==> RowHead(w', link', c) != NULL)
      && |w'.tours[u]| == |w.tours[u]| - 1
      && w'.tours.Keys == w.tours.Keys && w'.rooms.Keys <= w.rooms.Keys
  {
    hide Agree;
    assert NoDup(w.rooms[c]) && NoDup(w.tours[u]) && c in w.tours[u] by { AgreesAt(w, u, c); }
    assert |Without(w.rooms[c], u)| == |w.rooms[c]| - 1;
  }

  lemma AgreesAt(w: World, u: Client, c: Channel)
    requires Agree(w) && c in w.rooms && u in w.rooms[c] && u in w.tours
    ensures NoDup(w.rooms[c]) && NoDup(w.tours[u]) && c in w.tours[u]
  {
  }

  lemma DetachedKeys(w: World, u: Client, c: Channel)
    requires c in w.rooms && u in w.tours
    ensures w.rooms.Keys <= Detached(w, u, c).rooms.Keys + {c}
  {
  }

  lemma DetachOthers(w: World, link: map<Pair, Link>, u: Client, c: Channel)
    requires c in w.rooms && u in w.tours
    ensures var w', link' := Detached(w, u, c), link - {(c, u)};
      && (forall e | e in w'.rooms && e != c :: w'.rooms[e] == w.rooms[e] && RowHead(w', link', e) == RowHead(w, link, e))
      && (forall v | v in w'.tours && v != u :: w'.tours[v] == w.tours[v] && ColumnHead(w', link', v) == ColumnHead(w, link, v))
  {
  }

  // ---------- The state and its operations ----------

  // Everything but the counters.
  ghost predicate Sound(w: World, link: map<Pair, Link>, free: seq<Link>, links: set<Link>, h: Heap) {
    Good(w, link, free, links, h) && Accounted(link, free, links, h, NULL)
  }

  lemma DetachSound(w: World, link: map<Pair, Link>, free: seq<Link>, links: set<Link>, h: Heap, u: Client, c: Channel)
    requires Sound(w, link, free, links, h) && (c, u) in link
    ensures c in w.rooms && u in w.rooms[c] && u in w.tours && link[(c, u)] in links
    ensures Sized(links, h) && Neighbours(h, link[(c, u)], links)
    ensures var m, w', link' := link[(c, u)], Detached(w, u, c), link - {(c, u)};
      && Sound(w', link', [m] + free, links, DetachHeap(h, m, First(free)))
      && (c in w'.rooms ==> RowHead(w', link', c) == if h.prevMember[m] == NULL then h.nextMember[m] else RowHead(w, link, c))
      && ColumnHead(w', link', u) == (if h.prevChannel[m] == NULL then h.nextChannel[m] else ColumnHead(w, link, u))
      && (c in w'.rooms <==> c.persist || |w.rooms[c]| > 1)
      && (c in w'.rooms ==> |w'.rooms[c]| == |w.rooms[c]| - 1)
      && (c in w'.rooms && |w.rooms[c]| > 1 ==> RowHead(w', link', c) != NULL)
      && |w'.tours[u]| == |w.tours[u]| - 1
      && w'.tours.Keys == w.tours.Keys && w'.rooms.Keys <= w.rooms.Keys && w.rooms.Keys <= w'.rooms.Keys + {c}
      && (forall e | e in w'.rooms && e != c :: w'.rooms[e] == w.rooms[e] && RowHead(w', link', e) == RowHead(w, link, e))
      && (forall v | v in w'.tours && v != u :: w'.tours[v] == w.tours[v] && ColumnHead(w', link', v) == ColumnHead(w, link, v))
  {
    assert w.rooms.Keys <= Detached(w, u, c).rooms.Keys + {c} by { DetachedKeys(w, u, c); }
    hide Agree, Covered, Accounted, Detached, RowHead, ColumnHead, Sized, RowsChained, ColumnsChained, FreeChained, Labelled, Neighbours;
    DetachGood(w, link, free, links, h, u, c);
    DetachCounts(w, link, u, c);
    DetachOthers(w, link, u, c);
  }

  // The counters and list heads of struct Channel; a channel without an entry does not exist.
  datatype ChannelTable = ChannelTable(users: map<Channel, int>, members: map<Channel, Ptr>)

  // The counters and list heads of struct User.
  datatype UserTable = UserTable(joined: map<Client, int>, channel: map<Client, Ptr>)

  // What the proofs keep beside the program's state.
  datatype Books = Books(link: map<Pair, Link>, free: seq<Link>, links: set<Link>)

  ghost predicate ChannelsCounted(t: ChannelTable, w: World, link: map<Pair, Link>) {
    && t.users.Keys == w.rooms.Keys && t.members.Keys == w.rooms.Keys
    && (forall c | c in w.rooms :: t.users[c] == |w.rooms[c]| && t.members[c] == RowHead(w, link, c))
  }

  ghost predicate UsersCounted(t: UserTable, w: World, link: map<Pair, Link>) {
    && t.joined.Keys == w.tours.Keys && t.channel.Keys == w.tours.Keys
    && (forall u | u in w.tours :: t.joined[u] == |w.tours[u]| && t.channel[u] == ColumnHead(w, link, u))
  }

  // Both families of lists are well formed and agree with each other and with `w`, every counter
  // counts its list, and every address handed out is in use or free.
  ghost predicate Sane(w: World, b: Books, mem: Heap, channels: ChannelTable, users: UserTable, freeList: Ptr, allocCount: nat) {
    && Sound(w, b.link, b.free, b.links, mem) && freeList == First(b.free)
    && ChannelsCounted(channels, w, b.link) && UsersCounted(users, w, b.link)
    && (forall a: Link :: a in b.links <==> a <= allocCount)
  }

  lemma SaneStays(w: World, b: Books, mem: Heap, channels: ChannelTable, users: UserTable, freeList: Ptr, allocCount: nat,
                  u: Client, c: Channel)
    requires Sane(w, b, mem, channels, users, freeList, allocCount) && (c, u) in b.link && c in w.rooms && u in w.tours
    ensures (|w.rooms[c]| > 1 <==> c in Detached(w, u, c).rooms) <==> !c.persist || |w.rooms[c]| > 1
  {
    hide Agree, Covered, Sized, RowsChained, ColumnsChained, FreeChained, Detached, ChannelsCounted, UsersCounted, Accounted;
    StaysOrGoes(w, u, c);
  }

  // What Subtract makes of the channels.
  ghost function Subtracted(t: ChannelTable, c: Channel): ChannelTable
    requires c in t.users && c in t.members
  {
    if t.users[c] > 1 && t.members[c] == NULL then t
    else if t.users[c] > 1 || c.persist then t.(users := t.users[c := t.users[c] - 1])
    else ChannelTable(t.users - {c}, t.members - {c})
  }

  // The heads of the two lists a link is taken from.
  ghost function HeadMoved<K>(heads: map<K, Ptr>, k: K, prev: Ptr, next: Ptr): map<K, Ptr> {
    if prev == NULL then heads[k := next] else heads
  }

  ghost function DetachChannels(t: ChannelTable, h: Heap, m: Link, c: Channel): ChannelTable
    requires m in h.nextMember && m in h.prevMember && c in t.users && c in t.members
  {
    Subtracted(t.(members := HeadMoved(t.members, c, h.prevMember[m], h.nextMember[m])), c)
  }

  ghost function DetachUsers(t: UserTable, h: Heap, m: Link, u: Client): UserTable
    requires m in h.nextChannel && m in h.prevChannel && u in t.joined
  {
    UserTable(t.joined[u := t.joined[u] - 1], HeadMoved(t.channel, u, h.prevChannel[m], h.nextChannel[m]))
  }

  ghost function DetachBooks(b: Books, p: Pair): Books
    requires p in b.link
  {
    Books(b.link - {p}, [b.link[p]] + b.free, b.links)
  }

  lemma DetachCountsChannels(w: World, b: Books, mem: Heap, t: ChannelTable, u: Client, c: Channel)
    requires Sound(w, b.link, b.free, b.links, mem) && (c, u) in b.link && ChannelsCounted(t, w, b.link)
    requires b.link[(c, u)] in mem.nextMember && b.link[(c, u)] in mem.prevMember && c in w.rooms && u in w.tours
    ensures ChannelsCounted(DetachChannels(t, mem, b.link[(c, u)], c), Detached(w, u, c), b.link - {(c, u)})
    ensures DetachMore(t, mem, b.link[(c, u)], c) <==> |w.rooms[c]| > 1
  {
    hide Sound, RowHead, ColumnHead, Detached, Sized, Neighbours, DetachHeap;
    DetachSound(w, b.link, b.free, b.links, mem, u, c);
  }

  lemma DetachCountsUsers(w: World, b: Books, mem: Heap, t: UserTable, u: Client, c: Channel)
    requires Sound(w, b.link, b.free, b.links, mem) && (c, u) in b.link && UsersCounted(t, w, b.link)
    requires b.link[(c, u)] in mem.nextChannel && b.link[(c, u)] in mem.prevChannel && c in w.rooms && u in w.tours
    ensures UsersCounted(DetachUsers(t, mem, b.link[(c, u)], u), Detached(w, u, c), b.link - {(c, u)})
  {
    hide Sound, RowHead, ColumnHead, Detached, Sized, Neighbours, DetachHeap;
    DetachSound(w, b.link, b.free, b.links, mem, u, c);
  }

  lemma SaneLink(w: World, b: Books, mem: Heap, channels: ChannelTable, users: UserTable, freeList: Ptr, allocCount: nat,
                 u: Client, c: Channel)
    requires Sane(w, b, mem, channels, users, freeList, allocCount) && (c, u) in b.link
    ensures c in w.rooms && u in w.rooms[c] && u in w.tours && c in channels.users && c in channels.members
    ensures u in users.joined && u in users.channel
    ensures var m := b.link[(c, u)];
      && m in b.links && Sized(b.links, mem) && Neighbours(mem, m, b.links)
      && m in mem.nextMember && m in mem.prevMember && m in mem.nextChannel && m in mem.prevChannel
      && mem.nextMember[m] != m && mem.prevMember[m] != m && mem.nextChannel[m] != m && mem.prevChannel[m] != m
  {
    hide Good, Accounted, RowHead, ColumnHead;
    DetachSound(w, b.link, b.free, b.links, mem, u, c);
  }

  lemma DetachSane(w: World, b: Books, mem: Heap, channels: ChannelTable, users: UserTable, freeList: Ptr, allocCount: nat,
                   u: Client, c: Channel)
    requires Sane(w, b, mem, channels, users, freeList, allocCount) && (c, u) in b.link
    requires c in w.rooms && u in w.tours && c in channels.users && c in channels.members && u in users.joined
    requires b.link[(c, u)] in mem.nextMember && b.link[(c, u)] in mem.prevMember
    requires b.link[(c, u)] in mem.nextChannel && b.link[(c, u)] in mem.prevChannel
    ensures var m := b.link[(c, u)];
      Sane(Detached(w, u, c), DetachBooks(b, (c, u)), DetachHeap(mem, m, freeList), DetachChannels(channels, mem, m, c),
           DetachUsers(users, mem, m, u), m, allocCount)
    ensures DetachMore(channels, mem, b.link[(c, u)], c) <==> |w.rooms[c]| > 1
  {
    hide Sound, RowHead, ColumnHead, Detached, Neighbours, DetachHeap, ChannelsCounted, UsersCounted,
         DetachChannels, DetachUsers, DetachMore, Sized;
    DetachSound(w, b.link, b.free, b.links, mem, u, c);
    DetachCountsChannels(w, b, mem, channels, u, c);
    DetachCountsUsers(w, b, mem, users, u, c);
  }

  ghost predicate DetachMore(t: ChannelTable, h: Heap, m: Link, c: Channel)
    requires m in h.nextMember && m in h.prevMember && c in t.users && c in t.members
  {
    t.users[c] > 1 && HeadMoved(t.members, c, h.prevMember[m], h.nextMember[m])[c] != NULL
  }

  // ---------- Taking a link and putting it to use ----------

  // As `Sane`, but with link `m` in hand, on no list.
  ghost predicate Ready(w: World, b: Books, mem: Heap, channels: ChannelTable, users: UserTable, freeList: Ptr, allocCount: nat, m: Link) {
    && Good(w, b.link, b.free, b.links, mem) && Accounted(b.link, b.free, b.links, mem, m)
    && m in b.links && Spare(m, b.link) && m !in b.free && freeList == First(b.free)
    && ChannelsCounted(channels, w, b.link) && UsersCounted(users, w, b.link)
    && (forall a: Link :: a in b.links <==> a <= allocCount)
  }

  // A new block of memory, its contents of no account.
  ghost function Malloced(h: Heap, m: Link, u: Client, c: Channel): Heap {
    Heap(h.user[m := u], h.channel[m := c], h.zombie[m := false], h.nextMember[m := NULL], h.prevMember[m := NULL],
         h.nextChannel[m := NULL], h.prevChannel[m := NULL])
  }

  lemma TakeAccounts(link: map<Pair, Link>, free: seq<Link>, links: set<Link>, h: Heap)
    requires free != [] && h.channel.Keys == h.user.Keys == links && Accounted(link, free, links, h, NULL)
    requires forall p | p in link :: link[p] !in free
    ensures Accounted(link, free[1..], links, h, free[0]) && free[0] in links && Spare(free[0], link)
    ensures forall p | p in link :: link[p] !in free[1..]
  {
    assert free[0] in free && forall m | m in free :: m == free[0] || m in free[1..];
    assert forall m | m in free[1..] :: m in free;
    hide InUse;
  }

  lemma TakeGood(w: World, link: map<Pair, Link>, free: seq<Link>, links: set<Link>, h: Heap)
    requires Sound(w, link, free, links, h) && free != []
    ensures Good(w, link, free[1..], links, h) && Accounted(link, free[1..], links, h, free[0])
    ensures free[0] in links && Spare(free[0], link) && free[0] !in free[1..]
    ensures free[0] in h.nextMember && h.nextMember[free[0]] == First(free[1..])
  {
    hide Agree, Covered, RowsChained, ColumnsChained, Sized, Accounted, NoDup, Spare;
    TakeAccounts(link, free, links, h);
    FreePop(free, h.nextMember);
  }

  lemma MallocChains(w: World, link: map<Pair, Link>, links: set<Link>, h: Heap, m: Link, u: Client, c: Channel)
    requires Covered(w, link) && Labelled(w, link, links, h) && Sized(links, h) && m !in links
    requires RowsChained(w, link, h.nextMember, h.prevMember) && ColumnsChained(w, link, h.nextChannel, h.prevChannel)
    ensures RowsChained(w, link, h.nextMember[m := NULL], h.prevMember[m := NULL])
    ensures ColumnsChained(w, link, h.nextChannel[m := NULL], h.prevChannel[m := NULL])
  {
    hide Chained;
    forall e | e in w.rooms ensures Chained(Row(link, e, w.rooms[e]), h.nextMember[m := NULL], h.prevMember[m := NULL]) {
      RowLinks(w, link, links, h, e);
      ChainFrame(Row(link, e, w.rooms[e]), h.nextMember, h.prevMember, h.nextMember[m := NULL], h.prevMember[m := NULL]);
    }
    forall v | v in w.tours ensures Chained(Column(link, v, w.tours[v]), h.nextChannel[m := NULL], h.prevChannel[m := NULL]) {
      ColumnLinks(w, link, links, h, v);
      ChainFrame(Column(link, v, w.tours[v]), h.nextChannel, h.prevChannel, h.nextChannel[m := NULL], h.prevChannel[m := NULL]);
    }
  }

  lemma MallocLabels(w: World, link: map<Pair, Link>, links: set<Link>, h: Heap, m: Link, u: Client, c: Channel)
    requires Labelled(w, link, links, h) && m !in links
    ensures Labelled(w, link, links + {m}, Malloced(h, m, u, c)) && Spare(m, link)
  {
  }

  lemma MallocSizes(links: set<Link>, h: Heap, m: Link, u: Client, c: Channel)
    requires Sized(links, h)
    ensures Sized(links + {m}, Malloced(h, m, u, c))
  {
  }

  lemma MallocAccounts(w: World, link: map<Pair, Link>, links: set<Link>, h: Heap, m: Link, u: Client, c: Channel)
    requires Labelled(w, link, links, h) && m !in links && Accounted(link, [], links, h, NULL)
    ensures h.user.Keys == links && h.channel.Keys == links
    ensures Accounted(link, [], links + {m}, Malloced(h, m, u, c), m)
  {
  }

  lemma MallocGood(w: World, link: map<Pair, Link>, links: set<Link>, h: Heap, m: Link, u: Client, c: Channel)
    requires Sound(w, link, [], links, h) && m !in links
    ensures Good(w, link, [], links + {m}, Malloced(h, m, u, c))
    ensures Accounted(link, [], links + {m}, Malloced(h, m, u, c), m) && Spare(m, link)
  {
    hide Agree, Covered, RowsChained, ColumnsChained, Labelled, Sized, Accounted, Spare;
    MallocChains(w, link, links, h, m, u, c);
    MallocLabels(w, link, links, h, m, u, c);
    MallocSizes(links, h, m, u, c);
    MallocAccounts(w, link, links, h, m, u, c);
  }

  ghost function JoinBooks(b: Books, p: Pair, m: Link): Books {
    b.(link := b.link[p := m])
  }

  ghost function JoinChannels(t: ChannelTable, c: Channel, m: Link): ChannelTable
    requires c in t.users
  {
    ChannelTable(t.users[c := t.users[c] + 1], t.members[c := m])
  }

  ghost function JoinUsers(t: UserTable, u: Client, m: Link): UserTable
    requires u in t.joined
  {
    UserTable(t.joined[u := t.joined[u] + 1], t.channel[u := m])
  }

  lemma JoinRowHeads(w: World, link: map<Pair, Link>, m: Link, u: Client, c: Channel, zombie: bool)
    requires c in w.rooms && u in w.tours
    ensures RowHead(Joined(w, u, c, zombie), link[(c, u) := m], c) == m
    ensures ColumnHead(Joined(w, u, c, zombie), link[(c, u) := m], u) == m
    ensures forall e | e in w.rooms && e != c ::
      RowHead(Joined(w, u, c, zombie), link[(c, u) := m], e) == RowHead(w, link, e)
    ensures forall v | v in w.tours && v != u ::
      ColumnHead(Joined(w, u, c, zombie), link[(c, u) := m], v) == ColumnHead(w, link, v)
  {
  }

  lemma JoinCountsChannels(w: World, link: map<Pair, Link>, channels: ChannelTable, m: Link, u: Client, c: Channel, zombie: bool)
    requires c in w.rooms && u in w.tours && ChannelsCounted(channels, w, link)
    ensures ChannelsCounted(JoinChannels(channels, c, m), Joined(w, u, c, zombie), link[(c, u) := m])
  {
    JoinRowHeads(w, link, m, u, c, zombie);
    hide RowHead, ColumnHead;
  }

  lemma JoinCountsUsers(w: World, link: map<Pair, Link>, users: UserTable, m: Link, u: Client, c: Channel, zombie: bool)
    requires c in w.rooms && u in w.tours && UsersCounted(users, w, link)
    ensures UsersCounted(JoinUsers(users, u, m), Joined(w, u, c, zombie), link[(c, u) := m])
  {
    JoinRowHeads(w, link, m, u, c, zombie);
    hide RowHead, ColumnHead;
  }

  lemma ReadyTables(w: World, b: Books, mem: Heap, channels: ChannelTable, users: UserTable, freeList: Ptr, allocCount: nat,
                    m: Link, u: Client, c: Channel)
    requires Ready(w, b, mem, channels, users, freeList, allocCount, m) && c in w.rooms && u in w.tours
    ensures c in channels.users && c in channels.members && u in users.joined && u in users.channel
    ensures channels.members[c] == RowHead(w, b.link, c) && users.channel[u] == ColumnHead(w, b.link, u)
  {
    hide Good, Accounted, RowHead, ColumnHead;
  }

  lemma JoinSane(w: World, b: Books, mem: Heap, channels: ChannelTable, users: UserTable, freeList: Ptr, allocCount: nat,
                 m: Link, u: Client, c: Channel, zombie: bool)
    requires Ready(w, b, mem, channels, users, freeList, allocCount, m)
    requires c in w.rooms && u in w.tours && c !in w.tours[u] && !u.kind.Server?
    requires c in channels.users && c in channels.members && u in users.joined && u in users.channel
    ensures Sane(Joined(w, u, c, zombie), JoinBooks(b, (c, u), m),
                 JoinHeap(mem, m, u, c, zombie, channels.members[c], users.channel[u]),
                 JoinChannels(channels, c, m), JoinUsers(users, u, m), freeList, allocCount)
  {
    hide Good, Accounted, ChannelsCounted, UsersCounted, Joined, RowHead, ColumnHead, Spare, JoinHeap, JoinChannels, JoinUsers;
    ReadyTables(w, b, mem, channels, users, freeList, allocCount, m, u, c);
    JoinGood(w, b.link, b.free, b.links, mem, m, u, c, zombie);
    JoinCountsChannels(w, b.link, channels, m, u, c, zombie);
    JoinCountsUsers(w, b.link, users, m, u, c, zombie);
  }

  // ---------- Walking the lists ----------

  // The `i`-th link of a list, or NULL past its end.
  ghost function RowAt(w: World, link: map<Pair, Link>, c: Channel, i: nat): Ptr {
    if c in w.rooms && i < |w.rooms[c]| && (c, w.rooms[c][i]) in link then link[(c, w.rooms[c][i])] else NULL
  }

  ghost function ColumnAt(w: World, link: map<Pair, Link>, u: Client, i: nat): Ptr {
    if u in w.tours && i < |w.tours[u]| && (w.tours[u][i], u) in link then link[(w.tours[u][i], u)] else NULL
  }

  lemma ChainedAt(s: seq<Link>, next: Ptrs, prev: Ptrs, i: nat)
    requires Chained(s, next, prev) && i < |s|
    ensures s[i] in next && next[s[i]] == Next(s, i)
  {
  }

  lemma RowStep(w: World, link: map<Pair, Link>, links: set<Link>, h: Heap, c: Channel, i: nat)
    requires Covered(w, link) && Labelled(w, link, links, h) && Sized(links, h)
    requires RowsChained(w, link, h.nextMember, h.prevMember)
    requires c in w.rooms && i < |w.rooms[c]|
    ensures var m, u := RowAt(w, link, c, i), w.rooms[c][i];
      && (c, u) in link && m == link[(c, u)] && m != NULL
      && m in h.user && h.user[m] == u && m in h.channel && h.channel[m] == c
      && m in h.zombie && (h.zombie[m] <==> (c, u) in w.zombies)
      && m in h.nextMember && h.nextMember[m] == RowAt(w, link, c, i + 1)
  {
    hide Covered, RowsChained, Sized, Labelled, Chained;
    CoveredAt(w, link, links, h);
    var s := Row(link, c, w.rooms[c]);
    RowChained(w, link, h.nextMember, h.prevMember, c);
    ChainedAt(s, h.nextMember, h.prevMember, i);
    assert w.rooms[c][i] in w.rooms[c];
    if i + 1 < |s| { assert w.rooms[c][i + 1] in w.rooms[c]; }
  }

  // Covered and labelled, pair by pair.
  lemma CoveredAt(w: World, link: map<Pair, Link>, links: set<Link>, h: Heap)
    requires Covered(w, link) && Labelled(w, link, links, h)
    ensures forall c, u | c in w.rooms && u in w.rooms[c] :: (c, u) in link
    ensures forall u, c | u in w.tours && c in w.tours[u] :: (c, u) in link
    ensures h.user.Keys == links && h.channel.Keys == links && h.zombie.Keys == links
    ensures forall p | p in link :: link[p] in links && h.channel[link[p]] == p.0 && h.user[link[p]] == p.1
    ensures forall p | p in link :: h.zombie[link[p]] <==> p in w.zombies
  {
  }

  lemma RowChained(w: World, link: map<Pair, Link>, next: Ptrs, prev: Ptrs, c: Channel)
    requires RowsChained(w, link, next, prev) && c in w.rooms
    ensures (forall u | u in w.rooms[c] :: (c, u) in link) && Chained(Row(link, c, w.rooms[c]), next, prev)
  {
    hide Chained;
  }

  lemma ColumnChained(w: World, link: map<Pair, Link>, next: Ptrs, prev: Ptrs, u: Client)
    requires ColumnsChained(w, link, next, prev) && u in w.tours
    ensures (forall c | c in w.tours[u] :: (c, u) in link) && Chained(Column(link, u, w.tours[u]), next, prev)
  {
    hide Chained;
  }

  lemma ColumnStep(w: World, link: map<Pair, Link>, links: set<Link>, h: Heap, u: Client, i: nat)
    requires Covered(w, link) && Labelled(w, link, links, h) && Sized(links, h)
    requires ColumnsChained(w, link, h.nextChannel, h.prevChannel)
    requires u in w.tours && i < |w.tours[u]|
    ensures var m, c := ColumnAt(w, link, u, i), w.tours[u][i];
      && (c, u) in link && m == link[(c, u)] && m != NULL
      && m in h.user && h.user[m] == u && m in h.channel && h.channel[m] == c
      && m in h.nextChannel && h.nextChannel[m] == ColumnAt(w, link, u, i + 1)
  {
    hide Covered, ColumnsChained, Sized, Labelled, Chained;
    CoveredAt(w, link, links, h);
    var s := Column(link, u, w.tours[u]);
    ColumnChained(w, link, h.nextChannel, h.prevChannel, u);
    ChainedAt(s, h.nextChannel, h.prevChannel, i);
    assert w.tours[u][i] in w.tours[u];
    if i + 1 < |s| { assert w.tours[u][i + 1] in w.tours[u]; }
  }

  // The link of `u` on `c`, or NULL.
  ghost function LinkOf(link: map<Pair, Link>, u: Client, c: Channel): Ptr {
    if (c, u) in link then link[(c, u)] else NULL
  }

  lemma LinkedIffSeated(w: World, link: map<Pair, Link>, links: set<Link>, h: Heap, u: Client, c: Channel)
    requires Agree(w) && Covered(w, link) && Labelled(w, link, links, h) && c in w.rooms && u in w.tours
    ensures (c, u) in link <==> u in w.rooms[c]
    ensures (c, u) in link <==> c in w.tours[u]
  {
  }

  lemma ZombieSane(w: World, b: Books, mem: Heap, channels: ChannelTable, users: UserTable, freeList: Ptr, allocCount: nat, p: Pair)
    requires Sane(w, b, mem, channels, users, freeList, allocCount) && p in b.link
    ensures Sane(w.(zombies := w.zombies + {p}), b, mem.(zombie := mem.zombie[b.link[p] := true]), channels, users, freeList, allocCount)
  {
    hide Good, Accounted, ChannelsCounted, UsersCounted;
    var w' := w.(zombies := w.zombies + {p});
    ZombieKeys(w, b.link, b.free, b.links, mem, p);
    ZombieGood(w, b.link, b.free, b.links, mem, p);
    ZombieCounts(w, w', b.link, channels, users);
  }

  lemma ZombieKeys(w: World, link: map<Pair, Link>, free: seq<Link>, links: set<Link>, h: Heap, p: Pair)
    requires Good(w, link, free, links, h) && p in link
    ensures h.channel.Keys == links && h.user.Keys == links && link[p] in links
  {
    hide Agree, Covered, RowsChained, ColumnsChained, FreeChained;
  }

  lemma ZombieCounts(w: World, w': World, link: map<Pair, Link>, channels: ChannelTable, users: UserTable)
    requires w'.rooms == w.rooms && w'.tours == w.tours
    requires ChannelsCounted(channels, w, link) && UsersCounted(users, w, link)
    ensures ChannelsCounted(channels, w', link) && UsersCounted(users, w', link)
  {
  }

  // What the walks need to know of the state.
  lemma SaneParts(w: World, b: Books, mem: Heap, channels: ChannelTable, users: UserTable, freeList: Ptr, allocCount: nat)
    requires Sane(w, b, mem, channels, users, freeList, allocCount)
    ensures Good(w, b.link, b.free, b.links, mem)
    ensures Agree(w) && Covered(w, b.link) && Labelled(w, b.link, b.links, mem) && Sized(b.links, mem)
    ensures RowsChained(w, b.link, mem.nextMember, mem.prevMember)
    ensures ColumnsChained(w, b.link, mem.nextChannel, mem.prevChannel)
    ensures forall c | c in w.rooms :: c in channels.members && channels.members[c] == RowAt(w, b.link, c, 0)
    ensures forall u | u in w.tours :: u in users.channel && users.channel[u] == ColumnAt(w, b.link, u, 0)
  {
    hide Agree, Covered, Labelled, Sized, RowsChained, ColumnsChained, FreeChained, Accounted;
  }

  // The head of a list with members is the link of its first one.
  lemma SaneHead(w: World, b: Books, mem: Heap, channels: ChannelTable, users: UserTable, freeList: Ptr, allocCount: nat, c: Channel)
    requires Sane(w, b, mem, channels, users, freeList, allocCount) && c in w.rooms && w.rooms[c] != []
    ensures Agree(w) && c in channels.members && channels.members[c] != NULL
    ensures var m, u := channels.members[c], w.rooms[c][0];
      && u in w.tours && m in mem.user && m in mem.channel && mem.user[m] == u && mem.channel[m] == c
      && (c, u) in b.link && b.link[(c, u)] == m
  {
    SaneParts(w, b, mem, channels, users, freeList, allocCount);
    RowStep(w, b.link, b.links, mem, c, 0);
    LinkParts(w, b.link, b.links, mem, w.rooms[c][0], c);
    hide Sane, Agree, Covered, Labelled, Sized, RowsChained, ColumnsChained, Good;
  }

  lemma SaneTour(w: World, b: Books, mem: Heap, channels: ChannelTable, users: UserTable, freeList: Ptr, allocCount: nat, u: Client)
    requires Sane(w, b, mem, channels, users, freeList, allocCount) && u in w.tours
    ensures Agree(w) && u in users.channel && (users.channel[u] == NULL <==> w.tours[u] == [])
    ensures w.tours[u] != [] ==>
      var m, c := users.channel[u], w.tours[u][0];
      m in mem.channel && mem.channel[m] == c && c in w.rooms && u in w.rooms[c]
  {
    SaneParts(w, b, mem, channels, users, freeList, allocCount);
    if w.tours[u] != [] {
      ColumnStep(w, b.link, b.links, mem, u, 0);
      LinkedIffSeated(w, b.link, b.links, mem, u, w.tours[u][0]);
    }
    hide Sane, Agree, Covered, Labelled, Sized, RowsChained, ColumnsChained, Good;
  }

  lemma SaneLinkOf(w: World, b: Books, mem: Heap, channels: ChannelTable, users: UserTable, freeList: Ptr, allocCount: nat, u: Client, c: Channel)
    requires Sane(w, b, mem, channels, users, freeList, allocCount) && (c, u) in b.link
    ensures var m := b.link[(c, u)];
      && c in w.rooms && u in w.rooms[c] && u in w.tours && Agree(w)
      && m in mem.user && m in mem.channel && m in mem.zombie && mem.user[m] == u && mem.channel[m] == c
  {
    SaneParts(w, b, mem, channels, users, freeList, allocCount);
    LinkParts(w, b.link, b.links, mem, u, c);
    LinkedIffSeated(w, b.link, b.links, mem, u, c);
    hide Sane, Agree, Covered, Labelled, Sized, RowsChained, ColumnsChained, Good;
  }

  lemma SweepStep(w: World, c: Channel)
    requires Agree(w) && c in w.rooms && w.rooms[c] != [] && !c.persist && w.rooms[c][0] in w.tours
    ensures var d := Detached(w, w.rooms[c][0], c);
      if |w.rooms[c]| > 1 then
        c in d.rooms && 0 < |d.rooms[c]| < |w.rooms[c]| && Destroyed(d, c) == Destroyed(w, c)
      else d == Destroyed(w, c)
  {
    assert NoDup(w.rooms[c]);
    DetachThenDestroy(w, w.rooms[c][0], c);
    hide Agree, Destroyed;
  }

  lemma PartedCases(w: World, u: Client, c: Channel)
    requires Agree(w) && c in w.rooms && u in w.rooms[c] && u in w.tours
    ensures var d := Detached(w, u, c);
      if |w.rooms[c]| > 1 then
        c in d.rooms && d.rooms[c] != [] && (AllZombies(d, c) ==> !c.persist)
        && Parted(w, u, c) == if AllZombies(d, c) then Destroyed(d, c) else d
      else Parted(w, u, c) == d
  {
    assert NoDup(w.rooms[c]);
    hide Agree, Destroyed;
  }

  lemma CreateChains(w: World, link: map<Pair, Link>, h: Heap, c: Channel)
    requires RowsChained(w, link, h.nextMember, h.prevMember) && c !in w.rooms
    requires ColumnsChained(w, link, h.nextChannel, h.prevChannel)
    ensures var w' := w.(rooms := w.rooms[c := []]);
      && Covered(w', link) && RowsChained(w', link, h.nextMember, h.prevMember)
      && ColumnsChained(w', link, h.nextChannel, h.prevChannel)
  {
    assert Row(link, c, []) == [] && Chained([], h.nextMember, h.prevMember);
    hide Chained;
  }

  lemma ArriveChains(w: World, link: map<Pair, Link>, h: Heap, u: Client)
    requires RowsChained(w, link, h.nextMember, h.prevMember) && u !in w.tours
    requires ColumnsChained(w, link, h.nextChannel, h.prevChannel)
    ensures var w' := w.(tours := w.tours[u := []]);
      && Covered(w', link) && RowsChained(w', link, h.nextMember, h.prevMember)
      && ColumnsChained(w', link, h.nextChannel, h.prevChannel)
  {
    assert Column(link, u, []) == [] && Chained([], h.nextChannel, h.prevChannel);
    hide Chained;
  }

  lemma CreateAgrees(w: World, c: Channel)
    requires Agree(w) && Legal(w, Step.Create(c))
    ensures Agree(w.(rooms := w.rooms[c := []]))
  {
  }

  lemma ArriveAgrees(w: World, u: Client)
    requires Agree(w) && Legal(w, Step.Arrive(u))
    ensures Agree(w.(tours := w.tours[u := []]))
  {
  }

  // An empty row or column changes neither the other lists nor what the links say.
  lemma HeadsFrame(w: World, w': World, link: map<Pair, Link>)
    ensures forall e | e in w.rooms && e in w'.rooms && w'.rooms[e] == w.rooms[e] :: RowHead(w', link, e) == RowHead(w, link, e)
    ensures forall v | v in w.tours && v in w'.tours && w'.tours[v] == w.tours[v] :: ColumnHead(w', link, v) == ColumnHead(w, link, v)
    ensures forall e | e in w.rooms && w.rooms[e] == [] :: RowHead(w, link, e) == NULL
    ensures forall v | v in w.tours && w.tours[v] == [] :: ColumnHead(w, link, v) == NULL
  {
  }

  lemma LabelsFrame(w: World, w': World, link: map<Pair, Link>, links: set<Link>, h: Heap)
    requires Labelled(w, link, links, h) && w'.zombies == w.zombies
    requires forall e | e in w.rooms :: e in w'.rooms && w'.rooms[e] == w.rooms[e]
    ensures Labelled(w', link, links, h)
  {
  }

  lemma CreateTables(w: World, link: map<Pair, Link>, channels: ChannelTable, users: UserTable, c: Channel)
    requires c !in w.rooms && ChannelsCounted(channels, w, link) && UsersCounted(users, w, link)
    ensures var w' := w.(rooms := w.rooms[c := []]);
      && UsersCounted(users, w', link)
      && ChannelsCounted(ChannelTable(channels.users[c := 0], channels.members[c := NULL]), w', link)
  {
    HeadsFrame(w, w.(rooms := w.rooms[c := []]), link);
    HeadsFrame(w.(rooms := w.rooms[c := []]), w, link);
    hide RowHead, ColumnHead;
  }

  lemma ArriveTables(w: World, link: map<Pair, Link>, channels: ChannelTable, users: UserTable, u: Client)
    requires u !in w.tours && ChannelsCounted(channels, w, link) && UsersCounted(users, w, link)
    ensures var w' := w.(tours := w.tours[u := []]);
      && ChannelsCounted(channels, w', link)
      && UsersCounted(UserTable(users.joined[u := 0], users.channel[u := NULL]), w', link)
  {
    HeadsFrame(w, w.(tours := w.tours[u := []]), link);
    HeadsFrame(w.(tours := w.tours[u := []]), w, link);
    hide RowHead, ColumnHead;
  }

  lemma CreateSane(w: World, b: Books, mem: Heap, channels: ChannelTable, users: UserTable, freeList: Ptr, allocCount: nat, c: Channel)
    requires Sane(w, b, mem, channels, users, freeList, allocCount) && Legal(w, Step.Create(c))
    ensures Agree(w)
    ensures Sane(w.(rooms := w.rooms[c := []]), b, mem, ChannelTable(channels.users[c := 0], channels.members[c := NULL]),
                 users, freeList, allocCount)
  {
    hide Agree, Covered, Labelled, Sized, RowsChained, ColumnsChained, Accounted, FreeChained, ChannelsCounted, UsersCounted, Legal;
    NewChannel(w, c);
    CreateAgrees(w, c);
    LabelsFrame(w, w.(rooms := w.rooms[c := []]), b.link, b.links, mem);
    CreateTables(w, b.link, channels, users, c);
    CreateChains(w, b.link, mem, c);
  }

  lemma NewChannel(w: World, c: Channel)
    requires Legal(w, Step.Create(c))
    ensures c !in w.rooms
  {
  }

  lemma NewClient(w: World, u: Client)
    requires Legal(w, Step.Arrive(u))
    ensures u !in w.tours
  {
  }

  lemma ArriveSane(w: World, b: Books, mem: Heap, channels: ChannelTable, users: UserTable, freeList: Ptr, allocCount: nat, u: Client)
    requires Sane(w, b, mem, channels, users, freeList, allocCount) && Legal(w, Step.Arrive(u))
    ensures Agree(w)
    ensures Sane(w.(tours := w.tours[u := []]), b, mem, channels, UserTable(users.joined[u := 0], users.channel[u := NULL]),
                 freeList, allocCount)
  {
    hide Agree, Covered, Labelled, Sized, RowsChained, ColumnsChained, Accounted, FreeChained, ChannelsCounted, UsersCounted, Legal;
    NewClient(w, u);
    ArriveAgrees(w, u);
    LabelsFrame(w, w.(tours := w.tours[u := []]), b.link, b.links, mem);
    ArriveTables(w, b.link, channels, users, u);
    ArriveChains(w, b.link, mem, u);
  }

  // A link in use knows its pair.
  lemma LinkParts(w: World, link: map<Pair, Link>, links: set<Link>, h: Heap, u: Client, c: Channel)
    requires Agree(w) && Labelled(w, link, links, h) && (c, u) in link
    ensures var m := link[(c, u)];
      && c in w.rooms && u in w.tours && m in h.user && m in h.channel && m in h.zombie
      && h.user[m] == u && h.channel[m] == c
  {
  }

  class Network {
    var mem: Heap
    var channels: ChannelTable
    var users: UserTable
    var freeList: Ptr
    var allocCount: nat
    ghost var world: World
    ghost var books: Books

    ghost predicate Valid()
      reads this
    {
      Sane(world, books, mem, channels, users, freeList, allocCount)
    }

    constructor ()
      ensures Valid() && world == World(map[], map[], {})
    {
      mem := Heap(map[], map[], map[], map[], map[], map[], map[]);
      channels, users := ChannelTable(map[], map[]), UserTable(map[], map[]);
      freeList, allocCount := NULL, 0;
      world, books := World(map[], map[], {}), Books(map[], [], {});
    }

    // Whether the channel still has users; a channel left empty goes unless it is persistent.
    method Subtract(c: Channel) returns (more: bool)
      requires c in channels.users && c in channels.members
      modifies `channels
      ensures more <==> old(channels).users[c] > 1 && old(channels).members[c] != NULL
      ensures channels == Subtracted(old(channels), c)
      ensures (more <==> c in channels.users) <==>
        if old(channels).users[c] > 1 then old(channels).members[c] != NULL else !c.persist
    {
      if channels.users[c] > 1 {
        if channels.members[c] == NULL { return false; }
        channels := channels.(users := channels.users[c := channels.users[c] - 1]);
        return true;
      }
      if c.persist {
        channels := channels.(users := channels.users[c := channels.users[c] - 1]);
        return false;
      }
      channels := ChannelTable(channels.users - {c}, channels.members - {c});
      return false;
    }

    // Takes `m` off both its lists and chains it to the free list.
    method Unlink(m: Link)
      requires m in mem.nextMember && m in mem.prevMember && m in mem.nextChannel && m in mem.prevChannel
      requires mem.nextMember[m] != m && mem.prevMember[m] != m && mem.nextChannel[m] != m && mem.prevChannel[m] != m
      requires m in mem.channel && m in mem.user
      modifies `mem, `channels, `users
      ensures mem == DetachHeap(old(mem), m, freeList)
      ensures channels == old(channels).(members :=
        HeadMoved(old(channels).members, mem.channel[m], old(mem).prevMember[m], old(mem).nextMember[m]))
      ensures users == old(users).(channel :=
        HeadMoved(old(users).channel, mem.user[m], old(mem).prevChannel[m], old(mem).nextChannel[m]))
    {
      var h := mem;
      if h.nextMember[m] != NULL {
        h := h.(prevMember := h.prevMember[h.nextMember[m] := h.prevMember[m]]);
      }
      if h.prevMember[m] != NULL {
        h := h.(nextMember := h.nextMember[h.prevMember[m] := h.nextMember[m]]);
      } else {
        channels := channels.(members := channels.members[h.channel[m] := h.nextMember[m]]);
      }
      if h.nextChannel[m] != NULL {
        h := h.(prevChannel := h.prevChannel[h.nextChannel[m] := h.prevChannel[m]]);
      }
      if h.prevChannel[m] != NULL {
        h := h.(nextChannel := h.nextChannel[h.prevChannel[m] := h.nextChannel[m]]);
      } else {
        users := users.(channel := users.channel[h.user[m] := h.nextChannel[m]]);
      }
      mem := h.(nextMember := h.nextMember[m := freeList]);
    }

    method RemoveMember(m: Link) returns (more: bool)
      requires Valid() && m in mem.channel && m in mem.user
      requires (mem.channel[m], mem.user[m]) in books.link && books.link[(mem.channel[m], mem.user[m])] == m
      requires mem.channel[m] in world.rooms && mem.user[m] in world.tours
      modifies this
      ensures Valid()
      ensures world == Detached(old(world), old(mem).user[m], old(mem).channel[m])
      ensures books == DetachBooks(old(books), (old(mem).channel[m], old(mem).user[m]))
      ensures mem.user == old(mem).user && mem.channel == old(mem).channel
      ensures more <==> |old(world.rooms[mem.channel[m]])| > 1
      ensures (more <==> old(mem).channel[m] in world.rooms) <==> !old(mem).channel[m].persist || more
    {
      hide Sane, Detached, Neighbours;
      SaneStays(world, books, mem, channels, users, freeList, allocCount, mem.user[m], mem.channel[m]);
      ghost var w, b := world, books;
      var h, c, u := mem, mem.channel[m], mem.user[m];
      SaneLink(world, books, mem, channels, users, freeList, allocCount, u, c);
      DetachSane(world, books, mem, channels, users, freeList, allocCount, u, c);
      Unlink(m);
      users := users.(joined := users.joined[u := users.joined[u] - 1]);
      freeList := m;
      more := Subtract(c);
      world, books := Detached(w, u, c), DetachBooks(b, (c, u));
    }

    // A link from the free list, or a new one.
    method Allocate(who: Client, c: Channel) returns (m: Link)
      requires Valid()
      modifies `mem, `freeList, `allocCount, `books
      ensures Ready(world, books, mem, channels, users, freeList, allocCount, m)
      ensures books.link == old(books).link
    {
      ghost var b := books;
      if freeList != NULL {
        TakeGood(world, b.link, b.free, b.links, mem);
        m := freeList;
        freeList := mem.nextMember[m];
        books := b.(free := b.free[1..]);
      } else {
        m := allocCount + 1;
        MallocGood(world, b.link, b.links, mem, m, who, c);
        mem := Heap(mem.user[m := who], mem.channel[m := c], mem.zombie[m := false],
                    mem.nextMember[m := NULL], mem.prevMember[m := NULL],
                    mem.nextChannel[m := NULL], mem.prevChannel[m := NULL]);
        allocCount := m;
        books := b.(links := b.links + {m});
      }
    }

    // Puts `member` in front of both lists.
    method Hook(member: Link, c: Channel, who: Client, zombie: bool)
      requires c in channels.users && c in channels.members && who in users.joined && who in users.channel
      modifies `mem, `channels, `users
      ensures mem == JoinHeap(old(mem), member, who, c, zombie, old(channels).members[c], old(users).channel[who])
      ensures channels == JoinChannels(old(channels), c, member) && users == JoinUsers(old(users), who, member)
    {
      var h, row, column := mem, channels.members[c], users.channel[who];
      h := h.(user := h.user[member := who], channel := h.channel[member := c], zombie := h.zombie[member := zombie]);
      h := h.(nextMember := h.nextMember[member := row]);
      if row != NULL { h := h.(prevMember := h.prevMember[row := member]); }
      h := h.(prevMember := h.prevMember[member := NULL]);
      h := h.(nextChannel := h.nextChannel[member := column]);
      if column != NULL { h := h.(prevChannel := h.prevChannel[column := member]); }
      h := h.(prevChannel := h.prevChannel[member := NULL]);
      mem := h;
      channels := ChannelTable(channels.users[c := channels.users[c] + 1], channels.members[c := member]);
      users := UserTable(users.joined[who := users.joined[who] + 1], users.channel[who := member]);
    }

    method AddUser(c: Channel, who: Client, zombie: bool)
      requires Valid() && c in world.rooms && who in world.tours && c !in world.tours[who]
      modifies this
      ensures Valid()
      ensures world == if who.kind.Server? then old(world) else Joined(old(world), who, c, zombie)
    {
      hide Sane, Ready, Joined, JoinHeap, JoinChannels, JoinUsers;
      if !who.kind.Server? {
        var member := Allocate(who, c);
        ReadyTables(world, books, mem, channels, users, freeList, allocCount, member, who, c);
        JoinSane(world, books, mem, channels, users, freeList, allocCount, member, who, c, zombie);
        ghost var w', b' := Joined(world, who, c, zombie), JoinBooks(books, (c, who), member);
        Hook(member, c, who, zombie);
        assert Sane(w', b', mem, channels, users, freeList, allocCount);
        world, books := w', b';
      }
    }

    // The walk over the channel, for services on a great many channels.
    method FindInChannel(c: Channel, u: Client) returns (m: Ptr)
      requires Valid() && c in world.rooms && u in world.tours
      ensures m == LinkOf(books.link, u, c)
    {
      hide Sane, Agree, Covered, Labelled, Sized, RowsChained, ColumnsChained, Good;
      ghost var w, link, i := world, books.link, 0;
      SaneParts(world, books, mem, channels, users, freeList, allocCount);
      LinkedIffSeated(w, link, books.links, mem, u, c);
      if 0 < |w.rooms[c]| { RowStep(w, link, books.links, mem, c, 0); }
      m := channels.members[c];
      while m != NULL
        invariant i <= |w.rooms[c]| && m == RowAt(w, link, c, i) && u !in w.rooms[c][..i]
        invariant m == NULL ==> i == |w.rooms[c]|
        decreases |w.rooms[c]| - i
      {
        RowStep(w, link, books.links, mem, c, i);
        if mem.user[m] == u { return; }
        m := mem.nextMember[m];
        i := i + 1;
        if i < |w.rooms[c]| { RowStep(w, link, books.links, mem, c, i); }
      }
    }

    // The walk over the user, for everybody else.
    method FindInUser(c: Channel, u: Client) returns (m: Ptr)
      requires Valid() && c in world.rooms && u in world.tours
      ensures m == LinkOf(books.link, u, c)
    {
      hide Sane, Agree, Covered, Labelled, Sized, RowsChained, ColumnsChained, Good;
      ghost var w, link, i := world, books.link, 0;
      SaneParts(world, books, mem, channels, users, freeList, allocCount);
      LinkedIffSeated(w, link, books.links, mem, u, c);
      if 0 < |w.tours[u]| { ColumnStep(w, link, books.links, mem, u, 0); }
      m := users.channel[u];
      while m != NULL
        invariant i <= |w.tours[u]| && m == ColumnAt(w, link, u, i) && c !in w.tours[u][..i]
        invariant m == NULL ==> i == |w.tours[u]|
        decreases |w.tours[u]| - i
      {
        ColumnStep(w, link, books.links, mem, u, i);
        if mem.channel[m] == c { return; }
        m := mem.nextChannel[m];
        i := i + 1;
        if i < |w.tours[u]| { ColumnStep(w, link, books.links, mem, u, i); }
      }
    }

    method FindMemberLink(c: Channel, u: Client) returns (m: Ptr)
      requires Valid() && c in world.rooms && u in world.tours
      ensures m == LinkOf(books.link, u, c) && (m != NULL <==> u in world.rooms[c])
    {
      SaneParts(world, books, mem, channels, users, freeList, allocCount);
      LinkedIffSeated(world, books.link, books.links, mem, u, c);
      assert u.kind.Server? ==> c !in world.tours[u];
      hide Sane, Agree, Covered, Labelled, Good;
      if u.kind.Server? { return NULL; }
      if u.kind.Service? { m := FindInChannel(c, u); } else { m := FindInUser(c, u); }
    }

    method ChannelAllZombies(c: Channel) returns (all: bool)
      requires Valid() && c in world.rooms
      ensures all <==> AllZombies(world, c)
    {
      hide Sane, Agree, Covered, Labelled, Sized, RowsChained, ColumnsChained, Good;
      if c.persist { return false; }
      ghost var w, link, i := world, books.link, 0;
      SaneParts(world, books, mem, channels, users, freeList, allocCount);
      if 0 < |w.rooms[c]| { RowStep(w, link, books.links, mem, c, 0); }
      var m := channels.members[c];
      while m != NULL
        invariant i <= |w.rooms[c]| && m == RowAt(w, link, c, i)
        invariant forall u | u in w.rooms[c][..i] :: (c, u) in w.zombies
        invariant m == NULL ==> i == |w.rooms[c]|
        decreases |w.rooms[c]| - i
      {
        RowStep(w, link, books.links, mem, c, i);
        if !mem.zombie[m] { return false; }
        m := mem.nextMember[m];
        i := i + 1;
        if i < |w.rooms[c]| { RowStep(w, link, books.links, mem, c, i); }
      }
      all := true;
    }

    // Removes the member at the head of the channel's list until the channel is gone.
    method Sweep(c: Channel)
      requires Valid() && c in world.rooms && world.rooms[c] != [] && !c.persist
      modifies this
      ensures Valid() && world == Destroyed(old(world), c)
    {
      var more := true;
      while more
        invariant Valid() && (more ==> c in world.rooms && world.rooms[c] != [])
        invariant if more then Destroyed(world, c) == Destroyed(old(world), c) else world == Destroyed(old(world), c)
        decreases more, if c in world.rooms then |world.rooms[c]| else 0
      {
        hide Sane, Agree, Detached, Destroyed;
        SaneHead(world, books, mem, channels, users, freeList, allocCount, c);
        SweepStep(world, c);
        more := RemoveMember(channels.members[c]);
      }
    }

    method RemoveUser(u: Client, c: Channel)
      requires Valid() && c in world.rooms && u in world.tours
      modifies this
      ensures Valid() && world == Parted(old(world), u, c)
    {
      hide Sane, Agree, Detached, Destroyed, AllZombies;
      var m := FindMemberLink(c, u);
      if m != NULL {
        hide Parted;
        SaneLinkOf(world, books, mem, channels, users, freeList, allocCount, u, c);
        PartedCases(world, u, c);
        var more := RemoveMember(m);
        if more {
          var all := ChannelAllZombies(c);
          if all { Sweep(c); }
        }
      }
    }

    method RemoveUserFromAll(u: Client)
      requires Valid() && u in world.tours
      modifies this
      ensures Valid() && world == Quit(old(world), u)
    {
      hide Sane, Parted, Agree;
      SaneTour(world, books, mem, channels, users, freeList, allocCount, u);
      while users.channel[u] != NULL
        invariant Valid() && u in world.tours && Agree(world) && Quit(world, u) == Quit(old(world), u)
        invariant u in users.channel && (users.channel[u] == NULL <==> world.tours[u] == [])
        decreases |world.tours[u]|
      {
        SaneTour(world, books, mem, channels, users, freeList, allocCount, u);
        ghost var c := world.tours[u][0];
        QuitStep(world, u);
        PartedShape(world, u, c);
        assert |Without(world.tours[u], c)| < |world.tours[u]|;
        RemoveUser(u, mem.channel[users.channel[u]]);
        SaneTour(world, books, mem, channels, users, freeList, allocCount, u);
      }
    }

    // Kicked by somebody: `mine` if the victim is our client, `sentBack` if the kick came from its
    // direction; `path` is the way from the kicker's server towards us and `home` the victim's server.
    method MakeZombie(m: Link, mine: bool, sentBack: bool, path: seq<nat>, home: nat)
      requires Valid() && m in mem.channel && m in mem.user
      requires (mem.channel[m], mem.user[m]) in books.link && books.link[(mem.channel[m], mem.user[m])] == m
      requires mem.channel[m] in world.rooms && mem.user[m] in world.tours
      modifies this
      ensures Valid()
      ensures world == Kicked(old(world), old(mem).user[m], old(mem).channel[m], mine || (sentBack && home in path))
    {
      hide Sane, Parted, AllZombies;
      var c, who := mem.channel[m], mem.user[m];
      ghost var w := world;
      SaneLinkOf(world, books, mem, channels, users, freeList, allocCount, who, c);
      ZombieSane(world, books, mem, channels, users, freeList, allocCount, (c, who));
      mem := mem.(zombie := mem.zombie[m := true]);
      world := world.(zombies := world.zombies + {(c, who)});
      if mine {
        RemoveUser(who, c);
        return;
      }
      if sentBack {
        for i := 0 to |path|
          invariant Valid() && world == w.(zombies := w.zombies + {(c, who)}) && home !in path[..i]
        {
          if path[i] == home {
            RemoveUser(who, c);
            return;
          }
        }
      }
      var all := ChannelAllZombies(c);
      if all { RemoveUser(who, c); }
    }

    // A channel new to the server.
    method Create(c: Channel)
      requires Valid() && Legal(world, Step.Create(c))
      modifies this
      ensures Valid() && world == Perform(old(world), Step.Create(c))
    {
      CreateSane(world, books, mem, channels, users, freeList, allocCount, c);
      hide Sane;
      channels := ChannelTable(channels.users[c := 0], channels.members[c := NULL]);
      world := world.(rooms := world.rooms[c := []]);
    }

    // A client new to the server.
    method Arrive(u: Client)
      requires Valid() && Legal(world, Step.Arrive(u))
      modifies this
      ensures Valid() && world == Perform(old(world), Step.Arrive(u))
    {
      ArriveSane(world, books, mem, channels, users, freeList, allocCount, u);
      hide Sane;
      users := UserTable(users.joined[u := 0], users.channel[u := NULL]);
      world := world.(tours := world.tours[u := []]);
    }
  }
}
