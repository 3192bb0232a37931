// Who is on which channel: the membership links of ircd/channel.c.
//
// A membership lies on two doubly linked lists at once, the member list of its channel and the
// channel list of its user, and both ends keep a counter.  This module says what the operations
// mean on plain lists of names (`World`); `MemberLinks` is the pointer structure, proved to do
// exactly that.
module MemberMatrix {
  import opened LinkedLists

  datatype Kind = Server | Person | Service

  datatype Channel = Channel(id: nat, persist: bool)

  datatype Client = Client(id: nat, kind: Kind)

  // ---------- What the operations mean ----------

  // `rooms` lists the members of every existing channel and `tours` the channels of every client,
  // both newest first; `zombies` are the pairs kicked but not yet removed.
  datatype World = World(rooms: map<Channel, seq<Client>>,
                         tours: map<Client, seq<Channel>>,
                         zombies: set<(Channel, Client)>)

  ghost predicate Agree(w: World) {
    && (forall c | c in w.rooms :: NoDup(w.rooms[c]))
    && (forall u | u in w.tours :: NoDup(w.tours[u]))
    && (forall c, u | c in w.rooms && u in w.rooms[c] :: u in w.tours && c in w.tours[u])
    && (forall c, u | u in w.tours && c in w.tours[u] :: c in w.rooms && u in w.rooms[c])
    && (forall z | z in w.zombies :: z.0 in w.rooms && z.1 in w.rooms[z.0])
    && (forall u | u in w.tours && u.kind.Server? :: w.tours[u] == [])
  }

  ghost predicate AllZombies(w: World, c: Channel)
    requires c in w.rooms
  {
    !c.persist && forall u | u in w.rooms[c] :: (c, u) in w.zombies
  }

  // A channel that is not persistent and has links has a member who is not a zombie.
  ghost predicate ZombieSafe(w: World) {
    forall c | c in w.rooms && w.rooms[c] != [] :: !AllZombies(w, c)
  }

  ghost function Joined(w: World, u: Client, c: Channel, zombie: bool): World
    requires c in w.rooms && u in w.tours
  {
    World(w.rooms[c := [u] + w.rooms[c]], w.tours[u := [c] + w.tours[u]],
          if zombie then w.zombies + {(c, u)} else w.zombies)
  }

  // One link goes, and with the last link a channel that is not persistent.
  ghost function Detached(w: World, u: Client, c: Channel): World
    requires c in w.rooms && u in w.tours
  {
    var rest := Without(w.rooms[c], u);
    World(if rest == [] && !c.persist then w.rooms - {c} else w.rooms[c := rest],
          w.tours[u := Without(w.tours[u], c)], w.zombies - {(c, u)})
  }

  // The channel goes with everything that refers to it.
  ghost function Destroyed(w: World, c: Channel): World {
    World(w.rooms - {c}, map u | u in w.tours :: Without(w.tours[u], c),
          set z | z in w.zombies && z.0 != c)
  }

  ghost function Parted(w: World, u: Client, c: Channel): World
    requires c in w.rooms && u in w.tours
  {
    if u !in w.rooms[c] then w
    else
      var d := Detached(w, u, c);
      if c in d.rooms && d.rooms[c] != [] && AllZombies(d, c) then Destroyed(d, c) else d
  }

  // Marked as a zombie, and removed if the route says so or nobody else is left.
  ghost function Kicked(w: World, u: Client, c: Channel, removed: bool): World
    requires c in w.rooms && u in w.tours
  {
    var z := w.(zombies := w.zombies + {(c, u)});
    if removed || AllZombies(z, c) then Parted(z, u, c) else z
  }

  lemma DetachedAgrees(w: World, u: Client, c: Channel)
    requires Agree(w) && c in w.rooms && u in w.rooms[c]
    ensures u in w.tours && Agree(Detached(w, u, c))
  {
    var d := Detached(w, u, c);
    assert u in w.tours && c in w.tours[u];
    assert NoDup(Without(w.rooms[c], u)) && NoDup(Without(w.tours[u], c));
    hide NoDup;
    forall e, v | e in d.rooms && v in d.rooms[e] ensures v in d.tours && e in d.tours[v] { assert v in w.rooms[e]; }
    forall e, v | v in d.tours && e in d.tours[v] ensures e in d.rooms && v in d.rooms[e] { assert e in w.tours[v]; }
    forall z | z in d.zombies ensures z.0 in d.rooms && z.1 in d.rooms[z.0] { assert z in w.zombies; }
  }

  // Whether a channel stays when one member goes.  What `sub1_from_channel` returns, that others are
  // left, is that if and only if the channel is not persistent or others are left.
  lemma StaysOrGoes(w: World, u: Client, c: Channel)
    requires Agree(w) && c in w.rooms && u in w.rooms[c]
    ensures u in w.tours && (c in Detached(w, u, c).rooms <==> c.persist || |w.rooms[c]| > 1)
    ensures (|w.rooms[c]| > 1 <==> c in Detached(w, u, c).rooms) <==> !c.persist || |w.rooms[c]| > 1
  {
    assert u in w.tours && c in w.tours[u];
    assert |Without(w.rooms[c], u)| == |w.rooms[c]| - 1;
  }

  // The last member of a persistent channel: nobody is left, and the channel stays.
  lemma PersistentStays()
    ensures var c, u := Channel(1, true), Client(1, Person);
      var w := World(map[c := [u]], map[u := [c]], {});
      Agree(w) && |w.rooms[c]| == 1 && c in Detached(w, u, c).rooms
  {
  }

  lemma DestroyedAgrees(w: World, c: Channel)
    requires Agree(w)
    ensures Agree(Destroyed(w, c))
  {
    var d := Destroyed(w, c);
    forall u | u in d.tours ensures NoDup(d.tours[u]) { assert NoDup(w.tours[u]); }
    forall e, u | u in d.tours && e in d.tours[u] ensures e in d.rooms && u in d.rooms[e] {
      assert e in w.tours[u];
    }
  }

  lemma PartedAgrees(w: World, u: Client, c: Channel)
    requires Agree(w) && c in w.rooms && u in w.tours
    ensures Agree(Parted(w, u, c)) && Parted(w, u, c).tours.Keys == w.tours.Keys
    ensures c !in Parted(w, u, c).tours[u]
  {
    if u in w.rooms[c] {
      DetachedAgrees(w, u, c);
      DestroyedAgrees(Detached(w, u, c), c);
    }
  }

  // Leaving every channel, always the first one on the list.
  ghost function Quit(w: World, u: Client): (q: World)
    requires Agree(w) && u in w.tours
    ensures Agree(q) && q.tours.Keys == w.tours.Keys && q.tours[u] == []
    decreases |w.tours[u]|
  {
    if w.tours[u] == [] then w
    else
      var c := w.tours[u][0];
      PartedAgrees(w, u, c);
      assert |Parted(w, u, c).tours[u]| < |w.tours[u]|;
      Quit(Parted(w, u, c), u)
  }

  // The loop that empties a channel of zombies removes one link after the other; it gets where
  // destroying the channel at once would.
  lemma DetachThenDestroy(w: World, u: Client, c: Channel)
    requires Agree(w) && c in w.rooms && u in w.rooms[c] && u in w.tours && !c.persist
    ensures Destroyed(Detached(w, u, c), c) == Destroyed(w, c)
    ensures Without(w.rooms[c], u) == [] ==> Detached(w, u, c) == Destroyed(w, c)
  {
    DestroyAnyway(w, u, c);
    if Without(w.rooms[c], u) == [] {
      OnlyOne(w, u, c);
      hide Agree;
      assert Detached(w, u, c).tours == Destroyed(w, c).tours;
    }
  }

  lemma DestroyAnyway(w: World, u: Client, c: Channel)
    requires c in w.rooms && u in w.tours && !c.persist
    ensures Destroyed(Detached(w, u, c), c) == Destroyed(w, c)
  {
    var d := Detached(w, u, c);
    assert Without(Without(w.tours[u], c), c) == Without(w.tours[u], c);
    hide NoDup, Without;
    assert Destroyed(d, c).zombies == Destroyed(w, c).zombies;
    assert Destroyed(d, c).tours == Destroyed(w, c).tours;
    assert Destroyed(d, c).rooms == Destroyed(w, c).rooms;
  }

  // The last one on a channel: nobody else has it on a list, nor is anybody else its zombie.
  lemma OnlyOne(w: World, u: Client, c: Channel)
    requires Agree(w) && c in w.rooms && u in w.rooms[c] && u in w.tours && Without(w.rooms[c], u) == []
    ensures forall v | v in w.tours && v != u :: Without(w.tours[v], c) == w.tours[v]
    ensures w.zombies - {(c, u)} == Destroyed(w, c).zombies
  {
    forall v | v in w.rooms[c] ensures v == u { }
  }

  // ---------- Whole runs ----------

  datatype Step =
    | Create(channel: Channel)
    | Arrive(client: Client)
    | Join(client: Client, channel: Channel)
    | Part(client: Client, channel: Channel)
    | Kick(client: Client, channel: Channel, removed: bool)
    | Leave(client: Client)

  // What the callers check before a step.
  ghost predicate Legal(w: World, s: Step) {
    match s
    case Create(c) => c !in w.rooms && forall u | u in w.tours :: c !in w.tours[u]
    case Arrive(u) => u !in w.tours && forall c | c in w.rooms :: u !in w.rooms[c]
    case Join(u, c) => c in w.rooms && u in w.tours && !u.kind.Server? && c !in w.tours[u]
    case Part(u, c) => c in w.rooms && u in w.tours
    case Kick(u, c, _) => c in w.rooms && u in w.tours && u in w.rooms[c]
    case Leave(u) => u in w.tours
  }

  ghost function Perform(w: World, s: Step): World
    requires Agree(w) && Legal(w, s)
  {
    match s
    case Create(c) => w.(rooms := w.rooms[c := []])
    case Arrive(u) => w.(tours := w.tours[u := []])
    case Join(u, c) => Joined(w, u, c, false)
    case Part(u, c) => Parted(w, u, c)
    case Kick(u, c, removed) => Kicked(w, u, c, removed)
    case Leave(u) => Quit(w, u)
  }

  lemma PartKeepsSafe(w: World, u: Client, c: Channel)
    requires Agree(w) && c in w.rooms && u in w.tours
    requires forall e | e in w.rooms && e != c && w.rooms[e] != [] :: !AllZombies(w, e)
    requires u in w.rooms[c] || w.rooms[c] == [] || !AllZombies(w, c)
    ensures ZombieSafe(Parted(w, u, c))
  {
    var p := Parted(w, u, c);
    PartedAgrees(w, u, c);
    forall e | e in p.rooms && p.rooms[e] != [] ensures !AllZombies(p, e) {
      if e != c {
        assert p.rooms[e] == w.rooms[e] && !AllZombies(w, e);
        if !e.persist {
          var v :| v in w.rooms[e] && (e, v) !in w.zombies;
          assert (e, v) !in p.zombies;
        }
      }
    }
  }

  lemma PartedShape(w: World, u: Client, c: Channel)
    requires Agree(w) && c in w.rooms && u in w.rooms[c] && u in w.tours
    ensures Parted(w, u, c).rooms.Keys <= w.rooms.Keys && Fate(w, Parted(w, u, c))
    ensures forall e | e in w.rooms && e != c :: e in Parted(w, u, c).rooms && Parted(w, u, c).rooms[e] == w.rooms[e]
    ensures Parted(w, u, c).tours.Keys == w.tours.Keys
    ensures Parted(w, u, c).tours[u] == Without(w.tours[u], c)
  {
    hide Agree;
    var d := Detached(w, u, c);
    assert Without(d.tours[u], c) == d.tours[u];
  }

  // The first channel a quitting client leaves.
  lemma QuitStep(w: World, u: Client)
    requires Agree(w) && u in w.tours && w.tours[u] != []
    ensures var c := w.tours[u][0];
      && c in w.rooms && u in w.rooms[c] && Agree(Parted(w, u, c))
      && Quit(w, u) == Quit(Parted(w, u, c), u)
  {
    hide Parted;
    PartedAgrees(w, u, w.tours[u][0]);
  }

  lemma QuitKeepsSafe(w: World, u: Client)
    requires Agree(w) && u in w.tours && ZombieSafe(w)
    ensures ZombieSafe(Quit(w, u))
    decreases |w.tours[u]|
  {
    hide Agree, Parted, AllZombies, Fate;
    if w.tours[u] != [] {
      hide Quit;
      var c := w.tours[u][0];
      QuitStep(w, u);
      PartedShape(w, u, c);
      PartKeepsSafe(w, u, c);
      hide ZombieSafe;
      QuitKeepsSafe(Parted(w, u, c), u);
    }
  }

  lemma KickKeepsSafe(w: World, u: Client, c: Channel, removed: bool)
    requires Agree(w) && c in w.rooms && u in w.rooms[c] && ZombieSafe(w)
    ensures u in w.tours && Agree(Kicked(w, u, c, removed)) && ZombieSafe(Kicked(w, u, c, removed))
  {
    var z := w.(zombies := w.zombies + {(c, u)});
    assert Agree(z);
    forall e | e in z.rooms && e != c && z.rooms[e] != [] ensures !AllZombies(z, e) {
      assert !AllZombies(w, e);
      if !e.persist {
        var v :| v in w.rooms[e] && (e, v) !in w.zombies;
        assert (e, v) !in z.zombies;
      }
    }
    PartedAgrees(z, u, c);
    PartKeepsSafe(z, u, c);
  }

  lemma JoinKeepsSafe(w: World, u: Client, c: Channel)
    requires Agree(w) && ZombieSafe(w) && Legal(w, Join(u, c))
    ensures Agree(Joined(w, u, c, false)) && ZombieSafe(Joined(w, u, c, false))
  {
    var p := Joined(w, u, c, false);
    assert (c, u) !in p.zombies;
    forall e | e in p.rooms && p.rooms[e] != [] ensures !AllZombies(p, e) {
      if e == c { assert u in p.rooms[e]; } else { assert !AllZombies(w, e); }
    }
  }

  // One step keeps both lists in agreement and leaves no channel to zombies alone.
  lemma StepKeeps(w: World, s: Step)
    requires Agree(w) && ZombieSafe(w) && Legal(w, s)
    ensures Agree(Perform(w, s)) && ZombieSafe(Perform(w, s))
  {
    hide Joined, Parted, Kicked, AllZombies;
    match s
    case Create(c) =>
      AllZombiesFrame(w, Perform(w, s));
    case Arrive(u) => AllZombiesFrame(w, Perform(w, s));
    case Join(u, c) => JoinKeepsSafe(w, u, c);
    case Part(u, c) => PartedAgrees(w, u, c); PartKeepsSafe(w, u, c);
    case Kick(u, c, removed) => KickKeepsSafe(w, u, c, removed);
    case Leave(u) => QuitKeepsSafe(w, u);
  }

  lemma AllZombiesFrame(w: World, p: World)
    requires p.zombies == w.zombies
    ensures forall e | e in w.rooms && e in p.rooms && p.rooms[e] == w.rooms[e] :: AllZombies(p, e) == AllZombies(w, e)
  {
  }

  // The last link of channel `c` goes in the step from `w` to `p`.
  ghost predicate LosesLastLink(w: World, p: World, c: Channel)
    requires c in w.rooms
  {
    w.rooms[c] != [] && forall u | u in p.tours :: c !in p.tours[u]
  }

  ghost predicate GoneExactly(w: World, p: World) {
    forall c | c in w.rooms :: c !in p.rooms <==> !c.persist && LosesLastLink(w, p, c)
  }

  // The same said channel by channel.
  ghost predicate Fate(w: World, p: World) {
    forall c | c in w.rooms ::
      if c in p.rooms then c.persist || w.rooms[c] == [] || p.rooms[c] != []
      else !c.persist && w.rooms[c] != []
  }

  lemma FateIsExact(w: World, p: World)
    requires Agree(p) && Fate(w, p)
    ensures GoneExactly(w, p)
  {
    forall e | e in w.rooms ensures e !in p.rooms <==> !e.persist && LosesLastLink(w, p, e) {
      if e in p.rooms && p.rooms[e] != [] {
        var v := p.rooms[e][0];
        assert v in p.tours && e in p.tours[v];
      }
    }
  }

  lemma QuitFate(w: World, u: Client)
    requires Agree(w) && u in w.tours
    ensures Fate(w, Quit(w, u)) && Quit(w, u).rooms.Keys <= w.rooms.Keys
    ensures forall e | e in w.rooms && e !in w.tours[u] ::
      e in Quit(w, u).rooms && Quit(w, u).rooms[e] == w.rooms[e]
    decreases |w.tours[u]|
  {
    hide Agree, Parted;
    if w.tours[u] != [] {
      hide Quit;
      var c := w.tours[u][0];
      QuitStep(w, u);
      PartedShape(w, u, c);
      QuitFate(Parted(w, u, c), u);
      assert w.rooms[c] != [];
    }
  }

  // A channel disappears in a step exactly when it is not persistent and its last link goes.
  lemma StepDestroysExactly(w: World, s: Step)
    requires Agree(w) && ZombieSafe(w) && Legal(w, s)
    ensures GoneExactly(w, Perform(w, s))
  {
    StepKeeps(w, s);
    if s.Leave? { QuitFate(w, s.client); }
    FateIsExact(w, Perform(w, s));
  }

  // ---------- Who is on a channel after a step ----------

  ghost predicate On(w: World, c: Channel, u: Client) { c in w.rooms && u in w.rooms[c] }

  // The channel does not depend on `u`: it is persistent, or somebody else on it is no zombie.
  ghost predicate Stays(w: World, u: Client, c: Channel) {
    c.persist || exists v :: On(w, c, v) && v != u && (c, v) !in w.zombies
  }

  // Joining puts the client first on the channel and the channel first on the client's list.
  lemma JoinAdds(w: World, u: Client, c: Channel)
    requires Agree(w) && Legal(w, Join(u, c))
    ensures var j := Perform(w, Join(u, c));
      && (forall e, v :: On(j, e, v) <==> On(w, e, v) || (e == c && v == u))
      && On(j, c, u) && j.rooms[c][0] == u && j.tours[u][0] == c && j.zombies == w.zombies && (c, u) !in j.zombies
  {
    var j := Perform(w, Join(u, c));
    forall e, v ensures On(j, e, v) <==> On(w, e, v) || (e == c && v == u) {}
    assert u !in w.rooms[c];
  }

  lemma DetachTakes(w: World, u: Client, c: Channel)
    requires c in w.rooms && u in w.tours && On(w, c, u)
    ensures var d := Detached(w, u, c);
      && (forall e, v :: On(d, e, v) <==> On(w, e, v) && !(e == c && v == u))
      && (forall e | e != c :: e in d.rooms <==> e in w.rooms) && (c in d.rooms <==> c.persist || d.rooms.Keys == w.rooms.Keys)
      && d.zombies == w.zombies - {(c, u)}
      && (c in d.rooms <==> c.persist || exists v :: On(w, c, v) && v != u)
  {
    var d, rest := Detached(w, u, c), Without(w.rooms[c], u);
    if rest != [] { assert On(w, c, rest[0]) && rest[0] != u; }
    if v :| On(w, c, v) && v != u { assert v in rest; }
    forall e, v ensures On(d, e, v) <==> On(w, e, v) && !(e == c && v == u) {
      if e == c { assert v in rest <==> v in w.rooms[c] && v != u; }
    }
    if c in d.rooms { assert d.rooms.Keys == w.rooms.Keys; }
  }

  // Whether others than zombies are left once the client is gone.
  lemma LeftBehind(w: World, u: Client, c: Channel)
    requires c in w.rooms && u in w.tours && On(w, c, u)
    ensures var d := Detached(w, u, c);
      Stays(w, u, c) <==> c in d.rooms && (d.rooms[c] == [] || !AllZombies(d, c))
  {
    hide Detached;
    DetachTakes(w, u, c);
    var d := Detached(w, u, c);
    if c in d.rooms && !c.persist {
      if v :| On(w, c, v) && v != u && (c, v) !in w.zombies { assert On(d, c, v) && (c, v) !in d.zombies; }
      if d.rooms[c] != [] && !AllZombies(d, c) {
        var v :| v in d.rooms[c] && (c, v) !in d.zombies;
        assert On(d, c, v);
      }
    }
  }

  // Parting takes the client off that channel, and the channel with it when all others are zombies.
  lemma PartRemoves(w: World, u: Client, c: Channel)
    requires Agree(w) && On(w, c, u)
    ensures u in w.tours
    ensures var p := Perform(w, Part(u, c));
      && (forall e, v :: On(p, e, v) <==> On(w, e, v) && (e == c ==> v != u && Stays(w, u, c)))
      && (c in p.rooms <==> Stays(w, u, c))
      && (Stays(w, u, c) ==> p.zombies == w.zombies - {(c, u)})
      && (forall e | e != c :: e in p.rooms <==> e in w.rooms)
      && (forall e, v | e != c :: (e, v) in p.zombies <==> (e, v) in w.zombies)
  {
    assert u in w.tours;
    hide Agree, Detached, AllZombies, Stays;
    DetachTakes(w, u, c);
    LeftBehind(w, u, c);
    var d := Detached(w, u, c);
    assert Perform(w, Part(u, c)) == Parted(w, u, c);
    if c in d.rooms && d.rooms[c] != [] && AllZombies(d, c) { DestroyTakes(d, c); }
  }

  lemma DestroyTakes(w: World, c: Channel)
    ensures var d := Destroyed(w, c);
      && (forall e, v :: On(d, e, v) <==> On(w, e, v) && e != c)
      && c !in d.rooms && (forall e | e != c :: e in d.rooms <==> e in w.rooms)
      && (forall e, v | e != c :: (e, v) in d.zombies <==> (e, v) in w.zombies)
  {
  }

  // Whether a channel with a newly marked client is left to zombies.
  lemma MarkedIsAlone(w: World, u: Client, c: Channel)
    requires On(w, c, u)
    ensures var z := w.(zombies := w.zombies + {(c, u)});
      (AllZombies(z, c) <==> !Stays(w, u, c)) && (Stays(z, u, c) <==> Stays(w, u, c))
  {
    var z := w.(zombies := w.zombies + {(c, u)});
    assert forall v :: On(z, c, v) <==> On(w, c, v);
    assert Stays(w, u, c) ==> !AllZombies(z, c) by {
      if v :| On(w, c, v) && v != u && (c, v) !in w.zombies { assert v in z.rooms[c] && (c, v) !in z.zombies; }
    }
    if !Stays(w, u, c) {
      forall v | v in z.rooms[c] ensures (c, v) in z.zombies { assert On(w, c, v); }
    }
  }

  // A kicked client stays on the channel as a zombie, and nothing else changes, unless the route says
  // it is removed; and the channel goes when nobody but zombies is left.
  lemma KickLeavesZombie(w: World, u: Client, c: Channel, removed: bool)
    requires Agree(w) && On(w, c, u)
    ensures u in w.tours
    ensures var k := Perform(w, Kick(u, c, removed));
      && (forall e, v :: On(k, e, v) <==> On(w, e, v) && (e == c ==> Stays(w, u, c) && (v == u ==> !removed)))
      && (c in k.rooms <==> Stays(w, u, c))
      && (Stays(w, u, c) && !removed ==> k == World(w.rooms, w.tours, w.zombies + {(c, u)}))
      && (Stays(w, u, c) && removed ==> k == Perform(w, Part(u, c)))
  {
    assert u in w.tours;
    var z := w.(zombies := w.zombies + {(c, u)});
    MarkedIsAlone(w, u, c);
    MarkAgrees(w, u, c);
    PartRemoves(z, u, c);
    PartIs(z, u, c);
    KickIs(w, u, c, removed);
    hide Agree, AllZombies, Parted, Kicked, Stays, Perform;
    assert forall e, v :: On(z, e, v) <==> On(w, e, v);
    if removed && Stays(w, u, c) { MarkThenPart(w, u, c); }
  }

  lemma MarkAgrees(w: World, u: Client, c: Channel)
    requires Agree(w) && On(w, c, u)
    ensures Agree(w.(zombies := w.zombies + {(c, u)}))
  {
  }

  lemma KickIs(w: World, u: Client, c: Channel, removed: bool)
    requires Agree(w) && On(w, c, u)
    ensures u in w.tours && Perform(w, Kick(u, c, removed)) == Kicked(w, u, c, removed)
    ensures var z := w.(zombies := w.zombies + {(c, u)});
      Kicked(w, u, c, removed) == if removed || AllZombies(z, c) then Parted(z, u, c) else z
  {
    hide Parted;
  }

  // Marking a client that is taken off at once leaves no trace.
  lemma MarkThenPart(w: World, u: Client, c: Channel)
    requires Agree(w) && On(w, c, u) && Stays(w, u, c)
    ensures u in w.tours && Parted(w.(zombies := w.zombies + {(c, u)}), u, c) == Perform(w, Part(u, c))
  {
    var z := w.(zombies := w.zombies + {(c, u)});
    assert u in w.tours;
    MarkedIsAlone(w, u, c);
    LeftBehind(z, u, c);
    LeftBehind(w, u, c);
    PartIs(w, u, c);
    hide Agree, AllZombies, Stays;
    assert z.zombies - {(c, u)} == w.zombies - {(c, u)};
    assert Detached(z, u, c) == Detached(w, u, c);
  }

  lemma StaysFrame(w: World, p: World, u: Client, c: Channel)
    requires forall v :: On(p, c, v) <==> On(w, c, v)
    requires forall v :: (c, v) in p.zombies <==> (c, v) in w.zombies
    ensures Stays(p, u, c) <==> Stays(w, u, c)
  {
    hide On;
  }

  // Quitting takes the client off every channel; who else was on one still is, unless all of them are
  // zombies.
  lemma {:induction false} LeaveRemoves(w: World, u: Client)
    requires Agree(w) && u in w.tours
    ensures var q := Perform(w, Leave(u));
      forall e, v :: On(q, e, v) <==> On(w, e, v) && v != u && (On(w, e, u) ==> Stays(w, u, e))
    decreases |w.tours[u]|
  {
    if w.tours[u] == [] {
      assert forall e :: !On(w, e, u);
    } else {
      var c := w.tours[u][0];
      var p := Parted(w, u, c);
      QuitStep(w, u);
      PartedShape(w, u, c);
      PartRemoves(w, u, c);
      LeaveRemoves(p, u);
      PartIs(w, u, c);
      hide *;
      QuitIs(w, u);
      QuitIs(p, u);
      forall e, v ensures On(Quit(p, u), e, v) <==> On(w, e, v) && v != u && (On(w, e, u) ==> Stays(w, u, e)) {
        if e != c { StaysFrame(w, p, u, e); }
      }
    }
  }

  lemma PartIs(w: World, u: Client, c: Channel)
    requires Agree(w) && On(w, c, u)
    ensures u in w.tours && Perform(w, Part(u, c)) == Parted(w, u, c)
  {
  }

  lemma QuitIs(w: World, u: Client)
    requires Agree(w) && u in w.tours
    ensures Perform(w, Leave(u)) == Quit(w, u)
  {
    hide Agree;
  }

  ghost predicate LegalRun(w: World, steps: seq<Step>)
    requires Agree(w) && ZombieSafe(w)
    decreases |steps|
  {
    steps == [] ||
    (Legal(w, steps[0]) && (StepKeeps(w, steps[0]); LegalRun(Perform(w, steps[0]), steps[1..])))
  }

  // Over every run of creations, arrivals, joins, parts, kicks and quits the two families of lists
  // keep agreeing and no channel is left to zombies alone.
  ghost function Run(w: World, steps: seq<Step>): (r: World)
    requires Agree(w) && ZombieSafe(w) && LegalRun(w, steps)
    ensures Agree(r) && ZombieSafe(r)
    decreases |steps|
  {
    if steps == [] then w
    else
      StepKeeps(w, steps[0]);
      Run(Perform(w, steps[0]), steps[1..])
  }
}
