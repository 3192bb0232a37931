// Invitations (ircd/channel.c, add_invite and del_invite): each stands on the list of its channel and
// on that of its user.
module Invites {
  import opened Common
  import opened LinkedLists

  type Channel = nat
  type Client = nat

  // `invites` is newest first, `invited` oldest first; `count` is the user's counter.
  datatype State = State(invites: map<Channel, seq<Client>>, invited: map<Client, seq<Channel>>, count: map<Client, int>)

  ghost predicate Tidy(s: State) {
    && s.count.Keys == s.invited.Keys
    && (forall c | c in s.invites :: NoDup(s.invites[c]))
    && (forall u | u in s.invited :: NoDup(s.invited[u]) && s.count[u] == |s.invited[u]|)
  }

  ghost predicate Mutual(s: State) {
    && (forall c, u | c in s.invites && u in s.invites[c] :: u in s.invited && c in s.invited[u])
    && (forall u, c | u in s.invited && c in s.invited[u] :: c in s.invites && u in s.invites[c])
  }

  // The two lists say the same, without repetition, and the counter counts.
  ghost predicate Symmetric(s: State) {
    Tidy(s) && Mutual(s)
  }

  ghost predicate Bounded(s: State, max: nat) {
    forall u | u in s.invited :: |s.invited[u]| <= max
  }

  // ---------- What the operations mean ----------

  ghost function Deleted(s: State, u: Client, c: Channel): State
    requires u in s.invited && c in s.invites && u in s.count
  {
    State(s.invites[c := Without(s.invites[c], u)], s.invited[u := Without(s.invited[u], c)],
          s.count[u := if u in s.invites[c] then s.count[u] - 1 else s.count[u]])
  }

  ghost function Pushed(s: State, u: Client, c: Channel): State
    requires u in s.invited && c in s.invites && u in s.count
  {
    State(s.invites[c := [u] + s.invites[c]], s.invited[u := s.invited[u] + [c]], s.count[u := s.count[u] + 1])
  }

  // A repeated invitation becomes the newest; the oldest makes room when the user has too many.
  ghost function Added(s: State, u: Client, c: Channel, max: nat): State
    requires Symmetric(s) && u in s.invited && c in s.invites
  {
    DeletedKeeps(s, u, c);
    var d := Deleted(s, u, c);
    if |d.invited[u]| >= max && d.invited[u] != [] then
      DeletedKeeps(d, u, d.invited[u][0]);
      Pushed(Deleted(d, u, d.invited[u][0]), u, c)
    else Pushed(d, u, c)
  }

  lemma DeletedTidy(s: State, u: Client, c: Channel)
    requires Tidy(s) && u in s.invited && c in s.invites && (u in s.invites[c] <==> c in s.invited[u])
    ensures Tidy(Deleted(s, u, c))
  {
  }

  lemma DeletedMutual(s: State, u: Client, c: Channel)
    requires Mutual(s) && u in s.invited && c in s.invites && u in s.count
    ensures Mutual(Deleted(s, u, c))
    ensures u !in Deleted(s, u, c).invites[c] && c !in Deleted(s, u, c).invited[u]
  {
  }

  lemma DeletedKeeps(s: State, u: Client, c: Channel)
    requires Symmetric(s) && u in s.invited && c in s.invites
    ensures u in s.count && Symmetric(Deleted(s, u, c))
    ensures u !in Deleted(s, u, c).invites[c] && c !in Deleted(s, u, c).invited[u]
    ensures Deleted(s, u, c).invites.Keys == s.invites.Keys && Deleted(s, u, c).invited.Keys == s.invited.Keys
    ensures Deleted(s, u, c).invited == s.invited[u := Without(s.invited[u], c)]
  {
    assert (u in s.invites[c] <==> c in s.invited[u]) && u in s.count;
    hide Mutual, Tidy;
    DeletedTidy(s, u, c);
    DeletedMutual(s, u, c);
  }

  lemma PushedKeeps(s: State, u: Client, c: Channel)
    requires Symmetric(s) && u in s.invited && c in s.invites && u !in s.invites[c] && c !in s.invited[u]
    ensures u in s.count && Symmetric(Pushed(s, u, c))
  {
  }

  // The user's list after an invitation: the new one last, the oldest gone if there were too many.
  ghost function Renewed(list: seq<Channel>, c: Channel, max: nat): seq<Channel> {
    var rest := Without(list, c);
    (if |rest| >= max && rest != [] then rest[1..] else rest) + [c]
  }

  // Adding in two steps: `d` is the state to which the invitation is pushed.
  lemma AddedSteps(s: State, u: Client, c: Channel, max: nat) returns (d: State)
    requires Symmetric(s) && Bounded(s, max) && u in s.invited && c in s.invites && max > 0
    ensures Symmetric(d) && u in d.invited && c in d.invites && u in d.count && Added(s, u, c, max) == Pushed(d, u, c)
    ensures u !in d.invites[c] && c !in d.invited[u] && d.invites.Keys == s.invites.Keys
    ensures d.invited == s.invited[u := if |Without(s.invited[u], c)| >= max then Without(s.invited[u], c)[1..]
                                        else Without(s.invited[u], c)]
  {
    hide Symmetric;
    DeletedKeeps(s, u, c);
    d := Deleted(s, u, c);
    var rest := Without(s.invited[u], c);
    if |rest| >= max {
      DeletedHead(d, u);
      DeletedKeeps(d, u, rest[0]);
      DeletedStays(d, u, rest[0], c);
      d := Deleted(d, u, rest[0]);
    }
  }

  lemma DeletedStays(s: State, u: Client, c: Channel, e: Channel)
    requires u in s.invited && c in s.invites && u in s.count && e in s.invites && u !in s.invites[e]
    ensures u !in Deleted(s, u, c).invites[e]
  {
  }

  // Adding keeps the two lists in step and the user's list within the limit.
  lemma AddedKeeps(s: State, u: Client, c: Channel, max: nat)
    requires Symmetric(s) && Bounded(s, max) && u in s.invited && c in s.invites && max > 0
    ensures Symmetric(Added(s, u, c, max)) && Bounded(Added(s, u, c, max), max)
    ensures Added(s, u, c, max).invited == s.invited[u := Renewed(s.invited[u], c, max)]
    ensures Added(s, u, c, max).invites.Keys == s.invites.Keys
  {
    hide Symmetric, Added;
    var d := AddedSteps(s, u, c, max);
    PushedKeeps(d, u, c);
    assert |Without(s.invited[u], c)| <= |s.invited[u]| <= max;
  }

  lemma DeletedHead(d: State, u: Client)
    requires Symmetric(d) && u in d.invited && d.invited[u] != []
    ensures d.invited[u][0] in d.invites && Without(d.invited[u], d.invited[u][0]) == d.invited[u][1..]
  {
    WithoutAt(d.invited[u], 0);
    assert [] + d.invited[u][1..] == d.invited[u][1..];
  }

  // ---------- The most recent invitations ----------

  // All channels a user was invited to, each once, in the order of the last invitation.
  ghost function Recency(list: seq<Channel>, cs: seq<Channel>): seq<Channel>
    decreases |cs|
  {
    if cs == [] then list else Recency(Without(list, cs[0]) + [cs[0]], cs[1..])
  }

  // The user's list after a run of invitations.
  ghost function RenewedAll(list: seq<Channel>, cs: seq<Channel>, max: nat): seq<Channel>
    decreases |cs|
  {
    if cs == [] then list else RenewedAll(Renewed(list, cs[0], max), cs[1..], max)
  }

  ghost function LastN<T>(s: seq<T>, n: nat): seq<T> {
    if |s| <= n then s else s[|s| - n..]
  }

  lemma WithoutStep(head: Channel, tail: seq<Channel>, c: Channel)
    ensures Without([head] + tail, c) == (if head == c then [] else [head]) + Without(tail, c)
  {
    assert ([head] + tail)[1..] == tail;
    hide NoDup;
  }

  lemma {:induction false} WithoutConcat(a: seq<Channel>, b: seq<Channel>, c: Channel)
    ensures Without(a + b, c) == Without(a, c) + Without(b, c)
  {
    if a == [] {
      assert a + b == b && [] + Without(b, c) == Without(b, c);
    } else {
      hide Without;
      WithoutConcat(a[1..], b, c);
      assert a == [a[0]] + a[1..];
      Assoc([a[0]], a[1..], b);
      WithoutStep(a[0], a[1..], c);
      WithoutStep(a[0], a[1..] + b, c);
      Assoc(if a[0] == c then [] else [a[0]], Without(a[1..], c), Without(b, c));
    }
  }

  lemma LastOfPushed(a: seq<Channel>, b: seq<Channel>, c: Channel, max: nat)
    requires max > 0 && |b| <= max && (a != [] ==> |b| >= max - 1)
    ensures LastN(a + b + [c], max) == (if |b| >= max then b[1..] else b) + [c]
  {
  }

  lemma RenewedIsLast(all: seq<Channel>, c: Channel, max: nat)
    requires NoDup(all) && max > 0
    ensures Renewed(LastN(all, max), c, max) == LastN(Without(all, c) + [c], max)
    ensures NoDup(Without(all, c) + [c])
  {
    hide NoDup, Without, LastN;
    var list := LastN(all, max);
    var before := all[..if |all| <= max then 0 else |all| - max];
    LastSplits(all, max);
    PushDistinct(all, c);
    PartDistinct(all, before, list);
    var rest, past := Without(list, c), Without(before, c);
    LosesOne(list, c);
    WithoutConcat(before, list, c);
    NothingWithout(c);
    LastOfPushed(past, rest, c, max);
  }

  lemma LastSplits(all: seq<Channel>, max: nat)
    ensures var k := if |all| <= max then 0 else |all| - max;
      all == all[..k] + LastN(all, max) && |LastN(all, max)| <= max && (all[..k] != [] ==> |LastN(all, max)| == max)
  {
  }

  lemma PushDistinct(all: seq<Channel>, c: Channel)
    requires NoDup(all)
    ensures NoDup(Without(all, c) + [c])
  {
  }

  lemma PartDistinct(all: seq<Channel>, a: seq<Channel>, b: seq<Channel>)
    requires NoDup(all) && all == a + b
    ensures NoDup(b)
  {
    assert forall i :: 0 <= i < |b| ==> b[i] == all[|a| + i];
  }

  lemma LosesOne(list: seq<Channel>, c: Channel)
    requires NoDup(list)
    ensures |list| - 1 <= |Without(list, c)| <= |list|
  {
  }

  lemma NothingWithout(c: Channel)
    ensures Without([], c) == []
  {
  }

  // Eviction takes the oldest: after any run of invitations the user has the most recent ones, up to
  // the limit, in order.
  lemma {:induction false} InvitedAreMostRecent(all: seq<Channel>, cs: seq<Channel>, max: nat)
    requires NoDup(all) && max > 0
    ensures RenewedAll(LastN(all, max), cs, max) == LastN(Recency(all, cs), max)
    decreases |cs|
  {
    if cs != [] {
      RenewedIsLast(all, cs[0], max);
      InvitedAreMostRecent(Without(all, cs[0]) + [cs[0]], cs[1..], max);
    }
  }

  // ---------- Whole runs ----------

  datatype Op = Invite(user: Client, channel: Channel) | Uninvite(user: Client, channel: Channel)

  ghost predicate Known(s: State, op: Op) {
    op.user in s.invited && op.channel in s.invites
  }

  ghost predicate AllKnown(s: State, ops: seq<Op>) {
    forall op | op in ops :: Known(s, op)
  }

  lemma KnownStay(s: State, d: State, ops: seq<Op>)
    requires AllKnown(s, ops) && ops != [] && d.invites.Keys == s.invites.Keys && d.invited.Keys == s.invited.Keys
    ensures Known(s, ops[0]) && AllKnown(d, ops[1..])
  {
    assert ops[0] in ops && forall op | op in ops[1..] :: op in ops;
  }

  ghost function Do(s: State, op: Op, max: nat): State
    requires Symmetric(s) && Known(s, op)
  {
    match op
    case Invite(u, c) => Added(s, u, c, max)
    case Uninvite(u, c) => Deleted(s, u, c)
  }

  lemma DoKeeps(s: State, op: Op, max: nat)
    requires Symmetric(s) && Bounded(s, max) && Known(s, op) && max > 0
    ensures Symmetric(Do(s, op, max)) && Bounded(Do(s, op, max), max)
    ensures Do(s, op, max).invites.Keys == s.invites.Keys && Do(s, op, max).invited.Keys == s.invited.Keys
  {
    hide Symmetric;
    match op
    case Invite(u, c) => AddedKeeps(s, u, c, max);
    case Uninvite(u, c) =>
      DeletedKeeps(s, u, c);
      assert |Without(s.invited[u], c)| <= |s.invited[u]|;
  }

  // Over any run a user is on the list of a channel exactly when the channel is on the user's, without
  // repetition, and no user has more than the limit.
  ghost function Run(s: State, ops: seq<Op>, max: nat): (r: State)
    requires Symmetric(s) && Bounded(s, max) && max > 0 && AllKnown(s, ops)
    ensures Symmetric(r) && Bounded(r, max)
    decreases |ops|
  {
    if ops == [] then s
    else
      hide Symmetric, Do, Bounded, AllKnown, Known;
      KnownStay(s, s, ops);
      DoKeeps(s, ops[0], max);
      KnownStay(s, Do(s, ops[0], max), ops);
      Run(Do(s, ops[0], max), ops[1..], max)
  }

  // ---------- The code ----------

  class InviteLists {
    var invites: map<Channel, seq<Client>>
    var invited: map<Client, seq<Channel>>
    var count: map<Client, int>

    ghost function Lists(): State
      reads this
    {
      State(invites, invited, count)
    }

    // del_invite: the first block of the user on the channel's list, then the first of the channel on
    // the user's.
    method DelInvite(u: Client, c: Channel)
      requires Symmetric(Lists()) && u in invited && c in invites
      modifies this
      ensures u in old(count) && Lists() == Deleted(old(Lists()), u, c) && Symmetric(Lists())
    {
      hide Symmetric, NoDup, Without;
      DeletedKeeps(Lists(), u, c);
      ListsDistinct(Lists(), u, c);
      var i := IndexOf(invites[c], u);
      RemoveFirst(invites[c], u, i);
      if i < |invites[c]| {
        invites := invites[c := invites[c][..i] + invites[c][i + 1..]];
        count := count[u := count[u] - 1];
      }
      i := IndexOf(invited[u], c);
      RemoveFirst(invited[u], c, i);
      if i < |invited[u]| {
        invited := invited[u := invited[u][..i] + invited[u][i + 1..]];
      }
    }

    // The first place of a block on a list.
    static method IndexOf(list: seq<nat>, x: nat) returns (i: nat)
      ensures i <= |list| && (i < |list| ==> list[i] == x) && x !in list[..i]
      ensures i < |list| <==> x in list
    {
      i := 0;
      while i < |list| && list[i] != x
        invariant i <= |list| && x !in list[..i]
      {
        i := i + 1;
      }
      assert i == |list| ==> list[..i] == list;
    }

    method AddInvite(u: Client, c: Channel, max: nat)
      requires Symmetric(Lists()) && Bounded(Lists(), max) && max > 0 && u in invited && c in invites
      modifies this
      ensures Symmetric(Lists()) && Bounded(Lists(), max)
      ensures Lists() == Added(old(Lists()), u, c, max)
    {
      hide Symmetric, Bounded, Without;
      AddedKeeps(Lists(), u, c, max);
      DelInvite(u, c);
      InvitedCounted(Lists(), u);
      if count[u] >= max {
        DeletedHead(Lists(), u);
        DelInvite(u, invited[u][0]);
      }
      InvitedCounted(Lists(), u);
      invites := invites[c := [u] + invites[c]];
      invited := invited[u := invited[u] + [c]];
      count := count[u := count[u] + 1];
    }

    // A channel that is destroyed takes its invitations with it.
    method ClearInvites(c: Channel)
      requires Symmetric(Lists()) && c in invites
      modifies this
      ensures Symmetric(Lists()) && c in invites && invites[c] == []
      ensures invited.Keys == old(invited).Keys && forall u | u in invited :: invited[u] == Without(old(invited)[u], c)
      ensures forall e | e in old(invites) && e != c :: e in invites && invites[e] == old(invites)[e]
    {
      hide Symmetric, Without;
      NotInvited(Lists(), c);
      while invites[c] != []
        invariant Symmetric(Lists()) && c in invites && invited.Keys == old(invited).Keys
        invariant forall u | u in invited :: Without(invited[u], c) == Without(old(invited)[u], c)
        invariant forall e | e in old(invites) && e != c :: e in invites && invites[e] == old(invites)[e]
        decreases |invites[c]|
      {
        ghost var u := invites[c][0];
        InviteeKnown(Lists(), u, c);
        TwiceWithout(invited[u], c);
        DelInvite(invites[c][0], c);
      }
      NotInvited(Lists(), c);
    }
  }

  lemma RemoveFirst(list: seq<nat>, x: nat, i: nat)
    requires NoDup(list) && i <= |list| && (i < |list| ==> list[i] == x) && (i < |list| <==> x in list)
    ensures Without(list, x) == if i < |list| then list[..i] + list[i + 1..] else list
  {
    if i < |list| { WithoutAt(list, i); }
  }

  lemma ListsDistinct(s: State, u: Client, c: Channel)
    requires Symmetric(s) && u in s.invited && c in s.invites
    ensures NoDup(s.invites[c]) && NoDup(s.invited[u]) && u in s.count
  {
  }

  lemma InvitedCounted(s: State, u: Client)
    requires Symmetric(s) && u in s.invited
    ensures u in s.count && s.count[u] == |s.invited[u]|
  {
  }

  lemma InviteeKnown(s: State, u: Client, c: Channel)
    requires Symmetric(s) && c in s.invites && u in s.invites[c]
    ensures u in s.invited
  {
  }

  lemma TwiceWithout(list: seq<Channel>, c: Channel)
    ensures Without(Without(list, c), c) == Without(list, c)
  {
  }

  // A channel that has invited nobody is on nobody's list.
  lemma NotInvited(s: State, c: Channel)
    requires Symmetric(s) && c in s.invites
    ensures s.invites[c] == [] ==> forall u | u in s.invited :: Without(s.invited[u], c) == s.invited[u]
  {
  }
}
