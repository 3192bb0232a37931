// Lists without repetition, and how linked structures represent them: one map from addresses for each
// pointer field.
module LinkedLists {

  // ---------- Lists without repetition ----------

  ghost predicate NoDup<T>(s: seq<T>) {
    forall i, j :: 0 <= i < j < |s| ==> s[i] != s[j]
  }

  function Without<T(==)>(s: seq<T>, x: T): (r: seq<T>)
    ensures forall y | y in r :: y in s && y != x
    ensures forall y | y in s :: y != x ==> y in r
    ensures |r| <= |s| && (x in s ==> |r| < |s|)
    ensures x !in s ==> r == s
    ensures NoDup(s) ==> NoDup(r)
    ensures NoDup(s) && x in s ==> |r| == |s| - 1
  {
    if s == [] then []
    else
      assert s == [s[0]] + s[1..];
      assert NoDup(s) ==> s[0] !in s[1..];
      var rest := Without(s[1..], x);
      assert NoDup(s) ==> s[0] !in rest;
      if s[0] == x then rest else [s[0]] + rest
  }

  lemma {:induction false} WithoutAt<T>(s: seq<T>, i: nat)
    requires NoDup(s) && i < |s|
    ensures Without(s, s[i]) == s[..i] + s[i + 1..]
  {
    if i == 0 {
      assert s[0] !in s[1..];
    } else {
      WithoutAt(s[1..], i - 1);
      assert s[1..][..i - 1] == s[1..i] && s[1..][i..] == s[i + 1..];
      assert s[..i] == [s[0]] + s[1..i];
    }
  }

  // ---------- Pointers ----------

  // Links are known by their address; no link lives at 0.
  type Link = a: nat | 0 < a witness 1
  type Ptr = nat
  const NULL: Ptr := 0
  type Ptrs = map<Link, Ptr>

  // ---------- One doubly linked list ----------

  ghost function First(s: seq<Link>): Ptr {
    if s == [] then NULL else s[0]
  }

  ghost function Next(s: seq<Link>, i: int): Ptr {
    if 0 <= i + 1 < |s| then s[i + 1] else NULL
  }

  ghost function Prev(s: seq<Link>, i: int): Ptr {
    if 0 <= i - 1 < |s| then s[i - 1] else NULL
  }

  ghost predicate Chained(s: seq<Link>, next: Ptrs, prev: Ptrs) {
    && NoDup(s)
    && (forall i :: 0 <= i < |s| ==> s[i] in next && next[s[i]] == Next(s, i))
    && (forall i :: 0 <= i < |s| ==> s[i] in prev && prev[s[i]] == Prev(s, i))
  }

  ghost function SetPtr(p: Ptrs, at: Ptr, to: Ptr): Ptrs {
    if at == NULL then p else p[at := to]
  }

  ghost function Cut<T>(s: seq<T>, i: nat): seq<T>
    requires i < |s|
  {
    s[..i] + s[i + 1..]
  }

  lemma PushChained(s: seq<Link>, m: Link, next: Ptrs, prev: Ptrs)
    requires Chained(s, next, prev) && m !in s
    ensures Chained([m] + s, next[m := First(s)], SetPtr(prev, First(s), m)[m := NULL])
  {
    var t, n, p := [m] + s, next[m := First(s)], SetPtr(prev, First(s), m)[m := NULL];
    forall i | 0 <= i < |t|
      ensures t[i] in n && n[t[i]] == Next(t, i)
      ensures t[i] in p && p[t[i]] == Prev(t, i)
    {
      if i > 0 { assert t[i] == s[i - 1] && t[i] != m; }
    }
  }

  lemma CutAt<T>(s: seq<T>, i: nat, k: nat)
    requires i < |s| && k < |s| - 1
    ensures |Cut(s, i)| == |s| - 1 && Cut(s, i)[k] == s[if k < i then k else k + 1]
  {
  }

  lemma UnlinkNext(s: seq<Link>, i: nat, next: Ptrs, prev: Ptrs, k: nat)
    requires Chained(s, next, prev) && i < |s| && k < |s| - 1
    ensures s[i] in next && s[i] in prev
    ensures var t, n := Cut(s, i), SetPtr(next, prev[s[i]], next[s[i]]);
      |t| == |s| - 1 && t[k] in n && n[t[k]] == Next(t, k)
  {
    var j := if k < i then k else k + 1;
    assert s[j] in next && next[s[j]] == Next(s, j);
    assert s[i] in next && s[i] in prev && prev[s[i]] == Prev(s, i) && next[s[i]] == Next(s, i);
    assert 0 < i && j != i - 1 ==> s[j] != s[i - 1];
    hide Cut, Chained, NoDup;
    CutAt(s, i, k);
    if k + 1 < |s| - 1 { CutAt(s, i, k + 1); }
  }

  lemma UnlinkPrev(s: seq<Link>, i: nat, next: Ptrs, prev: Ptrs, k: nat)
    requires Chained(s, next, prev) && i < |s| && k < |s| - 1
    ensures s[i] in next && s[i] in prev
    ensures var t, p := Cut(s, i), SetPtr(prev, next[s[i]], prev[s[i]]);
      |t| == |s| - 1 && t[k] in p && p[t[k]] == Prev(t, k)
  {
    var j := if k < i then k else k + 1;
    assert s[j] in prev && prev[s[j]] == Prev(s, j);
    assert s[i] in next && s[i] in prev && prev[s[i]] == Prev(s, i) && next[s[i]] == Next(s, i);
    assert i + 1 < |s| && j != i + 1 ==> s[j] != s[i + 1];
    hide Cut, Chained, NoDup;
    CutAt(s, i, k);
    if 0 < k { CutAt(s, i, k - 1); }
  }

  lemma UnlinkChained(s: seq<Link>, i: nat, next: Ptrs, prev: Ptrs)
    requires Chained(s, next, prev) && i < |s|
    ensures s[i] in next && s[i] in prev
    ensures Chained(Cut(s, i), SetPtr(next, prev[s[i]], next[s[i]]), SetPtr(prev, next[s[i]], prev[s[i]]))
    ensures First(Cut(s, i)) == if prev[s[i]] == NULL then next[s[i]] else First(s)
    ensures prev[s[i]] == NULL || (prev[s[i]] in s && prev[s[i]] != s[i])
    ensures next[s[i]] == NULL || (next[s[i]] in s && next[s[i]] != s[i])
  {
    var m, t := s[i], Cut(s, i);
    assert next[m] == Next(s, i) && prev[m] == Prev(s, i);
    assert NoDup(t);
    var n, p := SetPtr(next, prev[m], next[m]), SetPtr(prev, next[m], prev[m]);
    forall k | 0 <= k < |t|
      ensures t[k] in n && n[t[k]] == Next(t, k)
      ensures t[k] in p && p[t[k]] == Prev(t, k)
    {
      UnlinkNext(s, i, next, prev, k);
      UnlinkPrev(s, i, next, prev, k);
    }
  }

  lemma ChainFrame(s: seq<Link>, next: Ptrs, prev: Ptrs, next': Ptrs, prev': Ptrs)
    requires Chained(s, next, prev)
    requires forall m | m in s :: m in next' && next'[m] == next[m] && m in prev' && prev'[m] == prev[m]
    ensures Chained(s, next', prev')
  {
  }

  // ---------- Lists with one pointer ----------

  lemma FreePush(free: seq<Link>, m: Link, next: Ptrs, next': Ptrs)
    requires NoDup(free) && m !in free && m in next' && next'[m] == First(free)
    requires forall i :: 0 <= i < |free| ==> free[i] in next && next[free[i]] == Next(free, i)
    requires forall l | l in free :: l in next' && next'[l] == next[l]
    ensures NoDup([m] + free)
    ensures var s := [m] + free; forall i :: 0 <= i < |s| ==> s[i] in next' && next'[s[i]] == Next(s, i)
  {
    var s := [m] + free;
    forall i | 0 <= i < |s| ensures s[i] in next' && next'[s[i]] == Next(s, i) {
      if i > 0 { assert s[i] == free[i - 1] && free[i - 1] in free; }
    }
  }

  lemma FreePop(free: seq<Link>, next: Ptrs)
    requires NoDup(free) && free != []
    requires forall i :: 0 <= i < |free| ==> free[i] in next && next[free[i]] == Next(free, i)
    ensures var rest := free[1..];
      NoDup(rest) && forall i :: 0 <= i < |rest| ==> rest[i] in next && next[rest[i]] == Next(rest, i)
    ensures free[0] in next && next[free[0]] == First(free[1..]) && free[0] !in free[1..]
  {
    var rest := free[1..];
    forall i | 0 <= i < |rest| ensures rest[i] in next && next[rest[i]] == Next(rest, i) {
      assert rest[i] == free[i + 1] && next[free[i + 1]] == Next(free, i + 1);
    }
    assert free[0] in next && next[free[0]] == Next(free, 0);
  }

  // `s` from the pointer at its head to the last.
  ghost predicate Listed(s: seq<Link>, head: Ptr, next: Ptrs) {
    && NoDup(s) && head == First(s)
    && (forall i :: 0 <= i < |s| ==> s[i] in next && next[s[i]] == Next(s, i))
  }

  lemma ListFrame(s: seq<Link>, head: Ptr, next: Ptrs, next': Ptrs)
    requires Listed(s, head, next) && forall l | l in s :: l in next' && next'[l] == next[l]
    ensures Listed(s, head, next')
  {
  }

  lemma ListPush(s: seq<Link>, head: Ptr, next: Ptrs, m: Link)
    requires Listed(s, head, next) && m !in s
    ensures Listed([m] + s, m, next[m := head])
  {
    assert forall i :: 0 <= i < |s| ==> s[i] in s;
    FreePush(s, m, next, next[m := head]);
  }

  lemma ListPop(s: seq<Link>, head: Ptr, next: Ptrs)
    requires Listed(s, head, next) && s != []
    ensures s[0] in next && Listed(s[1..], next[s[0]], next) && s[0] !in s[1..]
  {
    FreePop(s, next);
  }

  lemma ListNext(s: seq<Link>, head: Ptr, next: Ptrs)
    requires Listed(s, head, next)
    ensures forall l | l in s :: l in next
  {
  }

  ghost function Last(s: seq<Link>): Ptr {
    if s == [] then NULL else s[|s| - 1]
  }

  // Hooking `m` on behind the last.
  lemma ListAppend(s: seq<Link>, head: Ptr, next: Ptrs, m: Link, next': Ptrs)
    requires Listed(s, head, next) && m !in s
    requires next' == (if s == [] then next else next[Last(s) := m])[m := NULL]
    ensures Listed(s + [m], if s == [] then m else head, next')
  {
    var t := s + [m];
    forall i | 0 <= i < |t| ensures t[i] in next' && next'[t[i]] == Next(t, i) {
      if i < |s| {
        assert s[i] in next && next[s[i]] == Next(s, i) && s[i] != m;
        assert i < |s| - 1 ==> s[i] != s[|s| - 1];
      }
    }
  }
}
