/** The memory of the double-double linked resources: instances in lists, each external one with an internal twin. */
module RcMemory {
  import opened Wrappers

  type Inst = nat
  type Res = nat

  /** A list of instances: a user's iterator, a resource's own instances, or a resource's children. */
  datatype ListId = Iter(n: nat) | Instances(res: Res) | Childs(parent: Res)

  /** rc_instance_t, with the list its links are in. */
  datatype Instance = Instance(dl: ListId, resource: Res, twinE: Option<Inst>, twinI: Option<Inst>)

  /** What is allocated: the instances, the lists, and the resources with their parents. */
  datatype Memory = Memory(insts: map<Inst, Instance>, lists: map<ListId, seq<Inst>>, parents: map<Res, Option<Res>>)

  ghost predicate NoDuplicates(s: seq<Inst>) { forall i, j :: 0 <= i < j < |s| ==> s[i] != s[j] }

  /** An internal and an external instance of the same resource that point to each other. */
  predicate Paired(m: Memory, i: Inst, e: Inst) {
    && i in m.insts && e in m.insts && m.insts[i].resource == m.insts[e].resource
    && m.insts[i].dl == Instances(m.insts[i].resource) && !m.insts[e].dl.Instances?
    && m.insts[i].twinE == Some(e) && m.insts[e].twinI == Some(i)
  }

  ghost predicate ListOk(m: Memory, l: ListId)
    requires l in m.lists
  {
    NoDuplicates(m.lists[l]) && forall x <- m.lists[l] :: x in m.insts && m.insts[x].dl == l
  }

  /** An instance is in the list it says, of a resource that exists, and has its twin. */
  predicate InstOk(m: Memory, x: Inst)
    requires x in m.insts
  {
    var n := m.insts[x];
    && n.dl in m.lists && x in m.lists[n.dl] && n.resource in m.parents
    && if n.dl.Instances? then n.twinE.Some? && Paired(m, x, n.twinE.value)
       else n.twinI.Some? && Paired(m, n.twinI.value, x)
  }

  ghost predicate ResOk(m: Memory, r: Res) {
    (r in m.parents <==> Instances(r) in m.lists) && (r in m.parents <==> Childs(r) in m.lists)
  }

  /** The twin invariant: in every resource, internal and external instances are in bijection, and no list or
      instance leads to freed memory. */
  ghost predicate Valid(m: Memory) {
    && (forall l <- m.lists :: ListOk(m, l))
    && (forall x <- m.insts :: InstOk(m, x))
    && (forall r: Res :: ResOk(m, r))
  }

  /** The twin of an instance. */
  function Twin(m: Memory, x: Inst): Inst
    requires x in m.insts && InstOk(m, x)
  {
    if m.insts[x].dl.Instances? then m.insts[x].twinE.value else m.insts[x].twinI.value
  }

  lemma TwinOfTwin(m: Memory, x: Inst)
    requires Valid(m) && x in m.insts
    ensures var t := Twin(m, x);
            && t in m.insts && t != x && Twin(m, t) == x && m.insts[t].resource == m.insts[x].resource
            && (m.insts[t].dl.Instances? <==> !m.insts[x].dl.Instances?)
  {
    hide ListOk, ResOk;
    assert InstOk(m, x) && InstOk(m, Twin(m, x));
  }

  // Taking instances away.

  function Keep(s: seq<Inst>, gone: set<Inst>): seq<Inst> {
    if s == [] then [] else (if s[0] in gone then [] else [s[0]]) + Keep(s[1..], gone)
  }

  lemma {:induction false} KeepIn(s: seq<Inst>, gone: set<Inst>, x: Inst)
    ensures x in Keep(s, gone) <==> x in s && x !in gone
  {
    if s != [] {
      KeepIn(s[1..], gone, x);
    }
  }

  /** What is kept is in the order it was in. */
  lemma {:induction false} KeepOrder(s: seq<Inst>, gone: set<Inst>, i: nat, j: nat) returns (p: nat, q: nat)
    requires i < j < |Keep(s, gone)|
    ensures p < q < |s| && s[p] == Keep(s, gone)[i] && s[q] == Keep(s, gone)[j]
  {
    if s[0] in gone {
      p, q := KeepOrder(s[1..], gone, i, j);
      p, q := p + 1, q + 1;
    } else if i > 0 {
      p, q := KeepOrder(s[1..], gone, i - 1, j - 1);
      p, q := p + 1, q + 1;
    } else {
      var x := Keep(s[1..], gone)[j - 1];
      KeepIn(s[1..], gone, x);
      var k :| 0 <= k < |s[1..]| && s[1..][k] == x;
      p, q := 0, k + 1;
    }
  }

  lemma {:induction false} KeepConcat(a: seq<Inst>, b: seq<Inst>, gone: set<Inst>)
    ensures Keep(a + b, gone) == Keep(a, gone) + Keep(b, gone)
  {
    if a == [] {
      assert a + b == b;
    } else {
      KeepConcat(a[1..], b, gone);
      assert (a + b)[1..] == a[1..] + b && (a + b)[0] == a[0];
      var first := if a[0] in gone then [] else [a[0]];
      assert first + (Keep(a[1..], gone) + Keep(b, gone)) == first + Keep(a[1..], gone) + Keep(b, gone);
    }
  }

  /** Taking out the one item that goes. */
  lemma KeepAround(s: seq<Inst>, a: seq<Inst>, x: Inst, b: seq<Inst>, gone: set<Inst>)
    requires s == a + [x] + b && NoDuplicates(s) && forall y <- s :: y in gone <==> y == x
    ensures Keep(s, gone) == a + b
  {
    hide Keep;
    OnceOnly(a, x, b);
    KeepAll(a, gone);
    KeepAll(b, gone);
    KeepNone([x], gone);
    KeepConcat(a + [x], b, gone);
    KeepConcat(a, [x], gone);
  }

  lemma OnceOnly(a: seq<Inst>, x: Inst, b: seq<Inst>)
    requires NoDuplicates(a + [x] + b)
    ensures x !in a && x !in b
  {
    var s := a + [x] + b;
    assert s[|a|] == x;
    assert forall i :: 0 <= i < |a| ==> s[i] == a[i];
    assert forall i :: 0 <= i < |b| ==> s[|a| + 1 + i] == b[i];
  }

  lemma {:induction false} KeepDistinct(s: seq<Inst>, gone: set<Inst>)
    requires NoDuplicates(s)
    ensures NoDuplicates(Keep(s, gone))
  {
    if s != [] {
      KeepDistinct(s[1..], gone);
      KeepIn(s[1..], gone, s[0]);
      assert s[0] !in s[1..];
    }
  }

  lemma {:induction false} KeepKeep(s: seq<Inst>, a: set<Inst>, b: set<Inst>)
    ensures Keep(Keep(s, a), b) == Keep(s, a + b)
  {
    if s != [] {
      KeepKeep(s[1..], a, b);
      if s[0] in a {
        assert Keep(s, a) == Keep(s[1..], a);
      } else {
        assert Keep(s, a)[1..] == Keep(s[1..], a);
      }
    }
  }

  lemma {:induction false} KeepAll(s: seq<Inst>, gone: set<Inst>)
    requires forall x <- s :: x !in gone
    ensures Keep(s, gone) == s
  {
    if s != [] {
      KeepAll(s[1..], gone);
    }
  }

  lemma {:induction false} KeepNone(s: seq<Inst>, gone: set<Inst>)
    requires forall x <- s :: x in gone
    ensures Keep(s, gone) == []
  {
    if s != [] {
      KeepNone(s[1..], gone);
    }
  }

  /** Keeping depends only on which of the members go. */
  lemma {:induction false} KeepSame(s: seq<Inst>, a: set<Inst>, b: set<Inst>)
    requires forall x <- s :: x in a <==> x in b
    ensures Keep(s, a) == Keep(s, b)
  {
    if s != [] {
      KeepSame(s[1..], a, b);
    }
  }

  /** The memory without some instances. */
  function Drop(m: Memory, gone: set<Inst>): Memory {
    Memory(m.insts - gone, map l | l in m.lists :: Keep(m.lists[l], gone), m.parents)
  }

  /** Both twins, or neither. */
  ghost predicate Twins(m: Memory, gone: set<Inst>) {
    forall x <- m.insts :: InstOk(m, x) ==> (x in gone <==> Twin(m, x) in gone)
  }

  /** Taking both twins of any pairs away keeps the invariant. */
  lemma DropValid(m: Memory, gone: set<Inst>)
    requires Valid(m) && Twins(m, gone)
    ensures Valid(Drop(m, gone))
  {
    var d := Drop(m, gone);
    forall l <- d.lists
      ensures ListOk(d, l)
    {
      assert ListOk(m, l);
      DropListOk(m, gone, l);
    }
    forall x <- d.insts
      ensures InstOk(d, x)
    {
      assert InstOk(m, x);
      KeepIn(m.lists[m.insts[x].dl], gone, x);
    }
    forall r: Res
      ensures ResOk(d, r)
    {
      assert ResOk(m, r);
    }
  }

  lemma DropListOk(m: Memory, gone: set<Inst>, l: ListId)
    requires l in m.lists && ListOk(m, l)
    ensures ListOk(Drop(m, gone), l)
  {
    KeepDistinct(m.lists[l], gone);
    forall x <- Keep(m.lists[l], gone)
      ensures x in m.lists[l] && x !in gone
    {
      KeepIn(m.lists[l], gone, x);
    }
  }

  lemma DropDrop(m: Memory, a: set<Inst>, b: set<Inst>)
    ensures Drop(Drop(m, a), b) == Drop(m, a + b)
  {
    var d := Drop(Drop(m, a), b);
    assert m.insts - a - b == m.insts - (a + b);
    forall l <- m.lists
      ensures d.lists[l] == Keep(m.lists[l], a + b)
    {
      KeepKeep(m.lists[l], a, b);
    }
    assert d.lists == Drop(m, a + b).lists;
  }

  // What the operations do.

  /** A resource with no instances and no children. */
  function NewResource(m: Memory, r: Res): Memory {
    m.(lists := m.lists[Instances(r) := []][Childs(r) := []], parents := m.parents[r := None])
  }

  lemma NewResourceValid(m: Memory, r: Res)
    requires Valid(m) && r !in m.parents
    ensures Valid(NewResource(m, r))
  {
    var n := NewResource(m, r);
    assert ResOk(m, r);
    forall l <- n.lists
      ensures ListOk(n, l)
    {
      assert l in m.lists ==> ListOk(m, l);
    }
    forall x <- n.insts
      ensures InstOk(n, x)
    {
      assert InstOk(m, x);
    }
    forall q: Res
      ensures ResOk(n, q)
    {
      assert ResOk(m, q);
    }
  }

  function Put(s: seq<Inst>, x: Inst, front: bool): seq<Inst> { if front then [x] + s else s + [x] }

  /** A pair of twins: i at the end of the resource's instances, e in list l. */
  function NewPair(m: Memory, l: ListId, r: Res, i: Inst, e: Inst, front: bool): Memory
    requires l in m.lists && !l.Instances? && Instances(r) in m.lists
  {
    m.(insts := m.insts[i := Instance(Instances(r), r, Some(e), None)][e := Instance(l, r, None, Some(i))],
       lists := m.lists[Instances(r) := m.lists[Instances(r)] + [i]][l := Put(m.lists[l], e, front)])
  }

  lemma NewPairListOk(m: Memory, l: ListId, r: Res, i: Inst, e: Inst, front: bool, k: ListId)
    requires l in m.lists && !l.Instances? && Instances(r) in m.lists && k in m.lists && ListOk(m, k)
    requires i !in m.insts && e !in m.insts && i != e
    ensures ListOk(NewPair(m, l, r, i, e, front), k)
  {
    var n := NewPair(m, l, r, i, e, front);
    assert i !in m.lists[k] && e !in m.lists[k];
    if k == l {
      assert n.lists[k] == Put(m.lists[k], e, front);
    } else if k == Instances(r) {
      assert n.lists[k] == m.lists[k] + [i];
    } else {
      assert n.lists[k] == m.lists[k];
    }
  }

  lemma NewPairValid(m: Memory, l: ListId, r: Res, i: Inst, e: Inst, front: bool)
    requires Valid(m) && l in m.lists && !l.Instances? && r in m.parents
    requires i !in m.insts && e !in m.insts && i != e
    ensures Instances(r) in m.lists && Valid(NewPair(m, l, r, i, e, front))
  {
    assert ResOk(m, r);
    var n := NewPair(m, l, r, i, e, front);
    forall k <- n.lists
      ensures ListOk(n, k)
    {
      NewPairListOk(m, l, r, i, e, front, k);
    }
    forall x <- n.insts
      ensures InstOk(n, x)
    {
      if x in m.insts {
        assert InstOk(m, x);
      } else {
        assert Paired(n, i, e);
      }
    }
    forall q: Res
      ensures ResOk(n, q)
    {
      assert ResOk(m, q);
    }
  }

  /** Freeing a resource: its two list heads are in its own memory. */
  function Free(m: Memory, r: Res): Memory {
    m.(lists := m.lists - {Instances(r), Childs(r)}, parents := m.parents - {r})
  }

  /** Freeing a resource leaves dangling instances exactly when it still has instances or children. */
  lemma FreeValid(m: Memory, r: Res)
    requires Valid(m) && r in m.parents
    ensures Instances(r) in m.lists && Childs(r) in m.lists
    ensures Valid(Free(m, r)) <==> m.lists[Instances(r)] == [] && m.lists[Childs(r)] == []
  {
    assert ResOk(m, r);
    var f := Free(m, r);
    if m.lists[Instances(r)] != [] || m.lists[Childs(r)] != [] {
      var l := if m.lists[Instances(r)] != [] then Instances(r) else Childs(r);
      assert ListOk(m, l);
      var x := m.lists[l][0];
      assert x in f.insts && !InstOk(f, x);
    } else {
      forall l <- f.lists
        ensures ListOk(f, l)
      {
        assert ListOk(m, l);
      }
      forall x <- f.insts
        ensures InstOk(f, x)
      {
        assert InstOk(m, x);
        assert InstOk(m, Twin(m, x));
      }
      forall q: Res
        ensures ResOk(f, q)
      {
        assert ResOk(m, q);
      }
    }
  }

  // The child graph.

  function Kids(m: Memory, r: Res): seq<Inst> { if Childs(r) in m.lists then m.lists[Childs(r)] else [] }

  /** The children of a resource. */
  function KidSet(m: Memory, r: Res): set<Res> { set x | x in Kids(m, r) && x in m.insts :: m.insts[x].resource }

  /** Every resource with a rank has a higher one than its children: no cycle can be reached from it. A negative number
      is no rank. */
  ghost predicate Ranked(m: Memory, rank: Res -> int) {
    forall r: Res, c: Res :: 0 <= rank(r) && c in KidSet(m, r) ==> 0 <= rank(c) < rank(r)
  }

  ghost predicate Closed(m: Memory, k: set<Res>) {
    forall r: Res, c: Res :: r in k && c in KidSet(m, r) ==> c in k
  }

  /** A resource and all its descendants. */
  ghost function Doomed(m: Memory, rank: Res -> int, r: Res): set<Res>
    requires Ranked(m, rank) && 0 <= rank(r)
    decreases rank(r)
  {
    {r} + set c, d | c in KidSet(m, r) && d in Doomed(m, rank, c) :: d
  }

  /** Doomed is the least set that holds the resource and the children of its members. */
  lemma {:induction false} DoomedClosed(m: Memory, rank: Res -> int, r: Res)
    requires Ranked(m, rank) && 0 <= rank(r)
    ensures r in Doomed(m, rank, r) && Closed(m, Doomed(m, rank, r))
    ensures forall d <- Doomed(m, rank, r) :: 0 <= rank(d) && (d == r || rank(d) < rank(r))
    decreases rank(r)
  {
    hide KidSet;
    forall c <- KidSet(m, r)
      ensures Closed(m, Doomed(m, rank, c)) && c in Doomed(m, rank, c)
      ensures forall d <- Doomed(m, rank, c) :: 0 <= rank(d) && (d == c || rank(d) < rank(c))
    {
      DoomedClosed(m, rank, c);
    }
    var all := Doomed(m, rank, r);
    forall q: Res, c: Res | q in all && c in KidSet(m, q)
      ensures c in all
    {
      if q != r {
        var b :| b in KidSet(m, r) && q in Doomed(m, rank, b);
        assert c in Doomed(m, rank, b);
      } else {
        assert c in Doomed(m, rank, c);
      }
    }
  }

  lemma {:induction false} DoomedLeast(m: Memory, rank: Res -> int, r: Res, k: set<Res>)
    requires Ranked(m, rank) && 0 <= rank(r) && r in k && Closed(m, k)
    ensures Doomed(m, rank, r) <= k
    decreases rank(r)
  {
    hide KidSet;
    forall c <- KidSet(m, r)
      ensures Doomed(m, rank, c) <= k
    {
      DoomedLeast(m, rank, c, k);
    }
  }

  // Purging: what a recursive deletion does.

  function OfResources(m: Memory, k: set<Res>): set<Inst> { set x | x in m.insts && m.insts[x].resource in k }

  predicate Owner(l: ListId, k: set<Res>) { (l.Instances? && l.res in k) || (l.Childs? && l.parent in k) }

  /** The memory without any instance of some resources and, if they are freed, without them. */
  function Purge(m: Memory, k: set<Res>, free: bool): Memory {
    Memory(
      m.insts - OfResources(m, k),
      map l | l in m.lists && !(free && Owner(l, k)) :: Keep(m.lists[l], OfResources(m, k)),
      if free then m.parents - k else m.parents)
  }

  lemma OfResourcesTwins(m: Memory, k: set<Res>)
    requires Valid(m)
    ensures Twins(m, OfResources(m, k))
  {
    forall x <- m.insts
      ensures x in OfResources(m, k) <==> InstOk(m, x) && Twin(m, x) in OfResources(m, k)
    {
      assert InstOk(m, x);
    }
  }

  /** Nothing of a purged list is left when the resources are closed under children. */
  lemma PurgedEmpty(m: Memory, k: set<Res>, l: ListId)
    requires Valid(m) && Closed(m, k) && l in m.lists && Owner(l, k)
    ensures Keep(m.lists[l], OfResources(m, k)) == []
  {
    var gone := OfResources(m, k);
    assert ListOk(m, l);
    forall x <- m.lists[l]
      ensures x in gone
    {
      assert InstOk(m, x);
      if l.Childs? {
        assert x in Kids(m, l.parent);
        assert m.insts[x].resource in KidSet(m, l.parent);
      }
    }
    KeepNone(m.lists[l], gone);
  }

  lemma PurgeValid(m: Memory, k: set<Res>, free: bool)
    requires Valid(m) && Closed(m, k)
    ensures Valid(Purge(m, k, free))
  {
    var gone := OfResources(m, k);
    var d, p := Drop(m, gone), Purge(m, k, free);
    OfResourcesTwins(m, k);
    DropValid(m, gone);
    forall l <- p.lists
      ensures ListOk(p, l)
    {
      assert ListOk(d, l);
    }
    forall x <- p.insts
      ensures InstOk(p, x)
    {
      assert InstOk(d, x) && InstOk(m, x);
      if Owner(d.insts[x].dl, k) {
        PurgedEmpty(m, k, d.insts[x].dl);
      }
    }
    forall r: Res
      ensures ResOk(p, r)
    {
      assert ResOk(m, r);
    }
  }

  /** A purge takes the instances of its resources out of every list, and leaves the order and the twins of all
      others. */
  lemma PurgeMeans(m: Memory, k: set<Res>, free: bool)
    requires Valid(m)
    ensures var p := Purge(m, k, free);
            && (forall x <- m.insts :: m.insts[x].resource !in k <==> x in p.insts)
            && (forall x <- p.insts :: p.insts[x] == m.insts[x])
            && (forall l <- p.lists :: forall x :: x in p.lists[l] <==>
                 x in m.lists[l] && x in m.insts && m.insts[x].resource !in k)
  {
    var p := Purge(m, k, free);
    forall l, x | l in p.lists
      ensures x in p.lists[l] <==> x in m.lists[l] && x in m.insts && m.insts[x].resource !in k
    {
      assert ListOk(m, l);
      KeepIn(m.lists[l], OfResources(m, k), x);
    }
  }

  lemma PurgePurge(m: Memory, a: set<Res>, b: set<Res>, free: bool)
    ensures Purge(Purge(m, a, free), b, free) == Purge(m, a + b, free)
  {
    var p, q := Purge(m, a, free), Purge(m, a + b, free);
    var pp := Purge(p, b, free);
    assert OfResources(m, a) + OfResources(p, b) == OfResources(m, a + b);
    assert pp.insts == q.insts;
    forall l <- q.lists
      ensures l in pp.lists && pp.lists[l] == q.lists[l]
    {
      KeepKeep(m.lists[l], OfResources(m, a), OfResources(p, b));
    }
    assert pp.lists == q.lists;
  }

  lemma PurgeKids(m: Memory, k: set<Res>, free: bool, r: Res)
    ensures KidSet(Purge(m, k, free), r) <= KidSet(m, r)
    ensures r !in k ==> KidSet(m, r) <= KidSet(Purge(m, k, free), r) + k
  {
    var p := Purge(m, k, free);
    var gone := OfResources(m, k);
    forall x | x in m.insts && x in Kids(m, r)
      ensures Childs(r) in p.lists && x !in gone ==> x in Kids(p, r)
    {
      KeepIn(m.lists[Childs(r)], gone, x);
    }
    forall x | x in p.insts && x in Kids(p, r)
      ensures x in Kids(m, r)
    {
      KeepIn(m.lists[Childs(r)], gone, x);
    }
  }

  /** One step of the recursive deletion: purging a child's descendants in what is left, in terms of the start. */
  lemma PurgeChild(m: Memory, rank: Res -> int, k: set<Res>, free: bool, c: Res)
    requires Ranked(m, rank) && 0 <= rank(c) && Closed(m, k)
    ensures Ranked(Purge(m, k, free), rank)
    ensures var d := Doomed(Purge(m, k, free), rank, c);
            && d <= Doomed(m, rank, c)
            && (d !! k ==> Closed(m, k + d))
            && Purge(Purge(m, k, free), d, free) == Purge(m, k + d, free)
  {
    hide KidSet, Purge, Kids;
    var p := Purge(m, k, free);
    forall r: Res
      ensures KidSet(p, r) <= KidSet(m, r) && (r !in k ==> KidSet(m, r) <= KidSet(p, r) + k)
    {
      PurgeKids(m, k, free, r);
    }
    var d := Doomed(p, rank, c);
    DoomedClosed(m, rank, c);
    DoomedLeast(p, rank, c, Doomed(m, rank, c));
    DoomedClosed(p, rank, c);
    PurgePurge(m, k, d, free);
  }

  lemma PurgedKids(m: Memory, k: set<Res>, free: bool, r: Res)
    ensures KidSet(Purge(m, k, free), r) !! k
  {
  }

  /** The loop over the children of r: what it has purged stays closed, below r and without r. */
  lemma PurgeNext(m: Memory, rank: Res -> int, k: set<Res>, free: bool, r: Res, c: Res)
    requires Ranked(m, rank) && 0 <= rank(r) && Closed(m, k) && k <= Doomed(m, rank, r) && r !in k
    requires c in KidSet(Purge(m, k, free), r)
    ensures Ranked(Purge(m, k, free), rank) && 0 <= rank(c) < rank(r)
    ensures var d := Doomed(Purge(m, k, free), rank, c);
            && Closed(m, k + d) && k + d <= Doomed(m, rank, r) && r !in k + d
            && Purge(Purge(m, k, free), d, free) == Purge(m, k + d, free)
  {
    hide KidSet, Purge, Kids;
    var p := Purge(m, k, free);
    PurgeKids(m, k, free, r);
    PurgeChild(m, rank, k, free, c);
    var d := Doomed(p, rank, c);
    DoomedClosed(p, rank, c);
    PurgedKids(m, k, free, r);
    forall q: Res
      ensures KidSet(p, q) !! k
    {
      PurgedKids(m, k, free, q);
    }
    DoomedLeast(p, rank, c, d - k);
    DoomedClosed(m, rank, r);
    DoomedLeast(m, rank, c, Doomed(m, rank, r));
  }

  /** When no child of r is left, everything below r has been purged. */
  lemma PurgedBelow(m: Memory, rank: Res -> int, k: set<Res>, free: bool, r: Res)
    requires Ranked(m, rank) && 0 <= rank(r) && Closed(m, k) && k <= Doomed(m, rank, r) && r !in k
    requires KidSet(Purge(m, k, free), r) == {}
    ensures k == Doomed(m, rank, r) - {r} && Closed(m, k + {r})
  {
    hide KidSet, Purge, Kids;
    PurgeKids(m, k, free, r);
    DoomedLeast(m, rank, r, k + {r});
  }

  lemma NewChildKids(m: Memory, p: Res, c: Res, i: Inst, e: Inst, r: Res)
    requires Valid(m) && p in m.parents && c in m.parents && i !in m.insts && e !in m.insts && i != e
    ensures Childs(p) in m.lists && Instances(c) in m.lists
    ensures KidSet(NewPair(m, Childs(p), c, i, e, false), r) == KidSet(m, r) + if r == p then {c} else {}
  {
    assert ResOk(m, p) && ResOk(m, c);
    var n := NewPair(m, Childs(p), c, i, e, false);
    if Childs(r) in m.lists {
      assert ListOk(m, Childs(r));
    }
    assert Kids(n, r) == if r == p then Kids(m, r) + [e] else Kids(m, r);
    assert r == p ==> e in Kids(n, r);
    forall x <- Kids(m, r)
      ensures x in Kids(n, r) && x in m.insts && n.insts[x] == m.insts[x]
    {
    }
    forall k <- KidSet(n, r)
      ensures k in KidSet(m, r) + if r == p then {c} else {}
    {
      var x :| x in Kids(n, r) && x in n.insts && n.insts[x].resource == k;
      assert x == e || x in Kids(m, r);
    }
    forall k <- KidSet(m, r) + if r == p then {c} else {}
      ensures k in KidSet(n, r)
    {
      if k in KidSet(m, r) {
        var x :| x in Kids(m, r) && x in m.insts && m.insts[x].resource == k;
        assert x in Kids(n, r);
      } else {
        assert n.insts[e].resource == c;
      }
    }
  }

  lemma NotAbove(m: Memory, rank: Res -> int, other: Res -> int, c: Res, p: Res)
    requires Ranked(m, rank) && Ranked(m, other) && 0 <= rank(c) && 0 <= other(c) && p in Doomed(m, rank, c)
    ensures other(p) <= other(c)
  {
    hide KidSet;
    DoomedClosed(m, rank, c);
    var low := set x | x in Doomed(m, rank, c) && 0 <= other(x) <= other(c);
    DoomedLeast(m, rank, c, low);
  }

  ghost predicate AllRanked(rank: Res -> int) { forall r: Res :: 0 <= rank(r) }

  /** The ranks when c becomes a child of p: whatever has p below it rises above c. */
  ghost function Higher(m: Memory, rank: Res -> int, p: Res, c: Res): Res -> int
    requires Ranked(m, rank)
  {
    (x: Res) => if 0 <= rank(x) && 0 <= rank(c) && p in Doomed(m, rank, x) then rank(x) + rank(c) + 1 else rank(x)
  }

  lemma HigherRanked(m: Memory, rank: Res -> int, p: Res, c: Res, n: Memory)
    requires Ranked(m, rank) && 0 <= rank(p) && 0 <= rank(c) && p !in Doomed(m, rank, c)
    requires forall r: Res :: KidSet(n, r) == KidSet(m, r) + if r == p then {c} else {}
    ensures Ranked(n, Higher(m, rank, p, c))
  {
    hide KidSet, Doomed;
    var higher := Higher(m, rank, p, c);
    forall x: Res, y: Res | 0 <= higher(x) && y in KidSet(n, x)
      ensures 0 <= higher(y) < higher(x)
    {
      DoomedClosed(m, rank, x);
      if y in KidSet(m, x) {
        DoomedLeast(m, rank, y, Doomed(m, rank, x));
      }
    }
  }

  /** Nothing in rc_add_child looks for cycles: none can be reached from the parent afterwards exactly when the parent
      is neither the child nor one of its descendants, and then there is none at all if there was none before. */
  lemma NewChildAcyclic(m: Memory, rank: Res -> int, p: Res, c: Res, i: Inst, e: Inst)
    requires Valid(m) && p in m.parents && c in m.parents && i !in m.insts && e !in m.insts && i != e
    requires Ranked(m, rank) && 0 <= rank(p) && 0 <= rank(c)
    ensures Childs(p) in m.lists && Instances(c) in m.lists
    ensures var n := NewPair(m, Childs(p), c, i, e, false);
            (exists r: Res -> int :: Ranked(n, r) && 0 <= r(p)) <==> p !in Doomed(m, rank, c)
    ensures var n := NewPair(m, Childs(p), c, i, e, false);
            AllRanked(rank) && p !in Doomed(m, rank, c) ==> exists r: Res -> int :: Ranked(n, r) && AllRanked(r)
  {
    hide Valid, KidSet, NewPair, Doomed;
    NewChildKids(m, p, c, i, e, p);
    var n := NewPair(m, Childs(p), c, i, e, false);
    forall r: Res
      ensures KidSet(n, r) == KidSet(m, r) + if r == p then {c} else {}
    {
      NewChildKids(m, p, c, i, e, r);
    }
    assert c in KidSet(n, p);
    if p in Doomed(m, rank, c) {
      forall r: Res -> int
        ensures !(Ranked(n, r) && 0 <= r(p))
      {
        if Ranked(n, r) && 0 <= r(p) {
          NotAbove(m, rank, r, c, p);
        }
      }
    } else {
      HigherRanked(m, rank, p, c, n);
      var r := Higher(m, rank, p, c);
      assert Ranked(n, r) && 0 <= r(p) && (AllRanked(rank) ==> AllRanked(r));
    }
  }
}
