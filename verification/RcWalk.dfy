/** The walks over a list of instances and the children below it, against the forest they unfold. */
module RcWalk {
  import opened RcMemory
  import opened RcList

  /** An instance in its place under a list: the path of instances that leads to it, and its resource's children. */
  datatype Tree = Node(path: seq<Inst>, childs: seq<Tree>)

  /** How a walk ends: the instances its callback has seen, and what it returns. */
  datatype Walk = Walk(seen: seq<Inst>, ret: int)

  // Orders of visit.

  function TopDown(f: seq<Tree>): seq<Tree> {
    if f == [] then [] else [f[0]] + TopDown(f[0].childs) + TopDown(f[1..])
  }

  function BottomUp(f: seq<Tree>): seq<Tree> {
    if f == [] then []
    else
      var n := |f| - 1;
      BottomUp(f[n].childs) + [f[n]] + BottomUp(f[..n])
  }

  function Reversed<T>(s: seq<T>): seq<T> { if s == [] then [] else Reversed(s[1..]) + [s[0]] }

  function Levels(f: seq<Tree>): seq<Tree> { f + LevelsBelow(f) }

  function LevelsBelow(f: seq<Tree>): seq<Tree> {
    if f == [] then [] else f[0].childs + LevelsBelow(f[0].childs) + LevelsBelow(f[1..])
  }

  function LevelsBack(f: seq<Tree>): seq<Tree> { Reversed(f) + LevelsBackBelow(f) }

  function LevelsBackBelow(f: seq<Tree>): seq<Tree> {
    if f == [] then []
    else
      var n := |f| - 1;
      Reversed(f[n].childs) + LevelsBackBelow(f[n].childs) + LevelsBackBelow(f[..n])
  }

  // The order from bottom to top is the reverse of the order from top to bottom.

  lemma {:induction false} ReversedConcat<T>(a: seq<T>, b: seq<T>)
    ensures Reversed(a + b) == Reversed(b) + Reversed(a)
  {
    if a == [] {
      assert a + b == b;
    } else {
      ReversedConcat(a[1..], b);
      assert (a + b)[1..] == a[1..] + b;
    }
  }

  lemma {:induction false} TopDownConcat(f: seq<Tree>, g: seq<Tree>)
    ensures TopDown(f + g) == TopDown(f) + TopDown(g)
  {
    if f == [] {
      assert f + g == g;
    } else {
      var h := f + g;
      assert h[0] == f[0] && h[1..] == f[1..] + g;
      TopDownConcat(f[1..], g);
      Associate([f[0]] + TopDown(f[0].childs), TopDown(f[1..]), TopDown(g));
    }
  }

  lemma Associate<T>(a: seq<T>, b: seq<T>, c: seq<T>)
    ensures a + (b + c) == a + b + c
  {
  }

  lemma SameMembers<T>(a: seq<T>, b: seq<T>)
    requires multiset(a) == multiset(b)
    ensures forall x :: x in a <==> x in b
  {
    forall x
      ensures x in a <==> x in b
    {
      assert x in multiset(a) <==> x in a;
      assert x in multiset(b) <==> x in b;
    }
  }

  /** The duality of the two tree walks. */
  lemma {:induction false} BottomUpReverses(f: seq<Tree>)
    ensures BottomUp(f) == Reversed(TopDown(f))
    decreases f
  {
    if f != [] {
      var n := |f| - 1;
      var t := f[n];
      BottomUpReverses(t.childs);
      BottomUpReverses(f[..n]);
      assert f == f[..n] + [t];
      TopDownConcat(f[..n], [t]);
      assert TopDown([t]) == [t] + TopDown(t.childs);
      ReversedConcat(TopDown(f[..n]), TopDown([t]));
      ReversedConcat([t], TopDown(t.childs));
      assert Reversed([t]) == [t];
    }
  }

  // The order from top to bottom, by places: 3, 0 is the first child of the fourth root.

  /** A place in a forest, as the positions among siblings from a root down. */
  predicate Place(f: seq<Tree>, at: seq<nat>) {
    at != [] && at[0] < |f| && (|at| == 1 || Place(f[at[0]].childs, at[1..]))
  }

  function NodeAt(f: seq<Tree>, at: seq<nat>): Tree
    requires Place(f, at)
  {
    if |at| == 1 then f[at[0]] else NodeAt(f[at[0]].childs, at[1..])
  }

  /** A place comes before those below it, and before those at or below a later sibling. */
  predicate Earlier(a: seq<nat>, b: seq<nat>) {
    b != [] && (a == [] || a[0] < b[0] || (a[0] == b[0] && Earlier(a[1..], b[1..])))
  }

  function Size(f: seq<Tree>): nat {
    if f == [] then 0 else 1 + Size(f[0].childs) + Size(f[1..])
  }

  /** How many places are before one. */
  function Preceding(f: seq<Tree>, at: seq<nat>): nat
    requires Place(f, at)
  {
    Size(f[..at[0]]) + if |at| == 1 then 0 else 1 + Preceding(f[at[0]].childs, at[1..])
  }

  lemma {:induction false} SizeIs(f: seq<Tree>)
    ensures |TopDown(f)| == Size(f)
    decreases f
  {
    if f != [] {
      SizeIs(f[0].childs);
      SizeIs(f[1..]);
    }
  }

  /** The roots before one, it with what is below it, and the rest. */
  lemma SplitAt(f: seq<Tree>, i: nat)
    requires i < |f|
    ensures TopDown(f) == TopDown(f[..i]) + ([f[i]] + TopDown(f[i].childs)) + TopDown(f[i + 1..])
    ensures |TopDown(f[..i])| == Size(f[..i]) && |TopDown(f[i].childs)| == Size(f[i].childs)
  {
    assert f == f[..i + 1] + f[i + 1..];
    TopDownConcat(f[..i + 1], f[i + 1..]);
    TopDownLast(f[..i + 1]);
    assert f[..i + 1][..i] == f[..i];
    SizeIs(f[..i]);
    SizeIs(f[i].childs);
  }

  /** The walk down has the instance of every place after as many as are before it. */
  lemma {:induction false} DownAt(f: seq<Tree>, at: seq<nat>)
    requires Place(f, at)
    ensures Preceding(f, at) < |TopDown(f)| && TopDown(f)[Preceding(f, at)] == NodeAt(f, at)
    decreases at
  {
    hide TopDown, Size;
    var i := at[0];
    SplitAt(f, i);
    if |at| > 1 {
      DownAt(f[i].childs, at[1..]);
    }
  }

  lemma SizesGrow(f: seq<Tree>, i: nat, j: nat)
    requires i < j <= |f|
    ensures Size(f[..i]) + 1 + Size(f[i].childs) <= Size(f[..j])
  {
    hide TopDown, Size;
    var g := f[..j];
    SplitAt(g, i);
    SizeIs(g);
    assert g[..i] == f[..i];
  }

  /** Places come in their order. */
  lemma {:induction false} DownInOrder(f: seq<Tree>, a: seq<nat>, b: seq<nat>)
    requires Place(f, a) && Place(f, b) && Earlier(a, b)
    ensures Preceding(f, a) < Preceding(f, b)
    decreases a
  {
    hide Size;
    if a[0] < b[0] {
      SizesGrow(f, a[0], b[0]);
      if |a| > 1 {
        DownAt(f[a[0]].childs, a[1..]);
        SizeIs(f[a[0]].childs);
      }
    } else if |a| > 1 {
      DownInOrder(f[a[0]].childs, a[1..], b[1..]);
    }
  }

  /** And there is nothing else in the walk. */
  lemma {:induction false} DownPlace(f: seq<Tree>, k: nat) returns (at: seq<nat>)
    requires k < |TopDown(f)|
    ensures Place(f, at) && Preceding(f, at) == k
    decreases f
  {
    hide Size;
    var n := |f| - 1;
    TopDownLast(f);
    SizeIs(f[..n]);
    if k < |TopDown(f[..n])| {
      at := DownPlace(f[..n], k);
      PlaceMore(f, n, at);
    } else if k == |TopDown(f[..n])| {
      at := [n];
    } else {
      at := DownPlace(f[n].childs, k - |TopDown(f[..n])| - 1);
      at := [n] + at;
    }
  }

  lemma PlaceMore(f: seq<Tree>, n: nat, at: seq<nat>)
    requires n <= |f| && Place(f[..n], at)
    ensures Place(f, at) && Preceding(f, at) == Preceding(f[..n], at)
  {
    assert f[..n][..at[0]] == f[..at[0]];
  }

  // All orders visit the same places.

  lemma {:induction false} ReversedSame<T>(s: seq<T>)
    ensures multiset(Reversed(s)) == multiset(s) && |Reversed(s)| == |s|
  {
    if s != [] {
      ReversedSame(s[1..]);
      assert s == [s[0]] + s[1..];
    }
  }

  lemma {:induction false} LevelsSame(f: seq<Tree>)
    ensures multiset(Levels(f)) == multiset(TopDown(f))
    decreases f
  {
    if f != [] {
      LevelsSame(f[0].childs);
      LevelsSame(f[1..]);
      assert f == [f[0]] + f[1..];
    }
  }

  lemma TopDownLast(f: seq<Tree>)
    requires f != []
    ensures var n := |f| - 1;
            TopDown(f) == TopDown(f[..n]) + ([f[n]] + TopDown(f[n].childs))
  {
    var n := |f| - 1;
    assert f == f[..n] + [f[n]];
    TopDownConcat(f[..n], [f[n]]);
    assert TopDown([f[n]]) == [f[n]] + TopDown(f[n].childs);
  }

  lemma ReversedLast<T>(s: seq<T>)
    requires s != []
    ensures Reversed(s) == [s[|s| - 1]] + Reversed(s[..|s| - 1])
  {
    var n := |s| - 1;
    assert s == s[..n] + [s[n]];
    ReversedConcat(s[..n], [s[n]]);
    assert Reversed([s[n]]) == [s[n]];
  }

  lemma {:induction false} LevelsBackSame(f: seq<Tree>)
    ensures multiset(LevelsBack(f)) == multiset(TopDown(f))
    decreases f
  {
    if f != [] {
      hide TopDown, Reversed;
      var n := |f| - 1;
      LevelsBackSame(f[n].childs);
      LevelsBackSame(f[..n]);
      TopDownLast(f);
      ReversedLast(f);
      BackSplit(f);
    } else {
      assert TopDown(f) == [];
    }
  }

  lemma BackSplit(f: seq<Tree>)
    requires f != []
    ensures var n := |f| - 1;
            LevelsBackBelow(f) == LevelsBack(f[n].childs) + LevelsBackBelow(f[..n])
  {
  }

  /** The walk by levels: the roots, and then, for each in turn, the walk by levels of its children. */
  lemma {:induction false} LevelsTurns(f: seq<Tree>, t: Tree)
    ensures f <= Levels(f) && Levels([t]) == [t] + Levels(t.childs)
    ensures Levels([t] + f) == [t] + f + Levels(t.childs) + Levels(f)[|f|..]
  {
    var g := [t] + f;
    assert g[0] == t && g[1..] == f && [t][1..] == [];
    assert LevelsBelow([t]) == t.childs + LevelsBelow(t.childs);
    assert LevelsBelow(g) == Levels(t.childs) + LevelsBelow(f);
    assert Levels(f)[|f|..] == LevelsBelow(f);
  }

  /** From last to first: the roots reversed, and then, for each in turn from the last, that walk of its children. */
  lemma {:induction false} LevelsBackTurns(f: seq<Tree>, t: Tree)
    ensures Reversed(f) <= LevelsBack(f) && LevelsBack([t]) == [t] + LevelsBack(t.childs)
    ensures LevelsBack(f + [t]) == [t] + Reversed(f) + LevelsBack(t.childs) + LevelsBack(f)[|Reversed(f)|..]
  {
    hide Reversed, LevelsBackBelow;
    var g := f + [t];
    OneReversed(t);
    ReversedConcat(f, [t]);
    BackSplit(g);
    BackSplit([t]);
    NoneBack();
    assert g[..|f|] == f && [t][..0] == [];
    assert LevelsBack(f)[|Reversed(f)|..] == LevelsBackBelow(f);
  }

  lemma OneReversed<T>(x: T)
    ensures Reversed([x]) == [x]
  {
    assert [x][1..] == [];
  }

  lemma NoneBack()
    ensures LevelsBackBelow([]) == []
  {
  }

  lemma {:induction false} ReversedAt<T>(s: seq<T>, k: nat)
    requires k < |s|
    ensures |Reversed(s)| == |s| && Reversed(s)[k] == s[|s| - 1 - k]
  {
    ReversedSame(s);
    ReversedSame(s[1..]);
    if k < |s| - 1 {
      ReversedAt(s[1..], k);
    }
  }

  // Parents before children.

  /** The paths of a forest go down from `base`. */
  ghost predicate Rooted(f: seq<Tree>, base: seq<Inst>) {
    forall k :: 0 <= k < |f| ==>
      |f[k].path| == |base| + 1 && f[k].path[..|base|] == base && Rooted(f[k].childs, f[k].path)
  }

  /** Place q of an order of visit is a root, or comes after the instance it is below. */
  ghost predicate AfterParent(s: seq<Tree>, depth: nat, q: nat)
    requires q < |s|
  {
    var p := s[q].path;
    || |p| == depth + 1
    || (|p| > depth + 1 && exists k :: 0 <= k < q && s[k].path == p[..|p| - 1])
  }

  ghost predicate ParentsFirst(s: seq<Tree>, depth: nat) {
    forall q :: 0 <= q < |s| ==> AfterParent(s, depth, q)
  }

  /** An order below a root, put after it and other things, still has parents first. */
  lemma AfterRoot(before: seq<Tree>, t: Tree, below: seq<Tree>, depth: nat)
    requires ParentsFirst(before, depth) && t in before && |t.path| == depth + 1
    requires ParentsFirst(below, depth + 1)
    requires forall x <- below :: |x.path| > depth + 1 && x.path[..depth + 1] == t.path
    ensures ParentsFirst(before + below, depth)
  {
    var s := before + below;
    forall q | 0 <= q < |s|
      ensures AfterParent(s, depth, q)
    {
      if q < |before| {
        assert AfterParent(before, depth, q);
        assert s[q] == before[q];
        var p := s[q].path;
        if |p| > depth + 1 {
          var k :| 0 <= k < q && before[k].path == p[..|p| - 1];
          assert s[k] == before[k];
        }
      } else {
        var r := q - |before|;
        assert AfterParent(below, depth + 1, r);
        assert s[q] == below[r];
        var p := s[q].path;
        if |p| == depth + 2 {
          var k :| 0 <= k < |before| && before[k] == t;
          assert s[k] == t && t.path == p[..|p| - 1];
        } else {
          var k :| 0 <= k < r && below[k].path == p[..|p| - 1];
          assert s[|before| + k] == below[k];
        }
      }
    }
  }

  lemma {:induction false} PathsBelow(f: seq<Tree>, base: seq<Inst>)
    requires Rooted(f, base)
    ensures forall x <- TopDown(f) :: |x.path| > |base| && x.path[..|base|] == base
    decreases f
  {
    if f != [] {
      PathsBelow(f[0].childs, f[0].path);
      PathsBelow(f[1..], base);
      forall x <- TopDown(f)
        ensures |x.path| > |base| && x.path[..|base|] == base
      {
        if x in TopDown(f[0].childs) {
          assert x.path[..|base| + 1][..|base|] == x.path[..|base|];
        }
      }
    }
  }

  /** The walk by levels reaches every instance after the one it is a child of. */
  lemma {:induction false} LevelsParentsFirst(f: seq<Tree>, base: seq<Inst>)
    requires Rooted(f, base)
    ensures ParentsFirst(Levels(f), |base|)
    decreases f, 1
  {
    assert ParentsFirst(f, |base|);
    BelowParentsFirst(f, f, base);
  }

  lemma {:induction false} BelowParentsFirst(f: seq<Tree>, before: seq<Tree>, base: seq<Inst>)
    requires Rooted(f, base) && ParentsFirst(before, |base|) && forall t <- f :: t in before
    ensures ParentsFirst(before + LevelsBelow(f), |base|)
    decreases f, 0
  {
    if f == [] {
      assert before + LevelsBelow(f) == before;
    } else {
      var below := Levels(f[0].childs);
      LevelsParentsFirst(f[0].childs, f[0].path);
      LevelsPaths(f[0].childs, f[0].path);
      AfterRoot(before, f[0], below, |base|);
      BelowParentsFirst(f[1..], before + below, base);
      Associate(before, below, LevelsBelow(f[1..]));
    }
  }

  lemma LevelsPaths(f: seq<Tree>, base: seq<Inst>)
    requires Rooted(f, base)
    ensures forall x <- Levels(f) :: |x.path| > |base| && x.path[..|base|] == base
  {
    PathsBelow(f, base);
    LevelsSame(f);
    SameMembers(Levels(f), TopDown(f));
  }

  lemma {:induction false} BackParentsFirst(f: seq<Tree>, base: seq<Inst>)
    requires Rooted(f, base)
    ensures ParentsFirst(LevelsBack(f), |base|)
    decreases f, 1
  {
    ReversedSame(f);
    SameMembers(Reversed(f), f);
    forall q | 0 <= q < |Reversed(f)|
      ensures AfterParent(Reversed(f), |base|, q)
    {
      assert Reversed(f)[q] in f;
    }
    BackBelowParentsFirst(f, Reversed(f), base);
  }

  lemma {:induction false} BackBelowParentsFirst(f: seq<Tree>, before: seq<Tree>, base: seq<Inst>)
    requires Rooted(f, base) && ParentsFirst(before, |base|) && forall t <- f :: t in before
    ensures ParentsFirst(before + LevelsBackBelow(f), |base|)
    decreases f, 0
  {
    if f == [] {
      assert before + LevelsBackBelow(f) == before;
    } else {
      var n := |f| - 1;
      var below := LevelsBack(f[n].childs);
      BackParentsFirst(f[n].childs, f[n].path);
      BackPaths(f[n].childs, f[n].path);
      AfterRoot(before, f[n], below, |base|);
      BackBelowParentsFirst(f[..n], before + below, base);
      hide ParentsFirst, Rooted, LevelsBackBelow, LevelsBack;
      BackSplit(f);
      Associate(before, below, LevelsBackBelow(f[..n]));
    }
  }

  lemma BackPaths(f: seq<Tree>, base: seq<Inst>)
    requires Rooted(f, base)
    ensures forall x <- LevelsBack(f) :: |x.path| > |base| && x.path[..|base|] == base
  {
    PathsBelow(f, base);
    LevelsBackSame(f);
    SameMembers(LevelsBack(f), TopDown(f));
  }

  // Callbacks: the answer may depend on everything seen so far.

  predicate Placed(nodes: seq<Tree>) { forall t <- nodes :: t.path != [] }

  function At(t: Tree): Inst
    requires t.path != []
  {
    t.path[|t.path| - 1]
  }

  /** Visiting places in order until the callback answers with a negative number. */
  function Cut(nodes: seq<Tree>, seen: seq<Inst>, reply: seq<Inst> -> int): Walk
    requires Placed(nodes)
  {
    if nodes == [] then Walk(seen, 0)
    else
      var now := seen + [At(nodes[0])];
      if reply(now) < 0 then Walk(now, reply(now)) else Cut(nodes[1..], now, reply)
  }

  lemma {:induction false} CutConcat(a: seq<Tree>, b: seq<Tree>, seen: seq<Inst>, reply: seq<Inst> -> int)
    requires Placed(a) && Placed(b)
    ensures Placed(a + b)
    ensures var w := Cut(a, seen, reply);
            && w.ret <= 0
            && Cut(a + b, seen, reply) == if w.ret < 0 then w else Cut(b, w.seen, reply)
  {
    if a == [] {
      assert a + b == b;
    } else {
      CutConcat(a[1..], b, seen + [At(a[0])], reply);
      assert (a + b)[1..] == a[1..] + b;
    }
  }

  function Insts(nodes: seq<Tree>): (r: seq<Inst>)
    requires Placed(nodes)
    ensures |r| == |nodes|
  {
    seq(|nodes|, i requires 0 <= i < |nodes| => At(nodes[i]))
  }

  /** A negative answer cuts the walk to a prefix of the visits, which ends with the place that gave it; otherwise
      the walk is complete and returns zero. */
  lemma {:induction false} CutIsPrefix(nodes: seq<Tree>, seen: seq<Inst>, reply: seq<Inst> -> int)
    requires Placed(nodes)
    ensures var w := Cut(nodes, seen, reply);
            var all := seen + Insts(nodes);
            && |seen| <= |w.seen| <= |all| && w.seen == all[..|w.seen|]
            && (forall k :: |seen| < k < |w.seen| ==> reply(all[..k]) >= 0)
            && if w.ret == 0 then w.seen == all && (nodes != [] ==> reply(all) >= 0)
               else w.ret < 0 && |seen| < |w.seen| && w.ret == reply(w.seen)
  {
    var all := seen + Insts(nodes);
    if nodes == [] {
      assert all == seen;
    } else {
      var now := seen + [At(nodes[0])];
      assert all == now + Insts(nodes[1..]);
      assert all[..|now|] == now;
      if reply(now) >= 0 {
        CutIsPrefix(nodes[1..], now, reply);
      }
    }
  }

  /** The walk from top to bottom: a positive answer skips what is below the place that gave it. */
  function Down(f: seq<Tree>, seen: seq<Inst>, reply: seq<Inst> -> int): Walk
    requires Placed(TopDown(f))
    decreases f
  {
    if f == [] then Walk(seen, 0)
    else
      assert forall t :: t in TopDown(f[0].childs) || t in TopDown(f[1..]) ==> t in TopDown(f);
      assert f[0] in TopDown(f);
      var now := seen + [At(f[0])];
      var r := reply(now);
      if r < 0 then Walk(now, r)
      else if r == 0 then
        var w := Down(f[0].childs, now, reply);
        if w.ret < 0 then w else Down(f[1..], w.seen, reply)
      else Down(f[1..], now, reply)
  }

  /** Without positive answers it visits everything, parents first. */
  lemma {:induction false} DownIsCut(f: seq<Tree>, seen: seq<Inst>, reply: seq<Inst> -> int)
    requires Placed(TopDown(f)) && forall s :: reply(s) <= 0
    ensures Down(f, seen, reply) == Cut(TopDown(f), seen, reply)
    decreases f
  {
    if f != [] {
      var a, b := TopDown(f[0].childs), TopDown(f[1..]);
      assert forall t :: t in a || t in b ==> t in TopDown(f);
      assert f[0] in TopDown(f);
      var now := seen + [At(f[0])];
      assert TopDown(f) == [f[0]] + (a + b);
      assert TopDown(f)[1..] == a + b;
      CutConcat(a, b, now, reply);
      DownIsCut(f[0].childs, now, reply);
      DownIsCut(f[1..], Cut(a, now, reply).seen, reply);
    }
  }

  /** Visiting places in order, where a positive answer passes over as many as are below the place that gave it. */
  function Skipping(nodes: seq<Tree>, seen: seq<Inst>, reply: seq<Inst> -> int): Walk
    requires Placed(nodes)
  {
    if nodes == [] then Walk(seen, 0)
    else
      var now := seen + [At(nodes[0])];
      var next := if reply(now) > 0 then 1 + Size(nodes[0].childs) else 1;
      if reply(now) < 0 then Walk(now, reply(now))
      else if next <= |nodes| then Skipping(nodes[next..], now, reply)
      else Walk(now, 0)
  }

  lemma DownSplit(f: seq<Tree>, b: seq<Tree>)
    requires f != [] && Placed(TopDown(f)) && Placed(b)
    ensures var below, after, all := TopDown(f[0].childs), TopDown(f[1..]), TopDown(f) + b;
            && Placed(below) && Placed(after) && Placed(after + b) && Placed(all)
            && all != [] && all[0] == f[0] && f[0].path != []
            && all[1..] == below + (after + b)
            && 1 + Size(f[0].childs) <= |all| && all[1 + Size(f[0].childs)..] == after + b
  {
    var below, after := TopDown(f[0].childs), TopDown(f[1..]);
    assert TopDown(f) == [f[0]] + below + after;
    hide Size, TopDown, Placed;
    SizeIs(f[0].childs);
    Around([f[0]], below, after, b);
    PlacedConcat([f[0]] + below, after);
    PlacedConcat([f[0]], below);
    PlacedConcat(after, b);
    PlacedConcat(TopDown(f), b);
    PlacedOne(f[0]);
  }

  lemma Around<T>(x: seq<T>, a: seq<T>, b: seq<T>, c: seq<T>)
    ensures (x + a + b + c)[|x|..] == a + (b + c) && (x + a + b + c)[|x| + |a|..] == b + c
  {
  }

  lemma PlacedConcat(a: seq<Tree>, b: seq<Tree>)
    ensures Placed(a + b) <==> Placed(a) && Placed(b)
  {
    assert forall t :: t in a + b <==> t in a || t in b;
  }

  lemma PlacedOne(t: Tree)
    ensures Placed([t]) <==> t.path != []
  {
  }

  lemma DownFirst(f: seq<Tree>, seen: seq<Inst>, reply: seq<Inst> -> int)
    requires f != [] && Placed(TopDown(f)) && Placed(TopDown(f[0].childs)) && Placed(TopDown(f[1..]))
    requires f[0].path != []
    ensures var now := seen + [At(f[0])];
            Down(f, seen, reply) ==
            if reply(now) < 0 then Walk(now, reply(now))
            else if reply(now) > 0 then Down(f[1..], now, reply)
            else var w := Down(f[0].childs, now, reply); if w.ret < 0 then w else Down(f[1..], w.seen, reply)
  {
    hide Placed, TopDown, At;
  }

  lemma SkippingFirst(nodes: seq<Tree>, seen: seq<Inst>, reply: seq<Inst> -> int)
    requires Placed(nodes) && nodes != [] && nodes[0].path != [] && 1 + Size(nodes[0].childs) <= |nodes|
    requires Placed(nodes[1..]) && Placed(nodes[1 + Size(nodes[0].childs)..])
    ensures var now := seen + [At(nodes[0])];
            Skipping(nodes, seen, reply) ==
            if reply(now) < 0 then Walk(now, reply(now))
            else if reply(now) > 0 then Skipping(nodes[1 + Size(nodes[0].childs)..], now, reply)
            else Skipping(nodes[1..], now, reply)
  {
    hide Placed, Size, At;
  }

  lemma {:induction false} DownThenSkipping(f: seq<Tree>, b: seq<Tree>, seen: seq<Inst>, reply: seq<Inst> -> int)
    requires Placed(TopDown(f)) && Placed(b)
    ensures Placed(TopDown(f) + b)
    ensures var w := Down(f, seen, reply);
            && w.ret <= 0
            && Skipping(TopDown(f) + b, seen, reply) == if w.ret < 0 then w else Skipping(b, w.seen, reply)
    decreases f
  {
    if f == [] {
      assert TopDown(f) + b == b;
    } else {
      hide Size, TopDown, Down, Placed, At, Skipping;
      DownSplit(f, b);
      DownFirst(f, seen, reply);
      SkippingFirst(TopDown(f) + b, seen, reply);
      var after := TopDown(f[1..]);
      var now := seen + [At(f[0])];
      if reply(now) == 0 {
        DownThenSkipping(f[0].childs, after + b, now, reply);
        DownThenSkipping(f[1..], b, Down(f[0].childs, now, reply).seen, reply);
      } else if reply(now) > 0 {
        DownThenSkipping(f[1..], b, now, reply);
      }
    }
  }

  /** What the walk down visits, whatever is answered. */
  lemma DownIsSkipping(f: seq<Tree>, seen: seq<Inst>, reply: seq<Inst> -> int)
    requires Placed(TopDown(f))
    ensures Down(f, seen, reply) == Skipping(TopDown(f), seen, reply)
  {
    hide Down;
    assert TopDown(f) + [] == TopDown(f);
    DownThenSkipping(f, [], seen, reply);
  }

  // The forest in the memory.

  ghost predicate Below(m: Memory, rank: Res -> int, list: seq<Inst>, bound: nat) {
    forall x <- list :: x in m.insts && 0 <= rank(m.insts[x].resource) < bound
  }

  /** What is below a list of instances, through the children of their resources. */
  ghost function Unfold(m: Memory, rank: Res -> int, list: seq<Inst>, base: seq<Inst>, bound: nat): (f: seq<Tree>)
    requires Valid(m) && Ranked(m, rank) && Below(m, rank, list, bound)
    ensures |f| == |list|
    decreases bound, |list|
  {
    if list == [] then []
    else
      var r := m.insts[list[0]].resource;
      KidsBelow(m, rank, r);
      var path := base + [list[0]];
      [Node(path, Unfold(m, rank, Kids(m, r), path, rank(r)))] + Unfold(m, rank, list[1..], base, bound)
  }

  lemma KidsBelow(m: Memory, rank: Res -> int, r: Res)
    requires Valid(m) && Ranked(m, rank) && 0 <= rank(r)
    ensures Below(m, rank, Kids(m, r), rank(r))
  {
    if Childs(r) in m.lists {
      assert ListOk(m, Childs(r));
      forall x <- Kids(m, r)
        ensures x in m.insts && 0 <= rank(m.insts[x].resource) < rank(r)
      {
        assert m.insts[x].resource in KidSet(m, r);
      }
    }
  }

  lemma {:induction false} UnfoldAt(m: Memory, rank: Res -> int, list: seq<Inst>, base: seq<Inst>, bound: nat, k: nat)
    requires Valid(m) && Ranked(m, rank) && Below(m, rank, list, bound) && k < |list|
    ensures list[k] in m.insts
    ensures var r := m.insts[list[k]].resource;
            var path := base + [list[k]];
            && 0 <= rank(r) < bound && Below(m, rank, Kids(m, r), rank(r))
            && Unfold(m, rank, list, base, bound)[k] == Node(path, Unfold(m, rank, Kids(m, r), path, rank(r)))
  {
    hide Valid, Ranked, Kids;
    KidsBelow(m, rank, m.insts[list[k]].resource);
    if k > 0 {
      UnfoldAt(m, rank, list[1..], base, bound, k - 1);
    }
  }

  lemma {:induction false} UnfoldRooted(m: Memory, rank: Res -> int, list: seq<Inst>, base: seq<Inst>, bound: nat)
    requires Valid(m) && Ranked(m, rank) && Below(m, rank, list, bound)
    ensures Rooted(Unfold(m, rank, list, base, bound), base)
    decreases bound, |list|
  {
    hide Valid, Ranked, Kids, Unfold, Below;
    var f := Unfold(m, rank, list, base, bound);
    forall k | 0 <= k < |f|
      ensures |f[k].path| == |base| + 1 && f[k].path[..|base|] == base && Rooted(f[k].childs, f[k].path)
    {
      UnfoldAt(m, rank, list, base, bound, k);
      var r := m.insts[list[k]].resource;
      UnfoldRooted(m, rank, Kids(m, r), base + [list[k]], rank(r));
    }
  }

  // The walks.

  lemma ForestPlaced(f: seq<Tree>, base: seq<Inst>)
    requires Rooted(f, base)
    ensures Placed(f) && Placed(Reversed(f)) && Placed(TopDown(f)) && Placed(BottomUp(f))
    ensures Placed(Levels(f)) && Placed(LevelsBack(f)) && Placed(LevelsBelow(f)) && Placed(LevelsBackBelow(f))
  {
    hide TopDown, BottomUp, Rooted, LevelsBelow, LevelsBackBelow, Reversed;
    PathsBelow(f, base);
    LevelsSame(f);
    SameMembers(Levels(f), TopDown(f));
    LevelsBackSame(f);
    SameMembers(LevelsBack(f), TopDown(f));
    BottomUpReverses(f);
    ReversedSame(TopDown(f));
    SameMembers(BottomUp(f), TopDown(f));
    ReversedSame(f);
    SameMembers(Reversed(f), f);
    assert forall t :: t in f || t in LevelsBelow(f) ==> t in Levels(f);
    assert forall t :: t in Reversed(f) || t in LevelsBackBelow(f) ==> t in LevelsBack(f);
  }

  lemma {:induction false} ReversedFrom<T>(s: seq<T>, k: nat)
    requires k < |s|
    ensures Reversed(s[..k + 1]) == [s[k]] + Reversed(s[..k])
  {
    ReversedLast(s[..k + 1]);
    assert s[..k + 1][..k] == s[..k];
  }

  /** rc_walk_by_list: the instances of a list, in either direction. */
  method WalkByList(list: seq<Inst>, back: bool, reply: seq<Inst> -> int, start: seq<Inst>, ghost f: seq<Tree>)
    returns (seen: seq<Inst>, ret: int)
    requires Placed(f) && |f| == |list| && forall k :: 0 <= k < |f| ==> At(f[k]) == list[k]
    ensures Placed(Reversed(f))
    ensures Walk(seen, ret) == Cut(if back then Reversed(f) else f, start, reply)
  {
    ReversedSame(f);
    SameMembers(Reversed(f), f);
    seen := start;
    var k := if back then |list| else 0;
    ghost var all := if back then Reversed(f) else f;
    assert f[..|f|] == f;
    while if back then k > 0 else k < |list|
      invariant 0 <= k <= |list|
      invariant Placed(if back then Reversed(f[..k]) else f[k..])
      invariant Cut(all, start, reply) == Cut(if back then Reversed(f[..k]) else f[k..], seen, reply)
      decreases if back then k else |list| - k
    {
      ghost var rest := if back then Reversed(f[..k]) else f[k..];
      var instance := if back then list[k - 1] else list[k];
      k := if back then k - 1 else k + 1;
      if back {
        ReversedFrom(f, k);
      }
      assert At(rest[0]) == instance && rest[1..] == if back then Reversed(f[..k]) else f[k..];
      seen := seen + [instance];
      ret := reply(seen);
      if ret < 0 {
        return;
      }
    }
    ret := 0;
  }

  lemma BelowStep(f: seq<Tree>, k: nat)
    requires k < |f|
    ensures LevelsBelow(f[k..]) == Levels(f[k].childs) + LevelsBelow(f[k + 1..])
  {
    assert f[k..][1..] == f[k + 1..];
    Associate(f[k].childs, LevelsBelow(f[k].childs), LevelsBelow(f[k + 1..]));
  }

  lemma BackStep(f: seq<Tree>, k: nat)
    requires k < |f|
    ensures LevelsBackBelow(f[..k + 1]) == LevelsBack(f[k].childs) + LevelsBackBelow(f[..k])
  {
    assert f[..k + 1][..k] == f[..k];
    BackSplit(f[..k + 1]);
  }

  lemma {:induction false} RootedSlice(f: seq<Tree>, base: seq<Inst>, i: nat, j: nat)
    requires Rooted(f, base) && i <= j <= |f|
    ensures Rooted(f[i..j], base)
  {
  }

  /** What the walk by levels still has to do. */
  ghost function LevelsLeft(f: seq<Tree>, back: bool, k: nat): seq<Tree>
    requires k <= |f|
  {
    if back then LevelsBackBelow(f[..k]) else LevelsBelow(f[k..])
  }

  lemma LevelsLeftStep(f: seq<Tree>, base: seq<Inst>, back: bool, k: nat, seen: seq<Inst>, reply: seq<Inst> -> int)
    requires Rooted(f, base) && k < |f|
    ensures var now, next := if back then k + 1 else k, if back then k else k + 1;
            var c := if back then LevelsBack(f[k].childs) else Levels(f[k].childs);
            && Placed(LevelsLeft(f, back, now)) && Placed(LevelsLeft(f, back, next)) && Placed(c)
            && var w := Cut(c, seen, reply);
               Cut(LevelsLeft(f, back, now), seen, reply) ==
               if w.ret < 0 then w else Cut(LevelsLeft(f, back, next), w.seen, reply)
  {
    hide LevelsBelow, LevelsBackBelow, Levels, LevelsBack, Cut;
    var c := if back then LevelsBack(f[k].childs) else Levels(f[k].childs);
    ForestPlaced(f[k].childs, f[k].path);
    if back {
      BackStep(f, k);
      RootedSlice(f, base, 0, k);
      ForestPlaced(f[..k], base);
      CutConcat(c, LevelsBackBelow(f[..k]), seen, reply);
    } else {
      BelowStep(f, k);
      RootedSlice(f, base, k + 1, |f|);
      assert f[k + 1..|f|] == f[k + 1..];
      ForestPlaced(f[k + 1..], base);
      CutConcat(c, LevelsBelow(f[k + 1..]), seen, reply);
    }
  }

  lemma LevelsLeftEnds(f: seq<Tree>, base: seq<Inst>, back: bool, seen: seq<Inst>, reply: seq<Inst> -> int)
    requires Rooted(f, base)
    ensures var roots := if back then Reversed(f) else f;
            var all := if back then LevelsBack(f) else Levels(f);
            && Placed(roots) && Placed(all) && Placed(LevelsLeft(f, back, if back then |f| else 0))
            && var w := Cut(roots, seen, reply);
               Cut(all, seen, reply) ==
               if w.ret < 0 then w else Cut(LevelsLeft(f, back, if back then |f| else 0), w.seen, reply)
    ensures LevelsLeft(f, back, if back then 0 else |f|) == []
  {
    hide LevelsBelow, LevelsBackBelow, Cut, Reversed;
    ForestPlaced(f, base);
    assert f[..|f|] == f && f[0..] == f;
    if back {
      CutConcat(Reversed(f), LevelsBackBelow(f), seen, reply);
      NothingBelow(f[..0]);
    } else {
      CutConcat(f, LevelsBelow(f), seen, reply);
      NothingBelow(f[|f|..]);
    }
  }

  lemma NothingBelow(f: seq<Tree>)
    requires f == []
    ensures LevelsBelow(f) == [] && LevelsBackBelow(f) == []
  {
  }

  /** rc_walk_by_level: the list, and then level by level below each of its instances. */
  method WalkByLevel(s: Store, l: ListId, back: bool, reply: seq<Inst> -> int, start: seq<Inst>,
                     ghost rank: Res -> int, ghost base: seq<Inst>, ghost bound: nat)
    returns (seen: seq<Inst>, ret: int)
    requires s.Sound() && l in s.lists
    requires Ranked(s.Contents(), rank) && Below(s.Contents(), rank, s.lists[l], bound)
    ensures var f := Unfold(s.Contents(), rank, s.lists[l], base, bound);
            var all := if back then LevelsBack(f) else Levels(f);
            Placed(all) && Walk(seen, ret) == Cut(all, start, reply)
    decreases bound
  {
    hide RcMemory.Valid, Ranked, Kids, Unfold, LevelsBelow, LevelsBackBelow, Levels, LevelsBack, Cut, LevelsLeft,
         Reversed, Placed, Below, Rooted;
    var list := s.lists[l];
    ghost var m := s.Contents();
    ghost var f := Unfold(m, rank, list, base, bound);
    UnfoldRooted(m, rank, list, base, bound);
    ForestPlaced(f, base);
    UnfoldRoots(m, rank, list, base, bound);
    LevelsLeftEnds(f, base, back, start, reply);
    seen, ret := WalkByList(list, back, reply, start, f);
    if ret < 0 {
      return;
    }
    ghost var all := Cut(if back then LevelsBack(f) else Levels(f), start, reply);
    var k := if back then |list| else 0;
    assert Placed(LevelsLeft(f, back, k)) && Cut(LevelsLeft(f, back, k), seen, reply) == all;
    while if back then k > 0 else k < |list|
      invariant 0 <= k <= |list|
      invariant Placed(LevelsLeft(f, back, k)) && Cut(LevelsLeft(f, back, k), seen, reply) == all
      decreases if back then k else |list| - k
    {
      var i := if back then k - 1 else k;
      UnfoldAt(m, rank, list, base, bound, i);
      var resource := s.insts[list[i]].resource;
      InstanceChilds(m, list, l, i);
      LevelsLeftStep(f, base, back, i, seen, reply);
      seen, ret := WalkByLevel(s, Childs(resource), back, reply, seen, rank, base + [list[i]], rank(resource));
      if ret < 0 {
        return;
      }
      k := if back then k - 1 else k + 1;
    }
    CutNothing(seen, reply);
    ret := 0;
  }

  lemma CutNothing(seen: seq<Inst>, reply: seq<Inst> -> int)
    ensures Placed([]) && Cut([], seen, reply) == Walk(seen, 0)
  {
  }

  lemma UnfoldRoots(m: Memory, rank: Res -> int, list: seq<Inst>, base: seq<Inst>, bound: nat)
    requires Valid(m) && Ranked(m, rank) && Below(m, rank, list, bound)
    ensures var f := Unfold(m, rank, list, base, bound);
            forall k :: 0 <= k < |f| ==> f[k].path != [] && At(f[k]) == list[k]
  {
    hide Valid, Ranked, Unfold, Below;
    forall k | 0 <= k < |list|
      ensures Unfold(m, rank, list, base, bound)[k].path == base + [list[k]]
    {
      UnfoldAt(m, rank, list, base, bound, k);
    }
  }

  lemma InstanceChilds(m: Memory, list: seq<Inst>, l: ListId, i: nat)
    requires Valid(m) && l in m.lists && list == m.lists[l] && i < |list|
    ensures list[i] in m.insts && Childs(m.insts[list[i]].resource) in m.lists
    ensures Kids(m, m.insts[list[i]].resource) == m.lists[Childs(m.insts[list[i]].resource)]
  {
    assert ListOk(m, l);
    assert InstOk(m, list[i]);
    assert ResOk(m, m.insts[list[i]].resource);
  }

  datatype Order = TopToBottom | BottomToTop | ByLevel(back: bool)

  /** What a walk over a forest is to see and to return. */
  ghost function WalkOf(f: seq<Tree>, order: Order, seen: seq<Inst>, reply: seq<Inst> -> int): Walk
    requires exists base :: Rooted(f, base)
  {
    var base :| Rooted(f, base);
    ForestPlaced(f, base);
    match order
    case TopToBottom => Down(f, seen, reply)
    case BottomToTop => Cut(BottomUp(f), seen, reply)
    case ByLevel(back) => Cut(if back then LevelsBack(f) else Levels(f), seen, reply)
  }

  lemma UpStep(f: seq<Tree>, base: seq<Inst>, k: nat, seen: seq<Inst>, reply: seq<Inst> -> int)
    requires Rooted(f, base) && k < |f|
    ensures Placed(BottomUp(f[..k + 1])) && Placed(BottomUp(f[k].childs)) && Placed([f[k]]) && Placed(BottomUp(f[..k]))
    ensures var w := Cut(BottomUp(f[k].childs), seen, reply);
            Cut(BottomUp(f[..k + 1]), seen, reply) ==
            if w.ret < 0 then w
            else
              var now := w.seen + [At(f[k])];
              if reply(now) < 0 then Walk(now, reply(now)) else Cut(BottomUp(f[..k]), now, reply)
  {
    RootedSlice(f, base, 0, k);
    RootedSlice(f, base, 0, k + 1);
    ForestPlaced(f[..k], base);
    ForestPlaced(f[..k + 1], base);
    ForestPlaced(f[k].childs, f[k].path);
    assert f[..k + 1][..k] == f[..k];
    var c, rest := BottomUp(f[k].childs), BottomUp(f[..k]);
    assert BottomUp(f[..k + 1]) == c + [f[k]] + rest;
    Associate(c, [f[k]], rest);
    hide BottomUp, Rooted;
    CutConcat(c, [f[k]] + rest, seen, reply);
    assert ([f[k]] + rest)[1..] == rest;
  }

  lemma DownStep(f: seq<Tree>, base: seq<Inst>, k: nat, seen: seq<Inst>, reply: seq<Inst> -> int)
    requires Rooted(f, base) && k < |f|
    ensures Placed(TopDown(f[k..])) && Placed(TopDown(f[k].childs)) && Placed(TopDown(f[k + 1..])) && f[k].path != []
    ensures var now := seen + [At(f[k])];
            var r := reply(now);
            Down(f[k..], seen, reply) ==
            if r < 0 then Walk(now, r)
            else if r == 0 then
              var w := Down(f[k].childs, now, reply);
              if w.ret < 0 then w else Down(f[k + 1..], w.seen, reply)
            else Down(f[k + 1..], now, reply)
  {
    RootedSlice(f, base, k, |f|);
    RootedSlice(f, base, k + 1, |f|);
    assert f[k..|f|] == f[k..] && f[k + 1..|f|] == f[k + 1..] && f[k..][1..] == f[k + 1..];
    hide TopDown, Rooted;
    ForestPlaced(f[k..], base);
    ForestPlaced(f[k + 1..], base);
    ForestPlaced(f[k].childs, f[k].path);
  }

  /** The loops of rc_walk_by_tree from top to bottom. */
  method WalkDown(s: Store, l: ListId, reply: seq<Inst> -> int, start: seq<Inst>,
                  ghost rank: Res -> int, ghost base: seq<Inst>, ghost bound: nat)
    returns (seen: seq<Inst>, ret: int)
    requires s.Sound() && l in s.lists
    requires Ranked(s.Contents(), rank) && Below(s.Contents(), rank, s.lists[l], bound)
    ensures var f := Unfold(s.Contents(), rank, s.lists[l], base, bound);
            Placed(TopDown(f)) && Walk(seen, ret) == Down(f, start, reply)
    decreases bound
  {
    hide RcMemory.Valid, Ranked, Kids, Unfold, TopDown, Down, Placed, Below, Rooted;
    var list := s.lists[l];
    ghost var m := s.Contents();
    ghost var f := Unfold(m, rank, list, base, bound);
    UnfoldRooted(m, rank, list, base, bound);
    ForestPlaced(f, base);
    assert f[0..] == f;
    seen := start;
    var k := 0;
    while k < |list|
      invariant k <= |list| && Placed(TopDown(f[k..])) && Down(f, start, reply) == Down(f[k..], seen, reply)
    {
      UnfoldAt(m, rank, list, base, bound, k);
      InstanceChilds(m, list, l, k);
      DownStep(f, base, k, seen, reply);
      var resource := s.insts[list[k]].resource;
      seen := seen + [list[k]];
      ret := reply(seen);
      if ret < 0 {
        return;
      } else if ret == 0 {
        seen, ret := WalkDown(s, Childs(resource), reply, seen, rank, base + [list[k]], rank(resource));
        if ret < 0 {
          return;
        }
      }
      k := k + 1;
    }
    DownNothing(f[k..], seen, reply);
    ret := 0;
  }

  lemma DownNothing(f: seq<Tree>, seen: seq<Inst>, reply: seq<Inst> -> int)
    requires f == []
    ensures Placed(TopDown(f)) && Down(f, seen, reply) == Walk(seen, 0)
    ensures Placed(BottomUp(f)) && Cut(BottomUp(f), seen, reply) == Walk(seen, 0)
  {
  }

  /** The loops of rc_walk_by_tree from bottom to top. */
  method WalkUp(s: Store, l: ListId, reply: seq<Inst> -> int, start: seq<Inst>,
                ghost rank: Res -> int, ghost base: seq<Inst>, ghost bound: nat)
    returns (seen: seq<Inst>, ret: int)
    requires s.Sound() && l in s.lists
    requires Ranked(s.Contents(), rank) && Below(s.Contents(), rank, s.lists[l], bound)
    ensures var f := Unfold(s.Contents(), rank, s.lists[l], base, bound);
            Placed(BottomUp(f)) && Walk(seen, ret) == Cut(BottomUp(f), start, reply)
    decreases bound
  {
    hide RcMemory.Valid, Ranked, Kids, Unfold, BottomUp, Cut, Placed, Below, Rooted;
    var list := s.lists[l];
    ghost var m := s.Contents();
    ghost var f := Unfold(m, rank, list, base, bound);
    UnfoldRooted(m, rank, list, base, bound);
    ForestPlaced(f, base);
    assert f[..|f|] == f;
    seen := start;
    var k := |list|;
    while k > 0
      invariant 0 <= k <= |list| && Placed(BottomUp(f[..k]))
      invariant Cut(BottomUp(f), start, reply) == Cut(BottomUp(f[..k]), seen, reply)
    {
      k := k - 1;
      UnfoldAt(m, rank, list, base, bound, k);
      InstanceChilds(m, list, l, k);
      UpStep(f, base, k, seen, reply);
      var resource := s.insts[list[k]].resource;
      seen, ret := WalkUp(s, Childs(resource), reply, seen, rank, base + [list[k]], rank(resource));
      if ret < 0 {
        return;
      }
      seen := seen + [list[k]];
      ret := reply(seen);
      if ret < 0 {
        return;
      }
    }
    DownNothing(f[..0], seen, reply);
    ret := 0;
  }

  /** rc_walk_by_tree. */
  method WalkByTree(s: Store, l: ListId, order: Order, reply: seq<Inst> -> int, ghost rank: Res -> int,
                    ghost bound: nat)
    returns (seen: seq<Inst>, ret: int)
    requires s.Sound() && l in s.lists
    requires Ranked(s.Contents(), rank) && Below(s.Contents(), rank, s.lists[l], bound)
    ensures var f := Unfold(s.Contents(), rank, s.lists[l], [], bound);
            Rooted(f, []) && Walk(seen, ret) == WalkOf(f, order, [], reply)
  {
    UnfoldRooted(s.Contents(), rank, s.lists[l], [], bound);
    hide RcMemory.Valid, Ranked, Kids, Unfold, BottomUp, Cut, Placed, Below, Rooted, LevelsBack, Levels, Down;
    match order
    case TopToBottom => seen, ret := WalkDown(s, l, reply, [], rank, [], bound);
    case BottomToTop => seen, ret := WalkUp(s, l, reply, [], rank, [], bound);
    case ByLevel(back) => seen, ret := WalkByLevel(s, l, back, reply, [], rank, [], bound);
  }

  // What a callback that always answers zero sees.

  lemma {:induction false} InstsReversed(nodes: seq<Tree>)
    requires Placed(nodes)
    ensures Placed(Reversed(nodes)) && Insts(Reversed(nodes)) == Reversed(Insts(nodes))
  {
    ReversedSame(nodes);
    SameMembers(Reversed(nodes), nodes);
    if nodes != [] {
      InstsReversed(nodes[1..]);
      assert Insts(nodes)[1..] == Insts(nodes[1..]);
      assert Insts(Reversed(nodes)) == Insts(Reversed(nodes[1..])) + [At(nodes[0])];
    }
  }

  ghost function Without<T>(s: seq<T>, j: nat): seq<T>
    requires j < |s|
  {
    s[..j] + s[j + 1..]
  }

  lemma WithoutBag<T>(s: seq<T>, j: nat)
    requires j < |s|
    ensures multiset(s) == multiset(Without(s, j)) + multiset{s[j]}
  {
    assert s == s[..j] + [s[j]] + s[j + 1..];
  }

  lemma InstsWithout(s: seq<Tree>, j: nat)
    requires Placed(s) && j < |s|
    ensures Placed(Without(s, j)) && Insts(Without(s, j)) == Without(Insts(s), j) && Insts(s)[j] == At(s[j])
  {
  }

  lemma {:induction false} InstsSame(a: seq<Tree>, b: seq<Tree>)
    requires Placed(a) && Placed(b) && multiset(a) == multiset(b)
    ensures multiset(Insts(a)) == multiset(Insts(b))
    decreases |a|
  {
    hide Insts, Without, Placed;
    SameMembers(a, b);
    if a == [] {
      assert |multiset(a)| == |a| && |multiset(b)| == |b|;
    } else {
      assert a[0] in a && a[0] in b;
      var j :| 0 <= j < |b| && b[j] == a[0];
      WithoutBag(a, 0);
      WithoutBag(b, j);
      InstsWithout(a, 0);
      InstsWithout(b, j);
      WithoutShorter(a, 0);
      assert multiset(Without(a, 0)) == multiset(a) - multiset{a[0]};
      assert multiset(Without(b, j)) == multiset(b) - multiset{a[0]};
      InstsSame(Without(a, 0), Without(b, j));
      WithoutBag(Insts(a), 0);
      WithoutBag(Insts(b), j);
    }
  }

  lemma WithoutShorter<T>(s: seq<T>, j: nat)
    requires j < |s|
    ensures |Without(s, j)| == |s| - 1
  {
  }

  lemma QuietCut(nodes: seq<Tree>, reply: seq<Inst> -> int)
    requires Placed(nodes) && forall s :: reply(s) == 0
    ensures Cut(nodes, [], reply) == Walk(Insts(nodes), 0)
  {
    CutIsPrefix(nodes, [], reply);
  }

  /** Walking from bottom to top sees what walking from top to bottom sees, backwards; walking by levels sees the
      same instances as often. */
  lemma WalkDuality(f: seq<Tree>, base: seq<Inst>, back: bool, reply: seq<Inst> -> int)
    requires Rooted(f, base) && forall s :: reply(s) == 0
    ensures var down, up := WalkOf(f, TopToBottom, [], reply), WalkOf(f, BottomToTop, [], reply);
            var level := WalkOf(f, ByLevel(back), [], reply);
            && down.ret == up.ret == level.ret == 0
            && up.seen == Reversed(down.seen)
            && multiset(level.seen) == multiset(down.seen)
  {
    hide Rooted, TopDown, BottomUp, LevelsBelow, LevelsBackBelow, Reversed, Down, Cut, Levels, LevelsBack, Insts,
         Placed;
    ForestPlaced(f, base);
    DownIsCut(f, [], reply);
    QuietCut(TopDown(f), reply);
    BottomUpReverses(f);
    QuietCut(BottomUp(f), reply);
    InstsReversed(TopDown(f));
    if back {
      LevelsBackSame(f);
      QuietCut(LevelsBack(f), reply);
      InstsSame(LevelsBack(f), TopDown(f));
    } else {
      LevelsSame(f);
      QuietCut(Levels(f), reply);
      InstsSame(Levels(f), TopDown(f));
    }
  }
}
