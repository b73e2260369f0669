/** The canonical ordering loop of utf8proc_decompose_custom: a stable reordering of combining characters. */
module Utf8Order {

  /** The combining class of a code point, as the property tables give it. */
  type Classes = int -> nat

  function Class(ccc: Classes, c: int): nat { ccc(c) }

  /** A character with class y belongs before a neighbour with class x. */
  predicate Misplaced(x: nat, y: nat) { x > y > 0 }

  /** No two neighbours are in the wrong order. */
  ghost predicate Ordered(ccc: Classes, s: seq<int>) {
    forall i :: 0 <= i < |s| - 1 ==> !Misplaced(Class(ccc, s[i]), Class(ccc, s[i + 1]))
  }

  /** The characters of class k and the starters, in order. */
  ghost function Line(ccc: Classes, s: seq<int>, k: nat): seq<int> {
    if s == [] then []
    else (if Class(ccc, s[0]) == k || Class(ccc, s[0]) == 0 then [s[0]] else []) + Line(ccc, s[1..], k)
  }

  /** A permutation in which starters stay where they are, and characters of equal class keep their order, also
      across the starters. */
  ghost predicate StableReordering(ccc: Classes, s: seq<int>, t: seq<int>) {
    && multiset(s) == multiset(t) && |s| == |t|
    && (forall i :: 0 <= i < |s| ==> (Class(ccc, s[i]) == 0 <==> Class(ccc, t[i]) == 0))
    && (forall i :: 0 <= i < |s| && Class(ccc, s[i]) == 0 ==> s[i] == t[i])
    && (forall k: nat :: Line(ccc, s, k) == Line(ccc, t, k))
  }

  // One exchange.

  ghost function Swap(s: seq<int>, i: nat): seq<int>
    requires i + 1 < |s|
  {
    s[i := s[i + 1]][i + 1 := s[i]]
  }

  lemma {:induction false} SwapLine(ccc: Classes, s: seq<int>, i: nat, k: nat)
    requires i + 1 < |s| && Misplaced(Class(ccc, s[i]), Class(ccc, s[i + 1]))
    ensures Line(ccc, Swap(s, i), k) == Line(ccc, s, k)
  {
    var t := Swap(s, i);
    if i == 0 {
      assert s[1..][1..] == s[2..] && t[1..][1..] == s[2..];
    } else {
      assert t[1..] == Swap(s[1..], i - 1);
      SwapLine(ccc, s[1..], i - 1, k);
    }
  }

  /** Every character's class, times how many characters are not before it. */
  ghost function Weight(ccc: Classes, s: seq<int>): nat {
    if s == [] then 0 else |s| * Class(ccc, s[0]) + Weight(ccc, s[1..])
  }

  lemma {:induction false} SwapWeight(ccc: Classes, s: seq<int>, i: nat)
    requires i + 1 < |s| && Misplaced(Class(ccc, s[i]), Class(ccc, s[i + 1]))
    ensures Weight(ccc, Swap(s, i)) < Weight(ccc, s)
  {
    var t := Swap(s, i);
    if i == 0 {
      var x, y, n := Class(ccc, s[0]), Class(ccc, s[1]), |s|;
      assert s[1..][1..] == s[2..] && t[1..][1..] == s[2..];
      assert Weight(ccc, s) == n * x + ((n - 1) * y + Weight(ccc, s[2..]));
      assert Weight(ccc, t) == n * y + ((n - 1) * x + Weight(ccc, s[2..]));
      assert n * x + (n - 1) * y == n * y + (n - 1) * x + (x - y);
    } else {
      assert t[1..] == Swap(s[1..], i - 1);
      SwapWeight(ccc, s[1..], i - 1);
    }
  }

  lemma SwapBag(s: seq<int>, i: nat)
    requires i + 1 < |s|
    ensures multiset(Swap(s, i)) == multiset(s)
  {
    assert s == s[..i] + [s[i], s[i + 1]] + s[i + 2..];
    assert Swap(s, i) == s[..i] + [s[i + 1], s[i]] + s[i + 2..];
  }

  lemma SwapStable(ccc: Classes, s: seq<int>, t: seq<int>, i: nat)
    requires StableReordering(ccc, s, t) && i + 1 < |t| && Misplaced(Class(ccc, t[i]), Class(ccc, t[i + 1]))
    ensures StableReordering(ccc, s, Swap(t, i))
  {
    SwapBag(t, i);
    forall k: nat
      ensures Line(ccc, s, k) == Line(ccc, Swap(t, i), k)
    {
      SwapLine(ccc, t, i, k);
    }
  }

  // The reordering is unique.

  lemma {:induction false} FirstOnLine(ccc: Classes, s: seq<int>, k: nat)
    requires Line(ccc, s, k) != []
    ensures exists j :: 0 <= j < |s| && s[j] == Line(ccc, s, k)[0] && (Class(ccc, s[j]) == k || Class(ccc, s[j]) == 0)
                        && forall i :: 0 <= i < j ==> Class(ccc, s[i]) != k && Class(ccc, s[i]) != 0
  {
    if Class(ccc, s[0]) == k || Class(ccc, s[0]) == 0 {
      assert s[0] == Line(ccc, s, k)[0];
    } else {
      FirstOnLine(ccc, s[1..], k);
      var j :| 0 <= j < |s[1..]| && s[1..][j] == Line(ccc, s[1..], k)[0]
               && (Class(ccc, s[1..][j]) == k || Class(ccc, s[1..][j]) == 0)
               && forall i :: 0 <= i < j ==> Class(ccc, s[1..][i]) != k && Class(ccc, s[1..][i]) != 0;
      assert s[j + 1] == s[1..][j];
      forall i | 0 <= i < j + 1
        ensures Class(ccc, s[i]) != k && Class(ccc, s[i]) != 0
      {
        assert i > 0 ==> s[i] == s[1..][i - 1];
      }
    }
  }

  /** Up to the first starter, the classes of an ordered string do not fall. */
  lemma {:induction false} OrderedRises(ccc: Classes, s: seq<int>, j: nat)
    requires Ordered(ccc, s) && j < |s| && forall i :: 0 <= i < j ==> Class(ccc, s[i]) != 0
    requires Class(ccc, s[j]) != 0
    ensures Class(ccc, s[0]) <= Class(ccc, s[j])
  {
    if j > 0 {
      OrderedRises(ccc, s, j - 1);
      assert !Misplaced(Class(ccc, s[j - 1]), Class(ccc, s[j]));
    }
  }

  lemma FirstClass(ccc: Classes, a: seq<int>, b: seq<int>)
    requires StableReordering(ccc, a, b) && Ordered(ccc, b) && a != [] && Class(ccc, a[0]) != 0
    ensures Class(ccc, b[0]) <= Class(ccc, a[0])
  {
    var k := Class(ccc, a[0]);
    assert Line(ccc, a, k) == Line(ccc, b, k) && Line(ccc, a, k)[0] == a[0];
    FirstOnLine(ccc, b, k);
    var j :| 0 <= j < |b| && b[j] == a[0] && forall i :: 0 <= i < j ==> Class(ccc, b[i]) != k && Class(ccc, b[i]) != 0;
    OrderedRises(ccc, b, j);
  }

  lemma TailBag(a: seq<int>, b: seq<int>)
    requires multiset(a) == multiset(b) && a != [] && b != [] && a[0] == b[0]
    ensures multiset(a[1..]) == multiset(b[1..])
  {
    assert a == [a[0]] + a[1..] && b == [b[0]] + b[1..];
    assert multiset(a[1..]) == multiset(a) - multiset{a[0]} && multiset(b[1..]) == multiset(b) - multiset{a[0]};
  }

  lemma TailLine(ccc: Classes, a: seq<int>, b: seq<int>, k: nat)
    requires Line(ccc, a, k) == Line(ccc, b, k) && a != [] && b != [] && a[0] == b[0]
    ensures Line(ccc, a[1..], k) == Line(ccc, b[1..], k)
  {
    var head := if Class(ccc, a[0]) == k || Class(ccc, a[0]) == 0 then [a[0]] else [];
    assert Line(ccc, a, k)[|head|..] == Line(ccc, a[1..], k);
    assert Line(ccc, b, k)[|head|..] == Line(ccc, b[1..], k);
  }

  lemma StableTail(ccc: Classes, a: seq<int>, b: seq<int>)
    requires StableReordering(ccc, a, b) && a != [] && a[0] == b[0]
    ensures StableReordering(ccc, a[1..], b[1..])
  {
    hide Line;
    var x, y := a[1..], b[1..];
    TailBag(a, b);
    forall i | 0 <= i < |x|
      ensures (Class(ccc, x[i]) == 0 <==> Class(ccc, y[i]) == 0) && (Class(ccc, x[i]) == 0 ==> x[i] == y[i])
    {
      assert x[i] == a[i + 1] && y[i] == b[i + 1];
    }
    forall k: nat
      ensures Line(ccc, x, k) == Line(ccc, y, k)
    {
      TailLine(ccc, a, b, k);
    }
  }

  /** Two stable reorderings of the same string that are both ordered are the same. */
  lemma {:induction false} OrderedUnique(ccc: Classes, a: seq<int>, b: seq<int>)
    requires StableReordering(ccc, a, b) && Ordered(ccc, a) && Ordered(ccc, b)
    ensures a == b
  {
    if a != [] {
      if Class(ccc, a[0]) != 0 {
        FirstClass(ccc, a, b);
        assert StableReordering(ccc, b, a);
        FirstClass(ccc, b, a);
        var k := Class(ccc, a[0]);
        assert Line(ccc, a, k)[0] == a[0] && Line(ccc, b, k)[0] == b[0];
      }
      assert a[0] == b[0];
      StableTail(ccc, a, b);
      assert Ordered(ccc, a[1..]) by {
        forall i | 0 <= i < |a| - 2
          ensures !Misplaced(Class(ccc, a[1..][i]), Class(ccc, a[1..][i + 1]))
        {
          assert !Misplaced(Class(ccc, a[i + 1]), Class(ccc, a[i + 2]));
        }
      }
      assert Ordered(ccc, b[1..]) by {
        forall i | 0 <= i < |b| - 2
          ensures !Misplaced(Class(ccc, b[1..][i]), Class(ccc, b[1..][i + 1]))
        {
          assert !Misplaced(Class(ccc, b[i + 1]), Class(ccc, b[i + 2]));
        }
      }
      OrderedUnique(ccc, a[1..], b[1..]);
    }
  }

  /** The loop: it steps back after an exchange. What it leaves is the canonical order, and by OrderedUnique the
      only one. */
  method Reorder(buffer: array<int>, wpos: nat, ccc: Classes)
    requires wpos <= buffer.Length
    modifies buffer
    ensures Ordered(ccc, buffer[..wpos]) && StableReordering(ccc, old(buffer[..wpos]), buffer[..wpos])
    ensures buffer[wpos..] == old(buffer[wpos..])
  {
    hide StableReordering;
    ghost var s := buffer[..wpos];
    StableSelf(ccc, s);
    var pos := 0;
    while pos < wpos - 1
      invariant 0 <= pos && (wpos > 0 ==> pos < wpos) && (wpos == 0 ==> pos == 0)
      invariant forall i :: 0 <= i < pos ==> !Misplaced(Class(ccc, buffer[i]), Class(ccc, buffer[i + 1]))
      invariant StableReordering(ccc, s, buffer[..wpos]) && buffer[wpos..] == old(buffer[wpos..])
      decreases Weight(ccc, buffer[..wpos]), wpos - pos
    {
      var uc1, uc2 := buffer[pos], buffer[pos + 1];
      if Class(ccc, uc1) > Class(ccc, uc2) && Class(ccc, uc2) > 0 {
        ghost var t := buffer[..wpos];
        SwapStable(ccc, s, t, pos);
        SwapWeight(ccc, t, pos);
        buffer[pos] := uc2;
        buffer[pos + 1] := uc1;
        assert buffer[..wpos] == Swap(t, pos);
        if pos > 0 {
          pos := pos - 1;
        } else {
          pos := pos + 1;
        }
      } else {
        pos := pos + 1;
      }
    }
  }

  lemma StableSelf(ccc: Classes, s: seq<int>)
    ensures StableReordering(ccc, s, s)
  {
  }
}
