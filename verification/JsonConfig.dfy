/** Merging configurations: recursive updates over JSON objects, protected or overwriting, with lists as sets. */
module JsonConfig {
  import opened Wrappers

  /** A jansson value: an object keeps its members in the order of their insertion. */
  datatype Json =
    | Null | Bool(b: bool) | Integer(i: int) | Real(r: real) | Text(s: string)
    | Array(items: seq<Json>) | Object(members: seq<Member>)

  datatype Member = Member(key: string, value: Json)

  /** What json_dumps writes for a value: the code compares these. */
  type Dumps = Json -> string

  function Dump(dumps: Dumps, j: Json): string { dumps(j) }

  // Objects.

  function Keys(a: seq<Member>): (k: seq<string>)
    ensures |k| == |a|
    ensures forall i :: 0 <= i < |a| ==> k[i] == a[i].key
  {
    seq(|a|, i requires 0 <= i < |a| => a[i].key)
  }

  ghost predicate Unique(a: seq<Member>) { forall i, j :: 0 <= i < j < |a| ==> a[i].key != a[j].key }

  /** Keys are unique at every level of objects. */
  ghost predicate Proper(a: seq<Member>) {
    Unique(a) && forall i :: 0 <= i < |a| && a[i].value.Object? ==> Proper(a[i].value.members)
  }

  ghost predicate ProperValue(j: Json) { j.Object? ==> Proper(j.members) }

  /** json_object_get. */
  function Get(a: seq<Member>, key: string): (r: Option<Json>)
    ensures r.Some? <==> exists i :: 0 <= i < |a| && a[i].key == key
  {
    if a == [] then None else if a[0].key == key then Some(a[0].value) else Get(a[1..], key)
  }

  /** json_object_set_nocheck: it replaces a value in its place, and puts a new key last. */
  function Set(a: seq<Member>, key: string, value: Json): seq<Member> {
    if a == [] then [Member(key, value)]
    else if a[0].key == key then [Member(key, value)] + a[1..]
    else [a[0]] + Set(a[1..], key, value)
  }

  lemma {:induction false} SetGet(a: seq<Member>, key: string, value: Json, other: string)
    ensures Get(Set(a, key, value), other) == if other == key then Some(value) else Get(a, other)
  {
    if a != [] && a[0].key != key {
      SetGet(a[1..], key, value, other);
      assert Set(a, key, value)[1..] == Set(a[1..], key, value);
    } else if a != [] {
      assert Set(a, key, value)[1..] == a[1..];
    }
  }

  lemma {:induction false} SetKeys(a: seq<Member>, key: string, value: Json)
    ensures Keys(Set(a, key, value)) == if Get(a, key).Some? then Keys(a) else Keys(a) + [key]
  {
    if a != [] && a[0].key != key {
      SetKeys(a[1..], key, value);
      KeysOf(a[0], Set(a[1..], key, value));
      KeysOf(a[0], a[1..]);
      assert a == [a[0]] + a[1..];
      Associate([a[0].key], Keys(a[1..]), [key]);
    } else if a == [] {
      assert Keys(Set(a, key, value)) == [key];
    } else {
      assert Keys(Set(a, key, value)) == Keys(a);
    }
  }

  lemma KeysOf(m: Member, a: seq<Member>)
    ensures Keys([m] + a) == [m.key] + Keys(a)
  {
  }

  /** Setting the value that is there changes nothing. */
  lemma {:induction false} SetSame(a: seq<Member>, key: string)
    requires Get(a, key).Some?
    ensures Set(a, key, Get(a, key).value) == a
  {
    if a[0].key != key {
      SetSame(a[1..], key);
    }
  }

  /** Two objects with the same keys in the same order and the same values are the same. */
  lemma {:induction false} SameObject(a: seq<Member>, b: seq<Member>)
    requires Unique(a) && Keys(a) == Keys(b) && forall k :: Get(a, k) == Get(b, k)
    ensures a == b
  {
    if a != [] {
      assert |a| == |Keys(a)| == |b|;
      assert a[0].key == Keys(a)[0] == b[0].key;
      assert Get(a, a[0].key) == Get(b, a[0].key);
      forall k
        ensures Get(a[1..], k) == Get(b[1..], k)
      {
        assert Get(a, k) == Get(b, k);
        NotAgain(a);
        assert Unique(b) by {
          forall i, j | 0 <= i < j < |b|
            ensures b[i].key != b[j].key
          {
            assert Keys(a)[i] == Keys(b)[i] && Keys(a)[j] == Keys(b)[j];
          }
        }
        NotAgain(b);
      }
      assert Keys(a[1..]) == Keys(a)[1..] && Keys(b[1..]) == Keys(b)[1..];
      SameObject(a[1..], b[1..]);
      assert a == [a[0]] + a[1..] && b == [b[0]] + b[1..];
    }
  }

  lemma NotAgain(a: seq<Member>)
    requires Unique(a) && a != []
    ensures Get(a[1..], a[0].key) == None && Unique(a[1..])
  {
  }

  // Lists as sets.

  /** json_list_find: a value with the same dump. */
  predicate Found(dumps: Dumps, list: seq<Json>, value: Json) {
    exists i :: 0 <= i < |list| && Dump(dumps, list[i]) == Dump(dumps, value)
  }

  /** json_list_update with as_set. */
  function Extend(dumps: Dumps, list: seq<Json>, other: seq<Json>): (r: seq<Json>)
    ensures list <= r
    decreases |other|
  {
    if other == [] then list
    else Extend(dumps, if Found(dumps, list, other[0]) then list else list + [other[0]], other[1..])
  }

  lemma {:induction false} ExtendHasAll(dumps: Dumps, list: seq<Json>, other: seq<Json>)
    ensures forall v <- other :: Found(dumps, Extend(dumps, list, other), v)
    ensures forall v :: Found(dumps, list, v) ==> Found(dumps, Extend(dumps, list, other), v)
    decreases |other|
  {
    if other != [] {
      var next := if Found(dumps, list, other[0]) then list else list + [other[0]];
      ExtendHasAll(dumps, next, other[1..]);
      assert Found(dumps, next, other[0]) by {
        if !Found(dumps, list, other[0]) {
          assert next[|list|] == other[0];
        }
      }
      forall v | Found(dumps, list, v)
        ensures Found(dumps, next, v)
      {
        var i :| 0 <= i < |list| && Dump(dumps, list[i]) == Dump(dumps, v);
        assert next[i] == list[i];
      }
    }
  }

  lemma {:induction false} ExtendNothing(dumps: Dumps, list: seq<Json>, other: seq<Json>)
    requires forall v <- other :: Found(dumps, list, v)
    ensures Extend(dumps, list, other) == list
    decreases |other|
  {
    if other != [] {
      ExtendNothing(dumps, list, other[1..]);
    }
  }

  /** What is appended was missing: new items come from the other list, and none has the dump of an item before it. */
  lemma {:induction false} ExtendAddsMissing(dumps: Dumps, list: seq<Json>, other: seq<Json>, i: nat)
    requires |list| <= i < |Extend(dumps, list, other)|
    ensures var r := Extend(dumps, list, other);
            r[i] in other && !Found(dumps, r[..i], r[i])
    decreases |other|
  {
    if other != [] {
      var next := if Found(dumps, list, other[0]) then list else list + [other[0]];
      var r := Extend(dumps, next, other[1..]);
      if i < |next| {
        assert r[..i] == list && r[i] == other[0];
      } else {
        ExtendAddsMissing(dumps, next, other[1..], i);
      }
    }
  }

  /** Extending twice with the same list is extending once. */
  lemma ExtendIdempotent(dumps: Dumps, list: seq<Json>, other: seq<Json>)
    ensures Extend(dumps, Extend(dumps, list, other), other) == Extend(dumps, list, other)
    ensures Extend(dumps, other, other) == other
  {
    ExtendHasAll(dumps, list, other);
    ExtendNothing(dumps, Extend(dumps, list, other), other);
    forall v <- other
      ensures Found(dumps, other, v)
    {
      var i :| 0 <= i < |other| && other[i] == v;
      assert Dump(dumps, other[i]) == Dump(dumps, v);
    }
    ExtendNothing(dumps, other, other);
  }

  // Merging.

  /** The value at a key both objects may have: `d` is in the one that is updated. */
  function Joined(dumps: Dumps, d: Option<Json>, v: Json, overwrite: bool): Json
    decreases v, 1
  {
    if d.Some? && d.value.Object? && v.Object? then Object(Merge(dumps, d.value.members, v.members, overwrite))
    else if d.Some? && d.value.Array? && v.Array? then
      if overwrite then Array(Extend(dumps, d.value.items, v.items)) else d.value
    else if overwrite || d.None? then v
    else d.value
  }

  /** json_dict_recursive_update, member by member of the other object. */
  function Merge(dumps: Dumps, a: seq<Member>, b: seq<Member>, overwrite: bool): seq<Member>
    decreases b, 0
  {
    if b == [] then a
    else Merge(dumps, Set(a, b[0].key, Joined(dumps, Get(a, b[0].key), b[0].value, overwrite)), b[1..], overwrite)
  }

  /** What the merge does to each key. */
  lemma {:induction false} MergeGet(dumps: Dumps, a: seq<Member>, b: seq<Member>, overwrite: bool, key: string)
    requires Unique(b)
    ensures Get(Merge(dumps, a, b, overwrite), key) ==
            if Get(b, key).Some? then Some(Joined(dumps, Get(a, key), Get(b, key).value, overwrite)) else Get(a, key)
    decreases |b|
  {
    hide Joined;
    if b != [] {
      var v := Joined(dumps, Get(a, b[0].key), b[0].value, overwrite);
      NotAgain(b);
      SetGet(a, b[0].key, v, key);
      MergeGet(dumps, Set(a, b[0].key, v), b[1..], overwrite, key);
    }
  }

  /** The keys of b that are not in a. */
  function NewKeys(a: seq<Member>, b: seq<Member>): seq<string> {
    if b == [] then []
    else (if Get(a, b[0].key).Some? then [] else [b[0].key]) + NewKeys(a, b[1..])
  }

  lemma {:induction false} NewKeysSame(a: seq<Member>, c: seq<Member>, b: seq<Member>)
    requires forall i :: 0 <= i < |b| ==> (Get(a, b[i].key).Some? <==> Get(c, b[i].key).Some?)
    ensures NewKeys(a, b) == NewKeys(c, b)
  {
    if b != [] {
      assert Get(a, b[0].key).Some? <==> Get(c, b[0].key).Some?;
      forall i | 0 <= i < |b| - 1
        ensures Get(a, b[1..][i].key).Some? <==> Get(c, b[1..][i].key).Some?
      {
        assert b[1..][i] == b[i + 1];
      }
      NewKeysSame(a, c, b[1..]);
    }
  }

  /** The merge keeps the keys in their order, and puts the other's new keys after them: it takes the union. */
  lemma {:induction false} MergeKeys(dumps: Dumps, a: seq<Member>, b: seq<Member>, overwrite: bool)
    requires Unique(b)
    ensures Keys(Merge(dumps, a, b, overwrite)) == Keys(a) + NewKeys(a, b)
    decreases |b|
  {
    hide Joined, Keys, Set, Get, Unique, NewKeys;
    if b == [] {
      assert NewKeys(a, []) == [] by {
        NewKeysFirst(a, b);
      }
      assert Keys(a) + [] == Keys(a);
    } else {
      var v := Joined(dumps, Get(a, b[0].key), b[0].value, overwrite);
      NotAgain(b);
      SetKeys(a, b[0].key, v);
      MergeKeys(dumps, Set(a, b[0].key, v), b[1..], overwrite);
      SetNewKeys(a, b, v);
      NewKeysFirst(a, b);
      Associate(Keys(a), if Get(a, b[0].key).Some? then [] else [b[0].key], NewKeys(a, b[1..]));
      assert Keys(a) + [] == Keys(a);
    }
  }

  lemma NewKeysFirst(a: seq<Member>, b: seq<Member>)
    ensures NewKeys(a, b) ==
            if b == [] then []
            else (if Get(a, b[0].key).Some? then [] else [b[0].key]) + NewKeys(a, b[1..])
  {
  }

  lemma Associate(a: seq<string>, b: seq<string>, c: seq<string>)
    ensures a + (b + c) == a + b + c
  {
  }

  lemma SetNewKeys(a: seq<Member>, b: seq<Member>, v: Json)
    requires Unique(b) && b != []
    ensures NewKeys(Set(a, b[0].key, v), b[1..]) == NewKeys(a, b[1..])
  {
    hide Set, Get, NewKeys;
    var c := Set(a, b[0].key, v);
    forall i | 0 <= i < |b| - 1
      ensures Get(c, b[1..][i].key).Some? <==> Get(a, b[1..][i].key).Some?
    {
      assert b[1..][i].key == b[i + 1].key != b[0].key;
      SetGet(a, b[0].key, v, b[1..][i].key);
    }
    NewKeysSame(a, c, b[1..]);
  }

  lemma {:induction false} NoNewKeys(a: seq<Member>, b: seq<Member>)
    requires forall i :: 0 <= i < |b| ==> Get(a, b[i].key).Some?
    ensures NewKeys(a, b) == []
  {
    if b != [] {
      assert Get(a, b[0].key).Some?;
      forall i | 0 <= i < |b| - 1
        ensures Get(a, b[1..][i].key).Some?
      {
        assert b[1..][i] == b[i + 1];
      }
      NoNewKeys(a, b[1..]);
    }
  }

  lemma UniqueKeys(a: seq<Member>)
    ensures Unique(a) <==> forall i, j :: 0 <= i < j < |Keys(a)| ==> Keys(a)[i] != Keys(a)[j]
  {
    assert forall i :: 0 <= i < |a| ==> Keys(a)[i] == a[i].key;
  }

  lemma {:induction false} NewKeysAre(a: seq<Member>, b: seq<Member>)
    requires Unique(b)
    ensures forall i, j :: 0 <= i < j < |NewKeys(a, b)| ==> NewKeys(a, b)[i] != NewKeys(a, b)[j]
    ensures forall k :: k in NewKeys(a, b) <==> Get(b, k).Some? && Get(a, k).None?
  {
    if b != [] {
      NotAgain(b);
      NewKeysAre(a, b[1..]);
    }
  }

  lemma MergeUnique(dumps: Dumps, a: seq<Member>, b: seq<Member>, overwrite: bool)
    requires Unique(a) && Unique(b)
    ensures Unique(Merge(dumps, a, b, overwrite))
  {
    hide Joined, Merge, NewKeys;
    var m := Merge(dumps, a, b, overwrite);
    MergeKeys(dumps, a, b, overwrite);
    UniqueKeys(a);
    UniqueKeys(m);
    NewKeysAre(a, b);
    forall i, j | 0 <= i < |a| && 0 <= j < |NewKeys(a, b)|
      ensures Keys(a)[i] != NewKeys(a, b)[j]
    {
      assert NewKeys(a, b)[j] in NewKeys(a, b);
    }
  }

  lemma {:induction false} GetMember(a: seq<Member>, i: nat)
    requires Unique(a) && i < |a|
    ensures Get(a, a[i].key) == Some(a[i].value)
  {
    if i > 0 {
      NotAgain(a);
      GetMember(a[1..], i - 1);
    }
  }

  lemma {:induction false} GetIsMember(a: seq<Member>, key: string) returns (i: nat)
    requires Get(a, key).Some?
    ensures i < |a| && a[i] == Member(key, Get(a, key).value)
  {
    if a[0].key == key {
      i := 0;
    } else {
      var j := GetIsMember(a[1..], key);
      i := j + 1;
    }
  }

  lemma ProperGet(a: seq<Member>, key: string)
    requires Proper(a) && Get(a, key).Some?
    ensures ProperValue(Get(a, key).value) && Get(a, key).value < Object(a)
  {
    var i := GetIsMember(a, key);
    assert a[i].value.Object? ==> Proper(a[i].value.members);
  }

  /** Merging keeps keys unique at every level. */
  lemma {:induction false} JoinedProper(dumps: Dumps, d: Option<Json>, v: Json, overwrite: bool)
    requires (d.Some? ==> ProperValue(d.value)) && ProperValue(v)
    ensures ProperValue(Joined(dumps, d, v, overwrite))
    decreases v
  {
    if d.Some? && d.value.Object? && v.Object? {
      hide Merge;
      var a, b := d.value.members, v.members;
      var m := Merge(dumps, a, b, overwrite);
      MergeUnique(dumps, a, b, overwrite);
      forall i | 0 <= i < |m| && m[i].value.Object?
        ensures Proper(m[i].value.members)
      {
        GetMember(m, i);
        MergeGet(dumps, a, b, overwrite, m[i].key);
        if Get(a, m[i].key).Some? {
          ProperGet(a, m[i].key);
        }
        if Get(b, m[i].key).Some? {
          ProperGet(b, m[i].key);
          JoinedProper(dumps, Get(a, m[i].key), Get(b, m[i].key).value, overwrite);
        }
      }
    }
  }

  // Merging twice.

  lemma {:induction false} JoinedSelf(dumps: Dumps, v: Json, overwrite: bool)
    requires ProperValue(v)
    ensures Joined(dumps, Some(v), v, overwrite) == v
    decreases v
  {
    if v.Array? {
      ExtendIdempotent(dumps, v.items, v.items);
    } else if v.Object? {
      hide Merge;
      var b := v.members;
      var m := Merge(dumps, b, b, overwrite);
      MergeUnique(dumps, b, b, overwrite);
      MergeKeys(dumps, b, b, overwrite);
      NoNewKeys(b, b);
      forall k
        ensures Get(m, k) == Get(b, k)
      {
        MergeGet(dumps, b, b, overwrite, k);
        if Get(b, k).Some? {
          ProperGet(b, k);
          JoinedSelf(dumps, Get(b, k).value, overwrite);
        }
      }
      SameObject(m, b);
    }
  }

  /** Updating twice from the same value, protected or overwriting, is updating once. */
  lemma {:induction false} JoinedTwice(dumps: Dumps, d: Option<Json>, v: Json, overwrite: bool)
    requires (d.Some? ==> ProperValue(d.value)) && ProperValue(v)
    ensures var j := Joined(dumps, d, v, overwrite);
            Joined(dumps, Some(j), v, overwrite) == j
    decreases v
  {
    if d.Some? && d.value.Object? && v.Object? {
      MergeTwice(dumps, d.value.members, v.members, overwrite);
    } else if d.Some? && d.value.Array? && v.Array? {
      ExtendIdempotent(dumps, d.value.items, v.items);
    } else {
      JoinedSelf(dumps, v, overwrite);
    }
  }

  lemma {:induction false} MergeTwice(dumps: Dumps, a: seq<Member>, b: seq<Member>, overwrite: bool)
    requires Proper(a) && Proper(b)
    ensures var m := Merge(dumps, a, b, overwrite);
            Merge(dumps, m, b, overwrite) == m
    decreases b
  {
    hide Merge, Joined, NewKeys;
    var m := Merge(dumps, a, b, overwrite);
    var mm := Merge(dumps, m, b, overwrite);
    MergeUnique(dumps, a, b, overwrite);
    MergeUnique(dumps, m, b, overwrite);
    MergeKeys(dumps, m, b, overwrite);
    forall i | 0 <= i < |b|
      ensures Get(m, b[i].key).Some?
    {
      MergeGet(dumps, a, b, overwrite, b[i].key);
    }
    NoNewKeys(m, b);
    forall k
      ensures Get(mm, k) == Get(m, k)
    {
      MergeGet(dumps, a, b, overwrite, k);
      MergeGet(dumps, m, b, overwrite, k);
      if Get(b, k).Some? {
        if Get(a, k).Some? {
          ProperGet(a, k);
        }
        ProperGet(b, k);
        var i := GetIsMember(b, k);
        JoinedTwice(dumps, Get(a, k), b[i].value, overwrite);
      }
    }
    SameObject(mm, m);
  }

  // What is at a path.

  function At(j: Json, path: seq<string>): Option<Json>
    decreases |path|
  {
    if path == [] then Some(j)
    else if j.Object? && Get(j.members, path[0]).Some? then At(Get(j.members, path[0]).value, path[1..])
    else None
  }

  /** The path runs into something that is no object before its end. */
  predicate Stops(j: Json, path: seq<string>)
    decreases |path|
  {
    path != [] && (!j.Object? || (Get(j.members, path[0]).Some? && Stops(Get(j.members, path[0]).value, path[1..])))
  }

  lemma {:induction false} JoinedOver(dumps: Dumps, a: Json, b: Json, path: seq<string>)
    requires ProperValue(a) && ProperValue(b)
    ensures At(Joined(dumps, Some(a), b, true), path) ==
            if At(b, path).Some? then Some(Joined(dumps, At(a, path), At(b, path).value, true))
            else if Stops(b, path) then None
            else At(a, path)
    decreases path
  {
    if path != [] && a.Object? && b.Object? {
      hide Merge;
      var k := path[0];
      var x, y := Get(a.members, k), Get(b.members, k);
      MergeGet(dumps, a.members, b.members, true, k);
      if x.Some? && y.Some? {
        ProperGet(a.members, k);
        ProperGet(b.members, k);
        JoinedOver(dumps, x.value, y.value, path[1..]);
      }
    }
  }

  lemma {:induction false} JoinedUnder(dumps: Dumps, a: Json, b: Json, path: seq<string>)
    requires ProperValue(a) && ProperValue(b)
    ensures At(Joined(dumps, Some(a), b, false), path) ==
            if At(a, path).Some? then
              if At(b, path).Some? then Some(Joined(dumps, At(a, path), At(b, path).value, false)) else At(a, path)
            else if Stops(a, path) then None
            else At(b, path)
    decreases path
  {
    if path != [] && a.Object? && b.Object? {
      hide Merge;
      var k := path[0];
      var x, y := Get(a.members, k), Get(b.members, k);
      MergeGet(dumps, a.members, b.members, false, k);
      if x.Some? && y.Some? {
        ProperGet(a.members, k);
        ProperGet(b.members, k);
        JoinedUnder(dumps, x.value, y.value, path[1..]);
      }
    }
  }

  /** What json_dict_recursive_update leaves of its target. */
  function Update(dumps: Dumps, target: Json, other: Json, overwrite: bool): Json {
    if target.Object? && other.Object? then Object(Merge(dumps, target.members, other.members, overwrite)) else target
  }

  /** Both are objects, or both are lists. */
  predicate SameKind(x: Json, y: Json) { (x.Object? && y.Object?) || (x.Array? && y.Array?) }

  /** A list with all of x, in its order, then what of y it did not have, by their dumps, and nothing else. */
  ghost predicate Extended(dumps: Dumps, x: seq<Json>, y: seq<Json>, r: seq<Json>) {
    && x <= r
    && (forall v <- y :: Found(dumps, r, v))
    && (forall i :: |x| <= i < |r| ==> r[i] in y && !Found(dumps, r[..i], r[i]))
  }

  lemma ExtendIs(dumps: Dumps, x: seq<Json>, y: seq<Json>)
    ensures Extended(dumps, x, y, Extend(dumps, x, y))
  {
    hide Found, Extend;
    var r := Extend(dumps, x, y);
    ExtendHasAll(dumps, x, y);
    forall i | |x| <= i < |r|
      ensures r[i] in y && !Found(dumps, r[..i], r[i])
    {
      ExtendAddsMissing(dumps, x, y, i);
    }
  }

  /** The overwriting update at every path: what the other has there replaces what was there, unless both are objects,
      which stay one, or lists, which are extended; where the other has nothing, it takes away only what is below
      something of its own that is no object. */
  lemma OverwritingPaths(dumps: Dumps, a: Json, b: Json, path: seq<string>)
    requires a.Object? && b.Object? && ProperValue(a) && ProperValue(b)
    ensures var x, y, r := At(a, path), At(b, path), At(Update(dumps, a, b, true), path);
            if y.None? then r == if Stops(b, path) then None else x
            else
              && r.Some?
              && (x.None? || !SameKind(x.value, y.value) ==> r == y)
              && (x.Some? && x.value.Object? && y.value.Object? ==> r.value.Object?)
              && (x.Some? && x.value.Array? && y.value.Array? ==>
                    r.value.Array? && Extended(dumps, x.value.items, y.value.items, r.value.items))
  {
    hide Merge, Extended;
    JoinedOver(dumps, a, b, path);
    var x, y := At(a, path), At(b, path);
    if x.Some? && y.Some? && x.value.Array? && y.value.Array? {
      ExtendIs(dumps, x.value.items, y.value.items);
    }
  }

  /** The protected update at every path: what the target has there stays, an object as one with more in it; where it
      has nothing, what the other has is added, unless that is below something of the target that is no object. */
  lemma ProtectedPaths(dumps: Dumps, a: Json, b: Json, path: seq<string>)
    requires a.Object? && b.Object? && ProperValue(a) && ProperValue(b)
    ensures var x, y, r := At(a, path), At(b, path), At(Update(dumps, a, b, false), path);
            if x.None? then r == if Stops(a, path) then None else y
            else
              && r.Some?
              && (y.None? || !x.value.Object? || !y.value.Object? ==> r == x)
              && (y.Some? && x.value.Object? && y.value.Object? ==> r.value.Object?)
  {
    hide Merge;
    JoinedUnder(dumps, a, b, path);
  }

  /** In particular, everything down to the target's non-object leaves stays. */
  lemma ProtectedLeaves(dumps: Dumps, a: Json, b: Json, path: seq<string>)
    requires a.Object? && b.Object? && ProperValue(a) && ProperValue(b)
    requires At(a, path).Some? && !At(a, path).value.Object?
    ensures At(Update(dumps, a, b, false), path) == At(a, path)
  {
    ProtectedPaths(dumps, a, b, path);
  }

  /** The variable configuration after overwriting it with the files and the command line, in this order. */
  function Updated(dumps: Dumps, variable: Json, updates: seq<Json>): Json {
    if updates == [] then variable
    else Update(dumps, Updated(dumps, variable, updates[..|updates| - 1]), updates[|updates| - 1], true)
  }

  /** The order of merging in json_config: what the fixed configuration has is protected from all the others. */
  function Configured(dumps: Dumps, fixed: Json, variable: Json, updates: seq<Json>): Json {
    Update(dumps, fixed, Updated(dumps, variable, updates), false)
  }

  lemma {:induction false} UpdatedProper(dumps: Dumps, variable: Json, updates: seq<Json>)
    requires variable.Object? && ProperValue(variable) && forall u <- updates :: ProperValue(u)
    ensures var u := Updated(dumps, variable, updates);
            u.Object? && ProperValue(u)
    decreases |updates|
  {
    hide Merge;
    if updates != [] {
      var n := |updates| - 1;
      UpdatedProper(dumps, variable, updates[..n]);
      JoinedProper(dumps, Some(Updated(dumps, variable, updates[..n])), updates[n], true);
    }
  }

  /** Which source decides what a configuration has at a path. The fixed one does where it has something other than an
      object, or something above that is none. Where it has nothing, the last source does: what it has there is
      configured, unless the sources before have an object or a list there too, which stays an object or is extended. */
  lemma Precedence(dumps: Dumps, fixed: Json, variable: Json, updates: seq<Json>, last: Json, path: seq<string>)
    requires fixed.Object? && variable.Object? && last.Object?
    requires ProperValue(fixed) && ProperValue(variable) && ProperValue(last) && forall u <- updates :: ProperValue(u)
    ensures var c := At(Configured(dumps, fixed, variable, updates + [last]), path);
            var f, v, p := At(fixed, path), At(Updated(dumps, variable, updates), path), At(last, path);
            && (f.Some? && !f.value.Object? ==> c == f)
            && (Stops(fixed, path) ==> c.None?)
            && (f.None? && !Stops(fixed, path) ==>
                  if p.None? then c == if Stops(last, path) then None else v
                  else
                    && c.Some?
                    && (v.None? || !SameKind(v.value, p.value) ==> c == p)
                    && (v.Some? && v.value.Object? && p.value.Object? ==> c.value.Object?)
                    && (v.Some? && v.value.Array? && p.value.Array? ==>
                          c.value.Array? && Extended(dumps, v.value.items, p.value.items, c.value.items)))
  {
    hide At, Stops, Merge, Extended;
    var before := Updated(dumps, variable, updates);
    var all := updates + [last];
    assert all[..|updates|] == updates;
    UpdatedProper(dumps, variable, updates);
    JoinedProper(dumps, Some(before), last, true);
    var after := Update(dumps, before, last, true);
    assert Configured(dumps, fixed, variable, all) == Update(dumps, fixed, after, false);
    ProtectedPaths(dumps, fixed, after, path);
    OverwritingPaths(dumps, before, last, path);
    StopsNowhere(fixed, path);
  }

  /** A leaf of the last source is the configured value wherever the fixed configuration has nothing, not even above. */
  lemma LastLeaf(dumps: Dumps, fixed: Json, variable: Json, updates: seq<Json>, last: Json, path: seq<string>)
    requires fixed.Object? && variable.Object? && last.Object?
    requires ProperValue(fixed) && ProperValue(variable) && ProperValue(last) && forall u <- updates :: ProperValue(u)
    requires At(fixed, path).None? && !Stops(fixed, path)
    requires At(last, path).Some? && !At(last, path).value.Object? && !At(last, path).value.Array?
    ensures At(Configured(dumps, fixed, variable, updates + [last]), path) == At(last, path)
  {
    hide At, Stops, Configured, Updated, Extended;
    Precedence(dumps, fixed, variable, updates, last, path);
  }

  lemma {:induction false} StopsNowhere(j: Json, path: seq<string>)
    ensures Stops(j, path) ==> At(j, path).None?
    decreases |path|
  {
    if path != [] && j.Object? && Get(j.members, path[0]).Some? {
      StopsNowhere(Get(j.members, path[0]).value, path[1..]);
    }
  }

  // The code.

  /** json_list_find: the index of the first value with the same dump, or -1. */
  method ListFind(dumps: Dumps, list: seq<Json>, value: Json) returns (index: int)
    ensures -1 <= index < |list|
    ensures index >= 0 <==> Found(dumps, list, value)
    ensures index >= 0 ==> Dump(dumps, list[index]) == Dump(dumps, value)
    ensures forall i :: 0 <= i < index ==> Dump(dumps, list[i]) != Dump(dumps, value)
  {
    hide Dump;
    for i := 0 to |list|
      invariant forall k :: 0 <= k < i ==> Dump(dumps, list[k]) != Dump(dumps, value)
    {
      if Dump(dumps, list[i]) == Dump(dumps, value) {
        return i;
      }
    }
    return -1;
  }

  /** json_list_update. */
  method ListUpdate(dumps: Dumps, list: Json, other: Json, asSet: bool) returns (ret: int, r: Json)
    ensures if !list.Array? || !other.Array? then ret == -1 && r == list
            else
              && ret == 0
              && r == Array(if asSet then Extend(dumps, list.items, other.items) else list.items + other.items)
  {
    hide Found, Extend;
    if !list.Array? || !other.Array? {
      return -1, list;
    }
    var items := list.items;
    var rest := other.items;
    assert rest[0..] == rest && rest[|rest|..] == [] && rest[..|rest|] == rest;
    for i := 0 to |rest|
      invariant asSet ==> Extend(dumps, list.items, rest) == Extend(dumps, items, rest[i..])
      invariant !asSet ==> items == list.items + rest[..i]
    {
      var value := rest[i];
      if asSet {
        ExtendNext(dumps, items, rest, i);
        var idx := ListFind(dumps, items, value);
        if idx < 0 {
          items := items + [value];
        }
      } else {
        items := items + [value];
      }
    }
    ExtendEnds(dumps, items);
    return 0, Array(items);
  }

  lemma ExtendEnds(dumps: Dumps, list: seq<Json>)
    ensures Extend(dumps, list, []) == list
  {
  }

  lemma ExtendNext(dumps: Dumps, list: seq<Json>, other: seq<Json>, i: nat)
    requires i < |other|
    ensures Extend(dumps, list, other[i..]) ==
            Extend(dumps, if Found(dumps, list, other[i]) then list else list + [other[i]], other[i + 1..])
  {
    hide Found;
    assert other[i..][1..] == other[i + 1..];
  }

  /** json_dict_recursive_update. */
  method DictRecursiveUpdate(dumps: Dumps, target: Json, other: Json, overwrite: bool) returns (ret: int, r: Json)
    ensures if !target.Object? || !other.Object? then ret == -1 && r == target
            else ret == 0 && r == Object(Merge(dumps, target.members, other.members, overwrite))
    decreases other
  {
    hide Merge, Set, Get, Extend;
    if !target.Object? || !other.Object? {
      return -1, target;
    }
    var members := target.members;
    var rest := other.members;
    assert rest[0..] == rest && rest[|rest|..] == [];
    for i := 0 to |rest|
      invariant Merge(dumps, target.members, rest, overwrite) == Merge(dumps, members, rest[i..], overwrite)
    {
      MergeNext(dumps, members, rest, overwrite, i);
      var key, value := rest[i].key, rest[i].value;
      var dvalue := Get(members, key);
      if dvalue.Some? {
        SetSame(members, key);
      }
      if dvalue.Some? && dvalue.value.Object? && value.Object? {
        var _, updated := DictRecursiveUpdate(dumps, dvalue.value, value, overwrite);
        members := Set(members, key, updated);
      } else if dvalue.Some? && dvalue.value.Array? && value.Array? {
        if overwrite {
          var _, updated := ListUpdate(dumps, dvalue.value, value, true);
          members := Set(members, key, updated);
        }
      } else {
        if overwrite {
          members := Set(members, key, value);
        } else if dvalue.None? {
          members := Set(members, key, value);
        }
      }
    }
    MergeEnds(dumps, members, overwrite);
    return 0, Object(members);
  }

  lemma MergeNext(dumps: Dumps, a: seq<Member>, b: seq<Member>, overwrite: bool, i: nat)
    requires i < |b|
    ensures Merge(dumps, a, b[i..], overwrite) ==
            Merge(dumps, Set(a, b[i].key, Joined(dumps, Get(a, b[i].key), b[i].value, overwrite)), b[i + 1..],
                  overwrite)
  {
    hide Joined, Set, Get;
    assert b[i..][1..] == b[i + 1..];
  }

  lemma MergeEnds(dumps: Dumps, a: seq<Member>, overwrite: bool)
    ensures Merge(dumps, a, [], overwrite) == a
  {
  }

  /** The merging part of json_config and load_files, once the sources are parsed; an absent source is an empty
      object. */
  method MergeSources(dumps: Dumps, fixed: Json, variable: Json, updates: seq<Json>) returns (config: Json)
    ensures config == Configured(dumps, fixed, variable, updates)
  {
    hide Merge;
    var updated := variable;
    for i := 0 to |updates|
      invariant updated == Updated(dumps, variable, updates[..i])
    {
      assert updates[..i + 1][..i] == updates[..i];
      var _, next := DictRecursiveUpdate(dumps, updated, updates[i], true);
      updated := next;
    }
    assert updates[..|updates|] == updates;
    var _, merged := DictRecursiveUpdate(dumps, fixed, updated, false);
    return merged;
  }

  // Ranges.

  /** json_integer_value. */
  function IntegerValue(j: Json): int { if j.Integer? then j.i else 0 }

  /** json_is_range: two values, the first not greater; its comment says smaller. */
  predicate IsRange(list: seq<Json>) { |list| == 2 && IntegerValue(list[0]) <= IntegerValue(list[1]) }

  function Range(first: int, last: int): (r: seq<Json>)
    decreases last - first
  {
    if first > last then [] else Range(first, last - 1) + [Integer(last)]
  }

  /** The values one item of a list of ranges stands for. */
  function Expanded(item: Json): seq<Json> {
    if item.Integer? then [item]
    else if item.Array? then
      if IsRange(item.items) then Range(IntegerValue(item.items[0]), IntegerValue(item.items[1])) else item.items
    else []
  }

  function AllExpanded(items: seq<Json>): seq<Json> {
    if items == [] then [] else AllExpanded(items[..|items| - 1]) + Expanded(items[|items| - 1])
  }

  lemma {:induction false} ExtendConcat(dumps: Dumps, list: seq<Json>, a: seq<Json>, b: seq<Json>)
    ensures Extend(dumps, list, a + b) == Extend(dumps, Extend(dumps, list, a), b)
    decreases |a|
  {
    hide Found;
    if a == [] {
      assert a + b == b;
    } else {
      assert (a + b)[1..] == a[1..] + b && (a + b)[0] == a[0];
      ExtendConcat(dumps, if Found(dumps, list, a[0]) then list else list + [a[0]], a[1..], b);
    }
  }

  lemma {:induction false} RangeIs(first: int, last: int, n: int)
    ensures Integer(n) in Range(first, last) <==> first <= n <= last
    decreases last - first
  {
    if first <= last {
      RangeIs(first, last - 1, n);
    }
  }

  predicate FitsInt(item: Json) {
    item.Array? && IsRange(item.items) ==>
      -0x8000_0000 <= IntegerValue(item.items[0]) && IntegerValue(item.items[1]) < 0x7FFF_FFFF
  }

  /** json_range_list; its loop counts in an int. */
  method RangeList(list: seq<Json>) returns (r: Option<seq<Json>>)
    requires FitsInt(Array(list))
    ensures r == if IsRange(list) then Some(Range(IntegerValue(list[0]), IntegerValue(list[1]))) else None
  {
    if !IsRange(list) {
      return None;
    }
    var first, second := IntegerValue(list[0]), IntegerValue(list[1]);
    var range: seq<Json> := [];
    var i := first;
    while i <= second
      invariant first <= i <= second + 1 && range == Range(first, i - 1)
      decreases second - i
    {
      range := range + [Integer(i)];
      i := i + 1;
    }
    return Some(range);
  }

  /** json_listsrange2set: the values its items stand for, each once, in the order in which they first appear. */
  method ListsRangeToSet(dumps: Dumps, listsrange: Json) returns (r: Option<seq<Json>>)
    requires listsrange.Array? ==> forall item <- listsrange.items :: FitsInt(item)
    ensures r == if listsrange.Array? then Some(Extend(dumps, [], AllExpanded(listsrange.items))) else None
  {
    hide Extend, Found, Range, IsRange, FitsInt;
    if !listsrange.Array? {
      return None;
    }
    var list: seq<Json> := [];
    var items := listsrange.items;
    ExtendEnds(dumps, []);
    for index := 0 to |items|
      invariant list == Extend(dumps, [], AllExpanded(items[..index]))
    {
      var value := items[index];
      assert items[..index + 1][..index] == items[..index];
      ExtendConcat(dumps, [], AllExpanded(items[..index]), Expanded(value));
      if value.Integer? {
        ExtendOne(dumps, list, value);
        var idx := ListFind(dumps, list, value);
        if idx < 0 {
          list := list + [value];
        }
      } else if value.Array? {
        if IsRange(value.items) {
          var range := RangeList(value.items);
          var _, updated := ListUpdate(dumps, Array(list), Array(range.value), true);
          list := updated.items;
        } else {
          var _, updated := ListUpdate(dumps, Array(list), value, true);
          list := updated.items;
        }
      } else {
        ExtendEnds(dumps, list);
      }
    }
    assert items[..|items|] == items;
    return Some(list);
  }

  lemma ExtendOne(dumps: Dumps, list: seq<Json>, value: Json)
    ensures Extend(dumps, list, [value]) == if Found(dumps, list, value) then list else list + [value]
  {
    hide Found;
    assert [value][1..] == [];
  }

  ghost predicate Integers(list: seq<Json>) { forall i :: 0 <= i < |list| ==> list[i].Integer? }

  /** Different integers have different dumps. */
  ghost predicate DumpsIntegers(dumps: Dumps) {
    forall m: int, n: int :: Dump(dumps, Integer(m)) == Dump(dumps, Integer(n)) ==> m == n
  }

  /** Of integers, extending the empty list makes a set: the same members, each once. */
  lemma ExtendIsSet(dumps: Dumps, list: seq<Json>, n: int)
    requires DumpsIntegers(dumps) && Integers(list)
    ensures var r := Extend(dumps, [], list);
            && (Integer(n) in r <==> Integer(n) in list)
            && forall i, j :: 0 <= i < j < |r| ==> r[i] != r[j]
  {
    hide Dump;
    var r := Extend(dumps, [], list);
    forall i | 0 <= i < |r|
      ensures r[i] in list && forall j :: 0 <= j < i ==> r[j] != r[i]
    {
      ExtendAddsMissing(dumps, [], list, i);
      forall j | 0 <= j < i
        ensures r[j] != r[i]
      {
        assert r[..i][j] == r[j];
      }
    }
    if Integer(n) in list {
      ExtendHasAll(dumps, [], list);
      assert Found(dumps, r, Integer(n));
      var i :| 0 <= i < |r| && Dump(dumps, r[i]) == Dump(dumps, Integer(n));
      assert r[i] in list;
    }
  }

  /** An integer is among what a list of ranges stands for exactly when an item is that integer, a range around it,
      or a list with it. */
  lemma {:induction false} ExpandedIs(items: seq<Json>, n: int)
    ensures Integer(n) in AllExpanded(items) <==>
            exists k :: 0 <= k < |items| &&
              if items[k].Array? && IsRange(items[k].items) then
                IntegerValue(items[k].items[0]) <= n <= IntegerValue(items[k].items[1])
              else items[k] == Integer(n) || (items[k].Array? && Integer(n) in items[k].items)
  {
    hide IntegerValue;
    if items != [] {
      var m := |items| - 1;
      ExpandedIs(items[..m], n);
      if items[m].Array? && IsRange(items[m].items) {
        RangeIs(IntegerValue(items[m].items[0]), IntegerValue(items[m].items[1]), n);
      }
      assert forall k :: 0 <= k < m ==> items[..m][k] == items[k];
    }
  }

  /** A range counts up from its first number to its last. */
  lemma {:induction false} RangeCounts(first: int, last: int)
    ensures |Range(first, last)| == if first <= last then last - first + 1 else 0
    ensures forall k :: 0 <= k < |Range(first, last)| ==> Range(first, last)[k] == Integer(first + k)
    decreases last - first
  {
    if first <= last {
      RangeCounts(first, last - 1);
    }
  }

  /** The items are expanded one after the other: a range to its numbers in order, any other list to its items, an
      integer to itself, and anything else to nothing. */
  lemma ExpandedOrder(items: seq<Json>, item: Json)
    ensures AllExpanded([]) == []
    ensures IntegerValue(item) == match item case Integer(i) => i case _ => 0
    ensures var was, r := AllExpanded(items), AllExpanded(items + [item]);
            was <= r && var more := r[|was|..];
            match item
            case Integer(_) => more == [item]
            case Array(list) =>
              if |list| == 2 && IntegerValue(list[0]) <= IntegerValue(list[1]) then
                && |more| == IntegerValue(list[1]) - IntegerValue(list[0]) + 1
                && forall k :: 0 <= k < |more| ==> more[k] == Integer(IntegerValue(list[0]) + k)
              else more == list
            case _ => more == []
  {
    hide Range;
    assert (items + [item])[..|items|] == items;
    if item.Array? && IsRange(item.items) {
      RangeCounts(IntegerValue(item.items[0]), IntegerValue(item.items[1]));
    }
  }

  lemma FoundExtended(dumps: Dumps, list: seq<Json>, other: seq<Json>, v: Json)
    ensures Found(dumps, Extend(dumps, list, other), v) <==> Found(dumps, list + other, v)
  {
    hide Extend, Dump;
    var r, all := Extend(dumps, list, other), list + other;
    ExtendHasAll(dumps, list, other);
    if Found(dumps, r, v) {
      var i :| 0 <= i < |r| && Dump(dumps, r[i]) == Dump(dumps, v);
      if i < |list| {
        assert all[i] == r[i];
      } else {
        ExtendAddsMissing(dumps, list, other, i);
        var j :| 0 <= j < |other| && other[j] == r[i];
        assert all[|list| + j] == r[i];
      }
    }
    if Found(dumps, all, v) {
      var i :| 0 <= i < |all| && Dump(dumps, all[i]) == Dump(dumps, v);
      var x := if i < |list| then list[i] else other[i - |list|];
      assert i < |list| ==> Found(dumps, list, x);
      assert Found(dumps, r, x);
      var k :| 0 <= k < |r| && Dump(dumps, r[k]) == Dump(dumps, x);
      assert Dump(dumps, r[k]) == Dump(dumps, v);
    }
  }

  /** Items are appended in the order of the other list, each when neither the list nor what is before it there has
      it. */
  lemma ExtendOrder(dumps: Dumps, list: seq<Json>, other: seq<Json>, v: Json)
    ensures Extend(dumps, list, []) == list
    ensures Extend(dumps, list, other + [v]) ==
            Extend(dumps, list, other) + if Found(dumps, list + other, v) then [] else [v]
  {
    hide Found;
    ExtendEnds(dumps, list);
    ExtendConcat(dumps, list, other, [v]);
    ExtendOne(dumps, Extend(dumps, list, other), v);
    FoundExtended(dumps, list, other, v);
    assert Extend(dumps, list, other) + [] == Extend(dumps, list, other);
  }
}
