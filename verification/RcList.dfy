/** Resources, their instances and their children: the operations of the double-double linked list. */
module RcList {
  import opened Wrappers
  import opened RcMemory

  /** What rc_delete_instance answers: done, or one of its pointer checks failed. */
  datatype Deletion = Deleted | NoTwin | NoResource | ResourcesDiffer | ListsDiffer

  /** The taking of one pair of twins, and of their resource when it was the last one and is to be freed. */
  function Unpair(m: Memory, e: Inst, free: bool): Memory
    requires e in m.insts && InstOk(m, e)
  {
    var r := m.insts[e].resource;
    var d := Drop(m, {e, Twin(m, e)});
    if free && Instances(r) in d.lists && d.lists[Instances(r)] == [] then Free(d, r) else d
  }

  /** Deleting an instance keeps the twin invariant, except exactly when it frees a resource that has children. */
  lemma UnpairValid(m: Memory, e: Inst, free: bool)
    requires Valid(m) && e in m.insts
    ensures var r := m.insts[e].resource;
            && r in m.parents && Instances(r) in m.lists && Childs(r) in m.lists
            && var last := Keep(m.lists[Instances(r)], {e, Twin(m, e)}) == [];
               Valid(Unpair(m, e, free)) <==>
               !(free && last && Keep(m.lists[Childs(r)], {e, Twin(m, e)}) != [])
  {
    hide Valid, Drop, Free, Keep;
    PairTwins(m, e);
    var r, t := m.insts[e].resource, Twin(m, e);
    DropValid(m, {e, t});
    DropLists(m, {e, t});
    var d := Drop(m, {e, t});
    if free && d.lists[Instances(r)] == [] {
      FreeValid(d, r);
    }
  }

  lemma PairTwins(m: Memory, e: Inst)
    requires Valid(m) && e in m.insts
    ensures InstOk(m, e) && Twins(m, {e, Twin(m, e)})
    ensures var r := m.insts[e].resource;
            r in m.parents && Instances(r) in m.lists && Childs(r) in m.lists
  {
    assert ResOk(m, m.insts[e].resource);
    TwinOfTwin(m, e);
    forall x <- m.insts
      ensures InstOk(m, x) && Twin(m, Twin(m, x)) == x
    {
      TwinOfTwin(m, x);
    }
  }

  lemma DropLists(m: Memory, gone: set<Inst>)
    ensures var d := Drop(m, gone);
            && d.parents == m.parents && d.lists.Keys == m.lists.Keys
            && forall l <- m.lists :: d.lists[l] == Keep(m.lists[l], gone)
  {
  }

  lemma ExternalTwin(m: Memory, e: Inst)
    requires Valid(m) && e in m.insts && !m.insts[e].dl.Instances?
    ensures m.insts[e].twinI.Some? && Paired(m, m.insts[e].twinI.value, e) && m.insts[e].dl in m.lists
  {
    assert InstOk(m, e);
  }

  /** Deleting an instance from its list and then its twin from its own takes both out of all lists. */
  lemma TwoDeletes(m: Memory, e: Inst)
    requires Valid(m) && e in m.insts && !m.insts[e].dl.Instances?
    ensures InstOk(m, e) && Twin(m, e) in m.insts
    ensures var i := Twin(m, e);
            var le, li := m.insts[e].dl, m.insts[i].dl;
            && le in m.lists && li in m.lists && le != li
            && m.lists[le := Keep(m.lists[le], {e})][li := Keep(m.lists[li], {i})] == Drop(m, {e, i}).lists
            && m.insts - {e} - {i} == Drop(m, {e, i}).insts
  {
    hide Valid, Keep, Drop, Paired, ListOk;
    TwinOfTwin(m, e);
    PairTwins(m, e);
    var i := Twin(m, e);
    PairTwins(m, i);
    var le, li := m.insts[e].dl, m.insts[i].dl;
    var d := Drop(m, {e, i});
    DropLists(m, {e, i});
    DropInsts(m, {e, i});
    forall l <- m.lists
      ensures d.lists[l] ==
              if l == li then Keep(m.lists[li], {i}) else if l == le then Keep(m.lists[le], {e}) else m.lists[l]
    {
      PairInList(m, e, l);
    }
    assert d.lists == m.lists[le := Keep(m.lists[le], {e})][li := Keep(m.lists[li], {i})];
  }

  lemma DropInsts(m: Memory, gone: set<Inst>)
    ensures Drop(m, gone).insts == m.insts - gone
  {
  }

  lemma PairInList(m: Memory, e: Inst, l: ListId)
    requires Valid(m) && e in m.insts && InstOk(m, e) && Twin(m, e) in m.insts && l in m.lists
    requires m.insts[e].dl != m.insts[Twin(m, e)].dl
    ensures var i := Twin(m, e);
            Keep(m.lists[l], {e, i}) ==
            if l == m.insts[i].dl then Keep(m.lists[l], {i})
            else if l == m.insts[e].dl then Keep(m.lists[l], {e}) else m.lists[l]
  {
    hide InstOk;
    assert ListOk(m, l);
    var i := Twin(m, e);
    if l == m.insts[i].dl {
      KeepSame(m.lists[l], {e, i}, {i});
    } else if l == m.insts[e].dl {
      KeepSame(m.lists[l], {e, i}, {e});
    } else {
      KeepAll(m.lists[l], {e, i});
    }
  }

  class Store {
    var insts: map<Inst, Instance>
    var lists: map<ListId, seq<Inst>>
    var parents: map<Res, Option<Res>>
    var nextInst: Inst
    var nextRes: Res

    ghost function Contents(): Memory
      reads this
    {
      Memory(insts, lists, parents)
    }

    ghost predicate Sound()
      reads this
    {
      && RcMemory.Valid(Contents())
      && (forall x <- insts :: x < nextInst) && (forall r <- parents :: r < nextRes)
    }

    constructor ()
      ensures Sound() && Contents() == Memory(map[], map[], map[])
    {
      insts, lists, parents, nextInst, nextRes := map[], map[], map[], 0, 0;
    }

    /** gbmem_malloc of a resource, zeroed. */
    method AllocResource() returns (r: Res)
      requires Sound()
      modifies this
      ensures Sound() && r !in old(parents) && nextInst == old(nextInst)
      ensures Contents() == NewResource(old(Contents()), r) && r in parents
    {
      hide RcMemory.Valid;
      r := nextRes;
      NewResourceValid(Contents(), r);
      nextRes := nextRes + 1;
      lists := lists[Instances(r) := []][Childs(r) := []];
      parents := parents[r := None];
    }

    /** The twins of rc_add_instance, rc_insert_instance and rc_add_child. */
    method AllocPair(l: ListId, r: Res, front: bool) returns (ghost i: Inst, e: Inst)
      requires Sound() && l in lists && !l.Instances? && r in parents
      modifies this`insts, this`lists, this`nextInst
      ensures Sound() && i !in old(insts) && e !in old(insts) && i != e && l in old(lists) && Instances(r) in old(lists)
      ensures Contents() == NewPair(old(Contents()), l, r, i, e, front)
    {
      hide RcMemory.Valid;
      var i', e' := nextInst, nextInst + 1;
      NewPairValid(Contents(), l, r, i', e', front);
      nextInst := nextInst + 2;
      insts := insts[i' := Instance(Instances(r), r, None, None)];
      lists := lists[Instances(r) := lists[Instances(r)] + [i']];
      insts := insts[e' := Instance(l, r, None, None)];
      lists := lists[l := Put(lists[l], e', front)];
      insts := insts[i' := insts[i'].(twinE := Some(e'))];
      insts := insts[e' := insts[e'].(twinI := Some(i'))];
      assert insts == old(insts)[i' := Instance(Instances(r), r, Some(e'), None)][e' := Instance(l, r, None, Some(i'))];
      i, e := i', e';
    }

    /** rc_add_instance, and rc_insert_instance when `front`: without a resource it makes one. */
    method AddInstance(l: ListId, resource: Option<Res>, front: bool) returns (e: Inst, r: Res, ghost i: Inst)
      requires Sound() && l in lists && !l.Instances? && (resource.Some? ==> resource.value in parents)
      modifies this
      ensures Sound() && i !in old(insts) && e !in old(insts) && i != e
      ensures if resource.Some? then r == resource.value && Instances(r) in old(lists) else r !in old(parents)
      ensures Contents() == Added(old(Contents()), l, resource.None?, r, i, e, front)
    {
      hide RcMemory.Valid;
      if resource.None? {
        r := AllocResource();
      } else {
        r := resource.value;
      }
      i, e := AllocPair(l, r, front);
    }

    /** dl_delete_item with gbmem_free. */
    method DeleteItem(x: Inst)
      requires x in insts && insts[x].dl in lists
      modifies this`insts, this`lists
      ensures insts == old(insts) - {x}
      ensures lists == old(lists)[old(insts)[x].dl := Keep(old(lists)[old(insts)[x].dl], {x})]
    {
      var l := insts[x].dl;
      lists := lists[l := Keep(lists[l], {x})];
      insts := insts - {x};
    }

    /** rc_delete_instance: none of its pointer checks can fail. */
    method DeleteInstance(e: Inst, free: bool) returns (r: Deletion)
      requires Sound() && e in insts && !insts[e].dl.Instances?
      modifies this`insts, this`lists, this`parents
      ensures r == Deleted && InstOk(old(Contents()), e)
      ensures Contents() == Unpair(old(Contents()), e, free)
      ensures forall x <- insts :: x < nextInst
      ensures forall q <- parents :: q < nextRes
    {
      hide RcMemory.Valid, Keep, Drop;
      PairTwins(Contents(), e);
      ExternalTwin(Contents(), e);
      TwoDeletes(Contents(), e);
      DropLists(Contents(), {e, Twin(Contents(), e)});
      var resource := insts[e].resource;
      var twin := insts[e].twinI;
      if twin.None? {
        return NoTwin;
      }
      var i := twin.value;
      if resource !in parents {
        return NoResource;
      }
      if resource != insts[i].resource {
        return ResourcesDiffer;
      }
      if insts[i].dl != Instances(resource) {
        return ListsDiffer;
      }
      DeleteItem(e);
      DeleteItem(i);
      if free && |lists[Instances(resource)]| <= 0 {
        lists := lists - {Instances(resource), Childs(resource)};
        parents := parents - {resource};
      }
      return Deleted;
    }

    /** rc_init_iter. */
    method NewIter(n: nat)
      requires Sound() && Iter(n) !in lists
      modifies this`lists
      ensures Sound() && Contents() == old(Contents()).(lists := old(lists)[Iter(n) := []])
    {
      NewIterValid(Contents(), n);
      lists := lists[Iter(n) := []];
    }

    /** rc_free_iter: the instances of an iterator go, with their twins and, on request, the resources that were in no
        other list. These must have no children: see IterValid. */
    method FreeIter(n: nat, freeIter: bool, free: bool)
      requires Sound() && Iter(n) in lists
      requires free ==> forall r <- Orphans(Contents(), PairsOf(Contents(), Iter(n))) :: Kids(Contents(), r) == []
      modifies this`insts, this`lists, this`parents
      ensures Sound()
      ensures var c := Cleared(old(Contents()), PairsOf(old(Contents()), Iter(n)), free);
              Contents() == if freeIter then c.(lists := c.lists - {Iter(n)}) else c
    {
      hide RcMemory.Valid, Cleared, Keep, Kids;
      ghost var m, gone: set<Inst> := Contents(), {};
      ClearedNothing(m, free);
      while true
        invariant Sound() && Contents() == Cleared(m, gone, free)
        invariant gone <= PairsOf(m, Iter(n)) && Twins(m, gone)
        decreases insts.Keys
      {
        ClearedIter(m, gone, free, n);
        if lists[Iter(n)] == [] {
          break;
        }
        var e := lists[Iter(n)][0];
        ChildInstanceOf(Contents(), Iter(n));
        KeepIn(m.lists[Iter(n)], gone, e);
        UnpairValid(Contents(), e, free);
        ClearedNext(m, gone, free, n, e);
        var _ := DeleteInstance(e, free);
        gone := gone + {e, Twin(m, e)};
      }
      IterCleared(m, gone, n);
      if freeIter {
        NoIterValid(Contents(), n);
        lists := lists - {Iter(n)};
      }
    }

    /** rc_add_child: `hadParent` is when it complains, and goes on. */
    method AddChild(parent: Res, child: Option<Res>)
      returns (e: Inst, c: Res, hadParent: bool, ghost i: Inst)
      requires Sound() && parent in parents && (child.Some? ==> child.value in parents)
      modifies this
      ensures Sound() && i !in old(insts) && e !in old(insts) && i != e && Childs(parent) in old(lists)
      ensures if child.Some? then c == child.value && Instances(c) in old(lists) else c !in old(parents)
      ensures hadParent == (child.Some? && old(parents)[child.value].Some?)
      ensures var a := Added(old(Contents()), Childs(parent), child.None?, c, i, e, false);
              Contents() == a.(parents := a.parents[c := Some(parent)])
    {
      hide RcMemory.Valid;
      HasLists(Contents(), parent);
      if child.None? {
        c := AllocResource();
      } else {
        c := child.value;
      }
      i, e := AllocPair(Childs(parent), c, false);
      hadParent := parents[c].Some?;
      ParentsOnly(Contents(), parents[c := Some(parent)]);
      parents := parents[c := Some(parent)];
    }

    /** rc_child_index: the first instance of the child in the parent's list of children, and its position from one. */
    method ChildIndex(parent: Res, child: Res) returns (e: Option<Inst>, index: nat)
      requires Sound() && parent in parents
      ensures Childs(parent) in lists
      ensures index == FirstOf(insts, lists[Childs(parent)], child)
      ensures e == if index == 0 then None else Some(lists[Childs(parent)][index - 1])
    {
      HasLists(Contents(), parent);
      var list := lists[Childs(parent)];
      assert ListOk(Contents(), Childs(parent));
      hide RcMemory.Valid;
      var k := 0;
      while k < |list|
        invariant k <= |list| && forall j :: 0 <= j < k ==> insts[list[j]].resource != child
      {
        if insts[list[k]].resource == child {
          FirstOfIs(insts, list, child, k);
          return Some(list[k]), k + 1;
        }
        k := k + 1;
      }
      FirstOfNone(insts, list, child);
      return None, 0;
    }

    /** rc_remove_child. */
    method RemoveChild(parent: Res, child: Res, free: bool) returns (r: Option<Deletion>)
      requires Sound() && parent in parents && child in parents
      modifies this`insts, this`lists, this`parents
      ensures Childs(parent) in old(lists)
      ensures var index := FirstOf(old(insts), old(lists)[Childs(parent)], child);
              if index == 0 then r == None && Contents() == old(Contents())
              else
                var e := old(lists)[Childs(parent)][index - 1];
                && r == Some(Deleted) && e in old(insts) && InstOk(old(Contents()), e)
                && var m := old(Contents()).(parents := old(parents)[child := None]);
                   InstOk(m, e) && Contents() == Unpair(m, e, free)
    {
      hide RcMemory.Valid, Unpair, InstOk, FirstOf;
      var e, index := ChildIndex(parent, child);
      if e.None? {
        return None;
      }
      ChildInstance(Contents(), parent, index - 1);
      ParentsOnly(Contents(), parents[child := None]);
      parents := parents[child := None];
      var d := DeleteInstance(e.value, free);
      return Some(d);
    }

    /** rc_delete_all_childs, which is also how rc_delete_resource starts. */
    method DeleteAllChilds(r: Res, free: bool, ghost rank: Res -> int)
      requires Sound() && r in parents && Ranked(Contents(), rank) && 0 <= rank(r)
      modifies this`insts, this`lists, this`parents
      ensures Sound()
      ensures Contents() == Purge(old(Contents()), Doomed(old(Contents()), rank, r) - {r}, free)
      decreases rank(r), 0
    {
      hide RcMemory.Valid, Purge, KidSet, Doomed, Closed, Ranked;
      ghost var m, k := Contents(), {};
      PurgeNothing(m, free);
      DoomedClosed(m, rank, r);
      while true
        invariant Sound() && Contents() == Purge(m, k, free)
        invariant Closed(m, k) && k <= Doomed(m, rank, r) && r !in k
        decreases insts.Keys
      {
        StillThere(m, k, free, r);
        if lists[Childs(r)] == [] {
          break;
        }
        var x := lists[Childs(r)][0];
        KidIs(Contents(), r);
        var c := insts[x].resource;
        PurgeNext(m, rank, k, free, r, c);
        ghost var p := Contents();
        DoomedClosed(p, rank, c);
        DeleteResource(c, free, rank);
        PurgeShrinks(p, Doomed(p, rank, c), free, x);
        k := k + Doomed(p, rank, c);
      }
      NoKids(Contents(), r);
      PurgedBelow(m, rank, k, free, r);
    }

    /** rc_delete_resource: no instance of the resource or of a descendant is left in any list, and no other changes. */
    method DeleteResource(r: Res, free: bool, ghost rank: Res -> int)
      requires Sound() && r in parents && Ranked(Contents(), rank) && 0 <= rank(r)
      modifies this`insts, this`lists, this`parents
      ensures Sound()
      ensures Contents() == Purge(old(Contents()), Doomed(old(Contents()), rank, r), free)
      decreases rank(r), 1
    {
      hide RcMemory.Valid, Purge, KidSet, Doomed, Closed, Ranked;
      ghost var m := Contents();
      DoomedClosed(m, rank, r);
      DeleteAllChilds(r, free, rank);
      ghost var m1, gone: set<Inst> := Contents(), {};
      StillThere(m, Doomed(m, rank, r) - {r}, free, r);
      DropNothing(m1);
      while true
        invariant Sound() && Contents() == Drop(m1, gone)
        invariant gone <= OfResources(m1, {r}) && Twins(m1, gone)
        decreases insts.Keys
      {
        DropLists(m1, gone);
        if lists[Instances(r)] == [] {
          break;
        }
        var i := lists[Instances(r)][0];
        InternalTwin(Contents(), r);
        var e := insts[i].twinE.value;
        UnpairValid(Contents(), e, false);
        MoreTwins(m1, gone, e);
        var _ := DeleteInstance(e, false);
        DropDrop(m1, gone, {e, i});
        gone := gone + {e, i};
      }
      AllGone(m1, r, gone);
      if free {
        lists := lists - {Instances(r), Childs(r)};
        parents := parents - {r};
      }
      PurgeOne(m1, r, free);
      PurgePurge(m, Doomed(m, rank, r) - {r}, {r}, free);
      assert Doomed(m, rank, r) - {r} + {r} == Doomed(m, rank, r);
      PurgeValid(m, Doomed(m, rank, r), free);
    }
  }

  lemma DropNothing(m: Memory)
    ensures Drop(m, {}) == m && Twins(m, {})
  {
    hide InstOk;
    var d := Drop(m, {});
    forall l <- m.lists
      ensures d.lists[l] == m.lists[l]
    {
      KeepAll(m.lists[l], {});
    }
    assert d.lists == m.lists && d.insts == m.insts;
  }

  lemma InternalTwin(m: Memory, r: Res)
    requires Valid(m) && Instances(r) in m.lists && m.lists[Instances(r)] != []
    ensures var i := m.lists[Instances(r)][0];
            && i in m.insts && m.insts[i].resource == r && m.insts[i].twinE.Some?
            && var e := m.insts[i].twinE.value;
               e in m.insts && !m.insts[e].dl.Instances? && m.insts[e].resource == r && InstOk(m, e) && Twin(m, e) == i
  {
    assert ListOk(m, Instances(r));
    var i := m.lists[Instances(r)][0];
    assert InstOk(m, i);
    TwinOfTwin(m, i);
  }

  lemma MoreTwins(m: Memory, gone: set<Inst>, e: Inst)
    requires Valid(m) && Twins(m, gone) && e in Drop(m, gone).insts && InstOk(Drop(m, gone), e)
    ensures Twins(m, gone + {e, Twin(Drop(m, gone), e)})
  {
    hide Drop;
    DropInsts(m, gone);
    PairTwins(m, e);
  }

  /** An empty list of instances means that every instance of the resource is gone, the external ones too. */
  lemma AllGone(m: Memory, r: Res, gone: set<Inst>)
    requires Valid(m) && Twins(m, gone) && gone <= OfResources(m, {r}) && Instances(r) in m.lists
    requires Drop(m, gone).lists[Instances(r)] == []
    ensures gone == OfResources(m, {r})
  {
    forall x <- OfResources(m, {r})
      ensures x in gone
    {
      assert InstOk(m, x);
      var i := if m.insts[x].dl.Instances? then x else Twin(m, x);
      TwinOfTwin(m, x);
      assert InstOk(m, i);
      KeepIn(m.lists[Instances(r)], gone, i);
    }
  }

  lemma PurgeOne(m: Memory, r: Res, free: bool)
    ensures var d := Drop(m, OfResources(m, {r}));
            Purge(m, {r}, free) == if free then Free(d, r) else d
  {
    var d := Drop(m, OfResources(m, {r}));
    var p := Purge(m, {r}, free);
    assert p.lists == if free then d.lists - {Instances(r), Childs(r)} else d.lists;
  }

  lemma PurgeNothing(m: Memory, free: bool)
    ensures Purge(m, {}, free) == m && Closed(m, {})
  {
    var p := Purge(m, {}, free);
    assert OfResources(m, {}) == {};
    forall l <- m.lists
      ensures p.lists[l] == m.lists[l]
    {
      KeepAll(m.lists[l], {});
    }
    assert p.lists == m.lists && p.insts == m.insts;
  }

  lemma StillThere(m: Memory, k: set<Res>, free: bool, r: Res)
    requires Valid(m) && r in m.parents && r !in k
    ensures r in Purge(m, k, free).parents
    ensures Childs(r) in Purge(m, k, free).lists && Instances(r) in Purge(m, k, free).lists
  {
    assert ResOk(m, r);
  }

  lemma KidIs(m: Memory, r: Res)
    requires Valid(m) && r in m.parents && Childs(r) in m.lists && m.lists[Childs(r)] != []
    ensures var x := m.lists[Childs(r)][0];
            x in m.insts && m.insts[x].resource in KidSet(m, r) && m.insts[x].resource in m.parents
  {
    assert ListOk(m, Childs(r));
    var x := m.lists[Childs(r)][0];
    assert x in Kids(m, r);
    assert InstOk(m, x);
  }

  lemma NoKids(m: Memory, r: Res)
    requires Childs(r) in m.lists && m.lists[Childs(r)] == []
    ensures KidSet(m, r) == {}
  {
  }

  lemma PurgeShrinks(m: Memory, k: set<Res>, free: bool, x: Inst)
    requires x in m.insts && m.insts[x].resource in k
    ensures Purge(m, k, free).insts.Keys < m.insts.Keys
  {
    assert x !in Purge(m, k, free).insts;
  }

  lemma NewIterValid(m: Memory, n: nat)
    requires Valid(m) && Iter(n) !in m.lists
    ensures Valid(m.(lists := m.lists[Iter(n) := []]))
  {
    var k := m.(lists := m.lists[Iter(n) := []]);
    forall l <- k.lists
      ensures ListOk(k, l)
    {
      assert l in m.lists ==> ListOk(m, l);
    }
    forall x <- k.insts
      ensures InstOk(k, x)
    {
      assert InstOk(m, x);
    }
    forall r: Res
      ensures ResOk(k, r)
    {
      assert ResOk(m, r);
    }
  }

  lemma NoIterValid(m: Memory, n: nat)
    requires Valid(m) && Iter(n) in m.lists && m.lists[Iter(n)] == []
    ensures Valid(m.(lists := m.lists - {Iter(n)}))
  {
    var k := m.(lists := m.lists - {Iter(n)});
    forall l <- k.lists
      ensures ListOk(k, l)
    {
      assert ListOk(m, l);
    }
    forall x <- k.insts
      ensures InstOk(k, x)
    {
      assert InstOk(m, x);
    }
    forall r: Res
      ensures ResOk(k, r)
    {
      assert ResOk(m, r);
    }
  }

  /** The instances of a list and their twins. */
  function PairsOf(m: Memory, l: ListId): set<Inst>
    requires l in m.lists
  {
    set x | x in m.insts && (x in m.lists[l] || (InstOk(m, x) && Twin(m, x) in m.lists[l]))
  }

  /** The resources of some instances that have no other instance. */
  function Orphans(m: Memory, gone: set<Inst>): set<Res> {
    set r | r in ResourcesOf(m, gone) && Instances(r) in m.lists && Keep(m.lists[Instances(r)], gone) == []
  }

  /** The memory without some instances and, if they are freed, without the resources that leaves without any. */
  function Cleared(m: Memory, gone: set<Inst>, free: bool): Memory {
    var orphans := Orphans(m, gone);
    Memory(
      m.insts - gone,
      map l | l in m.lists && !(free && Owner(l, orphans)) :: Keep(m.lists[l], gone),
      if free then m.parents - orphans else m.parents)
  }

  lemma ClearedNothing(m: Memory, free: bool)
    ensures Cleared(m, {}, free) == m && Twins(m, {})
  {
    hide InstOk;
    DropNothing(m);
    assert Orphans(m, {}) == {};
    assert Cleared(m, {}, free).lists == Drop(m, {}).lists;
    assert Cleared(m, {}, free).parents == m.parents;
  }

  lemma ClearedIter(m: Memory, gone: set<Inst>, free: bool, n: nat)
    requires Iter(n) in m.lists
    ensures var c := Cleared(m, gone, free);
            Iter(n) in c.lists && c.lists[Iter(n)] == Keep(m.lists[Iter(n)], gone)
  {
  }

  lemma ChildInstanceOf(m: Memory, l: ListId)
    requires Valid(m) && l in m.lists && !l.Instances? && m.lists[l] != []
    ensures var e := m.lists[l][0];
            e in m.insts && m.insts[e].dl == l && InstOk(m, e)
  {
    assert ListOk(m, l);
    assert InstOk(m, m.lists[l][0]);
  }

  lemma OrphansNext(m: Memory, gone: set<Inst>, e: Inst)
    requires Valid(m) && Twins(m, gone) && e in m.insts && e !in gone
    ensures InstOk(m, e) && Instances(m.insts[e].resource) in m.lists
    ensures var r := m.insts[e].resource;
            var more := gone + {e, Twin(m, e)};
            && r !in Orphans(m, gone)
            && Orphans(m, more) ==
               Orphans(m, gone) + if Keep(m.lists[Instances(r)], more) == [] then {r} else {}
  {
    hide Keep, Valid;
    PairTwins(m, e);
    TwinOfTwin(m, e);
    var r, t := m.insts[e].resource, Twin(m, e);
    var more := gone + {e, t};
    PairTwins(m, t);
    var i := if m.insts[e].dl.Instances? then e else t;
    KeepIn(m.lists[Instances(r)], gone, i);
    forall q: Res | q != r && Instances(q) in m.lists
      ensures Keep(m.lists[Instances(q)], more) == Keep(m.lists[Instances(q)], gone)
    {
      OtherInstances(m, gone, e, q);
    }
    assert ResourcesOf(m, more) == ResourcesOf(m, gone) + {r} by {
      ResourcesMore(m, gone, e, t);
    }
    hide ResourcesOf;
    forall q: Res
      ensures q in Orphans(m, more) <==>
              q in Orphans(m, gone) || (q == r && Keep(m.lists[Instances(r)], more) == [])
    {
    }
  }

  /** The resources of some instances. */
  function ResourcesOf(m: Memory, gone: set<Inst>): set<Res> {
    set x | x in gone && x in m.insts :: m.insts[x].resource
  }

  lemma ResourcesMore(m: Memory, gone: set<Inst>, e: Inst, t: Inst)
    requires e in m.insts && t in m.insts && m.insts[e].resource == m.insts[t].resource
    ensures ResourcesOf(m, gone + {e, t}) == ResourcesOf(m, gone) + {m.insts[e].resource}
  {
    assert e in gone + {e, t};
  }

  lemma OtherInstances(m: Memory, gone: set<Inst>, e: Inst, q: Res)
    requires Valid(m) && e in m.insts && InstOk(m, e) && q != m.insts[e].resource && Instances(q) in m.lists
    ensures Keep(m.lists[Instances(q)], gone + {e, Twin(m, e)}) == Keep(m.lists[Instances(q)], gone)
  {
    hide Keep;
    TwinOfTwin(m, e);
    assert ListOk(m, Instances(q));
    assert InstOk(m, e) && InstOk(m, Twin(m, e));
    KeepSame(m.lists[Instances(q)], gone + {e, Twin(m, e)}, gone);
  }

  lemma UnpairCleared(m: Memory, gone: set<Inst>, free: bool, e: Inst)
    requires Valid(m) && Twins(m, gone) && e in m.insts && e !in gone
    requires e in Cleared(m, gone, free).insts && InstOk(Cleared(m, gone, free), e)
    ensures InstOk(m, e) && Twin(Cleared(m, gone, free), e) == Twin(m, e)
    ensures Unpair(Cleared(m, gone, free), e, free) == Cleared(m, gone + {e, Twin(m, e)}, free)
  {
    hide Keep, Orphans, Valid, Paired;
    OrphansNext(m, gone, e);
    var r, more := m.insts[e].resource, gone + {e, Twin(m, e)};
    var c := Cleared(m, gone, free);
    var u, next := Unpair(c, e, free), Cleared(m, more, free);
    forall l <- m.lists
      ensures Keep(Keep(m.lists[l], gone), {e, Twin(m, e)}) == Keep(m.lists[l], more)
    {
      KeepKeep(m.lists[l], gone, {e, Twin(m, e)});
    }
    assert u.insts == next.insts;
    assert u.lists == next.lists;
    assert u.parents == next.parents;
  }

  /** One turn of rc_free_iter. */
  lemma ClearedNext(m: Memory, gone: set<Inst>, free: bool, n: nat, e: Inst)
    requires Valid(m) && Iter(n) in m.lists && gone <= PairsOf(m, Iter(n)) && Twins(m, gone)
    requires Keep(m.lists[Iter(n)], gone) != [] && e == Keep(m.lists[Iter(n)], gone)[0]
    requires Valid(Cleared(m, gone, free)) && e in Cleared(m, gone, free).insts
    requires free ==> forall r <- Orphans(m, PairsOf(m, Iter(n))) :: Kids(m, r) == []
    ensures InstOk(m, e) && e in m.lists[Iter(n)]
    ensures var c, more := Cleared(m, gone, free), gone + {e, Twin(m, e)};
            && InstOk(c, e)
            && Unpair(c, e, free) == Cleared(m, more, free) && Valid(Cleared(m, more, free))
            && more <= PairsOf(m, Iter(n)) && Twins(m, more)
            && Cleared(m, more, free).insts.Keys < c.insts.Keys
  {
    hide Keep, Orphans, Valid, Paired, Unpair;
    KeepIn(m.lists[Iter(n)], gone, e);
    var c := Cleared(m, gone, free);
    PairTwins(c, e);
    UnpairCleared(m, gone, free, e);
    UnpairValid(c, e, free);
    PairTwins(m, e);
    TwinOfTwin(m, e);
    PairTwins(m, Twin(m, e));
    if free {
      OrphansNext(m, gone, e);
      OrphansGrow(m, gone + {e, Twin(m, e)}, PairsOf(m, Iter(n)));
      KeepKeep(m.lists[Instances(m.insts[e].resource)], gone, {e, Twin(m, e)});
      KeepAll([], gone);
      KeepAll([], {e, Twin(m, e)});
    }
  }

  lemma {:induction false} KeepFewer(s: seq<Inst>, a: set<Inst>, b: set<Inst>)
    requires a <= b && Keep(s, a) == []
    ensures Keep(s, b) == []
  {
    if s != [] {
      KeepFewer(s[1..], a, b);
    }
  }

  lemma OrphansGrow(m: Memory, a: set<Inst>, b: set<Inst>)
    requires a <= b
    ensures Orphans(m, a) <= Orphans(m, b)
  {
    hide Keep;
    forall r <- Orphans(m, a)
      ensures r in Orphans(m, b)
    {
      KeepFewer(m.lists[Instances(r)], a, b);
    }
  }

  // When clearing an iterator keeps the twin invariant.

  lemma OwnedLists(m: Memory, gone: set<Inst>, free: bool)
    ensures var c, d := Cleared(m, gone, free), Drop(m, gone);
            && c.insts == d.insts && c.parents == (if free then m.parents - Orphans(m, gone) else m.parents)
            && (forall l :: l in c.lists <==> l in m.lists && !(free && Owner(l, Orphans(m, gone))))
            && (forall l <- c.lists :: c.lists[l] == d.lists[l])
  {
    hide Keep, Orphans;
  }

  /** A resource that still has an instance is no orphan. */
  lemma NoOrphan(m: Memory, gone: set<Inst>, x: Inst)
    requires Valid(m) && Twins(m, gone) && x in m.insts && x !in gone
    ensures m.insts[x].resource !in Orphans(m, gone)
  {
    hide Keep;
    PairTwins(m, x);
    var i := if m.insts[x].dl.Instances? then x else Twin(m, x);
    TwinOfTwin(m, x);
    PairTwins(m, i);
    KeepIn(m.lists[Instances(m.insts[x].resource)], gone, i);
  }

  /** A resource that goes without instances, but has children left. */
  ghost predicate LeavesKids(m: Memory, gone: set<Inst>) {
    exists r <- Orphans(m, gone) :: Childs(r) in m.lists && Keep(m.lists[Childs(r)], gone) != []
  }

  lemma KidsDangle(m: Memory, gone: set<Inst>, r: Res)
    requires Valid(m) && Twins(m, gone) && r in Orphans(m, gone)
    requires Childs(r) in m.lists && Keep(m.lists[Childs(r)], gone) != []
    ensures !Valid(Cleared(m, gone, true))
  {
    hide Keep, Orphans;
    var c, d := Cleared(m, gone, true), Drop(m, gone);
    DropValid(m, gone);
    OwnedLists(m, gone, true);
    hide Cleared;
    assert ListOk(d, Childs(r));
    var x := d.lists[Childs(r)][0];
    assert x in c.insts && !InstOk(c, x);
  }

  lemma ClearedInst(m: Memory, gone: set<Inst>, free: bool, x: Inst)
    requires Valid(m) && Twins(m, gone) && !(free && LeavesKids(m, gone)) && x in Cleared(m, gone, free).insts
    ensures InstOk(Cleared(m, gone, free), x)
  {
    hide Keep, Orphans, Valid;
    DropValid(m, gone);
    PairTwins(Drop(m, gone), x);
    PairTwins(m, x);
    OwnedLists(m, gone, free);
    hide Cleared;
    NoOrphan(m, gone, x);
  }

  /** Taking pairs of twins away, and the resources that leaves without any, keeps the twin invariant exactly when no
      resource that is freed has children left. */
  lemma ClearedValid(m: Memory, gone: set<Inst>, free: bool)
    requires Valid(m) && Twins(m, gone)
    ensures Valid(Cleared(m, gone, free)) <==> !(free && LeavesKids(m, gone))
  {
    hide Keep, Orphans, InstOk, Twins;
    var c, d := Cleared(m, gone, free), Drop(m, gone);
    if free && LeavesKids(m, gone) {
      var r :| r in Orphans(m, gone) && Childs(r) in m.lists && Keep(m.lists[Childs(r)], gone) != [];
      KidsDangle(m, gone, r);
    } else {
      DropValid(m, gone);
      OwnedLists(m, gone, free);
      forall x <- c.insts
        ensures InstOk(c, x)
      {
        ClearedInst(m, gone, free, x);
      }
      hide Cleared, LeavesKids;
      forall l <- c.lists
        ensures ListOk(c, l)
      {
        assert ListOk(d, l);
      }
      forall r: Res
        ensures ResOk(c, r)
      {
        assert ResOk(d, r);
      }
    }
  }

  lemma IterKids(m: Memory, n: nat, r: Res)
    requires Valid(m) && Iter(n) in m.lists && Childs(r) in m.lists
    ensures Keep(m.lists[Childs(r)], PairsOf(m, Iter(n))) == Kids(m, r)
  {
    hide Keep;
    forall x <- m.lists[Childs(r)]
      ensures x !in PairsOf(m, Iter(n))
    {
      assert ListOk(m, Childs(r)) && ListOk(m, Iter(n));
      assert InstOk(m, x);
      TwinOfTwin(m, x);
    }
    KeepAll(m.lists[Childs(r)], PairsOf(m, Iter(n)));
  }

  lemma PairsTwins(m: Memory, n: nat)
    requires Valid(m) && Iter(n) in m.lists
    ensures Twins(m, PairsOf(m, Iter(n)))
  {
    forall x <- m.insts
      ensures InstOk(m, x) ==> (x in PairsOf(m, Iter(n)) <==> Twin(m, x) in PairsOf(m, Iter(n)))
    {
      assert InstOk(m, x);
      TwinOfTwin(m, x);
      assert InstOk(m, Twin(m, x));
    }
  }

  /** Freeing an iterator, with the resources that were in no other list, keeps the twin invariant exactly when none
      of these has children. */
  lemma IterValid(m: Memory, n: nat, free: bool)
    requires Valid(m) && Iter(n) in m.lists
    ensures Valid(Cleared(m, PairsOf(m, Iter(n)), free)) <==>
            !(free && exists r <- Orphans(m, PairsOf(m, Iter(n))) :: Kids(m, r) != [])
  {
    hide Keep, Valid, Cleared, Orphans, PairsOf;
    var gone := PairsOf(m, Iter(n));
    PairsTwins(m, n);
    ClearedValid(m, gone, free);
    forall r: Res | Childs(r) in m.lists
      ensures Keep(m.lists[Childs(r)], gone) == Kids(m, r)
    {
      IterKids(m, n, r);
    }
  }

  lemma IterCleared(m: Memory, gone: set<Inst>, n: nat)
    requires Valid(m) && Iter(n) in m.lists && gone <= PairsOf(m, Iter(n)) && Twins(m, gone)
    requires Keep(m.lists[Iter(n)], gone) == []
    ensures gone == PairsOf(m, Iter(n))
  {
    hide Keep;
    forall x <- PairsOf(m, Iter(n))
      ensures x in gone
    {
      assert InstOk(m, x);
      KeepIn(m.lists[Iter(n)], gone, x);
      KeepIn(m.lists[Iter(n)], gone, Twin(m, x));
    }
  }

  lemma HasLists(m: Memory, r: Res)
    requires Valid(m) && r in m.parents
    ensures Instances(r) in m.lists && Childs(r) in m.lists
  {
    assert ResOk(m, r);
  }

  /** Who the parents are is not part of the twin invariant. */
  lemma ParentsOnly(m: Memory, parents: map<Res, Option<Res>>)
    requires Valid(m) && parents.Keys == m.parents.Keys
    ensures Valid(m.(parents := parents))
  {
    var n := m.(parents := parents);
    forall l <- n.lists
      ensures ListOk(n, l)
    {
      assert ListOk(m, l);
    }
    forall x <- n.insts
      ensures InstOk(n, x)
    {
      assert InstOk(m, x);
    }
    forall r: Res
      ensures ResOk(n, r)
    {
      assert ResOk(m, r) && (r in m.parents.Keys <==> r in parents.Keys);
    }
  }

  lemma ChildInstance(m: Memory, parent: Res, k: nat)
    requires Valid(m) && Childs(parent) in m.lists && k < |m.lists[Childs(parent)]|
    ensures var e := m.lists[Childs(parent)][k];
            e in m.insts && !m.insts[e].dl.Instances? && InstOk(m, e)
  {
    assert ListOk(m, Childs(parent));
    assert InstOk(m, m.lists[Childs(parent)][k]);
  }

  /** The position, from one, of the first instance of r in a list, or zero. */
  ghost function FirstOf(insts: map<Inst, Instance>, list: seq<Inst>, r: Res): (k: nat)
    ensures k <= |list|
  {
    if list == [] then 0
    else if list[0] in insts && insts[list[0]].resource == r then 1
    else
      var k := FirstOf(insts, list[1..], r);
      if k == 0 then 0 else k + 1
  }

  lemma {:induction false} FirstOfIs(insts: map<Inst, Instance>, list: seq<Inst>, r: Res, k: nat)
    requires k < |list| && list[k] in insts && insts[list[k]].resource == r
    requires forall j :: 0 <= j < k ==> list[j] in insts && insts[list[j]].resource != r
    ensures FirstOf(insts, list, r) == k + 1
  {
    if k > 0 {
      FirstOfIs(insts, list[1..], r, k - 1);
    }
  }

  lemma {:induction false} FirstOfNone(insts: map<Inst, Instance>, list: seq<Inst>, r: Res)
    requires forall j :: 0 <= j < |list| ==> list[j] in insts && insts[list[j]].resource != r
    ensures FirstOf(insts, list, r) == 0
  {
    if list != [] {
      FirstOfNone(insts, list[1..], r);
    }
  }

  /** What rc_add_instance does to the memory. */
  function Added(m: Memory, l: ListId, made: bool, r: Res, i: Inst, e: Inst, front: bool): Memory
    requires l in m.lists && !l.Instances? && (!made ==> Instances(r) in m.lists)
  {
    NewPair(if made then NewResource(m, r) else m, l, r, i, e, front)
  }

  /** An addition: a new external instance first or last in its list, a new internal one last in those of the resource,
      each the other's twin, and nothing else changed. */
  lemma AddedMeans(m: Memory, l: ListId, made: bool, r: Res, i: Inst, e: Inst, front: bool)
    requires Valid(m) && l in m.lists && !l.Instances?
    requires made == (r !in m.parents) && made == (Instances(r) !in m.lists)
    requires i !in m.insts && e !in m.insts && i != e
    ensures var n := Added(m, l, made, r, i, e, front);
            && n.insts.Keys == m.insts.Keys + {i, e} && (forall x <- m.insts :: n.insts[x] == m.insts[x])
            && n.insts[e].dl == l && n.insts[e].resource == r && n.insts[e].twinI == Some(i)
            && n.insts[i].dl == Instances(r) && n.insts[i].resource == r && n.insts[i].twinE == Some(e)
            && n.lists.Keys == m.lists.Keys + {Instances(r), Childs(r)}
            && n.lists[l] == (if front then [e] + m.lists[l] else m.lists[l] + [e])
            && n.lists[Instances(r)] == (if made then [i] else m.lists[Instances(r)] + [i])
            && (made ==> n.lists[Childs(r)] == [])
            && (forall k <- m.lists :: k != l && k != Instances(r) ==> n.lists[k] == m.lists[k])
            && n.parents == (if made then m.parents[r := None] else m.parents)
  {
    assert ResOk(m, r);
  }

  /** A deletion: the instance and its twin leave the places they have in their lists, and the resource goes when it is
      to be freed and has no instance left. */
  lemma UnpairMeans(m: Memory, e: Inst, free: bool, a: seq<Inst>, b: seq<Inst>, c: seq<Inst>, d: seq<Inst>)
    requires Valid(m) && e in m.insts && InstOk(m, e) && !m.insts[e].dl.Instances?
    requires m.lists[m.insts[e].dl] == a + [e] + b
    requires var r := m.insts[e].resource;
             Instances(r) in m.lists && m.lists[Instances(r)] == c + [m.insts[e].twinI.value] + d
    ensures var r, l, n := m.insts[e].resource, m.insts[e].dl, Unpair(m, e, free);
            var freed := free && c + d == [];
            && n.insts == m.insts - {e, m.insts[e].twinI.value}
            && n.lists.Keys == m.lists.Keys - (if freed then {Instances(r), Childs(r)} else {})
            && n.parents == m.parents - (if freed then {r} else {})
            && (l in n.lists ==> n.lists[l] == a + b)
            && (Instances(r) in n.lists ==> n.lists[Instances(r)] == c + d)
            && (forall k <- n.lists :: k != l && k != Instances(r) ==> n.lists[k] == m.lists[k])
  {
    hide Valid, Keep;
    var r, l, i := m.insts[e].resource, m.insts[e].dl, m.insts[e].twinI.value;
    var gone := {e, i};
    DropLists(m, gone);
    InLists(m, i, e);
    KeepAround(m.lists[l], a, e, b, gone);
    KeepAround(m.lists[Instances(r)], c, i, d, gone);
    forall k <- m.lists | k != l && k != Instances(r)
      ensures Keep(m.lists[k], gone) == m.lists[k]
    {
      KeepAll(m.lists[k], gone);
    }
  }

  lemma InLists(m: Memory, i: Inst, e: Inst)
    requires Valid(m) && Paired(m, i, e)
    ensures i != e
    ensures forall k <- m.lists :: NoDuplicates(m.lists[k])
    ensures forall k <- m.lists, x <- m.lists[k] :: x in m.insts && m.insts[x].dl == k
    ensures forall k <- m.lists, x <- m.lists[k] :: (x == i ==> k == m.insts[i].dl) && (x == e ==> k == m.insts[e].dl)
  {
    forall k <- m.lists
      ensures NoDuplicates(m.lists[k]) && forall x <- m.lists[k] :: x in m.insts && m.insts[x].dl == k
    {
      assert ListOk(m, k);
    }
  }
}
