// The lists that threads are on: the scheduler's ready list, and the queue of each semaphore, lock
// and condition. They are the linked lists of List, and no two of them share an element.
module ThreadLists {
  import opened Basics
  import opened List
  import opened Kernel

  // The ready list has no queue's name.
  type Name = Option<QueueId>

  class ThreadLists {
    const lists: map<Name, List<Tid>>
    ghost const names: map<List<Tid>, Name>
    ghost var contents: map<Name, seq<Entry<Tid>>>
    ghost var Repr: set<object>

    ghost predicate ListOk(name: Name)
      requires name in lists && name in contents
      reads this, lists[name], lists[name].nodes
    {
      var list := lists[name];
      && list in Repr && (forall n | n in list.nodes :: n in Repr)
      && list in names && names[list] == name
      && list.Valid() && list.contents == contents[name]
    }

    ghost predicate Valid()
      reads this, lists.Values, Repr
    {
      && this !in Repr && contents.Keys == lists.Keys
      && forall name {:trigger ListOk(name)} | name in lists ::
           lists[name] in Repr && (forall n | n in lists[name].nodes :: n in Repr) && ListOk(name)
    }

    // New lists with the given names
    static method MakeLists(ids: set<Name>) returns (made: map<Name, List<Tid>>, ghost known: map<List<Tid>, Name>)
      ensures made.Keys == ids && forall name | name in made :: made[name] in known && known[made[name]] == name
      ensures forall name | name in made :: fresh(made[name]) && made[name].Valid() && made[name].contents == []
    {
      var todo := ids;
      made, known := map[], map[];
      while todo != {}
        invariant made.Keys == ids - todo && todo <= ids
        invariant forall list | list in known :: fresh(list)
        invariant forall name | name in made :: made[name] in known && known[made[name]] == name
        invariant forall name | name in made :: made[name].Valid() && made[name].contents == []
        decreases |todo|
      {
        var name :| name in todo;
        var list := new List<Tid>();
        made, known := made[name := list], known[list := name];
        todo := todo - {name};
      }
    }

    constructor (ids: set<Name>)
      ensures Valid() && fresh(Repr) && lists.Keys == ids && forall name | name in ids :: contents[name] == []
    {
      var made, known := MakeLists(ids);
      lists, names, contents := made, known, map name | name in made :: [];
      Repr := made.Values;
      new;
      forall name {:trigger ListOk(name)} | name in lists
        ensures ListOk(name)
      {
        assert lists[name].nodes == [];
      }
      AllOk();
    }

    // Put a thread into one of the lists.
    method Insert(name: Name, t: Tid, sortKey: int)
      requires Valid() && name in lists
      modifies this, Repr
      ensures Valid() && fresh(Repr - old(Repr))
      ensures contents == old(contents)[name := InsertSorted(old(contents)[name], Entry(sortKey, t))]
    {
      assert ListOk(name);
      var list := lists[name];
      list.SortedInsert(t, sortKey);
      Repr := Repr + set n | n in list.nodes;
      contents := contents[name := list.contents];
      OthersKept(name);
      AllOk();
    }

    // A change to one list leaves the others.
    twostate lemma OthersKept(name: Name)
      requires old(Valid()) && name in lists && contents.Keys == lists.Keys && old(Repr) <= Repr
      requires forall other | other in lists && other != name :: contents[other] == old(contents)[other]
      requires forall list: List<Tid> | list in old(Repr) && list != lists[name] ::
                 list.nodes == old(list.nodes) && list.contents == old(list.contents) &&
                 list.first == old(list.first) && list.last == old(list.last)
      requires forall n: ListElement<Tid> | n in old(Repr) && n !in old(lists[name].nodes) :: n.next == old(n.next)
      ensures forall other {:trigger ListOk(other)} | other in lists && other != name :: ListOk(other)
    {
      assert old(ListOk(name));
      forall other {:trigger ListOk(other)} | other in lists && other != name
        ensures ListOk(other)
      {
        assert old(ListOk(other));
        lists[other].UnchangedBy(lists[name]);
      }
    }

    // If each list is in its place and holds what the specification says, all is well.
    lemma AllOk()
      requires this !in Repr && contents.Keys == lists.Keys
      requires forall name {:trigger ListOk(name)} | name in lists :: ListOk(name)
      ensures Valid()
    {
    }

    // Take the first thread off one of the lists.
    method Remove(name: Name) returns (t: Option<Tid>)
      requires Valid() && name in lists
      modifies this, Repr
      ensures Valid() && Repr == old(Repr)
      ensures t == if old(contents)[name] == [] then None else Some(old(contents)[name][0].item)
      ensures contents == old(contents)[name := if old(contents)[name] == [] then [] else old(contents)[name][1..]]
    {
      assert ListOk(name);
      var list := lists[name];
      t := list.Remove();
      contents := contents[name := list.contents];
      OthersKept(name);
      AllOk();
    }
  }
}
