// threads/list.cc: a singly linked list with pointers to its first and last element, whose
// elements may carry sort keys.
module List {
  import opened Basics

  // A sort key and an item, as one element of the list holds them.
  datatype Entry<T> = Entry(key: int, item: T)

  // What SortedInsert makes of a list: the new element goes in front of the first one with a larger
  // key, or to the end.
  function InsertSorted<T>(s: seq<Entry<T>>, e: Entry<T>): (r: seq<Entry<T>>)
    ensures |r| == |s| + 1
  {
    if s == [] || e.key < s[0].key then [e] + s else [s[0]] + InsertSorted(s[1..], e)
  }

  ghost predicate Sorted<T>(s: seq<Entry<T>>) {
    forall i, j | 0 <= i < j < |s| :: s[i].key <= s[j].key
  }

  function InsertAt<T>(s: seq<T>, p: nat, x: T): (r: seq<T>)
    requires p <= |s|
    ensures |r| == |s| + 1
    ensures forall i | 0 <= i < |r| :: r[i] == if i < p then s[i] else if i == p then x else s[i - 1]
  {
    s[..p] + [x] + s[p..]
  }

  // Inserting keeps a sorted list sorted, changes no other element, and puts the new one behind
  // every element with the same key.
  lemma {:induction false} InsertPlace<T>(s: seq<Entry<T>>, e: Entry<T>) returns (p: nat)
    ensures p <= |s| && InsertSorted(s, e) == InsertAt(s, p, e)
    ensures forall i | 0 <= i < p :: s[i].key <= e.key
    ensures p < |s| ==> e.key < s[p].key
  {
    if s == [] || e.key < s[0].key {
      p := 0;
    } else {
      p := InsertPlace(s[1..], e);
      p := p + 1;
    }
  }

  lemma InsertKeepsSorted<T>(s: seq<Entry<T>>, e: Entry<T>) returns (p: nat)
    requires Sorted(s)
    ensures Sorted(InsertSorted(s, e)) && multiset(InsertSorted(s, e)) == multiset(s) + multiset{e}
    ensures p <= |s| && InsertSorted(s, e) == InsertAt(s, p, e)
    ensures forall i | 0 <= i < |s| && s[i].key == e.key :: i < p
  {
    p := InsertPlace(s, e);
    SameElements(s, p, e);
  }

  lemma SameElements<T>(s: seq<T>, p: nat, x: T)
    requires p <= |s|
    ensures multiset(InsertAt(s, p, x)) == multiset(s) + multiset{x}
  {
    assert s == s[..p] + s[p..];
  }

  // The list that results from inserting elements in the order of their arrival.
  function Queued<T>(arrivals: seq<Entry<T>>): (s: seq<Entry<T>>)
    ensures |s| == |arrivals|
  {
    if arrivals == [] then [] else InsertSorted(Queued(arrivals[..|arrivals| - 1]), arrivals[|arrivals| - 1])
  }

  // The earliest arrival among those with the smallest key.
  function Next<T>(arrivals: seq<Entry<T>>): (i: nat)
    requires arrivals != []
    ensures i < |arrivals|
  {
    var n := |arrivals| - 1;
    if n == 0 || arrivals[n].key < arrivals[Next(arrivals[..n])].key then n else Next(arrivals[..n])
  }

  lemma {:induction false} NextIsEarliestSmallest<T>(arrivals: seq<Entry<T>>)
    requires arrivals != []
    ensures var i := Next(arrivals);
            && (forall j | 0 <= j < |arrivals| :: arrivals[i].key <= arrivals[j].key)
            && forall j | 0 <= j < i :: arrivals[i].key < arrivals[j].key
  {
    var n := |arrivals| - 1;
    if n > 0 {
      NextIsEarliestSmallest(arrivals[..n]);
      assert forall j | 0 <= j < n :: arrivals[j] == arrivals[..n][j];
    }
  }

  function Drop<T>(s: seq<T>, i: nat): seq<T>
    requires i < |s|
  {
    s[..i] + s[i + 1..]
  }

  lemma FrontAfterInsert<T>(s: seq<Entry<T>>, e: Entry<T>)
    requires s != []
    ensures InsertSorted(s, e)[0] == if e.key < s[0].key then e else s[0]
    ensures InsertSorted(s, e)[1..] == if e.key < s[0].key then s else InsertSorted(s[1..], e)
  {
  }

  lemma DropBeforeLast<T>(s: seq<Entry<T>>, i: nat, e: Entry<T>)
    requires i < |s|
    ensures Drop(s + [e], i) == Drop(s, i) + [e] && Queued(Drop(s + [e], i)) == InsertSorted(Queued(Drop(s, i)), e)
  {
    assert Drop(s + [e], i) == Drop(s, i) + [e];
    assert (Drop(s, i) + [e])[..|s| - 1] == Drop(s, i);
  }

  // A list that is only inserted into with keys and removed from at the front serves the smallest
  // key first, and equal keys in the order of arrival.
  lemma {:induction false} ServesNext<T>(arrivals: seq<Entry<T>>)
    requires arrivals != []
    ensures Queued(arrivals)[0] == arrivals[Next(arrivals)]
    ensures Queued(arrivals)[1..] == Queued(Drop(arrivals, Next(arrivals)))
  {
    var n, e := |arrivals| - 1, arrivals[|arrivals| - 1];
    var before := arrivals[..n];
    if n == 0 {
      assert Queued(arrivals) == [e];
    } else {
      ServesNext(before);
      assert arrivals == before + [e];
      var s, i := Queued(before), Next(before);
      FrontAfterInsert(s, e);
      if e.key < s[0].key {
        assert Drop(arrivals, n) == before;
      } else {
        DropBeforeLast(before, i, e);
      }
    }
  }

  // A list in use: elements are put in by key, and taken from the front.
  datatype Use<T> = Put(e: Entry<T>) | Take

  function ListAfter<T>(uses: seq<Use<T>>): seq<Entry<T>> {
    if uses == [] then []
    else
      var s := ListAfter(uses[..|uses| - 1]);
      match uses[|uses| - 1]
      case Put(e) => InsertSorted(s, e)
      case Take => if s == [] then [] else s[1..]
  }

  // Those that have been put in and not been served, in the order of their arrival, when the one
  // with the smallest key, the earliest of them, is always served first.
  function Waiting<T>(uses: seq<Use<T>>): seq<Entry<T>> {
    if uses == [] then []
    else
      var arrivals := Waiting(uses[..|uses| - 1]);
      match uses[|uses| - 1]
      case Put(e) => arrivals + [e]
      case Take => if arrivals == [] then [] else Drop(arrivals, Next(arrivals))
  }

  lemma {:induction false} ListIsStableQueue<T>(uses: seq<Use<T>>)
    ensures ListAfter(uses) == Queued(Waiting(uses))
    ensures ListAfter(uses) != [] ==> ListAfter(uses)[0] == Waiting(uses)[Next(Waiting(uses))]
  {
    if uses != [] {
      var before := uses[..|uses| - 1];
      ListIsStableQueue(before);
      var arrivals := Waiting(before);
      match uses[|uses| - 1] {
        case Put(e) => assert (arrivals + [e])[..|arrivals|] == arrivals;
        case Take =>
          if arrivals != [] {
            ServesNext(arrivals);
          }
      }
    }
    if Waiting(uses) != [] {
      ServesNext(Waiting(uses));
    }
  }

  class ListElement<T> {
    var next: ListElement?<T>
    const key: int
    const item: T
    ghost const list: List<T>

    constructor (itemPtr: T, sortKey: int, ghost list: List<T>)
      ensures next == null && key == sortKey && item == itemPtr && this.list == list
    {
      this.list := list;
      item := itemPtr;
      key := sortKey;
      next := null;
    }
  }

  class List<T> {
    var first: ListElement?<T>
    var last: ListElement?<T>
    ghost var nodes: seq<ListElement<T>>
    ghost var contents: seq<Entry<T>>

    static ghost predicate Different(nodes: seq<ListElement<T>>) {
      forall i, j | 0 <= i < j < |nodes| :: nodes[i] != nodes[j]
    }

    // The elements hold what is in the list.
    static ghost predicate Hold(nodes: seq<ListElement<T>>, contents: seq<Entry<T>>) {
      |contents| == |nodes| && forall i | 0 <= i < |nodes| :: contents[i] == Entry(nodes[i].key, nodes[i].item)
    }

    static lemma InsertHolds(nodes: seq<ListElement<T>>, contents: seq<Entry<T>>, p: nat, x: ListElement<T>)
      requires Different(nodes) && Hold(nodes, contents) && p <= |nodes| && x !in nodes
      ensures Different(InsertAt(nodes, p, x))
      ensures Hold(InsertAt(nodes, p, x), InsertAt(contents, p, Entry(x.key, x.item)))
    {
    }

    // The element after index i, if any.
    static ghost function After(nodes: seq<ListElement<T>>, i: int): ListElement?<T>
      requires -1 <= i < |nodes|
    {
      if i + 1 < |nodes| then nodes[i + 1] else null
    }

    ghost predicate Valid()
      reads this, nodes
    {
      && Different(nodes) && Hold(nodes, contents) && (forall n | n in nodes :: n.list == this)
      && (forall i {:trigger nodes[i].next} | 0 <= i < |nodes| :: nodes[i].next == After(nodes, i))
      && first == (if nodes == [] then null else nodes[0])
      && last == (if nodes == [] then null else nodes[|nodes| - 1])
    }

    // Different lists share no element, so that changing one leaves the other.
    twostate lemma UnchangedBy(changed: List<T>)
      requires old(Valid()) && old(changed.Valid()) && this != changed
      requires nodes == old(nodes) && contents == old(contents) && first == old(first) && last == old(last)
      requires forall n | n in old(nodes) :: n !in old(changed.nodes) ==> n.next == old(n.next)
      ensures Valid()
    {
      assert forall n | n in old(changed.nodes) :: n.list != this;
      assert forall i | 0 <= i < |nodes| :: nodes[i] in old(nodes);
    }

    constructor ()
      ensures Valid() && contents == [] && nodes == []
    {
      first, last, nodes, contents := null, null, [], [];
    }

    method IsEmpty() returns (empty: bool)
      requires Valid()
      ensures empty == (contents == [])
    {
      empty := first == null;
    }

    method Append(item: T)
      requires Valid()
      modifies this, nodes
      ensures Valid() && contents == old(contents) + [Entry(0, item)]
      ensures forall n | n in nodes :: n in old(nodes) || fresh(n)
    {
      var element := new ListElement(item, 0, this);
      if first == null {
        LinkFirst(element);
      } else {
        LinkLast(element);
      }
    }

    method Prepend(item: T)
      requires Valid()
      modifies this
      ensures Valid() && contents == [Entry(0, item)] + old(contents)
      ensures forall n | n in nodes :: n in old(nodes) || fresh(n)
    {
      var element := new ListElement(item, 0, this);
      LinkFirst(element);
    }

    method Remove() returns (thing: Option<T>)
      requires Valid()
      modifies this
      ensures Valid() && nodes == if old(nodes) == [] then [] else old(nodes)[1..]
      ensures thing == if old(contents) == [] then None else Some(old(contents)[0].item)
      ensures contents == if old(contents) == [] then [] else old(contents)[1..]
    {
      var key;
      thing, key := SortedRemove();
    }

    method SortedInsert(item: T, sortKey: int)
      requires Valid()
      modifies this, nodes
      ensures Valid() && contents == InsertSorted(old(contents), Entry(sortKey, item))
      ensures forall n | n in nodes :: n in old(nodes) || fresh(n)
    {
      var element := new ListElement(item, sortKey, this);
      ghost var s := contents;
      ghost var p := InsertPlace(s, Entry(sortKey, item));
      if first == null || sortKey < first.key {
        LinkFirst(element);
        return;
      }
      // past the elements whose keys are not larger
      var ptr := first;
      ghost var i := 0;
      while ptr.next != null
        invariant 0 <= i < p && ptr == nodes[i]
        decreases |nodes| - i
      {
        if sortKey < ptr.next.key {
          assert s[i + 1].key == ptr.next.key;
          LinkAfter(element, ptr, i);
          return;
        }
        ptr := ptr.next;
        i := i + 1;
      }
      LinkLast(element);
    }

    // The three ways in which a new element is linked into the list.
    method LinkFirst(element: ListElement<T>)
      requires Valid() && element.next == null && element !in nodes && element.list == this
      modifies this, element
      ensures Valid() && nodes == [element] + old(nodes)
      ensures contents == [Entry(element.key, element.item)] + old(contents)
    {
      if first == null {
        first := element;
        last := element;
      } else {
        element.next := first;
        first := element;
      }
      nodes, contents := [element] + nodes, [Entry(element.key, element.item)] + contents;
      assert forall i | 0 < i < |nodes| :: nodes[i] == old(nodes)[i - 1];
    }

    method LinkLast(element: ListElement<T>)
      requires Valid() && nodes != [] && element.next == null && element !in nodes && element.list == this
      modifies this, last
      ensures Valid() && nodes == old(nodes) + [element]
      ensures contents == old(contents) + [Entry(element.key, element.item)]
    {
      last.next := element;
      last := element;
      nodes, contents := nodes + [element], contents + [Entry(element.key, element.item)];
    }

    method LinkAfter(element: ListElement<T>, ptr: ListElement<T>, ghost i: nat)
      requires Valid() && i + 1 < |nodes| && ptr == nodes[i] && element !in nodes && element.list == this
      modifies this, element, ptr
      ensures Valid() && nodes == InsertAt(old(nodes), i + 1, element)
      ensures contents == InsertAt(old(contents), i + 1, Entry(element.key, element.item))
    {
      element.next := ptr.next;
      ptr.next := element;
      InsertHolds(nodes, contents, i + 1, element);
      nodes := InsertAt(nodes, i + 1, element);
      contents := InsertAt(contents, i + 1, Entry(element.key, element.item));
      forall j {:trigger nodes[j].next} | 0 <= j < |nodes|
        ensures nodes[j].next == After(nodes, j)
      {
        if i + 1 < j {
          assert nodes[j] == old(nodes)[j - 1] && old(nodes)[j - 1] != ptr;
        }
      }
    }

    // The key of the removed element is what the source stores through keyPtr.
    method SortedRemove() returns (thing: Option<T>, key: int)
      requires Valid()
      modifies this
      ensures Valid() && nodes == if old(nodes) == [] then [] else old(nodes)[1..]
      ensures thing == if old(contents) == [] then None else Some(old(contents)[0].item)
      ensures old(contents) != [] ==> key == old(contents)[0].key
      ensures contents == if old(contents) == [] then [] else old(contents)[1..]
    {
      var element := first;
      key := 0;
      if element == null {
        return None, key;
      }
      thing := Some(element.item);
      key := element.key;
      if first == last {
        first := null;
        last := null;
      } else {
        first := element.next;
      }
      nodes, contents := nodes[1..], contents[1..];
    }
  }
}
