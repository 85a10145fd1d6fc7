/**
 The intrusive doubly linked list (lc-lib/internallist/list.go) that payloads, endpoints and timeouts are kept on.
 The elements form a ring through the root of their list.

 A call whose argument list also reads a field runs the call first.
 */
module RingList {
  import opened Sequences

  class Element {
    var next: Element?
    var prev: Element?
    var list: List?

    constructor ()
      ensures next == null && prev == null && list == null
    {
      next, prev, list := null, null, null;
    }

    /** The next element of the list, or null. */
    method Next() returns (e: Element?)
      ensures list == null ==> e == null
      ensures list != null ==> e == if next == list.root then null else next
    {
      if list != null && next != list.root {
        return next;
      }
      return null;
    }

    method Prev() returns (e: Element?)
      ensures list == null ==> e == null
      ensures list != null ==> e == if prev == list.root then null else prev
    {
      if list != null && prev != list.root {
        return prev;
      }
      return null;
    }
  }

  /** Where x first occurs, or the length when it does not. */
  function IndexOf<T(==)>(s: seq<T>, x: T): (k: nat)
    ensures k <= |s| && (x in s <==> k < |s|) && (k < |s| ==> s[k] == x)
  {
    if s == [] || s[0] == x then 0 else 1 + IndexOf(s[1..], x)
  }

  lemma RemoveAtShifts<T>(s: seq<T>, k: nat)
    requires k + 1 < |s|
    ensures RemoveAt(s, k + 1) == [s[0]] + RemoveAt(s[1..], k)
  {
    assert s[..k + 1] == [s[0]] + s[1..][..k] && s[k + 2..] == s[1..][k + 1..];
  }

  lemma {:induction false} RemoveAtIndex<T>(s: seq<T>, x: T)
    requires x in s
    ensures RemoveAt(s, IndexOf(s, x)) == Without(s, x)
  {
    if s[0] != x {
      var k := IndexOf(s[1..], x);
      RemoveAtIndex(s[1..], x);
      RemoveAtShifts(s, k);
    }
  }

  function InsertAt<T>(s: seq<T>, k: nat, e: T): seq<T>
    requires k <= |s|
  {
    s[..k] + [e] + s[k..]
  }

  /** x goes before the mark; nothing happens when there is no mark. */
  function Before<T(==)>(s: seq<T>, mark: T, x: T): seq<T> {
    if mark in s then InsertAt(s, IndexOf(s, mark), x) else s
  }

  function After<T(==)>(s: seq<T>, mark: T, x: T): seq<T> {
    if mark in s then InsertAt(s, IndexOf(s, mark) + 1, x) else s
  }

  function RemoveAt<T>(s: seq<T>, k: nat): seq<T>
    requires k < |s|
  {
    s[..k] + s[k + 1..]
  }

  /** The element at a position of the ring; positions -1 and |s| are the root. */
  function Node(root: Element, s: seq<Element>, i: int): Element {
    if 0 <= i < |s| then s[i] else root
  }

  lemma NodesDiffer(root: Element, s: seq<Element>, i: int, j: int)
    requires NoDup(s) && root !in s && -1 <= i < |s| && -1 <= j < |s|
    ensures Node(root, s, i) == Node(root, s, j) <==> i == j
  {
  }

  lemma NodesInserted(root: Element, s: seq<Element>, k: nat, e: Element, i: int)
    requires k <= |s| && -1 <= i <= |s| + 1
    ensures Node(root, InsertAt(s, k, e), i) ==
      if i < k then Node(root, s, i) else if i == k then e else Node(root, s, i - 1)
  {
  }

  lemma NodesRemoved(root: Element, s: seq<Element>, k: nat, i: int)
    requires k < |s| && -1 <= i < |s|
    ensures Node(root, RemoveAt(s, k), i) == if i < k then Node(root, s, i) else Node(root, s, i + 1)
  {
  }

  lemma RemovedMembers(s: seq<Element>, k: nat)
    requires k < |s| && NoDup(s)
    ensures NoDup(RemoveAt(s, k))
    ensures forall e :: e in RemoveAt(s, k) <==> e in s && e != s[k]
  {
  }

  class List {
    const root: Element
    var len: int

    /** The elements in order. */
    ghost var contents: seq<Element>

    ghost function At(i: int): Element
      reads `contents
    {
      Node(root, contents, i)
    }

    /** A list that was never used is not linked up yet. */
    ghost predicate Linked()
      reads this, root, contents
    {
      forall i {:trigger At(i)} :: -1 <= i < |contents| ==> At(i).next == At(i + 1) && At(i + 1).prev == At(i)
    }

    ghost predicate Members()
      reads this, root, contents
    {
      && root.list == null && root !in contents && NoDup(contents)
      && forall e :: e in contents ==> e.list == this
    }

    ghost predicate Valid()
      reads this, root, contents
    {
      && Members() && len == |contents|
      && (if root.next == null then contents == [] && root.prev == null else Linked())
    }

    constructor ()
      ensures Valid() && contents == [] && fresh(root)
    {
      root := new Element();
      len, contents := 0, [];
    }

    method LazyInit()
      requires Valid()
      modifies this`len, root
      ensures Valid() && root.next != null
    {
      if root.next == null {
        root.next := root;
        root.prev := root;
        len := 0;
      }
    }

    method Front() returns (e: Element?)
      requires Valid()
      ensures e == if contents == [] then null else contents[0]
    {
      if len == 0 {
        return null;
      }
      assert At(-1).next == At(0);
      return root.next;
    }

    method Back() returns (e: Element?)
      requires Valid()
      ensures e == if contents == [] then null else contents[|contents| - 1]
    {
      if len == 0 {
        return null;
      }
      assert At(|contents| - 1).next == At(|contents|) && At(|contents|).prev == At(|contents| - 1);
      return root.prev;
    }

    /** Inserts an element that is on no list between positions k - 1 and k. */
    method Insert(e: Element, at: Element, ghost k: nat)
      requires Valid() && root.next != null && k <= |contents| && at == At(k - 1)
      requires e.list == null && e != root
      modifies this, root, contents, e
      ensures Valid() && root.next != null && contents == InsertAt(old(contents), k, e)
    {
      assert At(k - 1).next == At(k);
      ghost var s := contents;
      var n := at.next;
      at.next := e;
      e.prev := at;
      e.next := n;
      n.prev := e;
      e.list := this;
      len := len + 1;
      contents := InsertAt(s, k, e);
      forall i | -1 <= i < |contents| ensures At(i).next == At(i + 1) && At(i + 1).prev == At(i) {
        NodesInserted(root, s, k, e, i);
        NodesInserted(root, s, k, e, i + 1);
        if i < k - 1 {
          assert old(At(i).next == At(i + 1) && At(i + 1).prev == At(i));
          NodesDiffer(root, s, i, k - 1);
        } else if i > k {
          assert old(At(i - 1).next == At(i) && At(i).prev == At(i - 1));
          NodesDiffer(root, s, i - 1, k - 1);
        }
      }
    }

    /** Takes the element at position k off the list. */
    method Unlink(e: Element, ghost k: nat)
      requires Valid() && k < |contents| && contents[k] == e
      modifies this, root, contents
      ensures Valid() && root.next != null && contents == RemoveAt(old(contents), k)
      ensures e.list == null && e.next == null && e.prev == null
    {
      assert At(k - 1).next == At(k) && At(k).next == At(k + 1);
      ghost var s := contents;
      e.prev.next := e.next;
      e.next.prev := e.prev;
      e.next := null;
      e.prev := null;
      e.list := null;
      len := len - 1;
      contents := RemoveAt(s, k);
      RemovedMembers(s, k);
      assert Members();
      forall i | -1 <= i < |contents| ensures At(i).next == At(i + 1) && At(i + 1).prev == At(i) {
        NodesRemoved(root, s, k, i);
        NodesRemoved(root, s, k, i + 1);
        if i < k - 1 {
          assert old(At(i).next == At(i + 1) && At(i + 1).prev == At(i));
          NodesDiffer(root, s, i, k - 1);
          assert At(i).next == At(i + 1);
        } else if i >= k {
          assert old(At(i + 1).next == At(i + 2) && At(i + 2).prev == At(i + 1));
          NodesDiffer(root, s, i + 1, k - 1);
          assert At(i).next == At(i + 1);
        }
      }
    }

    /** Takes an element of the list off it. */
    method RemoveElement(e: Element)
      requires Valid() && e in contents
      modifies this, root, contents
      ensures Valid() && root.next != null && contents == Without(old(contents), e)
      ensures forall x :: x in contents <==> x in old(contents) && x != e
      ensures e.list == null && e.next == null && e.prev == null && e != root
    {
      WithoutMembers(contents, e);
      RemoveAtIndex(contents, e);
      Unlink(e, IndexOf(contents, e));
    }

    lemma Place(mark: Element) returns (k: int)
      requires Valid() && mark in contents
      ensures k == IndexOf(contents, mark) && 0 <= k < |contents| && At(k) == mark && mark.prev == At(k - 1)
    {
      k := IndexOf(contents, mark);
      assert At(k - 1).next == At(k) && At(k).prev == At(k - 1);
      assert At(k).next == At(k + 1);
    }

    /** The element's own record of its list can be relied on. It can for elements just made, for those
        taken off a list, and for those put on one. */
    ghost predicate Knows(e: Element)
      reads this, e
    {
      e.list == this <==> e in contents
    }

    method Remove(e: Element)
      requires Valid() && Knows(e)
      modifies this, root, contents
      ensures Valid() && contents == Without(old(contents), e)
      ensures if old(e.list) == this then e.list == null && e.next == null && e.prev == null else e.list == old(e.list)
    {
      if e.list == this {
        RemoveElement(e);
      }
    }

    method PushFront(e: Element)
      requires Valid() && e.list == null && e != root
      modifies this, root, contents, e
      ensures Valid() && contents == [e] + old(contents)
    {
      LazyInit();
      Insert(e, root, 0);
    }

    method PushBack(e: Element)
      requires Valid() && e.list == null && e != root
      modifies this, root, contents, e
      ensures Valid() && contents == old(contents) + [e]
    {
      LazyInit();
      assert At(|contents| - 1).next == At(|contents|) && At(|contents|).prev == At(|contents| - 1);
      Insert(e, root.prev, |contents|);
    }

    /** Does nothing when the mark is not on this list. */
    method InsertBefore(e: Element, mark: Element) returns (r: Element?)
      requires Valid() && e.list == null && e != root && Knows(mark)
      modifies this, root, contents, e
      ensures Valid()
      ensures contents == Before(old(contents), mark, e)
      ensures if mark in old(contents) then r == e else r == null && e.list == null
    {
      if mark.list != this {
        return null;
      }
      ghost var k := Place(mark);
      Insert(e, mark.prev, k);
      return e;
    }

    method InsertAfter(e: Element, mark: Element) returns (r: Element?)
      requires Valid() && e.list == null && e != root && Knows(mark)
      modifies this, root, contents, e
      ensures Valid()
      ensures contents == After(old(contents), mark, e)
      ensures if mark in old(contents) then r == e else r == null && e.list == null
    {
      if mark.list != this {
        return null;
      }
      ghost var k := Place(mark);
      Insert(e, mark, k + 1);
      return e;
    }

    method MoveToFront(e: Element)
      requires Valid() && Knows(e)
      modifies this, root, contents
      ensures Valid()
      ensures contents == if e in old(contents) then [e] + Without(old(contents), e) else old(contents)
    {
      if e.list != this || root.next == e {
        if root.next == e {
          FirstIsNext();
        }
        return;
      }
      RemoveElement(e);
      assert InsertAt(contents, 0, e) == [e] + contents;
      Insert(e, root, 0);
    }

    method MoveToBack(e: Element)
      requires Valid() && Knows(e)
      modifies this, root, contents
      ensures Valid()
      ensures contents == if e in old(contents) then Without(old(contents), e) + [e] else old(contents)
    {
      if e.list != this || root.prev == e {
        LastIsPrev(e);
        return;
      }
      RemoveElement(e);
      assert At(|contents| - 1).next == At(|contents|) && At(|contents|).prev == At(|contents| - 1);
      Insert(e, root.prev, |contents|);
    }

    /** Does nothing unless both elements are on this list and differ. */
    method MoveBefore(e: Element, mark: Element)
      requires Valid() && Knows(e) && Knows(mark)
      modifies this, root, contents
      ensures Valid()
      ensures contents == if e !in old(contents) || mark !in old(contents) || e == mark then old(contents)
        else Before(Without(old(contents), e), mark, e)
    {
      if e.list != this || e == mark || mark.list != this {
        return;
      }
      RemoveElement(e);
      ghost var k := Place(mark);
      assert Before(contents, mark, e) == InsertAt(contents, k, e);
      Insert(e, mark.prev, k);
    }

    method MoveAfter(e: Element, mark: Element)
      requires Valid() && Knows(e) && Knows(mark)
      modifies this, root, contents
      ensures Valid()
      ensures contents == if e !in old(contents) || mark !in old(contents) || e == mark then old(contents)
        else After(Without(old(contents), e), mark, e)
    {
      if e.list != this || e == mark || mark.list != this {
        return;
      }
      RemoveElement(e);
      ghost var k := Place(mark);
      assert After(contents, mark, e) == InsertAt(contents, k + 1, e);
      Insert(e, mark, k + 1);
    }

    lemma FirstIsNext()
      requires Valid()
      ensures root.next != null && contents != [] ==>
        root.next == contents[0] && contents == [contents[0]] + Without(contents, contents[0])
      ensures root.next != null && contents == [] ==> root.next == root
    {
      if root.next != null {
        assert At(-1).next == At(0);
        if contents != [] {
          assert contents == [contents[0]] + contents[1..];
        }
      }
    }

    lemma LastIsPrev(e: Element)
      requires Valid()
      ensures contents != [] && root.prev == e ==>
        e == contents[|contents| - 1] && contents == Without(contents, e) + [e]
      ensures contents == [] ==> root.prev == null || root.prev == root
    {
      if contents != [] {
        assert At(|contents| - 1).next == At(|contents|) && At(|contents|).prev == At(|contents| - 1);
        if root.prev == e {
          WithoutLast(contents, e);
        }
      } else if root.next != null {
        assert At(-1).next == At(0) && At(0).prev == At(-1);
      }
    }

    /** The elements beside one of the list. */
    lemma Beside(e: Element, k: nat)
      requires Valid() && k < |contents| && contents[k] == e
      ensures e.list == this
      ensures (if e.next == root then null else e.next) == if k + 1 < |contents| then contents[k + 1] else null
      ensures (if e.prev == root then null else e.prev) == if k > 0 then contents[k - 1] else null
    {
      assert At(k).next == At(k + 1);
      assert At(k - 1).next == At(k) && At(k).prev == At(k - 1);
    }

    /** Goes through the list from the front, as its users do. */
    method Traverse() returns (elements: seq<Element>)
      requires Valid()
      ensures elements == contents
    {
      elements := [];
      var e := Front();
      while e != null
        invariant |elements| <= |contents| && elements == contents[..|elements|]
        invariant e == if |elements| < |contents| then contents[|elements|] else null
        decreases |contents| - |elements|
      {
        Beside(e, |elements|);
        elements := elements + [e];
        e := e.Next();
      }
    }
  }

  lemma {:induction false} WithoutLast<T>(s: seq<T>, x: T)
    requires NoDup(s) && s != [] && s[|s| - 1] == x
    ensures s == Without(s, x) + [x]
  {
    if |s| > 1 {
      WithoutLast(s[1..], x);
    }
  }

  /** Two lists share nothing, so that what is done to one leaves the other as it was. */
  lemma ListsApart(l: List, m: List)
    requires l.Valid() && m.Valid() && l != m && l.root != m.root
    ensures l.root !in m.contents && m.root !in l.contents
    ensures forall e :: e in l.contents ==> e !in m.contents
    ensures forall e :: e in m.contents ==> e !in l.contents
  {
    forall e | e in l.contents ensures e !in m.contents && e != m.root {
      assert e.list == l;
    }
    forall e | e in m.contents ensures e !in l.contents && e != l.root {
      assert e.list == m;
    }
  }

  twostate lemma LeftAlone(m: List)
    requires old(m.Valid()) && unchanged(m, m.root) && forall x :: x in old(m.contents) ==> unchanged(x)
    ensures m.Valid()
  {
    forall e | e in m.contents ensures e.list == m {
      assert e in old(m.contents);
    }
    if m.root.next != null {
      forall i {:trigger m.At(i)} | -1 <= i < |m.contents|
        ensures m.At(i).next == m.At(i + 1) && m.At(i + 1).prev == m.At(i)
      {
        assert old(m.At(i).next == m.At(i + 1) && m.At(i + 1).prev == m.At(i));
        assert m.At(i) == m.root || m.At(i) in m.contents;
        assert m.At(i + 1) == m.root || m.At(i + 1) in m.contents;
      }
    }
  }

  /** An element moved from one list to the back of another. */
  method Transfer(l: List, m: List, e: Element)
    requires l.Valid() && m.Valid() && l != m && l.root != m.root && e in l.contents
    modifies l, l.root, l.contents, m, m.root, m.contents
    ensures l.Valid() && m.Valid()
    ensures l.contents == Without(old(l.contents), e) && m.contents == old(m.contents) + [e]
  {
    ListsApart(l, m);
    l.Remove(e);
    LeftAlone(m);
    m.PushBack(e);
  }
}
