/** list.h: the intrusive circular doubly linked list. A list is a head node and the sequence of its entries. */
module ListHead {

  class Node {
    var next: Node?
    var prev: Node?

    constructor ()
      ensures next == null && prev == null
    {
      next, prev := null, null;
    }
  }

  ghost predicate Distinct(s: seq<Node>) {
    forall i, j | 0 <= i < j < |s| :: s[i] != s[j]
  }

  /** The neighbours of position k in the circle through head and s; positions -1 and |s| are the head. */
  function Item(head: Node, s: seq<Node>, k: int): Node {
    if 0 <= k < |s| then s[k] else head
  }

  /** The list at head holds exactly the entries s, in order: one circle through both pointers. */
  ghost predicate Holds(head: Node, s: seq<Node>)
    reads head, s
  {
    && head !in s && Distinct(s)
    && head.next == Item(head, s, 0) && head.prev == Item(head, s, |s| - 1)
    && (forall i {:trigger s[i].next} | 0 <= i < |s| :: s[i].next == Item(head, s, i + 1))
    && (forall i {:trigger s[i].prev} | 0 <= i < |s| :: s[i].prev == Item(head, s, i - 1))
  }

  /** INIT_LIST_HEAD. */
  method Init(list: Node)
    modifies list
    ensures Holds(list, [])
  {
    list.next := list;
    list.prev := list;
  }

  /** __list_add in front of position k. */
  method Insert(new_: Node, prev: Node, next: Node, ghost head: Node, ghost s: seq<Node>, ghost k: nat)
    requires Holds(head, s) && k <= |s| && new_ != head && new_ !in s
    requires prev == Item(head, s, k - 1) && next == Item(head, s, k)
    modifies new_, prev, next
    ensures Holds(head, s[..k] + [new_] + s[k..])
  {
    next.prev := new_;
    new_.next := next;
    new_.prev := prev;
    prev.next := new_;
    ghost var t := s[..k] + [new_] + s[k..];
    forall i | 0 <= i < |t| ensures t[i].next == Item(head, t, i + 1) && t[i].prev == Item(head, t, i - 1) {
      if i < k {
        assert t[i] == s[i];
      } else if i > k {
        assert t[i] == s[i - 1];
      }
    }
  }

  /** list_add: a new first entry. */
  method Add(new_: Node, head: Node, ghost s: seq<Node>)
    requires Holds(head, s) && new_ != head && new_ !in s
    modifies new_, head, head.next
    ensures Holds(head, [new_] + s)
  {
    Insert(new_, head, head.next, head, s, 0);
    assert s[..0] + [new_] + s[0..] == [new_] + s;
  }

  /** list_add_tail: a new last entry. */
  method AddTail(new_: Node, head: Node, ghost s: seq<Node>)
    requires Holds(head, s) && new_ != head && new_ !in s
    modifies new_, head, head.prev
    ensures Holds(head, s + [new_])
  {
    Insert(new_, head.prev, head, head, s, |s|);
    assert s[..|s|] + [new_] + s[|s|..] == s + [new_];
  }

  /** __list_del of position k, given its neighbours. */
  method Unlink(prev: Node, next: Node, ghost head: Node, ghost s: seq<Node>, ghost k: nat)
    requires Holds(head, s) && k < |s| && prev == Item(head, s, k - 1) && next == Item(head, s, k + 1)
    modifies prev, next
    ensures Holds(head, s[..k] + s[k + 1..])
    ensures s[k].next == old(s[k].next) && s[k].prev == old(s[k].prev)
  {
    next.prev := prev;
    prev.next := next;
    ghost var t := s[..k] + s[k + 1..];
    forall i | 0 <= i < |t| ensures t[i].next == Item(head, t, i + 1) && t[i].prev == Item(head, t, i - 1) {
      assert t[i] == if i < k then s[i] else s[i + 1];
    }
  }

  /** list_del: the entry leaves, the others stay in order. */
  method Del(entry: Node, ghost head: Node, ghost s: seq<Node>, ghost k: nat)
    requires Holds(head, s) && k < |s| && s[k] == entry
    modifies entry, entry.prev, entry.next
    ensures Holds(head, s[..k] + s[k + 1..])
    ensures entry.next == null && entry.prev == null
  {
    Unlink(entry.prev, entry.next, head, s, k);
    ghost var t := s[..k] + s[k + 1..];
    assert entry !in t;
    entry.next := null;
    entry.prev := null;
  }

  /** list_replace: the new entry takes the old one's place. */
  method Replace(old_: Node, new_: Node, ghost head: Node, ghost s: seq<Node>, ghost k: nat)
    requires Holds(head, s) && k < |s| && s[k] == old_ && new_ != head && new_ !in s
    modifies new_, old_.prev, old_.next
    ensures Holds(head, s[k := new_])
  {
    new_.next := old_.next;
    new_.next.prev := new_;
    new_.prev := old_.prev;
    new_.prev.next := new_;
    ghost var t := s[k := new_];
    forall i | 0 <= i < |t| ensures t[i].next == Item(head, t, i + 1) && t[i].prev == Item(head, t, i - 1) {
      assert i != k ==> t[i] == s[i];
    }
  }

  /** list_move: the entry leaves its list and becomes the first of another one. */
  method Move(list: Node, head: Node, ghost h0: Node, ghost s: seq<Node>, ghost k: nat, ghost t: seq<Node>)
    requires Holds(h0, s) && k < |s| && s[k] == list && Holds(head, t)
    requires h0 != head && h0 !in t && head !in s && forall x | x in s :: x !in t
    modifies list, list.prev, list.next, head, head.next
    ensures Holds(h0, s[..k] + s[k + 1..]) && Holds(head, [list] + t)
  {
    ghost var s' := s[..k] + s[k + 1..];
    assert list !in s' && forall x | x in s' :: x in s;
    assert list.prev in s + [h0] && list.next in s + [h0];
    assert list.prev !in t + [head] && list.next !in t + [head];
    Unlink(list.prev, list.next, h0, s, k);
    assert list !in [h0] + s' && head !in s' && Item(head, t, 0) !in s';
    Add(list, head, t);
  }

  /** __list_splice: the entries of a non-empty list go in front of those of head. */
  method Splice(list: Node, head: Node, ghost s: seq<Node>, ghost t: seq<Node>)
    requires Holds(list, s) && Holds(head, t) && s != []
    requires list != head && list !in t && head !in s && forall x | x in s :: x !in t
    modifies list.next, list.prev, head, head.next
    ensures Holds(head, s + t)
  {
    var first, last, at := list.next, list.prev, head.next;
    assert first in s && last in s && (at in t || at == head);
    assert forall x | x in s :: x != head && x != at;
    assert forall x | x in t :: x != last && x != first;
    assert forall i | 0 <= i < |s| :: (i > 0 ==> s[i] != first) && (i < |s| - 1 ==> s[i] != last);
    assert forall i | 0 < i < |t| :: t[i] != at;
    first.prev := head;
    head.next := first;
    last.next := at;
    at.prev := last;
    assert forall i {:trigger s[i].next} | 0 <= i < |s| :: s[i].next == if i + 1 < |s| then s[i + 1] else at;
    assert forall i {:trigger s[i].prev} | 0 <= i < |s| :: s[i].prev == Item(head, s, i - 1);
    assert forall i {:trigger t[i].next} | 0 <= i < |t| :: t[i].next == Item(head, t, i + 1);
    assert forall i {:trigger t[i].prev} | 0 <= i < |t| :: t[i].prev == if i > 0 then t[i - 1] else last;
    Joined(head, s, t);
  }

  /** Two stretches linked end to end behind a head. */
  lemma Joined(head: Node, s: seq<Node>, t: seq<Node>)
    requires s != [] && head !in s && head !in t && Distinct(s) && Distinct(t) && forall x | x in s :: x !in t
    requires head.next == s[0] && head.prev == Item(s[|s| - 1], t, |t| - 1)
    requires forall i {:trigger s[i].next} | 0 <= i < |s| :: s[i].next == if i + 1 < |s| then s[i + 1] else Item(head, t, 0)
    requires forall i {:trigger s[i].prev} | 0 <= i < |s| :: s[i].prev == Item(head, s, i - 1)
    requires forall i {:trigger t[i].next} | 0 <= i < |t| :: t[i].next == Item(head, t, i + 1)
    requires forall i {:trigger t[i].prev} | 0 <= i < |t| :: t[i].prev == if i > 0 then t[i - 1] else s[|s| - 1]
    ensures Holds(head, s + t)
  {
    var c := s + t;
    forall i, j | 0 <= i < j < |c| ensures c[i] != c[j] {
      if i < |s| <= j {
        assert c[i] in s && c[j] in t;
      }
    }
    forall i | 0 <= i < |c| ensures c[i].next == Item(head, c, i + 1) && c[i].prev == Item(head, c, i - 1) {
      assert c[i] == if i < |s| then s[i] else t[i - |s|];
    }
  }

  /** list_splice_init: as list_splice, and list is left empty. */
  method SpliceInit(list: Node, head: Node, ghost s: seq<Node>, ghost t: seq<Node>)
    requires Holds(list, s) && Holds(head, t)
    requires list != head && list !in t && head !in s && forall x | x in s :: x !in t
    modifies list, list.next, list.prev, head, head.next
    ensures Holds(list, []) && Holds(head, s + t)
  {
    if list.next != list {
      Splice(list, head, s, t);
      assert list !in s + t;
      Init(list);
    } else {
      assert s + t == t by { assert s != [] ==> list in s; }
    }
  }

  /** list_empty. */
  method Empty(head: Node, ghost s: seq<Node>) returns (b: bool)
    requires Holds(head, s)
    ensures b <==> s == []
  {
    b := head.next == head;
  }

  /** list_count: terminates, with the number of entries. */
  method Count(head: Node, ghost s: seq<Node>) returns (i: nat)
    requires Holds(head, s)
    ensures i == |s|
  {
    i := 0;
    var p := head.next;
    while p != head
      invariant 0 <= i <= |s| && p == Item(head, s, i)
      decreases |s| - i
    {
      assert p.next == s[i].next;
      p := p.next;
      i := i + 1;
    }
    assert Item(head, s, i) == head && (i < |s| ==> Item(head, s, i) in s);
  }

  /** list_del of the first entry. */
  method DelFirst(pos: Node, ghost head: Node, ghost s: seq<Node>)
    requires Holds(head, s) && s != [] && pos == s[0]
    modifies pos, pos.prev, pos.next
    ensures Holds(head, s[1..]) && pos.next == null && pos.prev == null
  {
    Del(pos, head, s, 0);
    assert s[..0] + s[1..] == s[1..];
  }

  lemma FirstLinks(head: Node, s: seq<Node>)
    requires Holds(head, s) && s != []
    ensures s[0].prev == head && s[0].next == Item(head, s, 1)
  {
  }

  /** list_for_each_safe with list_del on every entry: each entry is visited once, in order, and none is left. */
  method DeleteAll(head: Node, ghost s: seq<Node>) returns (visited: seq<Node>)
    requires Holds(head, s)
    modifies head, s
    ensures visited == s && Holds(head, [])
    ensures forall x | x in s :: x.next == null && x.prev == null
  {
    visited := [];
    assert s[0..] == s;
    var pos: Node := head.next;
    var n := pos.next;
    ghost var i := 0;
    while pos != head
      invariant 0 <= i <= |s| && visited == s[..i]
      invariant Holds(head, s[i..])
      invariant pos == Item(head, s, i) && n == pos.next
      invariant forall j {:trigger s[j].next} | 0 <= j < i :: s[j].next == null
      invariant forall j {:trigger s[j].prev} | 0 <= j < i :: s[j].prev == null
      decreases |s| - i
    {
      FirstLinks(head, s[i..]);
      assert pos == s[i..][0] && n == Item(head, s, i + 1);
      assert forall j | 0 <= j < i :: s[j] != pos && s[j] != n && s[j] != head;
      visited := visited + [pos];
      DelFirst(pos, head, s[i..]);
      assert s[i..][1..] == s[i + 1..];
      i := i + 1;
      pos := n;
      n := pos.next;
    }
    assert i < |s| ==> head in s;
    assert s[|s|..] == [];
  }

  /**
    * The list literal of the configuration file: the grammar is right-recursive and each reduction adds its
    * entry at the head, so the finished list has the written order.
    */
  method ListLiteral(items: seq<Node>) returns (list: Node)
    requires Distinct(items)
    modifies items
    ensures fresh(list) && Holds(list, items)
  {
    if items == [] {
      list := new Node();
      Init(list);
    } else {
      list := ListLiteral(items[1..]);
      Add(items[0], list, items[1..]);
      assert [items[0]] + items[1..] == items;
    }
  }
}
