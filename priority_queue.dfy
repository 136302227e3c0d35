/** The binary min-heap that serves as the open set of the A* searches
    (Assets/Scripts/Utils/PriorityQueue.cs). */
module PriorityQueues {

  /** Dequeue and Peek on an empty queue throw InvalidOperationException. */
  datatype QueueError = EmptyQueue

  datatype Result<T> = Ok(value: T) | Err(error: QueueError)

  /** What IComparer<T>.Compare promises its callers: the sign of Compare(a, b) is the opposite
      of that of Compare(b, a), and "a is not after b" (Compare(a, b) <= 0) is transitive.
      Together these make "not after" a total preorder. */
  ghost predicate IsComparer<T(!new)>(cmp: (T, T) -> int)
  {
    && (forall a, b :: cmp(a, b) < 0 <==> cmp(b, a) > 0)
    && (forall a, b, c :: cmp(a, b) <= 0 && cmp(b, c) <= 0 ==> cmp(a, c) <= 0)
  }

  /** Every element that has a parent, at index c > 0, is not before its parent at (c - 1) / 2. */
  ghost predicate IsHeap<T>(s: seq<T>, cmp: (T, T) -> int)
  {
    forall p, c :: 0 <= p < c < |s| && p == (c - 1) / 2 ==> cmp(s[p], s[c]) <= 0
  }

  /** The heap order holds except between index k and its parent; k's children are not before
      k's parent either, so that k may swap with its parent. This is what HeapifyUp keeps. */
  ghost predicate HeapExceptUp<T>(s: seq<T>, cmp: (T, T) -> int, k: nat)
  {
    && k < |s|
    && (forall p, c :: 0 <= p < c < |s| && p == (c - 1) / 2 && c != k ==> cmp(s[p], s[c]) <= 0)
    && (forall i :: 0 < i < |s| && (i - 1) / 2 == k && k > 0 ==> cmp(s[(k - 1) / 2], s[i]) <= 0)
  }

  /** The heap order holds except between index k and its children; those children are not
      before k's parent, so that k may swap with one of them. This is what HeapifyDown keeps. */
  ghost predicate HeapExceptDown<T>(s: seq<T>, cmp: (T, T) -> int, k: nat)
  {
    && (k < |s| || k == 0)
    && (forall p, c :: 0 <= p < c < |s| && p == (c - 1) / 2 && p != k ==> cmp(s[p], s[c]) <= 0)
    && (forall i :: 0 < i < |s| && (i - 1) / 2 == k && k > 0 ==> cmp(s[(k - 1) / 2], s[i]) <= 0)
  }

  /** The root of a heap is not after any element at index i: follow the parents from i up. */
  lemma {:induction false} HeapRootIsLeastAt<T(!new)>(s: seq<T>, cmp: (T, T) -> int, i: nat)
    requires IsComparer(cmp) && IsHeap(s, cmp) && i < |s|
    ensures cmp(s[0], s[i]) <= 0
    decreases i
  {
    if i > 0 {
      HeapRootIsLeastAt(s, cmp, (i - 1) / 2);
    }
  }

  /** The root of a non-empty heap is a least element of it. */
  lemma HeapRootIsLeast<T(!new)>(s: seq<T>, cmp: (T, T) -> int)
    requires IsComparer(cmp) && IsHeap(s, cmp) && |s| > 0
    ensures forall x | x in s :: cmp(s[0], x) <= 0
  {
    forall x | x in s
      ensures cmp(s[0], x) <= 0
    {
      var i :| 0 <= i < |s| && s[i] == x;
      HeapRootIsLeastAt(s, cmp, i);
    }
  }

  /** Dequeue's first steps: the last element overwrites the root and the last slot is removed.
      The remaining elements are those of the heap less its root, and only the new root may be
      out of order with its children. */
  lemma RootReplacedByLast<T>(s: seq<T>, cmp: (T, T) -> int)
    requires IsHeap(s, cmp) && |s| > 0
    ensures HeapExceptDown(s[0 := s[|s| - 1]][..|s| - 1], cmp, 0)
    ensures multiset(s[0 := s[|s| - 1]][..|s| - 1]) == multiset(s) - multiset{s[0]}
  {
    var n := |s| - 1;
    var t := s[0 := s[n]][..n];
    forall p, c | 0 <= p < c < n && p == (c - 1) / 2 && p != 0
      ensures cmp(t[p], t[c]) <= 0
    {
      assert t[p] == s[p] && t[c] == s[c];
    }
    if n > 0 {
      assert s == [s[0]] + s[1..n] + [s[n]];
      assert t == [s[n]] + s[1..n];
      assert multiset(s) == multiset{s[0]} + multiset(s[1..n]) + multiset{s[n]};
    }
  }

  /** The list after Swap(i, j): the elements at i and j exchanged. */
  function Swapped<T>(s: seq<T>, i: nat, j: nat): (r: seq<T>)
    requires i < |s| && j < |s|
    ensures |r| == |s| && r[i] == s[j] && r[j] == s[i]
    ensures forall k :: 0 <= k < |s| && k != i && k != j ==> r[k] == s[k]
    ensures multiset(r) == multiset(s)
  {
    s[j := s[i]][i := s[j]]
  }

  /** One step of HeapifyUp: when the element at k > 0 is strictly before its parent, swapping
      the two moves the exception up to the parent's index. */
  lemma SiftUpStep<T(!new)>(s: seq<T>, cmp: (T, T) -> int, k: nat)
    requires IsComparer(cmp) && HeapExceptUp(s, cmp, k) && k > 0
    requires cmp(s[k], s[(k - 1) / 2]) < 0
    ensures HeapExceptUp(Swapped(s, k, (k - 1) / 2), cmp, (k - 1) / 2)
  {
    var p := (k - 1) / 2;
    var t := Swapped(s, k, p);
    forall q, c | 0 <= q < c < |t| && q == (c - 1) / 2 && c != p
      ensures cmp(t[q], t[c]) <= 0
    {
      if c == k {
      } else if q == k {
        assert cmp(s[p], s[c]) <= 0;
      } else if q == p {
        assert cmp(s[k], s[p]) <= 0 && cmp(s[p], s[c]) <= 0;
      } else {
        assert t[q] == s[q] && t[c] == s[c];
      }
    }
    if p > 0 {
      var g := (p - 1) / 2;
      assert cmp(s[g], s[p]) <= 0;
      forall c | 0 < c < |t| && (c - 1) / 2 == p
        ensures cmp(t[g], t[c]) <= 0
      {
        if c != k {
          assert cmp(s[p], s[c]) <= 0;
        }
      }
    }
  }

  /** One step of HeapifyDown: when the child m of k is strictly before k and not after k's
      other child, swapping k and m moves the exception down to m. */
  lemma SiftDownStep<T(!new)>(s: seq<T>, cmp: (T, T) -> int, k: nat, m: nat)
    requires IsComparer(cmp) && HeapExceptDown(s, cmp, k)
    requires m < |s| && (m == 2 * k + 1 || m == 2 * k + 2)
    requires cmp(s[m], s[k]) < 0
    requires forall c :: 0 < c < |s| && (c - 1) / 2 == k ==> cmp(s[m], s[c]) <= 0
    ensures HeapExceptDown(Swapped(s, k, m), cmp, m)
  {
    var t := Swapped(s, k, m);
    forall q, c | 0 <= q < c < |t| && q == (c - 1) / 2 && q != m
      ensures cmp(t[q], t[c]) <= 0
    {
      if c == m {
      } else if c == k {
        assert cmp(s[q], s[m]) <= 0;
      } else if q == k {
        assert cmp(s[m], s[c]) <= 0;
      } else {
        assert t[q] == s[q] && t[c] == s[c];
      }
    }
    forall c | 0 < c < |t| && (c - 1) / 2 == m
      ensures cmp(t[(m - 1) / 2], t[c]) <= 0
    {
      assert t[c] == s[c] && cmp(s[m], s[c]) <= 0;
    }
  }

  class PriorityQueue<T(!new)> {
    /** The heap, in level order (the List<T> of the source). */
    var data: seq<T>
    const comparator: (T, T) -> int

    ghost predicate Valid()
      reads this
    {
      IsComparer(comparator) && IsHeap(data, comparator)
    }

    /** The source falls back to Comparer<T>.Default when no comparer is given; here the
        comparer is always supplied. */
    constructor (comparer: (T, T) -> int)
      requires IsComparer(comparer)
      ensures Valid()
      ensures data == [] && comparator == comparer
    {
      data := [];
      comparator := comparer;
    }

    /** The number of queued items, counted with multiplicity. */
    function Count(): (n: nat)
      reads this
      ensures n == |multiset(data)|
    {
      |data|
    }

    method Enqueue(item: T)
      requires Valid()
      modifies this
      ensures Valid()
      ensures multiset(data) == old(multiset(data)) + multiset{item}
      ensures Count() == old(Count()) + 1
    {
      data := data + [item];
      HeapifyUp(|data| - 1);
    }

    method Clear()
      requires Valid()
      modifies this
      ensures Valid()
      ensures Count() == 0 && multiset(data) == multiset{}
    {
      data := [];
    }

    /** Removes and returns a least element; on an empty queue, fails and changes nothing. */
    method Dequeue() returns (r: Result<T>)
      requires Valid()
      modifies this
      ensures Valid()
      ensures old(data) == [] ==> r == Err(EmptyQueue) && data == old(data)
      ensures old(data) != [] ==>
        && r == Ok(old(data)[0])
        && (forall x | x in old(data) :: comparator(r.value, x) <= 0)
        && multiset(data) == old(multiset(data)) - multiset{r.value}
        && Count() == old(Count()) - 1
    {
      if |data| == 0 {
        return Err(EmptyQueue);
      }
      HeapRootIsLeast(data, comparator);
      var root := data[0];
      var lastIndex := |data| - 1;
      RootReplacedByLast(data, comparator);
      data := data[0 := data[lastIndex]];
      data := data[..lastIndex];
      HeapifyDown(0);
      r := Ok(root);
    }

    /** Returns a least element without removing it; on an empty queue, fails. */
    method Peek() returns (r: Result<T>)
      requires Valid()
      ensures data == [] ==> r == Err(EmptyQueue)
      ensures data != [] ==> r == Ok(data[0]) && forall x | x in data :: comparator(r.value, x) <= 0
    {
      if |data| == 0 {
        return Err(EmptyQueue);
      }
      HeapRootIsLeast(data, comparator);
      r := Ok(data[0]);
    }

    /** Moves the element at index up past every parent it is strictly before. */
    method HeapifyUp(index: nat)
      requires IsComparer(comparator) && HeapExceptUp(data, comparator, index)
      modifies this
      ensures Valid()
      ensures multiset(data) == old(multiset(data)) && |data| == old(|data|)
    {
      var k: nat := index;
      while k > 0
        invariant HeapExceptUp(data, comparator, k)
        invariant multiset(data) == old(multiset(data)) && |data| == old(|data|)
        decreases k
      {
        var parent := (k - 1) / 2;
        if comparator(data[k], data[parent]) >= 0 {
          break;
        }
        SiftUpStep(data, comparator, k);
        Swap(k, parent);
        k := parent;
      }
    }

    /** Moves the element at index down, swapping it with its least child while that child
        is strictly before it. */
    method HeapifyDown(index: nat)
      requires IsComparer(comparator) && HeapExceptDown(data, comparator, index)
      modifies this
      ensures Valid()
      ensures multiset(data) == old(multiset(data)) && |data| == old(|data|)
    {
      var k: nat := index;
      while true
        invariant HeapExceptDown(data, comparator, k)
        invariant multiset(data) == old(multiset(data)) && |data| == old(|data|)
        decreases |data| - k
      {
        var leftChild := 2 * k + 1;
        var rightChild := 2 * k + 2;
        var smallest := k;
        if leftChild < |data| && comparator(data[leftChild], data[smallest]) < 0 {
          smallest := leftChild;
        }
        if rightChild < |data| && comparator(data[rightChild], data[smallest]) < 0 {
          smallest := rightChild;
        }
        if smallest == k {
          forall c | k < c < |data| && k == (c - 1) / 2
            ensures comparator(data[k], data[c]) <= 0
          {
            assert c == leftChild || c == rightChild;
          }
          break;
        }
        forall c | 0 < c < |data| && (c - 1) / 2 == k
          ensures comparator(data[smallest], data[c]) <= 0
        {
          assert c == leftChild || c == rightChild;
        }
        SiftDownStep(data, comparator, k, smallest);
        Swap(k, smallest);
        k := smallest;
      }
    }

    /** Exchanges the elements at two indices. */
    method Swap(index1: nat, index2: nat)
      requires index1 < |data| && index2 < |data|
      modifies this
      ensures data == Swapped(old(data), index1, index2)
    {
      data := data[index2 := data[index1]][index1 := data[index2]];
    }
  }
}
