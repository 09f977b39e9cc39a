/**
 The task queue of pkg/scheduler/task.go: a slice kept in heap order by the sift-up and sift-down of the standard
 library's container/heap, with a comparator that looks at indices when priorities are equal.
 */
module TaskHeap {
  import opened Tasks

  type Heap = seq<Task>

  predicate Less(h: Heap, i: nat, j: nat)
    requires i < |h| && j < |h|
  {
    if h[i].priority == h[j].priority then i < j else h[i].priority > h[j].priority
  }

  function Swap(h: Heap, i: nat, j: nat): (r: Heap)
    requires i < |h| && j < |h|
    ensures |r| == |h|
  {
    h[i := h[j]][j := h[i]]
  }

  function Parent(j: nat): nat {
    if j == 0 then 0 else (j - 1) / 2
  }

  function Up(h: Heap, j: nat): (r: Heap)
    requires j < |h|
    ensures |r| == |h|
    decreases j
  {
    var i := Parent(j);
    if i == j || !Less(h, j, i) then h else Up(Swap(h, i, j), i)
  }

  function Child(h: Heap, i: nat, n: nat): (j: nat)
    requires 2 * i + 1 < n <= |h|
    ensures i < j < n
  {
    var j := 2 * i + 1;
    if j + 1 < n && Less(h, j + 1, j) then j + 1 else j
  }

  function Down(h: Heap, i: nat, n: nat): (r: Heap)
    requires n <= |h|
    ensures |r| == |h|
    decreases n - i
  {
    if 2 * i + 1 >= n then h
    else
      var j := Child(h, i, n);
      if !Less(h, j, i) then h else Down(Swap(h, i, j), j, n)
  }

  function Insert(h: Heap, x: Task): Heap {
    Up(h + [x], |h|)
  }

  // The popped task is left in the last place.
  function Sunk(h: Heap): (r: Heap)
    requires h != []
    ensures |r| == |h|
  {
    Down(Swap(h, 0, |h| - 1), 0, |h| - 1)
  }

  function Top(h: Heap): Task
    requires h != []
  {
    Sunk(h)[|h| - 1]
  }

  function Rest(h: Heap): (r: Heap)
    requires h != []
    ensures |r| == |h| - 1
  {
    Sunk(h)[..|h| - 1]
  }

  // ---------- Heap order ----------

  ghost predicate Ordered(h: Heap, n: nat)
    requires n <= |h|
  {
    forall j :: 0 < j < n ==> h[Parent(j)].priority >= h[j].priority
  }

  lemma SwapPermutes(h: Heap, i: nat, j: nat)
    requires i < |h| && j < |h|
    ensures multiset(Swap(h, i, j)) == multiset(h)
  {}

  // Heap order but for the step from j to its parent.
  ghost predicate OrderedBut(h: Heap, j: nat) {
    && (forall k :: 0 < k < |h| && k != j ==> h[Parent(k)].priority >= h[k].priority)
    && (forall k :: 0 < k < |h| && Parent(k) == j && 0 < j < |h| ==> h[Parent(j)].priority >= h[k].priority)
  }

  lemma {:induction false} UpRestores(h: Heap, j: nat)
    requires j < |h| && OrderedBut(h, j)
    ensures Ordered(Up(h, j), |h|) && multiset(Up(h, j)) == multiset(h)
    decreases j
  {
    var i := Parent(j);
    if i != j && Less(h, j, i) {
      SwapPermutes(h, i, j);
      var h' := Swap(h, i, j);
      forall k | 0 < k < |h'| && k != i ensures h'[Parent(k)].priority >= h'[k].priority {
        if k != j && Parent(k) == i { assert h[i].priority >= h[k].priority; }
      }
      forall k | 0 < k < |h'| && Parent(k) == i && 0 < i ensures h'[Parent(i)].priority >= h'[k].priority {
        assert h[Parent(i)].priority >= h[i].priority;
        if k != j { assert h[Parent(k)].priority >= h[k].priority; }
      }
      UpRestores(h', i);
    }
  }

  // Heap order but for the steps from the children of i up to it.
  ghost predicate OrderedBelow(h: Heap, i: nat, n: nat)
    requires n <= |h|
  {
    && (forall k :: 0 < k < n && Parent(k) != i ==> h[Parent(k)].priority >= h[k].priority)
    && (forall k :: 0 < k < n && Parent(k) == i && 0 < i < n ==> h[Parent(i)].priority >= h[k].priority)
  }

  lemma ChildIsMax(h: Heap, i: nat, n: nat)
    requires 2 * i + 1 < n <= |h|
    ensures Parent(Child(h, i, n)) == i
    ensures forall k :: 0 < k < n && Parent(k) == i ==> h[Child(h, i, n)].priority >= h[k].priority
  {}

  // Swapping with the better child moves the only disorder one level down.
  lemma OneLevelDown(h: Heap, i: nat, n: nat)
    requires 2 * i + 1 < n <= |h| && OrderedBelow(h, i, n) && Less(h, Child(h, i, n), i)
    ensures OrderedBelow(Swap(h, i, Child(h, i, n)), Child(h, i, n), n)
    ensures Swap(h, i, Child(h, i, n))[n..] == h[n..]
  {
    var j := Child(h, i, n);
    var h' := Swap(h, i, j);
    ChildIsMax(h, i, n);
    hide Child;
    forall k | 0 < k < n && Parent(k) != j ensures h'[Parent(k)].priority >= h'[k].priority {
      if k != i && Parent(k) != i { assert h[Parent(k)].priority >= h[k].priority; }
    }
    forall k | 0 < k < n && Parent(k) == j ensures h'[Parent(j)].priority >= h'[k].priority {
      assert h[Parent(k)].priority >= h[k].priority;
    }
  }

  lemma {:induction false} DownRestores(h: Heap, i: nat, n: nat)
    requires n <= |h| && OrderedBelow(h, i, n)
    ensures Ordered(Down(h, i, n), n) && multiset(Down(h, i, n)) == multiset(h)
    ensures Down(h, i, n)[n..] == h[n..]
    decreases n - i
  {
    if 2 * i + 1 < n {
      var j := Child(h, i, n);
      ChildIsMax(h, i, n);
      if Less(h, j, i) {
        SwapPermutes(h, i, j);
        OneLevelDown(h, i, n);
        hide OrderedBelow, Swap, Child, Less;
        DownRestores(Swap(h, i, j), j, n);
      }
    } else {
      assert forall k :: 0 < k < n ==> Parent(k) != i;
    }
  }

  lemma {:induction false} RootIsMax(h: Heap, k: nat)
    requires k < |h| && Ordered(h, |h|)
    ensures h[0].priority >= h[k].priority
    decreases k
  {
    if k > 0 { RootIsMax(h, Parent(k)); }
  }

  lemma InsertKeeps(h: Heap, x: Task)
    requires Ordered(h, |h|)
    ensures var r := Insert(h, x); Ordered(r, |r|) && multiset(r) == multiset(h) + multiset{x}
  {
    var g := h + [x];
    forall k | 0 < k < |g| && k != |h| ensures g[Parent(k)].priority >= g[k].priority {
      assert g[Parent(k)] == h[Parent(k)] && g[k] == h[k];
    }
    UpRestores(g, |h|);
  }

  // A pop returns the task at the root, whose priority nothing in the queue exceeds, and keeps everything else.
  lemma PopTakesMax(h: Heap)
    requires h != [] && Ordered(h, |h|)
    ensures Top(h) == h[0] && (forall k :: 0 <= k < |h| ==> Top(h).priority >= h[k].priority)
    ensures Ordered(Rest(h), |h| - 1) && multiset(h) == multiset(Rest(h)) + multiset{Top(h)}
  {
    var n := |h| - 1;
    var g := Swap(h, 0, n);
    SwapPermutes(h, 0, n);
    forall k | 0 < k < n && Parent(k) != 0 ensures g[Parent(k)].priority >= g[k].priority {
      assert g[Parent(k)] == h[Parent(k)] && g[k] == h[k];
    }
    DownRestores(g, 0, n);
    assert Sunk(h)[n..] == g[n..] && Sunk(h)[n] == Sunk(h)[n..][0] == g[n..][0] == h[0];
    assert Sunk(h) == Rest(h) + [Top(h)];
    forall k | 0 <= k < |h| ensures Top(h).priority >= h[k].priority { RootIsMax(h, k); }
  }

  function Drain(h: Heap): seq<Task>
    decreases |h|
  {
    if h == [] then [] else [Top(h)] + Drain(Rest(h))
  }

  ghost predicate Descending(s: seq<Task>) {
    forall i, j :: 0 <= i < j < |s| ==> s[i].priority >= s[j].priority
  }

  lemma MaxFirst(x: Task, s: seq<Task>, h: Heap)
    requires Descending(s) && multiset(s) <= multiset(h)
    requires forall k :: 0 <= k < |h| ==> x.priority >= h[k].priority
    ensures Descending([x] + s)
  {
    forall j | 0 <= j < |s| ensures x.priority >= s[j].priority {
      assert s[j] in multiset(s) && s[j] in multiset(h);
    }
  }

  // Popping until the queue is empty returns every task, in order of priority.
  lemma {:induction false} DrainSorts(h: Heap)
    requires Ordered(h, |h|)
    ensures multiset(Drain(h)) == multiset(h) && Descending(Drain(h))
    decreases |h|
  {
    if h != [] {
      hide Top, Rest, Ordered, Descending;
      PopTakesMax(h);
      DrainSorts(Rest(h));
      MaxFirst(Top(h), Drain(Rest(h)), h);
    }
  }

  // ---------- The comparator ----------

  // Every call from the heap has the larger index first; there the tie-break never says yes, and this is all the
  // two proofs below know of the comparator.
  lemma LessOfLargerFirst(h: Heap, i: nat, j: nat)
    requires i < j < |h|
    ensures Less(h, j, i) <==> h[j].priority > h[i].priority
  {}

  function UpByPriority(h: Heap, j: nat): (r: Heap)
    requires j < |h|
    decreases j
  {
    var i := Parent(j);
    if j == 0 || h[j].priority <= h[i].priority then h else UpByPriority(Swap(h, i, j), i)
  }

  function DownByPriority(h: Heap, i: nat, n: nat): (r: Heap)
    requires n <= |h|
    decreases n - i
  {
    var l := 2 * i + 1;
    if l >= n then h
    else
      var j := if l + 1 < n && h[l + 1].priority > h[l].priority then l + 1 else l;
      if h[j].priority <= h[i].priority then h else DownByPriority(Swap(h, i, j), j, n)
  }

  lemma {:induction false} TieBreakNeverDecidesUp(h: Heap, j: nat)
    requires j < |h|
    ensures Up(h, j) == UpByPriority(h, j)
    decreases j
  {
    hide Less;
    var i := Parent(j);
    if j > 0 {
      LessOfLargerFirst(h, i, j);
      if h[j].priority > h[i].priority { TieBreakNeverDecidesUp(Swap(h, i, j), i); }
    }
  }

  lemma {:induction false} TieBreakNeverDecidesDown(h: Heap, i: nat, n: nat)
    requires n <= |h|
    ensures Down(h, i, n) == DownByPriority(h, i, n)
    decreases n - i
  {
    hide Less;
    if 2 * i + 1 < n {
      if 2 * i + 2 < n { LessOfLargerFirst(h, 2 * i + 1, 2 * i + 2); }
      var j := Child(h, i, n);
      LessOfLargerFirst(h, i, j);
      if h[j].priority > h[i].priority { TieBreakNeverDecidesDown(Swap(h, i, j), j, n); }
    }
  }

  // ---------- Equal priorities are not first in, first out ----------

  ghost predicate AllEqual(h: Heap) {
    forall i, j :: 0 <= i < |h| && 0 <= j < |h| ==> h[i].priority == h[j].priority
  }

  function InsertAll(h: Heap, xs: seq<Task>): Heap
    decreases |xs|
  {
    if xs == [] then h else InsertAll(Insert(h, xs[0]), xs[1..])
  }

  function Reversed(s: seq<Task>): (r: seq<Task>)
    ensures |r| == |s|
  {
    if s == [] then [] else Reversed(s[1..]) + [s[0]]
  }

  lemma {:induction false} ReversedAt(s: seq<Task>, k: nat)
    requires k < |s|
    ensures Reversed(s)[k] == s[|s| - 1 - k]
  {
    if k < |s| - 1 { ReversedAt(s[1..], k); }
  }

  lemma {:induction false} ReversedLast(s: seq<Task>)
    requires s != []
    ensures Reversed(s) == [s[|s| - 1]] + Reversed(s[..|s| - 1])
  {
    forall k | 0 <= k < |s| ensures Reversed(s)[k] == ([s[|s| - 1]] + Reversed(s[..|s| - 1]))[k] {
      ReversedAt(s, k);
      if k > 0 { ReversedAt(s[..|s| - 1], k - 1); }
    }
  }

  lemma {:induction false} EqualTasksQueueUp(h: Heap, xs: seq<Task>)
    requires AllEqual(h + xs)
    ensures InsertAll(h, xs) == h + xs
    decreases |xs|
  {
    if xs == [] {
      assert h + xs == h;
    } else {
      assert h + xs == (h + [xs[0]]) + xs[1..];
      var g := h + [xs[0]];
      assert forall k :: 0 <= k < |g| ==> g[k] == (h + xs)[k];
      EqualTasksQueueUp(g, xs[1..]);
    }
  }

  // Tasks of one priority come out as the first one and then the others last to first.
  lemma {:induction false} EqualTasksDrain(h: Heap)
    requires AllEqual(h) && h != []
    ensures Drain(h) == [h[0]] + Reversed(h[1..])
    decreases |h|
  {
    var n := |h| - 1;
    var g := Swap(h, 0, n);
    assert Sunk(h) == g;
    if n > 0 {
      var r := Rest(h);
      assert r[0] == h[n] && r[1..] == h[1..n] && h[1..][..n - 1] == h[1..n];
      EqualTasksDrain(r);
      ReversedLast(h[1..]);
      assert h[1..][n - 1] == h[n];
    } else {
      assert Rest(h) == [];
    }
  }

  // So distinct tasks of one priority are popped in the order they were pushed exactly when there are at most two.
  lemma FifoExactly(xs: seq<Task>)
    requires AllEqual(xs)
    requires forall i, j :: 0 <= i < j < |xs| ==> xs[i] != xs[j]
    ensures Drain(InsertAll([], xs)) == xs <==> |xs| <= 2
  {
    hide Drain, Insert;
    assert [] + xs == xs;
    EqualTasksQueueUp([], xs);
    if xs != [] { EqualTasksDrain(xs); } else { DrainNothing(); }
    if |xs| == 2 {
      assert xs[1..] == [xs[1]] && Reversed(xs[1..]) == [xs[1]];
    } else if |xs| > 2 {
      LastComesSecond(xs);
    }
  }

  lemma DrainNothing()
    ensures Drain([]) == []
  {}

  lemma LastComesSecond(xs: seq<Task>)
    requires |xs| > 2 && AllEqual(xs)
    ensures |Drain(xs)| == |xs| && Drain(xs)[1] == xs[|xs| - 1]
  {
    EqualTasksDrain(xs);
    ReversedAt(xs[1..], 0);
  }

  // Three tasks of one priority: pushed A, B, C and popped A, C, B.
  lemma ThreeEqualTasks(a: Task, b: Task, c: Task)
    requires a.priority == b.priority == c.priority
    ensures Drain(InsertAll([], [a, b, c])) == [a, c, b]
  {
    assert [] + [a, b, c] == [a, b, c];
    EqualTasksQueueUp([], [a, b, c]);
    EqualTasksDrain([a, b, c]);
    assert [a, b, c][1..] == [b, c] && [b, c][1..] == [c];
    assert Reversed([b, c]) == Reversed([c]) + [b] && Reversed([c]) == [c];
  }

  // ---------- The queue itself ----------

  class TaskQueue {
    var heap: seq<Task>

    ghost predicate Valid()
      reads this
    {
      Ordered(heap, |heap|)
    }

    constructor ()
      ensures Valid() && heap == []
    {
      heap := [];
    }

    method Push(task: Task)
      requires Valid()
      modifies this
      ensures Valid() && heap == Insert(old(heap), task)
      ensures multiset(heap) == multiset(old(heap)) + multiset{task}
    {
      InsertKeeps(heap, task);
      heap := heap + [task];
      var j := |heap| - 1;
      while true
        invariant 0 <= j < |heap| && Up(heap, j) == Insert(old(heap), task)
        decreases j
      {
        var i := Parent(j);
        if i == j || !Less(heap, j, i) {
          break;
        }
        heap := Swap(heap, i, j);
        j := i;
      }
    }

    // The caller waits on the condition variable until the queue is not empty.
    method Pop() returns (task: Task)
      requires Valid() && heap != []
      modifies this
      ensures Valid() && task == Top(old(heap)) && heap == Rest(old(heap))
      ensures multiset(old(heap)) == multiset(heap) + multiset{task}
      ensures forall other :: other in old(heap) ==> task.priority >= other.priority
    {
      PopTakesMax(heap);
      var n := |heap| - 1;
      heap := Swap(heap, 0, n);
      var i := 0;
      while true
        invariant i >= 0 && |heap| == n + 1 && Down(heap, i, n) == Sunk(old(heap))
        decreases n - i
      {
        var j := 2 * i + 1;
        if j >= n {
          break;
        }
        if j + 1 < n && Less(heap, j + 1, j) {
          j := j + 1;
        }
        if !Less(heap, j, i) {
          break;
        }
        heap := Swap(heap, i, j);
        i := j;
      }
      task := heap[n];
      heap := heap[..n];
    }
  }
}
