/** `PriorityQueue`: an array that is pushed to and re-sorted on every enqueue.
    `Array.prototype.sort` is a stable sort; the comparator is descending. */
module PriorityQueue {
  import opened Text

  datatype Entry<T> = Entry(item: T, priority: int)

  // ------------------------------------------------ what a stable sort is

  ghost predicate Sorted<T>(s: seq<Entry<T>>) {
    forall i, j :: 0 <= i < j < |s| ==> s[i].priority >= s[j].priority
  }

  /** The entries of one priority, in order. */
  function Level<T>(s: seq<Entry<T>>, p: int): seq<Entry<T>> {
    if s == [] then [] else (if s[0].priority == p then [s[0]] else []) + Level(s[1..], p)
  }

  /** r is s sorted by descending priority, equal priorities in the order of s. */
  ghost predicate IsStableSort<T>(s: seq<Entry<T>>, r: seq<Entry<T>>) {
    Sorted(r) && forall p :: Level(r, p) == Level(s, p)
  }

  /** Ordered insertion behind everything of at least the same priority. */
  function Insert<T>(s: seq<Entry<T>>, e: Entry<T>): seq<Entry<T>> {
    if s == [] then [e]
    else if s[0].priority >= e.priority then [s[0]] + Insert(s[1..], e)
    else [e] + s
  }

  function SortFrom<T>(sorted: seq<Entry<T>>, s: seq<Entry<T>>): seq<Entry<T>>
    decreases |s|
  {
    if s == [] then sorted else SortFrom(Insert(sorted, s[0]), s[1..])
  }

  /** `sort((a, b) => b.priority - a.priority)` */
  function StableSort<T>(s: seq<Entry<T>>): seq<Entry<T>> {
    SortFrom([], s)
  }

  // -------------------------------------------------- sorting is correct

  lemma {:induction false} LevelConcat<T>(a: seq<Entry<T>>, b: seq<Entry<T>>, p: int)
    ensures Level(a + b, p) == Level(a, p) + Level(b, p)
  {
    if a == [] {
      assert a + b == b;
    } else {
      var head := if a[0].priority == p then [a[0]] else [];
      assert (a + b)[1..] == a[1..] + b;
      LevelConcat(a[1..], b, p);
      Assoc(head, Level(a[1..], p), Level(b, p));
    }
  }

  /** Insertion splits the queue at one point. */
  lemma {:induction false} InsertSplits<T>(s: seq<Entry<T>>, e: Entry<T>) returns (k: nat)
    requires Sorted(s)
    ensures k <= |s| && Insert(s, e) == s[..k] + [e] + s[k..]
    ensures forall i :: 0 <= i < k ==> s[i].priority >= e.priority
    ensures forall i :: k <= i < |s| ==> s[i].priority < e.priority
  {
    if s == [] || s[0].priority < e.priority {
      k := 0;
      assert Insert(s, e) == [e] + s;
    } else {
      k := InsertSplits(s[1..], e);
      k := k + 1;
      assert s == [s[0]] + s[1..];
    }
  }

  lemma {:induction false} NoLevel<T>(s: seq<Entry<T>>, p: int)
    requires forall i :: 0 <= i < |s| ==> s[i].priority != p
    ensures Level(s, p) == []
  {
    if s != [] {
      NoLevel(s[1..], p);
    }
  }

  /** Ordered insertion into a sorted queue is a stable sort of queue + [e]. */
  lemma InsertIsStable<T>(s: seq<Entry<T>>, e: Entry<T>)
    requires Sorted(s)
    ensures IsStableSort(s + [e], Insert(s, e))
  {
    var k := InsertSplits(s, e);
    assert s == s[..k] + s[k..];
    InsertBetween(s[..k], e, s[k..]);
  }

  lemma InsertBetween<T>(a: seq<Entry<T>>, e: Entry<T>, b: seq<Entry<T>>)
    requires Sorted(a + b)
    requires forall i :: 0 <= i < |a| ==> a[i].priority >= e.priority
    requires forall i :: 0 <= i < |b| ==> b[i].priority < e.priority
    ensures IsStableSort(a + b + [e], a + [e] + b)
  {
    SortedBetween(a, e, b);
    forall p ensures Level(a + [e] + b, p) == Level(a + b + [e], p) {
      InsertLevel(a, e, b, p);
    }
  }

  lemma SortedBetween<T>(a: seq<Entry<T>>, e: Entry<T>, b: seq<Entry<T>>)
    requires Sorted(a + b)
    requires forall i :: 0 <= i < |a| ==> a[i].priority >= e.priority
    requires forall i :: 0 <= i < |b| ==> b[i].priority < e.priority
    ensures Sorted(a + [e] + b)
  {
    var s, r := a + b, a + [e] + b;
    forall i, j | 0 <= i < j < |r| ensures r[i].priority >= r[j].priority {
      assert i < |a| ==> r[i] == s[i] == a[i];
      assert j < |a| ==> r[j] == s[j];
      assert i > |a| ==> r[i] == s[i - 1];
      assert j > |a| ==> r[j] == s[j - 1] == b[j - 1 - |a|];
    }
  }

  lemma InsertLevel<T>(a: seq<Entry<T>>, e: Entry<T>, b: seq<Entry<T>>, p: int)
    requires forall i :: 0 <= i < |b| ==> b[i].priority < e.priority
    ensures Level(a + [e] + b, p) == Level(a + b + [e], p)
  {
    LevelConcat(a + [e], b, p);
    LevelConcat(a, [e], p);
    LevelConcat(a + b, [e], p);
    LevelConcat(a, b, p);
    NoLevelOne(e, p);
    if p == e.priority {
      NoLevel(b, p);
    }
  }

  lemma NoLevelOne<T>(e: Entry<T>, p: int)
    ensures Level([e], p) == if e.priority == p then [e] else []
  {
    assert [e][1..] == [];
  }

  lemma {:induction false} SortFromIsStable<T>(sorted: seq<Entry<T>>, s: seq<Entry<T>>)
    requires Sorted(sorted)
    ensures IsStableSort(sorted + s, SortFrom(sorted, s))
    decreases |s|
  {
    if s == [] {
      assert sorted + s == sorted;
    } else {
      var next := Insert(sorted, s[0]);
      InsertIsStable(sorted, s[0]);
      SortFromIsStable(next, s[1..]);
      assert sorted + s == (sorted + [s[0]]) + s[1..];
      forall p ensures Level(SortFrom(sorted, s), p) == Level(sorted + s, p) {
        LevelConcat(next, s[1..], p);
        LevelConcat(sorted + [s[0]], s[1..], p);
      }
    }
  }

  lemma StableSortIsStable<T>(s: seq<Entry<T>>)
    ensures IsStableSort(s, StableSort(s))
  {
    SortFromIsStable([], s);
    assert [] + s == s;
  }

  lemma {:induction false} LevelMember<T>(s: seq<Entry<T>>, i: nat)
    requires i < |s|
    ensures Level(s, s[i].priority) != []
  {
    if i > 0 {
      LevelMember(s[1..], i - 1);
    }
  }

  lemma {:induction false} LevelHead<T>(s: seq<Entry<T>>, p: int)
    requires Sorted(s) && Level(s, p) != []
    ensures s != [] && s[0].priority >= p
  {
    if s[0].priority < p {
      NoLevel(s, p);
    }
  }

  lemma LevelTail<T>(s: seq<Entry<T>>, q: int)
    requires s != []
    ensures Level(s[1..], q) == if s[0].priority == q then Level(s, q)[1..] else Level(s, q)
  {
  }

  function FirstPriority<T>(s: seq<Entry<T>>): int {
    if s == [] then 0 else s[0].priority
  }

  /** There is only one stable sort, so every correct `sort` gives this result. */
  lemma {:induction false} StableSortIsUnique<T>(a: seq<Entry<T>>, b: seq<Entry<T>>)
    requires Sorted(a) && Sorted(b) && forall p :: Level(a, p) == Level(b, p)
    ensures a == b
    decreases |a|
  {
    if a == [] {
      assert Level(b, FirstPriority(b)) == Level(a, FirstPriority(b)) == [];
    } else {
      LevelMember(a, 0);
      LevelHead(b, a[0].priority);
      LevelMember(b, 0);
      LevelHead(a, b[0].priority);
      var p := a[0].priority;
      assert Level(a, p)[0] == a[0] && Level(b, p)[0] == b[0];
      forall q ensures Level(a[1..], q) == Level(b[1..], q) {
        LevelTail(a, q);
        LevelTail(b, q);
        assert Level(a, q) == Level(b, q);
      }
      StableSortIsUnique(a[1..], b[1..]);
    }
  }

  /** REFINEMENT. Pushing and re-sorting a sorted queue is ordered insertion. */
  lemma PushAndSortIsInsert<T>(s: seq<Entry<T>>, e: Entry<T>)
    requires Sorted(s)
    ensures StableSort(s + [e]) == Insert(s, e) && Sorted(Insert(s, e))
  {
    StableSortIsStable(s + [e]);
    InsertIsStable(s, e);
    forall p ensures Level(StableSort(s + [e]), p) == Level(Insert(s, e), p) {
      assert Level(s + [e], p) == Level(Insert(s, e), p);
    }
    StableSortIsUnique(StableSort(s + [e]), Insert(s, e));
  }

  // ------------------------------------------------------------ the class

  class PriorityQueue<T> {
    var items: seq<Entry<T>>

    ghost predicate Valid()
      reads this
    {
      Sorted(items)
    }

    constructor ()
      ensures Valid() && items == []
    {
      items := [];
    }

    method Enqueue(item: T, priority: int)
      requires Valid()
      modifies this
      ensures Valid() && items == Insert(old(items), Entry(item, priority))
    {
      PushAndSortIsInsert(items, Entry(item, priority));
      items := items + [Entry(item, priority)];
      items := StableSort(items);
    }

    /** `dequeue`: nothing on an empty queue. */
    method Dequeue() returns (r: seq<T>)
      requires Valid()
      modifies this
      ensures Valid()
      ensures if old(items) == [] then r == [] && items == []
              else r == [old(items)[0].item] && items == old(items)[1..]
    {
      if items == [] {
        r := [];
      } else {
        r := [items[0].item];
        items := items[1..];
      }
    }

    predicate IsEmpty()
      reads this
    {
      |items| == 0
    }
  }

  // ------------------------------------- any sequence of queue operations

  datatype Op = Push(priority: int) | Pop

  /** Queue contents when the i-th push stores the number of earlier pushes. */
  datatype History = History(items: seq<Entry<nat>>, pushes: nat, popped: seq<Entry<nat>>)

  function ApplyOp(h: History, op: Op): History {
    match op
    case Push(p) => History(Insert(h.items, Entry(h.pushes, p)), h.pushes + 1, h.popped)
    case Pop => if h.items == [] then h else History(h.items[1..], h.pushes, h.popped + [h.items[0]])
  }

  function RunOps(h: History, ops: seq<Op>): History
    decreases |ops|
  {
    if ops == [] then h else RunOps(ApplyOp(h, ops[0]), ops[1..])
  }

  /** a leaves before b: higher priority, or the same and pushed earlier. */
  predicate Ahead(a: Entry<nat>, b: Entry<nat>) {
    a.priority > b.priority || (a.priority == b.priority && a.item < b.item)
  }

  ghost predicate Ordered(h: History) {
    && (forall i, j :: 0 <= i < j < |h.items| ==> Ahead(h.items[i], h.items[j]))
    && (forall i :: 0 <= i < |h.items| ==> h.items[i].item < h.pushes)
    && |h.items| + |h.popped| == h.pushes
  }

  lemma OpOrdered(h: History, op: Op)
    requires Ordered(h)
    ensures Ordered(ApplyOp(h, op))
  {
    match op
    case Push(p) => PushOrdered(h.items, Entry(h.pushes, p));
    case Pop =>
  }

  lemma PushOrdered(s: seq<Entry<nat>>, e: Entry<nat>)
    requires forall i, j :: 0 <= i < j < |s| ==> Ahead(s[i], s[j])
    requires forall i :: 0 <= i < |s| ==> s[i].item < e.item
    ensures var r := Insert(s, e);
            && |r| == |s| + 1 && (forall i :: 0 <= i < |r| ==> r[i].item <= e.item)
            && forall i, j :: 0 <= i < j < |r| ==> Ahead(r[i], r[j])
  {
    var k := InsertSplits(s, e);
    var r := Insert(s, e);
    forall i | 0 <= i < |r| ensures r[i] == if i < k then s[i] else if i == k then e else s[i - 1] {
      InsertedAt(s[..k], e, s[k..], i);
    }
    InsertedInOrder(s, e, k, r);
  }

  lemma InsertedAt<T>(a: seq<T>, e: T, b: seq<T>, i: nat)
    requires i <= |a| + |b|
    ensures (a + [e] + b)[i] == if i < |a| then a[i] else if i == |a| then e else b[i - 1 - |a|]
  {
  }

  lemma InsertedInOrder(s: seq<Entry<nat>>, e: Entry<nat>, k: nat, r: seq<Entry<nat>>)
    requires forall i, j :: 0 <= i < j < |s| ==> Ahead(s[i], s[j])
    requires forall i :: 0 <= i < |s| ==> s[i].item < e.item
    requires k <= |s| && forall i :: 0 <= i < |s| ==> (s[i].priority >= e.priority <==> i < k)
    requires |r| == |s| + 1 && r[k] == e && forall i :: 0 <= i < k ==> r[i] == s[i]
    requires forall i :: k < i < |r| ==> r[i] == s[i - 1]
    ensures forall i :: 0 <= i < |r| ==> r[i].item <= e.item
    ensures forall i, j :: 0 <= i < j < |r| ==> Ahead(r[i], r[j])
  {
    forall i, j | 0 <= i < j < |r| ensures Ahead(r[i], r[j]) {
      var x, y := if i < k then i else i - 1, if j < k then j else j - 1;
      assert i != k ==> r[i] == s[x];
      assert j != k ==> r[j] == s[y];
    }
  }

  /** STABLE PRIORITY ORDER. After any sequence of operations the queue is in
      strict leaving order, so the element dequeued next has the highest priority
      and is the earliest pushed among its equals. */
  lemma {:induction false} OpsOrdered(h: History, ops: seq<Op>)
    requires Ordered(h)
    ensures Ordered(RunOps(h, ops))
    ensures var q := RunOps(h, ops).items; q != [] ==> forall e :: e in q ==> e == q[0] || Ahead(q[0], e)
    decreases |ops|
  {
    if ops != [] {
      OpOrdered(h, ops[0]);
      OpsOrdered(ApplyOp(h, ops[0]), ops[1..]);
    }
  }
}
