/** Pressure relief: the size-k selection heap and the watermark cycle. */
module Pressure {
  import opened Bpf
  import opened Kernel

  datatype FlowAge = FlowAge(key: FlowKey, seen: nat)

  // ---------------------------------------------------------------------
  // A binary max-heap on seen, held in a sequence
  // ---------------------------------------------------------------------

  function Parent(i: int): int { (i - 1) / 2 }

  /** No entry is newer than its parent, except possibly across the hole: hole's
      own parent is exempt when up, hole's children when down. */
  ghost predicate HeapUp(h: seq<FlowAge>, hole: int) {
    && (forall i :: 0 < i < |h| && i != hole ==> h[i].seen <= h[Parent(i)].seen)
    && (forall i :: 0 < i < |h| && Parent(i) == hole && hole > 0 ==> h[i].seen <= h[Parent(hole)].seen)
  }

  ghost predicate HeapDown(h: seq<FlowAge>, hole: int) {
    && (forall i :: 0 < i < |h| && Parent(i) != hole ==> h[i].seen <= h[Parent(i)].seen)
    && (forall i :: 0 < i < |h| && Parent(i) == hole && hole > 0 ==> h[i].seen <= h[Parent(hole)].seen)
  }

  ghost predicate Heap(h: seq<FlowAge>) {
    forall i :: 0 < i < |h| ==> h[i].seen <= h[Parent(i)].seen
  }

  /** In a heap the root is a newest entry. */
  lemma {:induction false} RootIsNewest(h: seq<FlowAge>, i: nat)
    requires Heap(h) && i < |h|
    ensures h[i].seen <= h[0].seen
  {
    if i > 0 {
      RootIsNewest(h, Parent(i));
    }
  }

  ghost predicate SameEntries(a: seq<FlowAge>, b: seq<FlowAge>) {
    multiset(a) == multiset(b)
  }

  function Swap(h: seq<FlowAge>, i: nat, j: nat): seq<FlowAge>
    requires i < |h| && j < |h|
  {
    h[i := h[j]][j := h[i]]
  }

  lemma SwapKeepsEntries(h: seq<FlowAge>, i: nat, j: nat)
    requires i < |h| && j < |h|
    ensures SameEntries(Swap(h, i, j), h)
  {
  }

  /** heap.Push's sift: the new last entry climbs to its place. */
  method SiftUp(h0: seq<FlowAge>, at: nat) returns (h: seq<FlowAge>)
    requires at < |h0| && HeapUp(h0, at)
    ensures Heap(h) && SameEntries(h, h0)
  {
    hide HeapUp, Swap;
    h := h0;
    var i := at;
    while i > 0 && h[i].seen > h[Parent(i)].seen
      invariant 0 <= i < |h| && |h| == |h0|
      invariant HeapUp(h, i) && SameEntries(h, h0)
    {
      SwimStep(h, i);
      h := Swap(h, i, Parent(i));
      i := Parent(i);
    }
    SwimDone(h, i);
  }

  lemma SwimStep(h: seq<FlowAge>, i: nat)
    requires 0 < i < |h| && HeapUp(h, i) && h[i].seen > h[Parent(i)].seen
    ensures HeapUp(Swap(h, i, Parent(i)), Parent(i)) && SameEntries(Swap(h, i, Parent(i)), h)
  {
    SwapKeepsEntries(h, i, Parent(i));
    var g := Swap(h, i, Parent(i));
    assert g[i] == h[Parent(i)] && g[Parent(i)] == h[i];
    assert forall c :: 0 <= c < |h| && c != i && c != Parent(i) ==> g[c] == h[c];
  }

  lemma SwimDone(h: seq<FlowAge>, i: nat)
    requires HeapUp(h, i) && i < |h| && (i == 0 || h[i].seen <= h[Parent(i)].seen)
    ensures Heap(h)
  {
  }

  /** j is a newest child of i. */
  ghost predicate NewestChild(h: seq<FlowAge>, i: nat, j: nat) {
    && i < j < |h| && Parent(j) == i
    && forall c :: 0 < c < |h| && Parent(c) == i ==> h[c].seen <= h[j].seen
  }

  lemma SinkStep(h: seq<FlowAge>, i: nat, j: nat)
    requires HeapDown(h, i) && NewestChild(h, i, j) && h[i].seen < h[j].seen
    ensures HeapDown(Swap(h, i, j), j) && SameEntries(Swap(h, i, j), h)
  {
    SwapKeepsEntries(h, i, j);
    var g := Swap(h, i, j);
    forall c | 0 < c < |g| && Parent(c) != j
      ensures g[c].seen <= g[Parent(c)].seen
    {
      assert c != i ==> (c == j || g[c] == h[c]);
      assert Parent(c) != i ==> g[Parent(c)] == h[Parent(c)];
    }
  }

  lemma SinkDone(h: seq<FlowAge>, i: nat)
    requires HeapDown(h, i) && i < |h|
    requires forall c :: 0 < c < |h| && Parent(c) == i ==> h[c].seen <= h[i].seen
    ensures Heap(h)
  {
  }

  /** heap.Fix at the root after its value dropped: it sinks to its place. */
  method SiftDown(h0: seq<FlowAge>) returns (h: seq<FlowAge>)
    requires |h0| > 0 && HeapDown(h0, 0)
    ensures Heap(h) && SameEntries(h, h0)
  {
    hide HeapDown, Swap;
    h := h0;
    var i := 0;
    while 2 * i + 1 < |h|
      invariant 0 <= i < |h| && |h| == |h0|
      invariant HeapDown(h, i) && SameEntries(h, h0)
      decreases |h| - i
    {
      var j := 2 * i + 1;
      if j + 1 < |h| && h[j + 1].seen > h[j].seen {
        j := j + 1;
      }
      assert NewestChild(h, i, j);
      if h[j].seen <= h[i].seen {
        break;
      }
      SinkStep(h, i, j);
      h := Swap(h, i, j);
      i := j;
      assert |h| == |h0| by { assert |multiset(h)| == |multiset(h0)|; }
    }
    SinkDone(h, i);
  }

  // ---------------------------------------------------------------------
  // selectOldest
  // ---------------------------------------------------------------------

  ghost function Ages(drained: map<FlowKey, FlowMetrics>, kept: set<FlowKey>): set<FlowAge>
    requires kept <= drained.Keys
  {
    set f | f in kept :: FlowAge(f, drained[f].lastSeenNs)
  }

  /** The heap's slots hold exactly the kept flows, each once. */
  ghost predicate Holds(h: seq<FlowAge>, drained: map<FlowKey, FlowMetrics>, kept: set<FlowKey>) {
    && kept <= drained.Keys
    && multiset(h) == multiset(Ages(drained, kept))
  }

  lemma {:induction false} AgesSize(drained: map<FlowKey, FlowMetrics>, kept: set<FlowKey>)
    requires kept <= drained.Keys
    ensures |Ages(drained, kept)| == |kept|
  {
    if kept == {} {
      assert Ages(drained, kept) == {};
    } else {
      var f :| f in kept;
      AgesSize(drained, kept - {f});
      assert Ages(drained, kept) == Ages(drained, kept - {f}) + {FlowAge(f, drained[f].lastSeenNs)};
    }
  }

  lemma HoldsFacts(h: seq<FlowAge>, drained: map<FlowKey, FlowMetrics>, kept: set<FlowKey>)
    requires Holds(h, drained, kept)
    ensures |h| == |kept|
    ensures forall i :: 0 <= i < |h| ==> h[i].key in kept && h[i].seen == drained[h[i].key].lastSeenNs
    ensures forall f :: f in kept ==> FlowAge(f, drained[f].lastSeenNs) in h
  {
    AgesSize(drained, kept);
    assert |h| == |multiset(h)|;
    forall i | 0 <= i < |h|
      ensures h[i].key in kept && h[i].seen == drained[h[i].key].lastSeenNs
    {
      assert h[i] in multiset(h);
    }
    forall f | f in kept
      ensures FlowAge(f, drained[f].lastSeenNs) in h
    {
      assert FlowAge(f, drained[f].lastSeenNs) in multiset(h);
    }
  }

  lemma HoldsPush(h: seq<FlowAge>, drained: map<FlowKey, FlowMetrics>, kept: set<FlowKey>, f: FlowKey)
    requires Holds(h, drained, kept) && f in drained && f !in kept
    ensures Holds(h + [FlowAge(f, drained[f].lastSeenNs)], drained, kept + {f})
  {
  }

  lemma HoldsReplaceRoot(h: seq<FlowAge>, drained: map<FlowKey, FlowMetrics>, kept: set<FlowKey>, f: FlowKey)
    requires Holds(h, drained, kept) && f in drained && f !in kept && |h| > 0
    ensures h[0].key in kept
    ensures Holds(h[0 := FlowAge(f, drained[f].lastSeenNs)], drained, kept - {h[0].key} + {f})
  {
    HoldsFacts(h, drained, kept);
    var x := FlowAge(f, drained[f].lastSeenNs);
    var kept' := kept - {h[0].key} + {f};
    assert Ages(drained, kept') == Ages(drained, kept) - {h[0]} + {x};
    assert multiset(h[0 := x]) == multiset(h) - multiset{h[0]} + multiset{x};
  }

  /** No kept flow is newer than a flow passed over. */
  ghost predicate NoneNewer(drained: map<FlowKey, FlowMetrics>, kept: set<FlowKey>, over: set<FlowKey>)
    requires kept <= drained.Keys && over <= drained.Keys
  {
    forall f, g :: f in kept && g in over ==> drained[f].lastSeenNs <= drained[g].lastSeenNs
  }

  function Min(a: int, b: int): int { if a < b then a else b }

  /** What the selection loop keeps: a heap of the min(k, seen) oldest flows seen. */
  ghost predicate Selecting(h: seq<FlowAge>, drained: map<FlowKey, FlowMetrics>, todo: set<FlowKey>,
                            kept: set<FlowKey>, k: int) {
    && todo <= drained.Keys && kept <= drained.Keys - todo
    && Heap(h) && Holds(h, drained, kept)
    && |kept| == Min(k, |drained| - |todo|)
    && NoneNewer(drained, kept, drained.Keys - todo - kept)
  }

  /** One pass, a heap of at most k entries: exactly min(k, n) distinct flows, none
      newer than any flow left behind. */
  method SelectOldest(drained: map<FlowKey, FlowMetrics>, k: int) returns (out: seq<FlowKey>)
    ensures |out| == if k <= 0 then 0 else Min(k, |drained|)
    ensures forall i, j :: 0 <= i < j < |out| ==> out[i] != out[j]
    ensures forall f :: f in out ==> f in drained
    ensures forall f, g :: f in out && g in drained && g !in out ==> drained[f].lastSeenNs <= drained[g].lastSeenNs
  {
    if k <= 0 {
      return [];
    }
    hide Selecting;
    var h: seq<FlowAge> := [];
    var todo := drained.Keys;
    ghost var kept: set<FlowKey> := {};
    SelectionStart(drained, k);
    while todo != {}
      invariant Selecting(h, drained, todo, kept, k)
      decreases |todo|
    {
      var f :| f in todo;
      h, kept := Consider(h, drained, f, k, todo, kept);
      todo := todo - {f};
    }
    SelectionEnd(h, drained, todo, kept, k);
    out := KeysOf(h);
  }

  /** The loop body for one drained flow. */
  method Consider(h0: seq<FlowAge>, drained: map<FlowKey, FlowMetrics>, f: FlowKey, k: int, ghost todo: set<FlowKey>,
                  ghost kept0: set<FlowKey>)
    returns (h: seq<FlowAge>, ghost kept: set<FlowKey>)
    requires k > 0 && f in drained && f in todo && Selecting(h0, drained, todo, kept0, k)
    ensures Selecting(h, drained, todo - {f}, kept, k)
  {
    var age := FlowAge(f, drained[f].lastSeenNs);
    HoldsFacts(h0, drained, kept0);
    if |h0| < k {
      PushKeepsHeap(h0, age);
      h := SiftUp(h0 + [age], |h0|);
      kept := kept0 + {f};
      ConsiderPush(h0, h, drained, f, k, todo, kept0);
    } else if age.seen < h0[0].seen {
      ReplaceKeepsHeap(h0, age);
      h := SiftDown(h0[0 := age]);
      kept := kept0 - {h0[0].key} + {f};
      ConsiderReplace(h0, h, drained, f, k, todo, kept0);
    } else {
      h, kept := h0, kept0;
      ConsiderSkip(h0, drained, f, k, todo, kept0);
    }
  }

  lemma SelectionStart(drained: map<FlowKey, FlowMetrics>, k: int)
    requires k > 0
    ensures Selecting([], drained, drained.Keys, {}, k)
  {
  }

  lemma SelectionEnd(h: seq<FlowAge>, drained: map<FlowKey, FlowMetrics>, todo: set<FlowKey>, kept: set<FlowKey>,
                     k: int)
    requires Selecting(h, drained, todo, kept, k) && todo == {}
    ensures var out := KeysOf(h);
            && |out| == Min(k, |drained|)
            && (forall i, j :: 0 <= i < j < |out| ==> out[i] != out[j])
            && (forall f :: f in out ==> f in drained)
            && (forall f, g :: f in out && g in drained && g !in out ==> drained[f].lastSeenNs <= drained[g].lastSeenNs)
  {
    HoldsFacts(h, drained, kept);
    KeysOfKept(h, drained, kept);
    assert drained.Keys - todo - kept == drained.Keys - kept;
  }

  lemma ConsiderPush(h0: seq<FlowAge>, h: seq<FlowAge>, drained: map<FlowKey, FlowMetrics>, f: FlowKey, k: int,
                     todo: set<FlowKey>, kept: set<FlowKey>)
    requires f in todo && Selecting(h0, drained, todo, kept, k) && |h0| < k
    requires Heap(h) && SameEntries(h, h0 + [FlowAge(f, drained[f].lastSeenNs)])
    ensures Selecting(h, drained, todo - {f}, kept + {f}, k)
  {
    hide Heap, Ages;
    HoldsFacts(h0, drained, kept);
    HoldsPush(h0, drained, kept, f);
    DoneCount(drained.Keys, todo, kept);
    assert drained.Keys - (todo - {f}) - (kept + {f}) == {};
  }

  lemma ConsiderReplace(h0: seq<FlowAge>, h: seq<FlowAge>, drained: map<FlowKey, FlowMetrics>, f: FlowKey, k: int,
                        todo: set<FlowKey>, kept: set<FlowKey>)
    requires k > 0 && f in todo && Selecting(h0, drained, todo, kept, k) && |h0| >= k
             && drained[f].lastSeenNs < h0[0].seen
    requires Heap(h) && SameEntries(h, h0[0 := FlowAge(f, drained[f].lastSeenNs)])
    ensures Selecting(h, drained, todo - {f}, kept - {h0[0].key} + {f}, k)
  {
    HoldsFacts(h0, drained, kept);
    RootNewestKept(h0, drained, kept);
    HoldsReplaceRoot(h0, drained, kept, f);
    hide Heap, Holds, HeapUp, HeapDown;
    var gone := h0[0].key;
    var kept' := kept - {gone} + {f};
    Swapped(drained.Keys, todo, kept, gone, f);
    assert Holds(h, drained, kept') by { HoldsPermuted(h, h0[0 := FlowAge(f, drained[f].lastSeenNs)], drained, kept'); }
  }

  lemma Swapped(all: set<FlowKey>, todo: set<FlowKey>, kept: set<FlowKey>, gone: FlowKey, f: FlowKey)
    requires todo <= all && kept <= all - todo && gone in kept && f in todo
    ensures |kept - {gone} + {f}| == |kept|
    ensures all - (todo - {f}) - (kept - {gone} + {f}) == all - todo - kept + {gone}
  {
  }

  lemma HoldsPermuted(h: seq<FlowAge>, g: seq<FlowAge>, drained: map<FlowKey, FlowMetrics>, kept: set<FlowKey>)
    requires SameEntries(h, g) && Holds(g, drained, kept)
    ensures Holds(h, drained, kept)
  {
  }

  lemma ConsiderSkip(h: seq<FlowAge>, drained: map<FlowKey, FlowMetrics>, f: FlowKey, k: int, todo: set<FlowKey>,
                     kept: set<FlowKey>)
    requires k > 0 && f in todo && Selecting(h, drained, todo, kept, k) && |h| >= k
             && drained[f].lastSeenNs >= h[0].seen
    ensures Selecting(h, drained, todo - {f}, kept, k)
  {
    HoldsFacts(h, drained, kept);
    RootNewestKept(h, drained, kept);
    hide Heap, Holds;
    assert drained.Keys - (todo - {f}) - kept == drained.Keys - todo - kept + {f};
  }

  function KeysOf(h: seq<FlowAge>): seq<FlowKey> { seq(|h|, i requires 0 <= i < |h| => h[i].key) }

  lemma PushKeepsHeap(h: seq<FlowAge>, x: FlowAge)
    requires Heap(h)
    ensures HeapUp(h + [x], |h|)
  {
  }

  lemma ReplaceKeepsHeap(h: seq<FlowAge>, x: FlowAge)
    requires Heap(h) && |h| > 0
    ensures HeapDown(h[0 := x], 0)
  {
  }

  lemma RootNewestKept(h: seq<FlowAge>, drained: map<FlowKey, FlowMetrics>, kept: set<FlowKey>)
    requires Heap(h) && Holds(h, drained, kept) && |h| > 0
    ensures forall f :: f in kept ==> drained[f].lastSeenNs <= h[0].seen
  {
    HoldsFacts(h, drained, kept);
    forall f | f in kept
      ensures drained[f].lastSeenNs <= h[0].seen
    {
      var i :| 0 <= i < |h| && h[i] == FlowAge(f, drained[f].lastSeenNs);
      RootIsNewest(h, i);
    }
  }

  /** While fewer than k flows were kept, none was passed over. */
  lemma DoneCount(all: set<FlowKey>, todo: set<FlowKey>, kept: set<FlowKey>)
    requires todo <= all && kept <= all - todo && |kept| == |all| - |todo|
    ensures all - todo - kept == {}
  {
    assert |all - todo| == |all| - |todo|;
    assert |all - todo - kept| == |all - todo| - |kept|;
  }

  lemma KeysOfKept(h: seq<FlowAge>, drained: map<FlowKey, FlowMetrics>, kept: set<FlowKey>)
    requires Holds(h, drained, kept)
    ensures var out := KeysOf(h);
            && (forall f :: f in out <==> f in kept)
            && (forall i, j :: 0 <= i < j < |out| ==> out[i] != out[j])
  {
    HoldsFacts(h, drained, kept);
    var out := KeysOf(h);
    forall f | f in kept ensures f in out {
      var i :| 0 <= i < |h| && h[i] == FlowAge(f, drained[f].lastSeenNs);
      assert out[i] == f;
    }
    forall i, j | 0 <= i < j < |out| ensures out[i] != out[j] {
      TwiceInMultiset(h, i, j);
      assert multiset(Ages(drained, kept))[h[i]] <= 1;
    }
  }

  lemma TwiceInMultiset(h: seq<FlowAge>, i: nat, j: nat)
    requires i < j < |h|
    ensures h[i] == h[j] ==> multiset(h)[h[i]] >= 2
  {
    var a, b := h[..j], h[j..];
    assert h == a + b && multiset(h) == multiset(a) + multiset(b);
    assert a[i] in a && b[0] in b;
  }

  // ---------------------------------------------------------------------
  // The watermark cycle
  // ---------------------------------------------------------------------

  /** Whether a pass over n entries relieves, given whether a cycle is under way. */
  predicate Relieves(relieving: bool, n: int, low: int, high: int) {
    n > low && (relieving || n > high)
  }

  /** How many entries such a pass asks to evict. */
  function Wanted(relieving: bool, n: int, low: int, high: int, perPass: int): int {
    if Relieves(relieving, n, low, high) then Min(n - low, perPass) else 0
  }

  /** No pass asks for fewer than none. */
  function Asked(relieving: bool, n: int, low: int, high: int, perPass: int): nat {
    var w := Wanted(relieving, n, low, high, perPass);
    if w < 0 then 0 else w
  }

  /** The population one pass leaves, no flow having joined and every delete working. */
  function Left(relieving: bool, n: nat, low: nat, high: nat, perPass: int): (r: nat)
    ensures r <= n && (n >= low ==> r >= low)
  {
    n - Asked(relieving, n, low, high, perPass)
  }

  lemma LeftBehind(was: map<FlowKey, FlowMetrics>, now: map<FlowKey, FlowMetrics>, drained: set<FlowKey>,
                   victims: set<FlowKey>, broken: set<FlowKey>)
    requires now == was - (victims - broken) && victims <= drained
    ensures drained == was.Keys && broken == {} ==> |now| + |victims| == |was|
  {
    if drained == was.Keys && broken == {} {
      assert now.Keys == was.Keys - victims;
    }
  }

  lemma SameSize(a: map<FlowKey, FlowMetrics>, b: map<FlowKey, FlowMetrics>)
    ensures a.Keys == b.Keys ==> |a| == |b|
  {
    assert |a| == |a.Keys| && |b| == |b.Keys|;
  }

  /** The pass, case by case. */
  lemma PassCases(relieving: bool, n: nat, low: nat, high: nat, perPass: int)
    ensures Relieves(relieving, n, low, high) <==> n > low && (relieving || n > high)
    ensures !Relieves(relieving, n, low, high) ==> Asked(relieving, n, low, high, perPass) == 0
    ensures Relieves(relieving, n, low, high) ==>
              var want := if n - low > perPass then perPass else n - low;
              Asked(relieving, n, low, high, perPass) == if want < 0 then 0 else want
    ensures Left(relieving, n, low, high, perPass) == n - Asked(relieving, n, low, high, perPass)
  {
  }

  lemma NothingEvicted(drained: map<FlowKey, FlowMetrics>, flows: map<FlowKey, FlowMetrics>, broken: set<FlowKey>)
    ensures var none: set<FlowKey> := {};
            flows - (none - broken) == flows && |none - broken| == 0 && NoneNewer(drained, none, drained.Keys - none)
  {
    var none: set<FlowKey> := {};
    assert none - broken == none;
  }

  class PressureReliever {
    const kernel: KernelFlows
    var relieving: bool

    constructor (kernel: KernelFlows)
      ensures this.kernel == kernel && !relieving
    {
      this.kernel := kernel;
      relieving := false;
    }

    /** One pass over the drained readings. The victims are the oldest flows, no
        more than asked for; those the kernel lets go are gone. */
    method Relieve(drained: map<FlowKey, FlowMetrics>, low: nat, high: nat, perPass: int)
        returns (victims: set<FlowKey>, evicted: nat)
      modifies this, kernel`flows
      ensures relieving == Relieves(old(relieving), |drained|, low, high)
      ensures victims <= drained.Keys
      ensures |victims| == Asked(old(relieving), |drained|, low, high, perPass)
      ensures NoneNewer(drained, victims, drained.Keys - victims)
      ensures kernel.flows == old(kernel.flows) - (victims - kernel.broken)
      ensures evicted == |victims - kernel.broken|
      ensures drained.Keys == old(kernel.flows.Keys) && kernel.broken == {} ==>
                |kernel.flows| == Left(old(relieving), |drained|, low, high, perPass)
    {
      victims, evicted := {}, 0;
      var n := |drained|;
      SameSize(kernel.flows, drained);
      NothingEvicted(drained, kernel.flows, kernel.broken);
      PassCases(relieving, n, low, high, perPass);
      hide NoneNewer, Relieves, Asked, Left;
      if n <= low {
        relieving := false;
        return;
      }
      if !relieving && n <= high {
        return;
      }
      relieving := true;
      var want := n - low;
      if want > perPass {
        want := perPass;
      }
      victims, evicted := EvictOldest(drained, want);
    }

    /** The acting part of a pass. */
    method EvictOldest(drained: map<FlowKey, FlowMetrics>, want: int) returns (victims: set<FlowKey>, evicted: nat)
      requires want <= |drained|
      modifies kernel`flows
      ensures victims <= drained.Keys && |victims| == if want < 0 then 0 else want
      ensures NoneNewer(drained, victims, drained.Keys - victims)
      ensures kernel.flows == old(kernel.flows) - (victims - kernel.broken)
      ensures evicted == |victims - kernel.broken|
      ensures drained.Keys == old(kernel.flows.Keys) && kernel.broken == {} ==> |kernel.flows| + |victims| == |drained|
    {
      var picked := SelectOldest(drained, want);
      victims := set f | f in picked;
      DistinctCount(picked);
      evicted := EvictAll(picked);
      LeftBehind(old(kernel.flows), kernel.flows, drained.Keys, victims, kernel.broken);
      SameSize(old(kernel.flows), drained);
    }

    method EvictAll(picked: seq<FlowKey>) returns (evicted: nat)
      requires forall i, j :: 0 <= i < j < |picked| ==> picked[i] != picked[j]
      modifies kernel`flows
      ensures kernel.flows == old(kernel.flows) - ((set f | f in picked) - kernel.broken)
      ensures evicted == |(set f | f in picked) - kernel.broken|
    {
      evicted := 0;
      ghost var gone: set<FlowKey> := {};
      var i := 0;
      while i < |picked|
        invariant 0 <= i <= |picked|
        invariant forall f :: f in gone <==> f in picked[..i] && f !in kernel.broken
        invariant kernel.flows == old(kernel.flows) - gone
        invariant evicted == |gone|
      {
        var f := picked[i];
        assert f !in gone && picked[..i + 1] == picked[..i] + [f];
        var ok := kernel.Delete(f);
        if ok {
          evicted := evicted + 1;
          gone := gone + {f};
        }
        i := i + 1;
      }
      assert gone == (set f | f in picked) - kernel.broken;
    }
  }

  lemma {:induction false} DistinctCount(s: seq<FlowKey>)
    requires forall i, j :: 0 <= i < j < |s| ==> s[i] != s[j]
    ensures |set f | f in s| == |s|
  {
    if s != [] {
      DistinctCount(s[1..]);
      assert (set f | f in s) == (set f | f in s[1..]) + {s[0]};
    }
  }

  /** The cycle flag after a run of passes over populations ns. */
  predicate CycleAfter(ns: seq<nat>, low: nat, high: nat) {
    if ns == [] then false
    else Relieves(CycleAfter(ns[..|ns| - 1], low, high), ns[|ns| - 1], low, high)
  }

  /** The last i passes all stayed above low, starting from one above high. */
  ghost predicate HighSinceLow(ns: seq<nat>, low: nat, high: nat) {
    exists j :: 0 <= j < |ns| && ns[j] > high && AboveFrom(ns, j, low)
  }

  ghost predicate AboveFrom(ns: seq<nat>, j: nat, low: nat) { forall m :: j <= m < |ns| ==> ns[m] > low }

  lemma AboveStep(ns: seq<nat>, j: nat, low: nat)
    requires j < |ns| - 1
    ensures AboveFrom(ns, j, low) <==> AboveFrom(ns[..|ns| - 1], j, low) && ns[|ns| - 1] > low
  {
    var init := ns[..|ns| - 1];
    if AboveFrom(init, j, low) && ns[|ns| - 1] > low {
      forall m | j <= m < |ns| ensures ns[m] > low {
        assert m < |init| ==> ns[m] == init[m];
      }
    }
  }

  /** A pass evicts exactly when the high mark was exceeded since the population
      was last at or below the low mark. */
  lemma {:induction false} EvictsIffHighSinceLow(ns: seq<nat>, low: nat, high: nat)
    requires low <= high
    ensures CycleAfter(ns, low, high) <==> HighSinceLow(ns, low, high)
  {
    if ns != [] {
      EvictsIffHighSinceLow(ns[..|ns| - 1], low, high);
      HighSinceLowStep(ns, low, high);
      hide HighSinceLow;
    }
  }

  /** One more pass: it exceeds high itself, or stays above low after one that did. */
  lemma HighSinceLowStep(ns: seq<nat>, low: nat, high: nat)
    requires low <= high && ns != []
    ensures var n := ns[|ns| - 1];
            HighSinceLow(ns, low, high) <==> n > high || (n > low && HighSinceLow(ns[..|ns| - 1], low, high))
  {
    var n := ns[|ns| - 1];
    if n > high {
      assert AboveFrom(ns, |ns| - 1, low);
    } else if HighSinceLow(ns, low, high) {
      HighKept(ns, low, high);
    } else if n > low && HighSinceLow(ns[..|ns| - 1], low, high) {
      HighGrows(ns, low, high);
    }
  }

  lemma HighKept(ns: seq<nat>, low: nat, high: nat)
    requires ns != [] && low <= high && ns[|ns| - 1] <= high && HighSinceLow(ns, low, high)
    ensures ns[|ns| - 1] > low && HighSinceLow(ns[..|ns| - 1], low, high)
  {
    var j: nat :| j < |ns| && ns[j] > high && AboveFrom(ns, j, low);
    AboveStep(ns, j, low);
    hide AboveFrom;
    assert ns[..|ns| - 1][j] > high;
  }

  lemma HighGrows(ns: seq<nat>, low: nat, high: nat)
    requires ns != [] && ns[|ns| - 1] > low && HighSinceLow(ns[..|ns| - 1], low, high)
    ensures HighSinceLow(ns, low, high)
  {
    hide AboveFrom;
    var j: nat :| j < |ns| - 1 && ns[..|ns| - 1][j] > high && AboveFrom(ns[..|ns| - 1], j, low);
    AboveStep(ns, j, low);
    assert ns[j] > high;
  }

  /** The population after m passes with no new flow and every delete succeeding:
      each pass finds what Relieve left, and the cycle flag Relieve set. */
  function Drain(relieving: bool, n: nat, low: nat, high: nat, perPass: nat, m: nat): (r: nat)
    ensures r <= n && (n >= low ==> r >= low)
    decreases m
  {
    if m == 0 then n
    else Drain(Relieves(relieving, n, low, high), Left(relieving, n, low, high, perPass), low, high, perPass, m - 1)
  }

  /** Once a pass relieves, whether a cycle is under way or the high mark was just
      exceeded, each removes perPass until low is reached, and low is reached after
      ceil((n - low) / perPass) passes and not before. */
  lemma {:induction false} DrainsToLow(relieving: bool, n: nat, low: nat, high: nat, perPass: nat, m: nat)
    requires Relieves(relieving, n, low, high) && perPass > 0
    ensures Drain(relieving, n, low, high, perPass, m) == if m * perPass >= n - low then low else n - m * perPass
    decreases m
  {
    if m > 0 {
      OneMore(m, perPass);
      hide *;
      PassLeaves(relieving, n, low, high, perPass);
      DrainPass(relieving, n, low, high, perPass, m);
      if n - low <= perPass {
        StaysAtLow(low, high, perPass, m - 1);
      } else {
        DrainsToLow(true, n - perPass, low, high, perPass, m - 1);
      }
    }
  }

  lemma DrainPass(relieving: bool, n: nat, low: nat, high: nat, perPass: nat, m: nat)
    requires m > 0 && Relieves(relieving, n, low, high)
    ensures Drain(relieving, n, low, high, perPass, m) ==
            Drain(true, Left(relieving, n, low, high, perPass), low, high, perPass, m - 1)
  {
  }

  lemma PassLeaves(relieving: bool, n: nat, low: nat, high: nat, perPass: nat)
    requires Relieves(relieving, n, low, high) && perPass > 0
    ensures n > low && Left(relieving, n, low, high, perPass) == (if n - low <= perPass then low else n - perPass)
    ensures n - low > perPass ==> Relieves(true, n - perPass, low, high)
  {
  }

  lemma OneMore(m: nat, x: nat)
    requires m > 0
    ensures m * x == (m - 1) * x + x && (m - 1) * x >= 0
  {
  }

  lemma {:induction false} StaysAtLow(low: nat, high: nat, perPass: nat, m: nat)
    ensures Drain(true, low, low, high, perPass, m) == low
    ensures Drain(false, low, low, high, perPass, m) == low
    decreases m
  {
  }
}
