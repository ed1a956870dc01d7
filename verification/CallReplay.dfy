/**
  Replaying what a call tree recorded.

  While a transaction executes, every event (and every L2-to-L1 message) gets the next global order
  number and is filed under the call that produced it. Afterwards only the call tree is left, and the
  pallet has to find the execution order again. It walks the tree greedily: a call's own items as long
  as their numbers continue the sequence, otherwise the next inner call.

  `Replay` is that walk, for one kind of item. `RecordTree` is the other direction, from an execution
  trace to the tree.
 */
module CallReplay {
  import opened Primitives

  datatype Ordered<T> = Ordered(order: nat, content: T)

  /** A call tree, restricted to one kind of item. */
  datatype Tree<T> = Node(address: Felt, items: seq<Ordered<T>>, inner: seq<Tree<T>>)

  /** An item with the storage address of the call it belongs to. */
  datatype Emission<T> = Emission(from: Felt, order: nat, content: T)

  datatype Replayed<T> = Replayed(out: seq<Emission<T>>, next: nat)

  /** One execution step of a call: produce an item, or run an inner call. */
  datatype Act<T> = Emit(content: T) | Nested(address: Felt, body: seq<Act<T>>)

  datatype Recording<T> = Recording(items: seq<Ordered<T>>, inner: seq<Tree<T>>, next: nat)

  // ----- The greedy walk

  function Replay<T>(t: Tree<T>, start: nat): Replayed<T>
    decreases t, |t.items| + |t.inner| + 1
  {
    Walk(t, 0, 0, start)
  }

  /** The walk of one call, from own item `i` and inner call `j` on, expecting number `order`. */
  function Walk<T>(t: Tree<T>, i: nat, j: nat, order: nat): Replayed<T>
    requires i <= |t.items| && j <= |t.inner|
    decreases t, |t.items| - i + |t.inner| - j
  {
    if i < |t.items| && t.items[i].order == order then
      var rest := Walk(t, i + 1, j, order + 1);
      Replayed([Emission(t.address, order, t.items[i].content)] + rest.out, rest.next)
    else if j < |t.inner| then
      var call := Replay(t.inner[j], order);
      var rest := Walk(t, i, j + 1, call.next);
      Replayed(call.out + rest.out, rest.next)
    else
      Replayed([], order)
  }

  // ----- What holds of every tree, recorded or not

  /** All items of a tree, a call's own ones first, then those of its inner calls. */
  function Items<T>(t: Tree<T>): seq<Emission<T>> {
    Own(t.address, t.items) + AllItems(t.inner)
  }

  function Own<T>(address: Felt, items: seq<Ordered<T>>): (r: seq<Emission<T>>)
    ensures |r| == |items|
  {
    seq(|items|, k requires 0 <= k < |items| => Emission(address, items[k].order, items[k].content))
  }

  function AllItems<T>(ts: seq<Tree<T>>): seq<Emission<T>> {
    if ts == [] then [] else Items(ts[0]) + AllItems(ts[1..])
  }

  /** The numbers that come out are exactly start, start + 1, ..., next - 1. */
  lemma {:induction false} ReplayIsSequential<T>(t: Tree<T>, start: nat)
    ensures Replay(t, start).next == start + |Replay(t, start).out|
    ensures forall k | 0 <= k < |Replay(t, start).out| :: Replay(t, start).out[k].order == start + k
    decreases t, |t.items| + |t.inner| + 1
  {
    WalkIsSequential(t, 0, 0, start);
  }

  lemma {:induction false} WalkIsSequential<T>(t: Tree<T>, i: nat, j: nat, order: nat)
    requires i <= |t.items| && j <= |t.inner|
    ensures Walk(t, i, j, order).next == order + |Walk(t, i, j, order).out|
    ensures forall k | 0 <= k < |Walk(t, i, j, order).out| :: Walk(t, i, j, order).out[k].order == order + k
    decreases t, |t.items| - i + |t.inner| - j
  {
    if i < |t.items| && t.items[i].order == order {
      WalkIsSequential(t, i + 1, j, order + 1);
    } else if j < |t.inner| {
      ReplayIsSequential(t.inner[j], order);
      WalkIsSequential(t, i, j + 1, Replay(t.inner[j], order).next);
    }
  }

  lemma OneMore<T>(x: T, out: seq<T>, own: seq<T>, others: seq<T>)
    requires multiset(out) <= multiset(own) + multiset(others)
    ensures multiset([x] + out) <= multiset([x] + own) + multiset(others)
  {
  }

  lemma SomeMore<T>(call: seq<T>, out: seq<T>, items: seq<T>, own: seq<T>, others: seq<T>)
    requires multiset(call) <= multiset(items)
    requires multiset(out) <= multiset(own) + multiset(others)
    ensures multiset(call + out) <= multiset(own) + multiset(items + others)
  {
  }

  /** Nothing is invented and nothing comes out twice. */
  lemma {:induction false} ReplayOnlyEmitsItems<T>(t: Tree<T>, start: nat)
    ensures multiset(Replay(t, start).out) <= multiset(Items(t))
    decreases t, |t.items| + |t.inner| + 1
  {
    WalkOnlyEmitsItems(t, 0, 0, start);
    assert Own(t.address, t.items)[0..] == Own(t.address, t.items) && t.inner[0..] == t.inner;
  }

  lemma {:induction false} WalkOnlyEmitsItems<T>(t: Tree<T>, i: nat, j: nat, order: nat)
    requires i <= |t.items| && j <= |t.inner|
    ensures multiset(Walk(t, i, j, order).out)
         <= multiset(Own(t.address, t.items)[i..]) + multiset(AllItems(t.inner[j..]))
    decreases t, |t.items| - i + |t.inner| - j
  {
    var own := Own(t.address, t.items);
    if i < |t.items| && t.items[i].order == order {
      WalkOnlyEmitsItems(t, i + 1, j, order + 1);
      assert own[i..] == [own[i]] + own[i + 1..];
      OneMore(own[i], Walk(t, i + 1, j, order + 1).out, own[i + 1..], AllItems(t.inner[j..]));
    } else if j < |t.inner| {
      var call := Replay(t.inner[j], order);
      ReplayOnlyEmitsItems(t.inner[j], order);
      WalkOnlyEmitsItems(t, i, j + 1, call.next);
      assert t.inner[j..][0] == t.inner[j] && t.inner[j..][1..] == t.inner[j + 1..];
      assert AllItems(t.inner[j..]) == Items(t.inner[j]) + AllItems(t.inner[j + 1..]);
      SomeMore(call.out, Walk(t, i, j + 1, call.next).out, Items(t.inner[j]), own[i..], AllItems(t.inner[j + 1..]));
    }
  }

  // ----- Recording an execution

  /** Numbers the items of a call body in execution order, from `start`, and files them under their calls. */
  function RecordActs<T>(acts: seq<Act<T>>, start: nat): (r: Recording<T>)
    ensures start <= r.next
    ensures forall k | 0 <= k < |r.items| :: start <= r.items[k].order < r.next
  {
    if acts == [] then
      Recording([], [], start)
    else match acts[0]
      case Emit(content) =>
        var rest := RecordActs(acts[1..], start + 1);
        Recording([Ordered(start, content)] + rest.items, rest.inner, rest.next)
      case Nested(address, body) =>
        var call := RecordActs(body, start);
        var rest := RecordActs(acts[1..], call.next);
        Recording(rest.items, [Node(address, call.items, call.inner)] + rest.inner, rest.next)
  }

  function RecordTree<T>(address: Felt, acts: seq<Act<T>>, start: nat): Tree<T> {
    var r := RecordActs(acts, start);
    Node(address, r.items, r.inner)
  }

  /** The items of a trace in execution order, each with its emitter. */
  function History<T>(address: Felt, acts: seq<Act<T>>, start: nat): (h: seq<Emission<T>>)
    ensures |h| == RecordActs(acts, start).next - start
    decreases acts
  {
    if acts == [] then
      []
    else match acts[0]
      case Emit(content) =>
        [Emission(address, start, content)] + History(address, acts[1..], start + 1)
      case Nested(callee, body) =>
        History(callee, body, start) + History(address, acts[1..], RecordActs(body, start).next)
  }

  /** A tree without items. The walk may reach such a call earlier or later than it really ran. */
  ghost predicate Silent<T>(t: Tree<T>) {
    t.items == [] && forall k | 0 <= k < |t.inner| :: Silent(t.inner[k])
  }

  lemma {:induction false} SilentReplay<T>(t: Tree<T>, j: nat, order: nat)
    requires Silent(t) && j <= |t.inner|
    ensures Walk(t, 0, j, order) == Replayed([], order)
    decreases t, |t.inner| - j
  {
    if j < |t.inner| {
      SilentReplay(t.inner[j], 0, order);
      SilentReplay(t, j + 1, order);
    }
  }

  lemma {:induction false} EmptyRecordingIsSilent<T>(acts: seq<Act<T>>, start: nat)
    requires RecordActs(acts, start).next == start
    ensures RecordActs(acts, start).items == []
    ensures forall k | 0 <= k < |RecordActs(acts, start).inner| :: Silent(RecordActs(acts, start).inner[k])
  {
    if acts != [] {
      match acts[0]
      case Emit(_) =>
      case Nested(_, body) =>
        EmptyRecordingIsSilent(body, start);
        EmptyRecordingIsSilent(acts[1..], start);
    }
  }

  /** Record, then replay: every item comes out once, in execution order, with its emitter. */
  lemma {:induction false} ReplayOfRecording<T>(address: Felt, acts: seq<Act<T>>, start: nat)
    ensures Replay(RecordTree(address, acts, start), start)
         == Replayed(History(address, acts, start), RecordActs(acts, start).next)
    decreases acts, 2, 0
  {
    var t := RecordTree(address, acts, start);
    assert t.items[0..] == t.items && t.inner[0..] == t.inner;
    WalkFollowsTrace(t, 0, 0, acts, start, 0);
  }

  /**
    The walk stands at own item `i` and inner call `j`; the execution still has `acts` to do. The next
    `waiting` inner calls ran before `acts` in the execution but have no items, and the walk has not
    visited them yet.
   */
  lemma {:induction false} WalkFollowsTrace<T>(t: Tree<T>, i: nat, j: nat, acts: seq<Act<T>>, order: nat, waiting: nat)
    requires i <= |t.items| && j + waiting <= |t.inner|
    requires forall k | j <= k < j + waiting :: Silent(t.inner[k])
    requires t.items[i..] == RecordActs(acts, order).items
    requires t.inner[j + waiting..] == RecordActs(acts, order).inner
    ensures Walk(t, i, j, order) == Replayed(History(t.address, acts, order), RecordActs(acts, order).next)
    decreases acts, 1, waiting
  {
    if acts != [] && acts[0].Emit? {
      WalkEmits(t, i, j, acts, order, waiting);
    } else if acts != [] && RecordActs(acts[0].body, order).next == order {
      WalkDefers(t, i, j, acts, order, waiting);
    } else if waiting > 0 {
      // no own item continues the sequence, so a waiting call is visited, in vain
      assert i < |t.items| ==> t.items[i] == t.items[i..][0];
      SilentReplay(t.inner[j], 0, order);
      WalkFollowsTrace(t, i, j + 1, acts, order, waiting - 1);
    } else if acts != [] {
      WalkEnters(t, i, j, acts, order);
    }
  }

  lemma {:induction false} WalkEmits<T>(t: Tree<T>, i: nat, j: nat, acts: seq<Act<T>>, order: nat, waiting: nat)
    requires i <= |t.items| && j + waiting <= |t.inner|
    requires forall k | j <= k < j + waiting :: Silent(t.inner[k])
    requires acts != [] && acts[0].Emit?
    requires t.items[i..] == RecordActs(acts, order).items
    requires t.inner[j + waiting..] == RecordActs(acts, order).inner
    ensures Walk(t, i, j, order) == Replayed(History(t.address, acts, order), RecordActs(acts, order).next)
    decreases acts, 0, 0
  {
    assert t.items[i] == t.items[i..][0];
    assert t.items[i + 1..] == t.items[i..][1..];
    WalkFollowsTrace(t, i + 1, j, acts[1..], order + 1, waiting);
  }

  /** An inner call without items joins the waiting ones. */
  lemma {:induction false} WalkDefers<T>(t: Tree<T>, i: nat, j: nat, acts: seq<Act<T>>, order: nat, waiting: nat)
    requires i <= |t.items| && j + waiting <= |t.inner|
    requires forall k | j <= k < j + waiting :: Silent(t.inner[k])
    requires acts != [] && acts[0].Nested? && RecordActs(acts[0].body, order).next == order
    requires t.items[i..] == RecordActs(acts, order).items
    requires t.inner[j + waiting..] == RecordActs(acts, order).inner
    ensures Walk(t, i, j, order) == Replayed(History(t.address, acts, order), RecordActs(acts, order).next)
    decreases acts, 0, 0
  {
    EmptyRecordingIsSilent(acts[0].body, order);
    assert t.inner[j + waiting..][0] == t.inner[j + waiting];
    assert t.inner[j + waiting + 1..] == t.inner[j + waiting..][1..];
    assert History(acts[0].address, acts[0].body, order) == [];
    WalkFollowsTrace(t, i, j, acts[1..], order, waiting + 1);
  }

  lemma {:induction false} WalkEnters<T>(t: Tree<T>, i: nat, j: nat, acts: seq<Act<T>>, order: nat)
    requires i <= |t.items| && j <= |t.inner|
    requires acts != [] && acts[0].Nested? && RecordActs(acts[0].body, order).next != order
    requires t.items[i..] == RecordActs(acts, order).items
    requires t.inner[j..] == RecordActs(acts, order).inner
    ensures Walk(t, i, j, order) == Replayed(History(t.address, acts, order), RecordActs(acts, order).next)
    decreases acts, 0, 0
  {
    assert i < |t.items| ==> t.items[i] == t.items[i..][0];
    assert t.inner[j] == t.inner[j..][0] && t.inner[j + 1..] == t.inner[j..][1..];
    ReplayOfRecording(acts[0].address, acts[0].body, order);
    WalkFollowsTrace(t, i, j + 1, acts[1..], RecordActs(acts[0].body, order).next, 0);
  }

  // ----- Exactly the recordable trees are replayed in full

  /** The trace that the walk reads off a tree. */
  function WalkActs<T>(t: Tree<T>, i: nat, j: nat, order: nat): seq<Act<T>>
    requires i <= |t.items| && j <= |t.inner|
    decreases t, |t.items| - i + |t.inner| - j
  {
    if i < |t.items| && t.items[i].order == order then
      [Emit(t.items[i].content)] + WalkActs(t, i + 1, j, order + 1)
    else if j < |t.inner| then
      [Nested(t.inner[j].address, WalkActs(t.inner[j], 0, 0, order))]
      + WalkActs(t, i, j + 1, Replay(t.inner[j], order).next)
    else
      []
  }

  lemma {:induction false} WalkCount<T>(t: Tree<T>, i: nat, j: nat, order: nat)
    requires i <= |t.items| && j <= |t.inner|
    ensures |Walk(t, i, j, order).out| <= |t.items| - i + |AllItems(t.inner[j..])|
  {
    WalkOnlyEmitsItems(t, i, j, order);
    SubmultisetSize(multiset(Walk(t, i, j, order).out),
                    multiset(Own(t.address, t.items)[i..]) + multiset(AllItems(t.inner[j..])));
  }

  lemma SubmultisetSize<T>(a: multiset<T>, b: multiset<T>)
    requires a <= b
    ensures |a| <= |b|
  {
    assert b == a + (b - a);
  }

  lemma {:induction false} FullWalkIsRecording<T>(t: Tree<T>, i: nat, j: nat, order: nat)
    requires i <= |t.items| && j <= |t.inner|
    requires |Walk(t, i, j, order).out| == |t.items| - i + |AllItems(t.inner[j..])|
    ensures RecordActs(WalkActs(t, i, j, order), order)
         == Recording(t.items[i..], t.inner[j..], Walk(t, i, j, order).next)
    decreases t, |t.items| - i + |t.inner| - j
  {
    if i < |t.items| && t.items[i].order == order {
      FullWalkIsRecording(t, i + 1, j, order + 1);
      assert t.items[i..] == [Ordered(order, t.items[i].content)] + t.items[i + 1..];
    } else if j < |t.inner| {
      var call := t.inner[j];
      var next := Replay(call, order).next;
      assert t.inner[j..] == [call] + t.inner[j + 1..];
      assert t.inner[j..][1..] == t.inner[j + 1..];
      assert call.inner[0..] == call.inner && call.items[0..] == call.items;
      WalkCount(call, 0, 0, order);
      WalkCount(t, i, j + 1, next);
      FullWalkIsRecording(call, 0, 0, order);
      FullWalkIsRecording(t, i, j + 1, next);
      assert WalkActs(t, i, j, order)[1..] == WalkActs(t, i, j + 1, next);
    } else {
      assert t.items[i..] == [] && t.inner[j..] == [];
    }
  }

  lemma {:induction false} RecordingCount<T>(address: Felt, acts: seq<Act<T>>, start: nat)
    ensures |RecordActs(acts, start).items| + |AllItems(RecordActs(acts, start).inner)|
         == RecordActs(acts, start).next - start
    decreases acts
  {
    if acts != [] {
      match acts[0]
      case Emit(_) =>
        RecordingCount(address, acts[1..], start + 1);
      case Nested(callee, body) =>
        var call := RecordActs(body, start);
        var rest := RecordActs(acts[1..], call.next);
        RecordingCount(callee, body, start);
        RecordingCount(address, acts[1..], call.next);
        assert ([Node(callee, call.items, call.inner)] + rest.inner)[1..] == rest.inner;
    }
  }

  /** The walk loses no item if and only if the tree is the recording of some execution. */
  lemma {:induction false} FullReplayIffRecorded<T>(t: Tree<T>, start: nat)
    ensures |Replay(t, start).out| == |Items(t)|
       <==> exists acts: seq<Act<T>> :: t == RecordTree(t.address, acts, start)
  {
    if |Replay(t, start).out| == |Items(t)| {
      assert t.items[0..] == t.items && t.inner[0..] == t.inner;
      FullWalkIsRecording(t, 0, 0, start);
      assert t == RecordTree(t.address, WalkActs(t, 0, 0, start), start);
    }
    if acts: seq<Act<T>> :| t == RecordTree(t.address, acts, start) {
      ReplayOfRecording(t.address, acts, start);
      RecordingCount(t.address, acts, start);
    }
  }

  /** So a recorded tree is replayed as a permutation of its items. */
  lemma {:induction false} RecordedReplayIsPermutation<T>(address: Felt, acts: seq<Act<T>>, start: nat)
    ensures multiset(Replay(RecordTree(address, acts, start), start).out)
         == multiset(Items(RecordTree(address, acts, start)))
  {
    var t := RecordTree(address, acts, start);
    FullReplayIffRecorded(t, start);
    ReplayOnlyEmitsItems(t, start);
    var a, b := multiset(Replay(t, start).out), multiset(Items(t));
    assert b == a + (b - a);
  }

  // ----- The walk as a loop

  /** The loop over `t` has put out `done` and stands at own item `i` and inner call `j`. */
  ghost predicate Reached<T>(t: Tree<T>, start: nat, done: seq<Emission<T>>, i: nat, j: nat, order: nat) {
    && i <= |t.items|
    && j <= |t.inner|
    && Replay(t, start) == Replayed(done + Walk(t, i, j, order).out, Walk(t, i, j, order).next)
  }

  lemma ReachedItem<T>(t: Tree<T>, start: nat, done: seq<Emission<T>>, i: nat, j: nat, order: nat)
    requires Reached(t, start, done, i, j, order)
    requires i < |t.items| && t.items[i].order == order
    ensures Reached(t, start, done + [Emission(t.address, order, t.items[i].content)], i + 1, j, order + 1)
  {
    var e := Emission(t.address, order, t.items[i].content);
    var rest := Walk(t, i + 1, j, order + 1);
    assert done + ([e] + rest.out) == (done + [e]) + rest.out;
  }

  lemma ReachedCall<T>(t: Tree<T>, start: nat, done: seq<Emission<T>>, i: nat, j: nat, order: nat)
    requires Reached(t, start, done, i, j, order)
    requires i < |t.items| ==> t.items[i].order != order
    requires j < |t.inner|
    ensures Reached(t, start, done + Replay(t.inner[j], order).out, i, j + 1, Replay(t.inner[j], order).next)
  {
    var call := Replay(t.inner[j], order);
    var rest := Walk(t, i, j + 1, call.next);
    assert done + (call.out + rest.out) == (done + call.out) + rest.out;
  }

  lemma ReachedEnd<T>(t: Tree<T>, start: nat, done: seq<Emission<T>>, i: nat, order: nat)
    requires Reached(t, start, done, i, |t.inner|, order)
    requires i < |t.items| ==> t.items[i].order != order
    ensures Replay(t, start) == Replayed(done, order)
  {
    assert Walk(t, i, |t.inner|, order) == Replayed([], order);
  }

  // ----- Lists of results

  function Mapped<A, B>(f: A -> B, xs: seq<A>): (r: seq<B>)
    ensures |r| == |xs| && forall k | 0 <= k < |xs| :: r[k] == f(xs[k])
  {
    seq(|xs|, k requires 0 <= k < |xs| => f(xs[k]))
  }

  lemma MappedWithout<A, B>(f: A -> B, xs: seq<A>, k: nat)
    requires k < |xs|
    ensures multiset(xs) == multiset(xs[..k] + xs[k + 1..]) + multiset{xs[k]}
    ensures multiset(Mapped(f, xs)) == multiset(Mapped(f, xs[..k] + xs[k + 1..])) + multiset{f(xs[k])}
  {
    var rest := xs[..k] + xs[k + 1..];
    assert xs == xs[..k] + [xs[k]] + xs[k + 1..];
    assert Mapped(f, xs) == Mapped(f, rest)[..k] + [f(xs[k])] + Mapped(f, rest)[k..];
    assert Mapped(f, rest) == Mapped(f, rest)[..k] + Mapped(f, rest)[k..];
  }

  lemma SameRest<T>(a: multiset<T>, b: multiset<T>, x: T)
    requires a + multiset{x} == b + multiset{x}
    ensures a == b
  {
    assert a == a + multiset{x} - multiset{x};
    assert b == b + multiset{x} - multiset{x};
  }

  lemma {:induction false} MappedPermutation<A, B>(f: A -> B, a: seq<A>, b: seq<A>)
    requires multiset(a) == multiset(b)
    ensures multiset(Mapped(f, a)) == multiset(Mapped(f, b))
    decreases a
  {
    if a == [] {
      assert |multiset(b)| == 0;
    } else {
      assert a[0] in multiset(b);
      var k :| 0 <= k < |b| && b[k] == a[0];
      MappedWithout(f, a, 0);
      MappedWithout(f, b, k);
      var a', b' := a[..0] + a[0 + 1..], b[..k] + b[k + 1..];
      SameRest(multiset(a'), multiset(b'), a[0]);
      MappedPermutation(f, a', b');
    }
  }
}
