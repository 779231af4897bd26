/**
 * The game's task stack: a `deque(maxlen=250)` of scheduled phase tasks
 * (an entry may be `None`), kept only so that stopping or failing a game can
 * cancel everything still scheduled. Tasks are opaque identifiers here;
 * cancelling one is recorded, not performed.
 */
module Tasks {
  import opened Wrappers

  const MaxLen: nat := 250

  type TaskId = nat

  datatype TaskStack = TaskStack(items: seq<Option<TaskId>>)

  const Empty := TaskStack([])

  predicate Bounded(s: TaskStack) {
    |s.items| <= MaxLen
  }

  /** The last `n` elements of `xs` (all of them when there are fewer). */
  function Newest<T>(xs: seq<T>, n: nat): (r: seq<T>)
    ensures |r| == if |xs| < n then |xs| else n
  {
    if |xs| <= n then xs else xs[|xs| - n..]
  }

  /** `append` on a bounded deque: at capacity the oldest entry falls off the left end. */
  function Push(s: TaskStack, t: Option<TaskId>): (r: TaskStack)
    ensures Bounded(r)
    ensures |r.items| > 0 && r.items[|r.items| - 1] == t
    ensures |s.items| < MaxLen ==> r.items == s.items + [t]
    ensures |s.items| == MaxLen ==> r.items == s.items[1..] + [t]
  {
    TaskStack(Newest(s.items + [t], MaxLen))
  }

  /** Appending one after another. */
  function PushAll(s: TaskStack, ts: seq<Option<TaskId>>): TaskStack
    decreases |ts|
  {
    if |ts| == 0 then s else PushAll(Push(s, ts[0]), ts[1..])
  }

  /**
   * However many tasks are scheduled, the stack holds only the 250 most
   * recent ones, in scheduling order.
   */
  lemma {:induction false} PushAllKeepsNewest(s: TaskStack, ts: seq<Option<TaskId>>)
    requires Bounded(s)
    ensures Bounded(PushAll(s, ts))
    ensures PushAll(s, ts).items == Newest(s.items + ts, MaxLen)
    decreases |ts|
  {
    if |ts| == 0 {
      assert s.items + ts == s.items;
    } else {
      var s' := Push(s, ts[0]);
      PushAllKeepsNewest(s', ts[1..]);
      NewestPush(s.items, ts[0], ts[1..]);
    }
  }

  lemma NewestPush(xs: seq<Option<TaskId>>, t: Option<TaskId>, rest: seq<Option<TaskId>>)
    requires |xs| <= MaxLen
    ensures Newest(Newest(xs + [t], MaxLen) + rest, MaxLen) == Newest(xs + [t] + rest, MaxLen)
  {
    var ys := xs + [t];
    if |ys| > MaxLen {
      var k := |ys| - MaxLen;
      assert Newest(ys, MaxLen) == ys[k..];
      assert ys[k..] + rest == (ys + rest)[k..];
    } else {
      assert Newest(ys, MaxLen) == ys;
    }
  }

  // ---------------------------------------------------------------------------
  // Flushing
  // ---------------------------------------------------------------------------

  function Reverse<T>(xs: seq<T>): (r: seq<T>)
    ensures |r| == |xs|
  {
    if |xs| == 0 then [] else [xs[|xs| - 1]] + Reverse(xs[..|xs| - 1])
  }

  /** The task identifiers among the entries, skipping `None`, in order. */
  function Live(xs: seq<Option<TaskId>>): seq<TaskId> {
    if |xs| == 0 then []
    else if xs[0].Some? then [xs[0].value] + Live(xs[1..])
    else Live(xs[1..])
  }

  /** The order `_flush_tasks` cancels in: popping from the right end. */
  function CancelOrder(s: TaskStack): seq<TaskId> {
    Live(Reverse(s.items))
  }

  lemma ReverseSnoc(xs: seq<Option<TaskId>>)
    requires |xs| > 0
    ensures Reverse(xs) == [xs[|xs| - 1]] + Reverse(xs[..|xs| - 1])
  {
  }

  lemma {:induction false} LiveConcat(a: seq<Option<TaskId>>, b: seq<Option<TaskId>>)
    ensures Live(a + b) == Live(a) + Live(b)
    decreases |a|
  {
    if |a| == 0 {
      assert a + b == b;
    } else {
      assert (a + b)[1..] == a[1..] + b;
      LiveConcat(a[1..], b);
    }
  }

  /**
   * `_flush_tasks`: pop entries from the right until the stack is empty,
   * cancelling each entry that is a task.
   */
  method Flush(s: TaskStack) returns (r: TaskStack, cancelled: seq<TaskId>)
    ensures r == Empty
    ensures cancelled == CancelOrder(s)
  {
    var items := s.items;
    cancelled := [];
    while |items| > 0
      invariant CancelOrder(s) == cancelled + Live(Reverse(items))
      decreases |items|
    {
      var task := items[|items| - 1];
      ReverseSnoc(items);
      LiveConcat([task], Reverse(items[..|items| - 1]));
      items := items[..|items| - 1];
      if task.Some? {
        cancelled := cancelled + [task.value];
      }
    }
    r := TaskStack(items);
  }

  lemma {:induction false} LiveMultiset(xs: seq<Option<TaskId>>, t: TaskId)
    ensures multiset(Live(xs))[t] == multiset(xs)[Some(t)]
    decreases |xs|
  {
    if |xs| > 0 {
      assert xs == [xs[0]] + xs[1..];
      LiveMultiset(xs[1..], t);
    }
  }

  lemma {:induction false} ReverseMultiset<T>(xs: seq<T>)
    ensures multiset(Reverse(xs)) == multiset(xs)
    decreases |xs|
  {
    if |xs| > 0 {
      ReverseMultiset(xs[..|xs| - 1]);
      assert xs == xs[..|xs| - 1] + [xs[|xs| - 1]];
    }
  }

  /** A flush cancels every task on the stack exactly as many times as it appears there. */
  lemma FlushCancelsEachOnce(s: TaskStack, t: TaskId)
    ensures multiset(CancelOrder(s))[t] == multiset(s.items)[Some(t)]
  {
    LiveMultiset(Reverse(s.items), t);
    ReverseMultiset(s.items);
  }
}
