/** Include events as the ODL parser reports them, and what they say: the stacks of open files, and
    how often each file was opened. */
module IncludeEvents {
  datatype Event = Open(file: string) | Close

  type Stack = seq<string>

  /** Every close has its open, and every open its close. */
  predicate Balanced(evs: seq<Event>) { DepthAfter(0, evs) == 0 && NeverBelow(0, evs) }

  function DepthAfter(depth: int, evs: seq<Event>): int
    decreases |evs|
  {
    if evs == [] then depth else DepthAfter(if evs[0].Open? then depth + 1 else depth - 1, evs[1..])
  }

  predicate NeverBelow(depth: int, evs: seq<Event>)
    decreases |evs|
  {
    depth >= 0 && (evs == [] || NeverBelow(if evs[0].Open? then depth + 1 else depth - 1, evs[1..]))
  }

  /** The stack of open files after the events; a close on an empty stack is ignored. */
  function StackAfter(stack: Stack, evs: seq<Event>): Stack
    decreases |evs|
  {
    if evs == [] then stack else StackAfter(Moved(stack, evs[0]), evs[1..])
  }

  function Moved(stack: Stack, e: Event): Stack {
    if e.Open? then stack + [e.file] else if stack == [] then [] else stack[..|stack| - 1]
  }

  /** Every stack that comes up while the events are read. */
  function StacksSeen(stack: Stack, evs: seq<Event>): set<Stack>
    decreases |evs|
  {
    if evs == [] then {}
    else
      (if evs[0].Open? then {stack + [evs[0].file]} else {}) + StacksSeen(Moved(stack, evs[0]), evs[1..])
  }

  function Opens(evs: seq<Event>, file: string): nat {
    if evs == [] then 0 else (if evs[0] == Open(file) then 1 else 0) + Opens(evs[1..], file)
  }

  // ----- events one after the other -----

  lemma {:induction false} StackAfterConcat(stack: Stack, a: seq<Event>, b: seq<Event>)
    ensures StackAfter(stack, a + b) == StackAfter(StackAfter(stack, a), b)
    decreases |a|
  {
    if a == [] {
      assert a + b == b;
    } else {
      assert (a + b)[1..] == a[1..] + b;
      StackAfterConcat(Moved(stack, a[0]), a[1..], b);
    }
  }

  lemma {:induction false} StacksSeenConcat(stack: Stack, a: seq<Event>, b: seq<Event>)
    ensures StacksSeen(stack, a + b) == StacksSeen(stack, a) + StacksSeen(StackAfter(stack, a), b)
    decreases |a|
  {
    if a == [] {
      assert a + b == b;
    } else {
      assert (a + b)[1..] == a[1..] + b;
      StacksSeenConcat(Moved(stack, a[0]), a[1..], b);
    }
  }

  lemma {:induction false} OpensConcat(a: seq<Event>, b: seq<Event>, file: string)
    ensures Opens(a + b, file) == Opens(a, file) + Opens(b, file)
  {
    if a == [] {
      assert a + b == b;
    } else {
      assert (a + b)[1..] == a[1..] + b;
      OpensConcat(a[1..], b, file);
    }
  }

  lemma {:induction false} DepthConcat(depth: int, a: seq<Event>, b: seq<Event>)
    ensures DepthAfter(depth, a + b) == DepthAfter(DepthAfter(depth, a), b)
    ensures NeverBelow(depth, a) && NeverBelow(DepthAfter(depth, a), b) ==> NeverBelow(depth, a + b)
    decreases |a|
  {
    if a == [] {
      assert a + b == b;
    } else {
      assert (a + b)[1..] == a[1..] + b;
      DepthConcat(if a[0].Open? then depth + 1 else depth - 1, a[1..], b);
    }
  }

  lemma {:induction false} DeeperIsFine(depth: int, more: nat, evs: seq<Event>)
    ensures DepthAfter(depth + more, evs) == DepthAfter(depth, evs) + more
    ensures NeverBelow(depth, evs) ==> NeverBelow(depth + more, evs)
    decreases |evs|
  {
    if evs != [] {
      DeeperIsFine(if evs[0].Open? then depth + 1 else depth - 1, more, evs[1..]);
    }
  }

  lemma BalancedConcat(a: seq<Event>, b: seq<Event>)
    requires Balanced(a) && Balanced(b)
    ensures Balanced(a + b)
  {
    DepthConcat(0, a, b);
  }

  lemma BalancedInclude(file: string, a: seq<Event>)
    requires Balanced(a)
    ensures Balanced([Open(file)] + a + [Close])
  {
    var all := [Open(file)] + a + [Close];
    assert all[1..] == a + [Close];
    DeeperIsFine(0, 1, a);
    DepthConcat(1, a, [Close]);
  }

  /** A stack that is at least as deep as the events ever go below their start keeps its bottom. */
  lemma {:induction false} BottomStays(bottom: Stack, above: Stack, evs: seq<Event>)
    requires NeverBelow(|above|, evs)
    ensures StackAfter(bottom + above, evs) == bottom + StackAfter(above, evs)
    ensures |StackAfter(above, evs)| == DepthAfter(|above|, evs)
    decreases |evs|
  {
    if evs != [] {
      var next := Moved(above, evs[0]);
      if evs[0].Open? {
        assert (bottom + above) + [evs[0].file] == bottom + next;
      } else {
        assert NeverBelow(|above| - 1, evs[1..]);
        assert (bottom + above)[..|bottom + above| - 1] == bottom + next;
      }
      BottomStays(bottom, next, evs[1..]);
    }
  }

  /** The stack is back where it started after balanced events. */
  lemma BalancedReturns(stack: Stack, evs: seq<Event>)
    requires Balanced(evs)
    ensures StackAfter(stack, evs) == stack
  {
    BottomStays(stack, [], evs);
    assert stack + [] == stack;
  }
}
