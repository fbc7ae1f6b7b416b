/**
 Sequence numbers on their way to the owner. A list is a chain above `base` when every number
 in it is at most one more than the largest of `base` and the numbers before it: duplicates
 may occur anywhere, gaps nowhere.
 */
module Chains {
  import opened Wrappers
  import opened ClientNet

  // The largest of `base` and the numbers in `ms`.
  function Top(base: nat, ms: seq<Message>): (t: nat)
    ensures t >= base
    decreases |ms|
  {
    if ms == [] then base else Top(Max(base, ms[0].seqNo), ms[1..])
  }

  predicate Chain(base: nat, ms: seq<Message>)
    decreases |ms|
  {
    ms == [] || (ms[0].seqNo <= base + 1 && Chain(Max(base, ms[0].seqNo), ms[1..]))
  }

  lemma {:induction false} TopAppend(base: nat, a: seq<Message>, b: seq<Message>)
    ensures Top(base, a + b) == Top(Top(base, a), b)
    decreases |a|
  {
    if a == [] {
      assert a + b == b;
    } else {
      FirstOfBoth(a, b);
      TopAppend(Max(base, a[0].seqNo), a[1..], b);
    }
  }

  lemma {:induction false} ChainAppend(base: nat, a: seq<Message>, b: seq<Message>)
    ensures Chain(base, a + b) <==> Chain(base, a) && Chain(Top(base, a), b)
    decreases |a|
  {
    if a == [] {
      assert a + b == b;
    } else {
      FirstOfBoth(a, b);
      ChainAppend(Max(base, a[0].seqNo), a[1..], b);
    }
  }

  // A higher base is as good.
  lemma {:induction false} Raise(base: nat, higher: nat, ms: seq<Message>)
    requires base <= higher
    ensures Chain(base, ms) ==> Chain(higher, ms)
    ensures Top(base, ms) <= Top(higher, ms) == Max(Top(base, ms), higher)
    decreases |ms|
  {
    if ms != [] {
      Raise(Max(base, ms[0].seqNo), Max(higher, ms[0].seqNo), ms[1..]);
    }
  }

  // One message moves from the front of a chain to the end of the list it is a chain above.
  lemma Move(base: nat, queue: seq<Message>, stream: seq<Message>)
    requires Chain(base, queue) && stream != [] && Chain(Top(base, queue), stream)
    ensures var m := stream[0];
            && Chain(base, queue + [m])
            && Top(base, queue) <= Top(base, queue + [m])
            && Chain(Top(base, queue + [m]), stream[1..])
            && Top(Top(base, queue + [m]), stream[1..]) == Top(Top(base, queue), stream)
  {
    var t := Top(base, queue);
    ChainAppend(base, queue, [stream[0]]);
    TopAppend(base, queue, [stream[0]]);
    assert Chain(t, [stream[0]]);
    assert Top(t, [stream[0]]) == Max(t, stream[0].seqNo);
  }

  // The owner takes the first message of its queue if it is the next one and drops it if it
  // is a duplicate; either way its last number is then the larger of the two.
  lemma Take(base: nat, queue: seq<Message>)
    requires queue != [] && Chain(base, queue)
    ensures var m := queue[0];
            var base' := if m.seqNo == base + 1 then m.seqNo else base;
            && m.seqNo <= base + 1
            && Chain(base', queue[1..]) && Top(base', queue[1..]) == Top(base, queue)
  {
  }

  // Sending the next message on a stream.
  lemma Extend(base: nat, stream: seq<Message>, m: Message)
    requires Chain(base, stream) && m.seqNo <= Top(base, stream) + 1
    ensures Chain(base, stream + [m]) && Top(base, stream + [m]) == Max(Top(base, stream), m.seqNo)
  {
    ChainAppend(base, stream, [m]);
    TopAppend(base, stream, [m]);
    assert Chain(Top(base, stream), [m]);
    assert Top(Top(base, stream), [m]) == Max(Top(base, stream), m.seqNo);
  }

  // Sending a message out of reach breaks the chain, so this is the exact condition.
  lemma ExtendOnlyIf(base: nat, stream: seq<Message>, m: Message)
    requires Chain(base, stream + [m])
    ensures Chain(base, stream) && m.seqNo <= Top(base, stream) + 1
  {
    ChainAppend(base, stream, [m]);
    assert Chain(Top(base, stream), [m]);
  }
}
