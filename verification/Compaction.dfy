/** Token-budget truncation of a conversation
    (crates/workflow_engine/src/compact.rs, crates/workflow_engine/src/token.rs). */
module Compaction {
  import opened Common
  import opened Llm
  import Utf8

  /** A token counter is a price per text; the price of a conversation is the sum. */
  type Counter = string -> nat

  function CountMessages(count: Counter, ms: seq<Message>): nat {
    if ms == [] then 0 else count(ms[0].content) + CountMessages(count, ms[1..])
  }

  /** UTF-8 length of a text in bytes, the length the character counter divides. */
  function ByteLength(text: string): nat {
    if text == "" then 0 else
      var c := text[0] as int;
      (if c < 0x80 then 1 else if c < 0x800 then 2 else if c < 0x1_0000 then 3 else 4) + ByteLength(text[1..])
  }

  /** The built-in counter: bytes (as a 32-bit count) over four, and at least one. */
  function CharCount(text: string): (n: nat)
    ensures 1 <= n < U32
  {
    Max(ByteLength(text) % U32 / 4, 1)
  }

  lemma {:induction false} BytesAreEncoded(text: string)
    ensures ByteLength(text) == |Utf8.EncodeText(text)|
  {
    if text != "" {
      BytesAreEncoded(text[1..]);
    }
  }

  /** The counter's price is a quarter of the text's length in UTF-8, rounded down, and one for
      texts of less than four bytes. */
  lemma CharCountIs(text: string)
    requires |Utf8.EncodeText(text)| < U32
    ensures var bytes, n := |Utf8.EncodeText(text)|, CharCount(text);
            if bytes < 4 then n == 1 else 4 * n <= bytes < 4 * n + 4
  {
    BytesAreEncoded(text);
  }

  /** A conversation costs what its messages cost, each by its content. */
  lemma {:induction false} CountsMessageByMessage(count: Counter, a: seq<Message>, m: Message, b: seq<Message>)
    ensures CountMessages(count, a + [m] + b) == CountMessages(count, a) + count(m.content) + CountMessages(count, b)
    ensures CountMessages(count, []) == 0
  {
    if a == [] {
      assert [] + [m] + b == [m] + b && ([m] + b)[1..] == b;
    } else {
      assert (a + [m] + b)[0] == a[0] && (a + [m] + b)[1..] == a[1..] + [m] + b;
      CountsMessageByMessage(count, a[1..], m, b);
    }
  }

  /** What the strategy promises: drop the oldest message while the conversation is
      over target and more than `preserve` messages are left. */
  function DropOldest(count: Counter, ms: seq<Message>, target: nat, preserve: nat): (kept: seq<Message>)
    ensures |kept| <= |ms| && kept == ms[|ms| - |kept|..]
    ensures |kept| >= Min(preserve, |ms|)
    decreases |ms|
  {
    if |ms| <= preserve || CountMessages(count, ms) <= target then ms
    else DropOldest(count, ms[1..], target, preserve)
  }

  /** The one boundary at which the code keeps less than promised: the preserved tail
      costs exactly the target and the message before it is free. */
  predicate FreeMessageAtBoundary(count: Counter, ms: seq<Message>, target: nat, preserve: nat) {
    var start := |ms| - Min(preserve, |ms|);
    && start > 0
    && CountMessages(count, ms[start..]) == target
    && count(ms[start - 1].content) == 0
  }

  /** What the code keeps, against the promise: the promise off the boundary, the bare
      tail on it. */
  function Truncated(count: Counter, ms: seq<Message>, target: nat, preserve: nat): seq<Message> {
    if FreeMessageAtBoundary(count, ms, target, preserve) then ms[|ms| - Min(preserve, |ms|)..]
    else DropOldest(count, ms, target, preserve)
  }

  /** Truncation as the code does it: a backwards greedy walk from the preserved tail. */
  method Compact(count: Counter, ms: seq<Message>, target: nat, preserve: nat) returns (kept: seq<Message>)
    ensures kept == Truncated(count, ms, target, preserve)
  {
    hide CountMessages, DropOldest, Truncated, FreeMessageAtBoundary;
    var tailLength := Min(preserve, |ms|);
    var suffixStart := |ms| - tailLength;
    var tailTokens := CountMessages(count, ms[suffixStart..]);
    if tailTokens >= target {
      TailIsTruncated(count, ms, target, preserve);
      return ms[suffixStart..];
    }
    var budget := target - tailTokens;
    var keepFrom := suffixStart;
    while keepFrom > 0
      invariant 0 <= keepFrom <= suffixStart && budget >= 0
      invariant CountMessages(count, ms[keepFrom..]) + budget == target
      decreases keepFrom
    {
      var cost := count(ms[keepFrom - 1].content);
      SuffixCost(count, ms, keepFrom - 1);
      if cost > budget {
        break;
      }
      budget := budget - cost;
      keepFrom := keepFrom - 1;
    }
    GreedyIsTruncated(count, ms, target, preserve, keepFrom);
    return ms[keepFrom..];
  }

  lemma {:induction false} TailIsTruncated(count: Counter, ms: seq<Message>, target: nat, preserve: nat)
    requires CountMessages(count, ms[|ms| - Min(preserve, |ms|)..]) >= target
    ensures Truncated(count, ms, target, preserve) == ms[|ms| - Min(preserve, |ms|)..]
  {
    hide CountMessages, DropOldest;
    DropOldestAtTail(count, ms, target, preserve);
  }

  lemma {:induction false} GreedyIsTruncated(count: Counter, ms: seq<Message>, target: nat, preserve: nat, k: nat)
    requires k <= |ms| - Min(preserve, |ms|)
    requires CountMessages(count, ms[|ms| - Min(preserve, |ms|)..]) < target
    requires CountMessages(count, ms[k..]) <= target
    requires k == 0 || CountMessages(count, ms[k - 1..]) > target
    ensures Truncated(count, ms, target, preserve) == ms[k..]
  {
    hide CountMessages, DropOldest;
    LongestFittingIsDropOldest(count, ms, target, preserve, k);
  }

  lemma SuffixCost(count: Counter, ms: seq<Message>, k: nat)
    requires k < |ms|
    ensures CountMessages(count, ms[k..]) == count(ms[k].content) + CountMessages(count, ms[k + 1..])
  {
    assert ms[k..][1..] == ms[k + 1..];
  }

  lemma {:induction false} SuffixCostsLess(count: Counter, ms: seq<Message>, i: nat)
    requires i <= |ms|
    ensures CountMessages(count, ms[i..]) <= CountMessages(count, ms)
  {
    if i > 0 {
      assert ms[1..][i - 1..] == ms[i..];
      SuffixCostsLess(count, ms[1..], i - 1);
    } else {
      assert ms[0..] == ms;
    }
  }

  /** A suffix that fits, holds the preserved tail and cannot be extended is what
      dropping the oldest messages leaves: the greedy walk is optimal. */
  lemma {:induction false} LongestFittingIsDropOldest(
      count: Counter, ms: seq<Message>, target: nat, preserve: nat, k: nat)
    requires k <= |ms| - Min(preserve, |ms|)
    requires CountMessages(count, ms[k..]) <= target
    requires k == 0 || CountMessages(count, ms[k - 1..]) > target
    ensures DropOldest(count, ms, target, preserve) == ms[k..]
  {
    if k == 0 {
      assert ms[0..] == ms;
    } else {
      SuffixCostsLess(count, ms, k - 1);
      assert ms[1..][k - 1..] == ms[k..];
      if k > 1 {
        assert ms[1..][k - 2..] == ms[k - 1..];
      }
      LongestFittingIsDropOldest(count, ms[1..], target, preserve, k - 1);
    }
  }

  /** When the preserved tail already reaches the target, dropping stops at the tail
      unless the message before it is free and the tail costs exactly the target. */
  lemma {:induction false} DropOldestAtTail(count: Counter, ms: seq<Message>, target: nat, preserve: nat)
    requires CountMessages(count, ms[|ms| - Min(preserve, |ms|)..]) >= target
    ensures !FreeMessageAtBoundary(count, ms, target, preserve) ==>
              DropOldest(count, ms, target, preserve) == ms[|ms| - Min(preserve, |ms|)..]
    ensures FreeMessageAtBoundary(count, ms, target, preserve) ==>
              |DropOldest(count, ms, target, preserve)| > Min(preserve, |ms|)
  {
    var start := |ms| - Min(preserve, |ms|);
    if start > 0 {
      assert ms[start - 1..][1..] == ms[start..];
      if FreeMessageAtBoundary(count, ms, target, preserve) {
        DropOldestMinimal(count, ms, target, preserve, start - 1);
      } else {
        EverySuffixTooLong(count, ms, target, start);
        DropOldestReaches(count, ms, target, preserve, start);
      }
    }
  }

  lemma EverySuffixTooLong(count: Counter, ms: seq<Message>, target: nat, k: nat)
    requires 0 < k <= |ms| && CountMessages(count, ms[k - 1..]) > target
    ensures forall i :: 0 <= i < k ==> CountMessages(count, ms[i..]) > target
  {
    forall i | 0 <= i < k ensures CountMessages(count, ms[i..]) > target {
      assert ms[i..][k - 1 - i..] == ms[k - 1..];
      SuffixCostsLess(count, ms[i..], k - 1 - i);
    }
  }

  /** Dropping goes at least as far as every prefix of over-target suffixes. */
  lemma {:induction false} DropOldestReaches(count: Counter, ms: seq<Message>, target: nat, preserve: nat, k: nat)
    requires k <= |ms| - Min(preserve, |ms|)
    requires forall i :: 0 <= i < k ==> CountMessages(count, ms[i..]) > target
    ensures DropOldest(count, ms, target, preserve) == DropOldest(count, ms[k..], target, preserve)
  {
    if k == 0 {
      assert ms[0..] == ms;
    } else {
      assert ms[0..] == ms;
      assert CountMessages(count, ms[0..]) > target;
      forall i | 0 <= i < k - 1 ensures CountMessages(count, ms[1..][i..]) > target {
        assert ms[1..][i..] == ms[i + 1..];
      }
      assert ms[1..][k - 1..] == ms[k..];
      DropOldestReaches(count, ms[1..], target, preserve, k - 1);
    }
  }

  /** Dropping never passes a suffix that fits. */
  lemma {:induction false} DropOldestMinimal(count: Counter, ms: seq<Message>, target: nat, preserve: nat, k: nat)
    requires k <= |ms| && CountMessages(count, ms[k..]) <= target
    ensures |DropOldest(count, ms, target, preserve)| >= |ms| - k
  {
    if k == 0 {
      assert ms[0..] == ms;
    } else if !(|ms| <= preserve || CountMessages(count, ms) <= target) {
      assert ms[1..][k - 1..] == ms[k..];
      DropOldestMinimal(count, ms[1..], target, preserve, k - 1);
    }
  }

  /** Optimality, stated without an algorithm: the kept conversation is the longest
      suffix among those that fit the target or are no longer than the preserved tail. */
  lemma DropOldestIsOptimal(count: Counter, ms: seq<Message>, target: nat, preserve: nat, k: nat)
    requires k <= |ms|
    ensures var kept := DropOldest(count, ms, target, preserve);
            && (CountMessages(count, kept) <= target || |kept| == Min(preserve, |ms|))
            && (CountMessages(count, ms[k..]) <= target || |ms| - k <= preserve ==> |ms| - k <= |kept|)
  {
    DropOldestOutcome(count, ms, target, preserve);
    if CountMessages(count, ms[k..]) <= target {
      DropOldestMinimal(count, ms, target, preserve, k);
    }
  }

  lemma {:induction false} DropOldestOutcome(count: Counter, ms: seq<Message>, target: nat, preserve: nat)
    ensures var kept := DropOldest(count, ms, target, preserve);
            CountMessages(count, kept) <= target || |kept| == Min(preserve, |ms|)
    decreases |ms|
  {
    if !(|ms| <= preserve || CountMessages(count, ms) <= target) {
      DropOldestOutcome(count, ms[1..], target, preserve);
    }
  }

  /** The code keeps what the strategy promises exactly off the boundary. */
  lemma {:induction false} PromiseKeptIff(count: Counter, ms: seq<Message>, target: nat, preserve: nat)
    ensures Truncated(count, ms, target, preserve) == DropOldest(count, ms, target, preserve)
            <==> !FreeMessageAtBoundary(count, ms, target, preserve)
  {
    if FreeMessageAtBoundary(count, ms, target, preserve) {
      DropOldestAtTail(count, ms, target, preserve);
    }
  }

  /** A conversation on the boundary, with a counter for which empty texts are free: the
      code drops a message the promise keeps. */
  lemma FreeMessageIsDropped() returns (count: Counter, ms: seq<Message>)
    ensures |ms| == 2 && FreeMessageAtBoundary(count, ms, 1, 1)
    ensures DropOldest(count, ms, 1, 1) == ms && Truncated(count, ms, 1, 1) == ms[1..]
  {
    count := (text: string) => if text == "" then 0 else 1;
    ms := [Message("user", "", None, None), Message("user", "x", None, None)];
    SuffixCost(count, ms, 0);
    SuffixCost(count, ms, 1);
    assert ms[0..] == ms && ms[2..] == [];
  }

  /** Truncating a truncated conversation changes nothing. */
  lemma {:induction false} CompactIdempotent(count: Counter, ms: seq<Message>, target: nat, preserve: nat)
    ensures var once := Truncated(count, ms, target, preserve);
            Truncated(count, once, target, preserve) == once
  {
    DropOldestOutcome(count, ms, target, preserve);
    hide CountMessages;
    if !FreeMessageAtBoundary(count, ms, target, preserve) {
      StaysOffBoundary(count, ms, target, preserve);
    }
  }

  lemma StaysOffBoundary(count: Counter, ms: seq<Message>, target: nat, preserve: nat)
    requires !FreeMessageAtBoundary(count, ms, target, preserve)
    ensures !FreeMessageAtBoundary(count, DropOldest(count, ms, target, preserve), target, preserve)
  {
    hide CountMessages, DropOldest;
    var once := DropOldest(count, ms, target, preserve);
    var start := |once| - Min(preserve, |once|);
    assert once[start..] == ms[|ms| - Min(preserve, |ms|)..];
    if start > 0 {
      assert once[start - 1] == ms[|ms| - Min(preserve, |ms|) - 1];
    }
  }

  /** With the built-in counter no message is free, so the boundary cannot occur. */
  lemma CharCounterHasNoFreeMessage(ms: seq<Message>, target: nat, preserve: nat)
    ensures !FreeMessageAtBoundary(CharCount, ms, target, preserve)
  {
    var start := |ms| - Min(preserve, |ms|);
    if start > 0 {
      assert CharCount(ms[start - 1].content) >= 1;
    }
  }

  /** A fraction of a token limit cast to a 32-bit count: truncating and saturating. */
  function ToU32(x: real): (n: nat)
    ensures n < U32
  {
    if x < 0.0 then 0 else if x >= (U32 - 1) as real then U32 - 1 else x.Floor
  }

  /** A conversation that truncates itself when it nears the context limit. */
  class ManagedConversation {
    var messages: seq<Message>
    const maxInputTokens: nat
    const compactThreshold: real
    const count: Counter
    const preserveRecent: nat

    constructor (maxInputTokens: nat, compactThreshold: real, count: Counter, preserveRecent: nat)
      ensures messages == []
      ensures this.maxInputTokens == maxInputTokens && this.compactThreshold == compactThreshold
      ensures this.count == count && this.preserveRecent == preserveRecent
    {
      messages := [];
      this.maxInputTokens := maxInputTokens;
      this.compactThreshold := compactThreshold;
      this.count := count;
      this.preserveRecent := preserveRecent;
    }

    function Threshold(): nat { ToU32(maxInputTokens as real * compactThreshold) }

    function Target(): nat { ToU32(maxInputTokens as real * compactThreshold * 0.7) }

    method Push(message: Message)
      modifies this
      ensures messages == old(messages) + [message]
    {
      messages := messages + [message];
    }

    method ForceCompact()
      modifies this
      ensures messages == Truncated(count, old(messages), Target(), preserveRecent)
    {
      messages := Compact(count, messages, Target(), preserveRecent);
    }

    /** Afterwards the conversation is within the threshold, or it is exactly the
        preserved tail; and asking again changes nothing either way. */
    method CompactIfNeeded() returns (compacted: bool)
      modifies this
      ensures compacted <==> CountMessages(count, old(messages)) > Threshold()
      ensures messages == if compacted then Truncated(count, old(messages), Target(), preserveRecent) else old(messages)
      ensures CountMessages(count, messages) <= Threshold()
              || messages == old(messages)[|old(messages)| - Min(preserveRecent, |old(messages)|)..]
      ensures Truncated(count, messages, Target(), preserveRecent) == messages || !compacted
    {
      hide *;
      if CountMessages(count, messages) <= Threshold() {
        return false;
      }
      AimsBelow();
      TruncatedIsWithin(count, messages, Target(), Threshold(), preserveRecent);
      CompactIdempotent(count, messages, Target(), preserveRecent);
      ForceCompact();
      return true;
    }

    /** The level that triggers compaction is the limit times the threshold, the level it
        aims at seven tenths of that, both in whole tokens and at most 2^32 - 1. */
    lemma LevelsAre()
      requires compactThreshold >= 0.0 && maxInputTokens as real * compactThreshold < (U32 - 1) as real
      ensures Threshold() as real <= maxInputTokens as real * compactThreshold < (Threshold() + 1) as real
      ensures Target() as real <= 0.7 * (maxInputTokens as real * compactThreshold) < (Target() + 1) as real
    {
      var level := maxInputTokens as real * compactThreshold;
      assert level >= 0.0;
      assert level * 0.7 == 0.7 * level <= level;
    }

    lemma AimsBelow()
      ensures Target() <= Threshold()
    {
      TargetBelowThreshold(maxInputTokens as real * compactThreshold);
    }
  }

  /** Truncation to a target gets below every larger threshold, or down to the tail. */
  lemma TruncatedIsWithin(count: Counter, ms: seq<Message>, target: nat, threshold: nat, preserve: nat)
    requires target <= threshold
    ensures var kept := Truncated(count, ms, target, preserve);
            CountMessages(count, kept) <= threshold || kept == ms[|ms| - Min(preserve, |ms|)..]
  {
    DropOldestOutcome(count, ms, target, preserve);
  }

  /** Compaction aims below the level that triggers it, so it cannot trigger itself
      unless the preserved tail alone is over. */
  lemma TargetBelowThreshold(limit: real)
    ensures ToU32(limit * 0.7) <= ToU32(limit)
  {
  }
}
