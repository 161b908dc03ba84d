/**
 The token budget guard: `calculate_token_count` (tool.py, lines 32-42) and the
 check in the upload flow (profile_manager.py, lines 142-153).

 The tokenizer is abstract. Obtaining the model's encoding may fail (`None`)
 and so may encoding one message (`encode` returns `None`); either failure
 makes the count 0, so the request goes ahead (fail-open).
 */
module Tokens {
  import opened Wrappers

  /** One chat message. */
  datatype Message = Message(role: string, content: string)

  /** A model's tokenizer: `encode(text)` is the token list, or `None` where
      `enc.encode` raises. */
  datatype Encoding = Encoding(encode: string -> Option<seq<int>>)

  /** The context ceiling the upload flow checks against. */
  const MaxContextTokens: nat := 128000

  /** Every message encodes without raising. */
  predicate Encodable(enc: Encoding, msgs: seq<Message>)
  {
    forall k :: 0 <= k < |msgs| ==> enc.encode(msgs[k].content).Some?
  }

  /** Sum over the messages of the number of tokens in each content. */
  function TokenSum(enc: Encoding, msgs: seq<Message>): nat
    requires Encodable(enc, msgs)
  {
    if |msgs| == 0 then 0
    else TokenSum(enc, msgs[..|msgs| - 1]) + |enc.encode(msgs[|msgs| - 1].content).value|
  }

  /** The count the guard reports: the token sum, or 0 when the encoding is
      unavailable or some message fails to encode. */
  function TokenCount(encoding: Option<Encoding>, msgs: seq<Message>): nat
  {
    if encoding.Some? && Encodable(encoding.value, msgs) then TokenSum(encoding.value, msgs) else 0
  }

  /** `calculate_token_count(messages)`: one pass over the messages, adding
      each one's token length; any exception abandons the count and yields 0. */
  method CalculateTokenCount(encoding: Option<Encoding>, msgs: seq<Message>) returns (count: nat)
    ensures encoding.None? ==> count == 0
    ensures encoding.Some? && !Encodable(encoding.value, msgs) ==> count == 0
    ensures encoding.Some? && Encodable(encoding.value, msgs) ==> count == TokenSum(encoding.value, msgs)
  {
    if encoding.None? {
      return 0;
    }
    var enc := encoding.value;
    count := 0;
    var i := 0;
    while i < |msgs|
      invariant 0 <= i <= |msgs|
      invariant Encodable(enc, msgs[..i])
      invariant count == TokenSum(enc, msgs[..i])
    {
      var tokens := enc.encode(msgs[i].content);
      if tokens.None? {
        return 0;
      }
      assert msgs[..i + 1][..i] == msgs[..i];
      count := count + |tokens.value|;
      i := i + 1;
    }
    assert msgs[..i] == msgs;
  }

  /** The guard lets the request through unless the count is above the
      ceiling. */
  predicate WithinBudget(count: nat)
  {
    !(count > MaxContextTokens)
  }

  /** The two messages the upload flow counts: a fixed instruction and the OCR
      text. */
  function GateMessages(text: string): seq<Message>
  {
    [Message("user", GateInstruction), Message("user", text)]
  }

  const GateInstruction := "Extract store name, items, and prices."

  // ---------------------------------------------------------------------------
  // Properties

  /** Token counts add up over concatenated message lists. */
  lemma {:induction false} TokenSumAppend(enc: Encoding, a: seq<Message>, b: seq<Message>)
    requires Encodable(enc, a) && Encodable(enc, b)
    ensures Encodable(enc, a + b)
    ensures TokenSum(enc, a + b) == TokenSum(enc, a) + TokenSum(enc, b)
    decreases |b|
  {
    assert Encodable(enc, a + b) by {
      forall k | 0 <= k < |a + b|
        ensures enc.encode((a + b)[k].content).Some?
      {
        if k >= |a| {
          assert (a + b)[k] == b[k - |a|];
        }
      }
    }
    if |b| == 0 {
      assert a + b == a;
    } else {
      var b' := b[..|b| - 1];
      assert Encodable(enc, b');
      TokenSumAppend(enc, a, b');
      assert (a + b)[..|a + b| - 1] == a + b';
    }
  }

  /** The count of the upload flow's two messages is the sum of their token
      lengths. */
  lemma GateCountIsSum(enc: Encoding, text: string)
    requires enc.encode(GateInstruction).Some? && enc.encode(text).Some?
    ensures TokenCount(Some(enc), GateMessages(text))
            == |enc.encode(GateInstruction).value| + |enc.encode(text).value|
  {
    var msgs := GateMessages(text);
    assert Encodable(enc, msgs);
    var first := msgs[..1];
    assert first == [Message("user", GateInstruction)];
    assert Encodable(enc, first);
    assert first[..0] == [];
    assert TokenSum(enc, first) == |enc.encode(GateInstruction).value|;
    assert msgs[..|msgs| - 1] == first;
    assert TokenSum(enc, msgs) == TokenSum(enc, first) + |enc.encode(text).value|;
  }

  /** An empty message list counts 0 tokens. */
  lemma EmptyCountsZero(encoding: Option<Encoding>)
    ensures TokenCount(encoding, []) == 0
  {
  }

  /** The ceiling is inclusive: exactly 128000 tokens still proceeds, one more
      is refused. */
  lemma BudgetBoundary(count: nat)
    ensures WithinBudget(count) <==> count <= 128000
    ensures WithinBudget(128000) && !WithinBudget(128001)
  {
  }
}
