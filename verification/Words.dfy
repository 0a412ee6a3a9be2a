/** Text as the word sequence that `str.split()` yields, and the estimator that
    counts tokens by words when no tokenizer is installed. */
module Words {

  type Word = string
  type Text = seq<Word>

  function Max(a: int, b: int): int {
    if a >= b then a else b
  }

  function Min(a: int, b: int): int {
    if a <= b then a else b
  }

  /** `max(1, int(words * 1.3))`, and 0 for blank text. */
  function TokensOf(words: nat): nat {
    if words == 0 then 0 else Max(1, 13 * words / 10)
  }

  function EstimateTokens(t: Text): nat {
    TokensOf(|t|)
  }

  function Concat(ts: seq<Text>): Text {
    if ts == [] then [] else ts[0] + Concat(ts[1..])
  }

  lemma {:induction false} ConcatAppend(a: seq<Text>, b: seq<Text>)
    ensures Concat(a + b) == Concat(a) + Concat(b)
  {
    if a == [] {
      assert a + b == b;
    } else {
      assert (a + b)[1..] == a[1..] + b;
      ConcatAppend(a[1..], b);
    }
  }

  lemma ConcatOne(t: Text)
    ensures Concat([t]) == t
  {
    assert Concat([t][1..]) == [];
  }
}
