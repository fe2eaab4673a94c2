/**
 The 64-bit locality-sensitive signature of a text.

 The hash of one shingle (FNV-1a in the source) is a parameter: every result
 holds for any function from strings to 64-bit words. A word is the sequence of
 its bits, since the signature is only ever read and compared bit by bit.
 */
module SimHash {
  import opened Tokenizer

  const SHINGLE_SIZE: nat := 3

  type Word = w: seq<bool> | |w| == 64 witness seq(64, i => false)

  /** The signature of a text without words. */
  function Zeros(): Word {
    seq(64, i => false)
  }

  // ---------------------------------------------------------------- shingles

  /** All overlapping three-word windows, or the whole text when it is shorter than one. */
  function ShinglesOf(words: seq<string>): (shingles: seq<string>)
    ensures |shingles| == if |words| == 0 then 0 else if |words| < SHINGLE_SIZE then 1 else |words| - 2
  {
    if |words| == 0 then []
    else if |words| < SHINGLE_SIZE then [Join(words)]
    else seq(|words| - 2, i requires 0 <= i < |words| - 2 => Join(words[i..i + SHINGLE_SIZE]))
  }

  lemma JoinOfThree(a: string, b: string, c: string)
    ensures Join([a, b, c]) == a + " " + (b + " " + c)
  {
    assert [a, b, c][1..] == [b, c] && [b, c][1..] == [c];
    assert Join([b, c]) == b + " " + Join([c]) && Join([c]) == c;
  }

  /** Every window of three words in order, or the one shingle of a text that is shorter. */
  lemma ShinglesAreWindows(words: seq<string>, k: nat)
    requires k < |ShinglesOf(words)|
    ensures |words| >= 3 ==>
              |ShinglesOf(words)| == |words| - 2
              && ShinglesOf(words)[k] == words[k] + " " + (words[k + 1] + " " + words[k + 2])
    ensures 0 < |words| < 3 ==> ShinglesOf(words) == [Join(words)]
  {
    if |words| >= 3 {
      assert words[k..k + 3] == [words[k], words[k + 1], words[k + 2]];
      JoinOfThree(words[k], words[k + 1], words[k + 2]);
    }
  }

  method Shingles(lower: char -> char, text: string) returns (out: seq<string>)
    ensures out == ShinglesOf(Tokens(lower, text))
  {
    var words := Tokenize(lower, text);
    if |words| == 0 {
      return [];
    }
    if |words| < SHINGLE_SIZE {
      return [Join(words)];
    }
    out := [];
    var i := 0;
    while i + SHINGLE_SIZE <= |words|
      invariant 0 <= i == |out| <= |words| - 2
      invariant out == ShinglesOf(words)[..i]
    {
      out := out + [Join(words[i..i + SHINGLE_SIZE])];
      i := i + 1;
    }
  }

  // ---------------------------------------------------------------- the vote

  function Vote(h: string -> Word, shingle: string, bit: nat): int
    requires bit < 64
  {
    if h(shingle)[bit] then 1 else -1
  }

  /** The counter of one bit after every shingle has voted. */
  function Weight(h: string -> Word, shingles: seq<string>, bit: nat): int
    requires bit < 64
  {
    if |shingles| == 0 then 0
    else Weight(h, shingles[..|shingles| - 1], bit) + Vote(h, shingles[|shingles| - 1], bit)
  }

  /** The majority of every bit; ties and the empty text give zeros. */
  function Signature(h: string -> Word, shingles: seq<string>): Word {
    seq(64, bit requires 0 <= bit < 64 => Weight(h, shingles, bit) > 0)
  }

  /** The shingles whose hash has the bit. */
  function Ayes(h: string -> Word, shingles: seq<string>, bit: nat): set<nat>
    requires bit < 64
  {
    set k: nat | k < |shingles| && h(shingles[k])[bit]
  }

  lemma AyesGrow(h: string -> Word, shingles: seq<string>, bit: nat)
    requires bit < 64 && |shingles| > 0
    ensures |Ayes(h, shingles, bit)|
         == |Ayes(h, shingles[..|shingles| - 1], bit)| + if h(shingles[|shingles| - 1])[bit] then 1 else 0
  {
    var n := |shingles| - 1;
    var before := Ayes(h, shingles[..n], bit);
    assert n !in before;
    assert Ayes(h, shingles, bit) == before + if h(shingles[n])[bit] then {n} else {};
  }

  lemma {:induction false} WeightIsTheMargin(h: string -> Word, shingles: seq<string>, bit: nat)
    requires bit < 64
    ensures Weight(h, shingles, bit) == 2 * |Ayes(h, shingles, bit)| - |shingles|
  {
    if |shingles| > 0 {
      WeightIsTheMargin(h, shingles[..|shingles| - 1], bit);
      AyesGrow(h, shingles, bit);
    } else {
      assert Ayes(h, shingles, bit) == {};
    }
  }

  /** A bit of the signature is set exactly when more than half of the shingles have it. */
  lemma SignatureIsTheMajority(h: string -> Word, shingles: seq<string>, bit: nat)
    requires bit < 64
    ensures Signature(h, shingles)[bit] <==> 2 * |Ayes(h, shingles, bit)| > |shingles|
  {
    WeightIsTheMargin(h, shingles, bit);
  }

  /** One shingle votes on every bit. */
  method CountVotes(h: string -> Word, shingle: string, weights: array<int>)
    requires weights.Length == 64
    modifies weights
    ensures forall b :: 0 <= b < 64 ==> weights[b] == old(weights[b]) + Vote(h, shingle, b)
  {
    var sig := h(shingle);
    for bit := 0 to 64
      invariant forall b :: 0 <= b < bit ==> weights[b] == old(weights[b]) + Vote(h, shingle, b)
      invariant forall b :: bit <= b < 64 ==> weights[b] == old(weights[b])
    {
      if sig[bit] {
        weights[bit] := weights[bit] + 1;
      } else {
        weights[bit] := weights[bit] - 1;
      }
    }
  }

  method SimHash(lower: char -> char, h: string -> Word, text: string) returns (out: Word)
    ensures out == Signature(h, ShinglesOf(Tokens(lower, text)))
  {
    var shingles := Shingles(lower, text);
    out := Zeros();
    if |shingles| == 0 {
      return;
    }
    var weights := new int[64](i => 0);
    for k := 0 to |shingles|
      invariant forall b :: 0 <= b < 64 ==> weights[b] == Weight(h, shingles[..k], b)
    {
      assert shingles[..k + 1][..k] == shingles[..k];
      CountVotes(h, shingles[k], weights);
    }
    assert shingles[..|shingles|] == shingles;
    for bit := 0 to 64
      invariant |out| == 64
      invariant forall b :: 0 <= b < 64 ==> out[b] == (b < bit && Weight(h, shingles, b) > 0)
    {
      if weights[bit] > 0 {
        out := out[bit := true];
      }
    }
  }

  // ---------------------------------------------------------------- Hamming distance

  function Xor(a: Word, b: Word): Word {
    seq(64, i requires 0 <= i < 64 => a[i] != b[i])
  }

  function OnesCount(w: seq<bool>): nat {
    if |w| == 0 then 0 else OnesCount(w[..|w| - 1]) + if w[|w| - 1] then 1 else 0
  }

  function Hamming(a: Word, b: Word): nat {
    OnesCount(Xor(a, b))
  }

  lemma {:induction false} OnesAreCounted(w: seq<bool>)
    ensures OnesCount(w) == |set i: nat | i < |w| && w[i]|
  {
    var ones := set i: nat | i < |w| && w[i];
    if |w| > 0 {
      var n := |w| - 1;
      OnesAreCounted(w[..n]);
      assert ones == (set i: nat | i < n && w[..n][i]) + if w[n] then {n} else {};
    } else {
      assert ones == {};
    }
  }

  /** The distance is the number of bits in which the signatures differ. */
  lemma HammingCountsDifferences(a: Word, b: Word)
    ensures Hamming(a, b) == |set i: nat | i < 64 && a[i] != b[i]|
  {
    OnesAreCounted(Xor(a, b));
    assert (set i: nat | i < 64 && Xor(a, b)[i]) == set i: nat | i < 64 && a[i] != b[i];
  }

  lemma {:induction false} OnesCountMonotone(v: seq<bool>, w: seq<bool>)
    requires |v| == |w| && forall i :: 0 <= i < |v| && v[i] ==> w[i]
    ensures OnesCount(v) <= OnesCount(w)
  {
    if |v| > 0 {
      OnesCountMonotone(v[..|v| - 1], w[..|w| - 1]);
    }
  }

  lemma {:induction false} OnesCountUnion(u: seq<bool>, v: seq<bool>, w: seq<bool>)
    requires |u| == |v| == |w| && forall i :: 0 <= i < |u| && u[i] ==> v[i] || w[i]
    ensures OnesCount(u) <= OnesCount(v) + OnesCount(w)
  {
    if |u| > 0 {
      OnesCountUnion(u[..|u| - 1], v[..|v| - 1], w[..|w| - 1]);
    }
  }

  lemma {:induction false} OnesCountZero(w: seq<bool>)
    ensures OnesCount(w) == 0 <==> forall i :: 0 <= i < |w| ==> !w[i]
  {
    if |w| > 0 {
      OnesCountZero(w[..|w| - 1]);
      assert forall i :: 0 <= i < |w| - 1 ==> w[i] == w[..|w| - 1][i];
    }
  }

  /** Hamming distance is a metric on signatures. */
  lemma HammingIsAMetric(a: Word, b: Word, c: Word)
    ensures Hamming(a, b) == 0 <==> a == b
    ensures Hamming(a, b) == Hamming(b, a)
    ensures Hamming(a, c) <= Hamming(a, b) + Hamming(b, c)
  {
    OnesCountZero(Xor(a, b));
    assert a == b <==> forall i :: 0 <= i < 64 ==> !Xor(a, b)[i] by {
      if forall i :: 0 <= i < 64 ==> !Xor(a, b)[i] {
        assert forall i :: 0 <= i < 64 ==> !Xor(a, b)[i] ==> a[i] == b[i];
      }
    }
    assert Xor(a, b) == Xor(b, a);
    OnesCountUnion(Xor(a, c), Xor(a, b), Xor(b, c));
  }

  // ---------------------------------------------------------------- stability under edits

  /** How many shingles have to be removed and added to turn one list into the other. */
  function EditSize(a: seq<string>, b: seq<string>): nat {
    |multiset(a) - multiset(b)| + |multiset(b) - multiset(a)|
  }

  function Abs(x: int): nat {
    if x < 0 then -x else x
  }

  lemma {:induction false} WeightIsBounded(h: string -> Word, s: seq<string>, bit: nat)
    requires bit < 64
    ensures Abs(Weight(h, s, bit)) <= |s|
  {
    if |s| > 0 {
      WeightIsBounded(h, s[..|s| - 1], bit);
    }
  }

  /** Dropping one shingle, wherever it stands, takes back exactly its vote. */
  lemma {:induction false} WeightWithout(h: string -> Word, s: seq<string>, j: nat, bit: nat)
    requires bit < 64 && j < |s|
    ensures Weight(h, s, bit) == Weight(h, s[..j] + s[j + 1..], bit) + Vote(h, s[j], bit)
  {
    var n := |s| - 1;
    if j == n {
      assert s[..j] + s[j + 1..] == s[..n];
    } else {
      WeightWithout(h, s[..n], j, bit);
      assert (s[..j] + s[j + 1..])[..n - 1] == s[..n][..j] + s[..n][j + 1..];
    }
  }

  lemma EditSizeFromNothing(a: seq<string>, b: seq<string>)
    requires |a| == 0
    ensures EditSize(a, b) == |b|
  {
    assert multiset(b) - multiset(a) == multiset(b);
  }

  lemma MultisetWithout(s: seq<string>, j: nat)
    requires j < |s|
    ensures multiset(s) == multiset(s[..j] + s[j + 1..]) + multiset{s[j]}
  {
    assert s == s[..j] + [s[j]] + s[j + 1..];
  }

  lemma SharedElementCancels(m: multiset<string>, n: multiset<string>, x: string)
    ensures (m + multiset{x}) - (n + multiset{x}) == m - n
  {
  }

  /** A shingle both lists have does not count as an edit. */
  lemma EditSizeShared(a: seq<string>, b: seq<string>, j: nat)
    requires |a| > 0 && j < |b| && b[j] == a[|a| - 1]
    ensures EditSize(a, b) == EditSize(a[..|a| - 1], b[..j] + b[j + 1..])
  {
    var front, rest := a[..|a| - 1], b[..j] + b[j + 1..];
    MultisetWithout(a, |a| - 1);
    assert front + a[|a|..] == front;
    MultisetWithout(b, j);
    SharedElementCancels(multiset(front), multiset(rest), b[j]);
    SharedElementCancels(multiset(rest), multiset(front), b[j]);
  }

  lemma EditSizeExtra(a: seq<string>, b: seq<string>)
    requires |a| > 0 && a[|a| - 1] !in b
    ensures EditSize(a, b) == EditSize(a[..|a| - 1], b) + 1
  {
    var front, x := a[..|a| - 1], a[|a| - 1];
    assert a == front + [x];
    assert multiset(a) - multiset(b) == (multiset(front) - multiset(b)) + multiset{x};
    assert multiset(b) - multiset(a) == multiset(b) - multiset(front);
  }

  /** Taking a shared shingle out of both lists changes neither how far apart they are nor how their counters differ. */
  lemma CancelShared(h: string -> Word, a: seq<string>, b: seq<string>, bit: nat) returns (rest: seq<string>)
    requires bit < 64 && |a| > 0 && a[|a| - 1] in b
    ensures Weight(h, a, bit) - Weight(h, b, bit) == Weight(h, a[..|a| - 1], bit) - Weight(h, rest, bit)
    ensures EditSize(a, b) == EditSize(a[..|a| - 1], rest)
  {
    var j :| 0 <= j < |b| && b[j] == a[|a| - 1];
    rest := b[..j] + b[j + 1..];
    WeightWithout(h, b, j, bit);
    EditSizeShared(a, b, j);
  }

  lemma {:induction false} WeightsAreClose(h: string -> Word, a: seq<string>, b: seq<string>, bit: nat)
    requires bit < 64
    ensures Abs(Weight(h, a, bit) - Weight(h, b, bit)) <= EditSize(a, b)
    decreases |a|
  {
    if |a| == 0 {
      WeightIsBounded(h, b, bit);
      EditSizeFromNothing(a, b);
    } else if a[|a| - 1] in b {
      var rest := CancelShared(h, a, b, bit);
      WeightsAreClose(h, a[..|a| - 1], rest, bit);
    } else {
      EditSizeExtra(a, b);
      WeightsAreClose(h, a[..|a| - 1], b, bit);
    }
  }

  /** The bits whose majority is so thin that `k` votes could overturn it. */
  function Fragile(h: string -> Word, shingles: seq<string>, k: nat): Word {
    seq(64, bit requires 0 <= bit < 64 => Abs(Weight(h, shingles, bit)) <= k)
  }

  /** An edit of `k` shingles can only flip bits that hold by at most `k` votes. */
  lemma EditStability(h: string -> Word, a: seq<string>, b: seq<string>)
    ensures forall bit :: 0 <= bit < 64 && Signature(h, a)[bit] != Signature(h, b)[bit] ==>
            Fragile(h, a, EditSize(a, b))[bit]
    ensures Hamming(Signature(h, a), Signature(h, b)) <= OnesCount(Fragile(h, a, EditSize(a, b)))
  {
    forall bit | 0 <= bit < 64 && Signature(h, a)[bit] != Signature(h, b)[bit]
      ensures Fragile(h, a, EditSize(a, b))[bit]
    {
      WeightsAreClose(h, a, b, bit);
    }
    OnesCountMonotone(Xor(Signature(h, a), Signature(h, b)), Fragile(h, a, EditSize(a, b)));
  }

  // ---------------------------------------------------------------- changing one word

  function Clamp(x: int, hi: nat): nat {
    if x < 0 then 0 else if x > hi then hi else x
  }

  /** Two lists that differ only inside one window of three positions differ by at most six votes. */
  lemma {:induction false} WindowWeights(h: string -> Word, a: seq<string>, b: seq<string>, lo: int, bit: nat)
    requires bit < 64 && |a| == |b|
    requires forall j :: 0 <= j < |a| && !(lo <= j < lo + SHINGLE_SIZE) ==> a[j] == b[j]
    ensures Abs(Weight(h, a, bit) - Weight(h, b, bit)) <= 2 * Clamp(|a| - lo, SHINGLE_SIZE)
  {
    if |a| > 0 {
      WindowWeights(h, a[..|a| - 1], b[..|b| - 1], lo, bit);
    }
  }

  /** Replacing one word changes at most three shingles, all around it. */
  lemma OneWordThreeShingles(words: seq<string>, i: nat, w: string)
    requires i < |words| && |words| >= SHINGLE_SIZE
    ensures var s, t := ShinglesOf(words), ShinglesOf(words[i := w]);
            |s| == |t| && forall j :: 0 <= j < |s| && !(i - 2 <= j < i + 1) ==> s[j] == t[j]
  {
    var s, t := ShinglesOf(words), ShinglesOf(words[i := w]);
    forall j | 0 <= j < |s| && !(i - 2 <= j < i + 1)
      ensures s[j] == t[j]
    {
      assert words[i := w][j..j + SHINGLE_SIZE] == words[j..j + SHINGLE_SIZE];
    }
  }

  /** So it flips only bits that held by at most six votes. */
  lemma OneWordStability(h: string -> Word, words: seq<string>, i: nat, w: string)
    requires i < |words| && |words| >= SHINGLE_SIZE
    ensures var s, t := ShinglesOf(words), ShinglesOf(words[i := w]);
            Hamming(Signature(h, s), Signature(h, t)) <= OnesCount(Fragile(h, s, 6))
  {
    var s, t := ShinglesOf(words), ShinglesOf(words[i := w]);
    OneWordThreeShingles(words, i, w);
    forall bit | 0 <= bit < 64 && Signature(h, s)[bit] != Signature(h, t)[bit]
      ensures Fragile(h, s, 6)[bit]
    {
      WindowWeights(h, s, t, i - 2, bit);
    }
    OnesCountMonotone(Xor(Signature(h, s), Signature(h, t)), Fragile(h, s, 6));
  }

  // ---------------------------------------------------------------- what the signature ignores

  /** Two boards rendering one job with different markup between the same pieces of text get the same signature. */
  lemma SignatureIgnoresMarkup(lower: char -> char, h: string -> Word, pieces: seq<string>, one: seq<Gap>,
          other: seq<Gap>)
    requires LowerCases(lower) && Rendering(pieces, one) && Rendering(pieces, other)
    ensures Signature(h, ShinglesOf(Tokens(lower, Render(pieces, one))))
         == Signature(h, ShinglesOf(Tokens(lower, Render(pieces, other))))
  {
    RenderingsAgree(lower, pieces, one, other);
  }

  /** A text and its plain token form are indistinguishable to the dedupe stage. */
  lemma SignatureOfPlainForm(lower: char -> char, h: string -> Word, text: string)
    requires LowerCases(lower)
    ensures ShinglesOf(Tokens(lower, Join(Tokens(lower, text)))) == ShinglesOf(Tokens(lower, text))
    ensures Signature(h, ShinglesOf(Tokens(lower, Join(Tokens(lower, text)))))
         == Signature(h, ShinglesOf(Tokens(lower, text)))
  {
    TokensRoundTrip(lower, text);
  }
}
