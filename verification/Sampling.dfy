/** The partial Fisher-Yates draw of the router (src/router.rs:238-248). */
module Sampling {
  import opened Common

  function Identity(n: nat): seq<nat> {
    seq(n, i => i)
  }

  function Swap(s: seq<nat>, i: nat, j: nat): (t: seq<nat>)
    requires i < |s| && j < |s|
    ensures |t| == |s|
  {
    s[i := s[j]][j := s[i]]
  }

  /** The choices of a draw: step `i` swaps place `i` with a place from `i` on. */
  ghost predicate AreChoices(n: nat, js: seq<nat>) {
    |js| <= n && forall i :: 0 <= i < |js| ==> i <= js[i] < n
  }

  /** The indices after the steps that make some choices. */
  function Shuffled(n: nat, js: seq<nat>): (s: seq<nat>)
    requires AreChoices(n, js)
    ensures |s| == n
  {
    if js == [] then Identity(n)
    else Swap(Shuffled(n, js[..|js| - 1]), |js| - 1, js[|js| - 1])
  }

  /** The draw keeps the places it has stepped through. */
  function Sampled(n: nat, js: seq<nat>): (t: seq<nat>)
    requires AreChoices(n, js)
    ensures |t| == |js|
  {
    Shuffled(n, js)[..|js|]
  }

  /** The choices random words make. */
  function ChoicesOf(n: nat, k: nat, word: nat -> nat): (js: seq<nat>)
    requires k <= n
    ensures |js| == k && AreChoices(n, js)
    ensures forall i :: 0 <= i < k ==> js[i] == i + word(i) % (n - i)
  {
    if k == 0 then []
    else
      assert k - 1 + word(k - 1) % (n - (k - 1)) < n;
      ChoicesOf(n, k - 1, word) + [k - 1 + word(k - 1) % (n - (k - 1))]
  }

  /** `sample_distinct`. */
  method SampleDistinct(n: nat, k: nat, word: nat -> nat) returns (drawn: seq<nat>)
    requires k <= n
    ensures drawn == Sampled(n, ChoicesOf(n, k, word))
  {
    var idx := new nat[n](i => i);
    assert idx[..] == Identity(n);
    for i := 0 to k
      invariant idx[..] == Shuffled(n, ChoicesOf(n, i, word))
    {
      var j := i + word(i) % (n - i);
      ghost var js := ChoicesOf(n, i + 1, word);
      assert js[..i] == ChoicesOf(n, i, word) && js[i] == j;
      ghost var before := idx[..];
      idx[i], idx[j] := idx[j], idx[i];
      assert idx[..] == Swap(before, i, j);
    }
    drawn := idx[..k];
    assert idx[..k] == idx[..][..k];
  }

  // --- The places stay a permutation --------------------------------------------------------------

  ghost predicate Within(n: nat, s: seq<nat>) {
    forall i :: 0 <= i < |s| ==> s[i] < n
  }

  /** Every index below `|s|` is found in `s` exactly once. */
  ghost predicate Permutes(s: seq<nat>) {
    Within(|s|, s) && Distinct(s) && forall v: nat :: v < |s| ==> v in s
  }

  lemma {:induction false} SwapPermutes(s: seq<nat>, i: nat, j: nat)
    requires Permutes(s) && i < |s| && j < |s|
    ensures Permutes(Swap(s, i, j))
  {
    var t := Swap(s, i, j);
    forall v: nat | v < |s| ensures v in t {
      assert v in s;
      var p :| 0 <= p < |s| && s[p] == v;
      assert t[if p == i then j else if p == j then i else p] == v;
    }
  }

  lemma {:induction false} ShuffledPermutes(n: nat, js: seq<nat>)
    requires AreChoices(n, js)
    ensures Permutes(Shuffled(n, js))
  {
    if js == [] {
      forall v: nat | v < n ensures v in Identity(n) {
        assert Identity(n)[v] == v;
      }
    } else {
      ShuffledPermutes(n, js[..|js| - 1]);
      SwapPermutes(Shuffled(n, js[..|js| - 1]), |js| - 1, js[|js| - 1]);
    }
  }

  /** A draw returns distinct indices below `n`: the first entries of a permutation of all. */
  lemma {:induction false} SampleIsDistinct(n: nat, js: seq<nat>)
    requires AreChoices(n, js)
    ensures Permutes(Shuffled(n, js)) && Sampled(n, js) <= Shuffled(n, js)
    ensures Distinct(Sampled(n, js)) && Within(n, Sampled(n, js))
  {
    ShuffledPermutes(n, js);
  }

  /** A step leaves the places before it alone. */
  lemma {:induction false} SampleGrows(n: nat, js: seq<nat>, j: nat)
    requires AreChoices(n, js) && |js| <= j < n
    ensures (js + [j])[..|js|] == js && AreChoices(n, js + [j])
    ensures Sampled(n, js + [j]) == Sampled(n, js) + [Shuffled(n, js)[j]]
  {
    assert (js + [j])[..|js|] == js;
  }

  // --- What a draw draws ------------------------------------------------------------------------------

  /** The index at place `j` before step `i`: its own until a step swaps it away, and then the one
      that was at the place of the last such step. */
  function Held(js: seq<nat>, i: nat, j: nat): nat
    requires i <= |js|
    decreases i
  {
    if i == 0 then j
    else if js[i - 1] == j then Held(js, i - 1, i - 1)
    else Held(js, i - 1, j)
  }

  lemma {:induction false} PlaceHolds(n: nat, js: seq<nat>, i: nat, j: nat)
    requires AreChoices(n, js) && i <= |js| && i <= j < n
    ensures Shuffled(n, js[..i])[j] == Held(js, i, j)
    decreases i
  {
    if i > 0 {
      assert js[..i][..i - 1] == js[..i - 1];
      PlaceHolds(n, js, i - 1, i - 1);
      PlaceHolds(n, js, i - 1, j);
    }
  }

  lemma {:induction false} PlaceKept(n: nat, js: seq<nat>, i: nat)
    requires AreChoices(n, js) && i < |js|
    ensures Shuffled(n, js)[i] == Shuffled(n, js[..i])[js[i]]
    decreases |js|
  {
    var last := |js| - 1;
    if i < last {
      assert js[..last][..i] == js[..i];
      PlaceKept(n, js[..last], i);
    }
  }

  lemma {:induction false} HeldItself(js: seq<nat>, i: nat, j: nat)
    requires i <= |js| && j !in js[..i]
    ensures Held(js, i, j) == j
    decreases i
  {
    if i > 0 {
      assert js[..i][i - 1] == js[i - 1] && js[..i][..i - 1] == js[..i - 1];
      HeldItself(js, i - 1, j);
    }
  }

  /** Step `i` draws the index that place `js[i]` holds by then: `js[i]` itself, unless an earlier step
      chose the same place. */
  lemma {:induction false} DrawnIs(n: nat, js: seq<nat>, i: nat)
    requires AreChoices(n, js) && i < |js|
    ensures Sampled(n, js)[i] == Held(js, i, js[i])
    ensures js[i] !in js[..i] ==> Sampled(n, js)[i] == js[i]
  {
    PlaceHolds(n, js, i, js[i]);
    PlaceKept(n, js, i);
    if js[i] !in js[..i] {
      HeldItself(js, i, js[i]);
    }
  }

  // --- Choices and draws correspond one to one ---------------------------------------------------

  function IndexIn(s: seq<nat>, v: nat): (i: nat)
    requires v in s
    ensures i < |s| && s[i] == v
  {
    if s[0] == v then 0 else 1 + IndexIn(s[1..], v)
  }

  /** A value the tuple has last is not among the places already drawn. */
  lemma {:induction false} NotDrawnYet(n: nat, js: seq<nat>, t: seq<nat>, j: nat)
    requires AreChoices(n, js) && Distinct(t) && |t| == |js| + 1 && Sampled(n, js) == t[..|js|]
    requires j < n && Shuffled(n, js)[j] == t[|js|]
    ensures j >= |js|
  {
    assert forall i :: 0 <= i < |js| ==> Shuffled(n, js)[i] == t[..|js|][i];
  }

  /** The choices that draw a given tuple. */
  ghost function ChoicesFor(n: nat, t: seq<nat>): (js: seq<nat>)
    requires Distinct(t) && Within(n, t) && |t| <= n
    ensures |js| == |t| && AreChoices(n, js) && Sampled(n, js) == t
  {
    if t == [] then []
    else
      var rest, v := t[..|t| - 1], t[|t| - 1];
      var js := ChoicesFor(n, rest);
      ShuffledPermutes(n, js);
      var j := IndexIn(Shuffled(n, js), v);
      assert j >= |js| by { NotDrawnYet(n, js, t, j); }
      SampleGrows(n, js, j);
      js + [j]
  }

  /** The draw from any choices gives those choices back: with the contract of `ChoicesFor`,
      choices and ordered tuples of distinct indices correspond one to one. */
  lemma {:induction false} ChoicesRoundTrip(n: nat, js: seq<nat>)
    requires AreChoices(n, js)
    ensures Distinct(Sampled(n, js)) && Within(n, Sampled(n, js))
    ensures ChoicesFor(n, Sampled(n, js)) == js
  {
    SampleIsDistinct(n, js);
    if js != [] {
      var rest, j := js[..|js| - 1], js[|js| - 1];
      assert js == rest + [j];
      SampleGrows(n, rest, j);
      ChoicesRoundTrip(n, rest);
      var t := Sampled(n, js);
      assert t[..|rest|] == Sampled(n, rest) && t[|rest|] == Shuffled(n, rest)[j];
      ShuffledPermutes(n, rest);
      assert IndexIn(Shuffled(n, rest), t[|rest|]) == j;
    }
  }

  lemma SmallModulo(x: nat, m: nat)
    requires x < m
    ensures x % m == x
  {}

  /** Every ordered tuple of distinct indices is drawn by some random words. */
  lemma {:induction false} EveryTupleDrawn(n: nat, t: seq<nat>) returns (word: nat -> nat)
    requires Distinct(t) && Within(n, t) && |t| <= n
    ensures Sampled(n, ChoicesOf(n, |t|, word)) == t
    ensures forall i :: 0 <= i < |t| ==> word(i) < n
  {
    hide Sampled;
    var js := ChoicesFor(n, t);
    word := (i: nat) => if i < |js| && js[i] >= i then js[i] - i else 0;
    var drawn := ChoicesOf(n, |js|, word);
    forall i | 0 <= i < |js| ensures drawn[i] == js[i] && word(i) < n {
      SmallModulo(js[i] - i, n - i);
    }
    assert drawn == js;
  }

  // --- Each step is uniform to within one word -----------------------------------------------------

  /** How many of the first `limit` words lead step `i` to place `j`. */
  function WordsTo(limit: nat, n: nat, i: nat, j: nat): nat
    requires i < n
  {
    if limit == 0 then 0
    else WordsTo(limit - 1, n, i, j) + if i + (limit - 1) % (n - i) == j then 1 else 0
  }

  lemma {:induction false} AtLeast(a: int, m: nat)
    ensures a >= 1 ==> a * m >= m
  {
    if a >= 1 {
      assert a * m == (a - 1) * m + m;
    }
  }

  lemma {:induction false} SameQuotient(m: int, q: int, r: int, q': int, r': int)
    requires q * m + r == q' * m + r' && 0 <= r < m && 0 <= r' < m
    ensures q == q' && r == r'
  {
    AtLeast(q - q', m);
    AtLeast(q' - q, m);
    assert (q - q') * m == r' - r && (q' - q) * m == r - r';
  }

  lemma {:induction false} Quotient(x: nat, m: nat, q: nat, r: nat)
    requires m >= 1 && x == q * m + r && r < m
    ensures x / m == q && x % m == r
  {
    SameQuotient(m, q, r, x / m, x % m);
  }

  lemma {:induction false} NextWord(x: nat, m: nat)
    requires m >= 1
    ensures x % m + 1 < m ==> (x + 1) / m == x / m && (x + 1) % m == x % m + 1
    ensures x % m + 1 == m ==> (x + 1) / m == x / m + 1 && (x + 1) % m == 0
  {
    var q, r := x / m, x % m;
    assert x == q * m + r;
    if r + 1 < m {
      Quotient(x + 1, m, q, r + 1);
    } else {
      assert x + 1 == (q + 1) * m;
      Quotient(x + 1, m, q + 1, 0);
    }
  }

  lemma {:induction false} WordsCounted(limit: nat, m: nat, n: nat, i: nat, j: nat)
    requires i <= j < n && m == n - i
    ensures WordsTo(limit, n, i, j) == limit / m + if j - i < limit % m then 1 else 0
  {
    if limit > 0 {
      WordsCounted(limit - 1, m, n, i, j);
      NextWord(limit - 1, m);
    } else {
      assert 0 / m == 0 && 0 % m == 0;
    }
  }

  /** Of the 2^64 words, every place a step can choose has the same share, to within one. */
  lemma {:induction false} StepUniform(n: nat, i: nat, j: nat)
    requires i <= j < n
    ensures var share := 0x1_0000_0000_0000_0000 / (n - i);
      share <= WordsTo(0x1_0000_0000_0000_0000, n, i, j) <= share + 1
  {
    WordsCounted(0x1_0000_0000_0000_0000, n - i, n, i, j);
  }
}
