/**
 * Random word selection for the games (src/utils/wordSelection.ts).
 *
 * Each function shuffles a fresh copy of the input with
 * `sort(() => Math.random() - 0.5)`. That comparator promises no particular
 * distribution, so the model takes the shuffle's outcome as a parameter: a
 * permutation `perm` of the positions, the shuffled copy holding
 * `words[perm[k]]` at position `k`.
 */
module WordSelection {
  import opened Vocab

  /** `perm` lists every position below `n` exactly once. */
  predicate IsPermutation(perm: seq<nat>, n: nat) {
    && |perm| == n
    && (forall k :: 0 <= k < n ==> perm[k] < n)
    && (forall j, k :: 0 <= j < k < n ==> perm[j] != perm[k])
  }

  /**
   * `[...words].sort(() => Math.random() - 0.5)`, the comparator's choices
   * given by `perm`: `ShuffleAt` with the multiset it keeps stated for callers.
   */
  function Shuffle(words: seq<VocabWord>, perm: seq<nat>): (shuffled: seq<VocabWord>)
    requires IsPermutation(perm, |words|)
    ensures |shuffled| == |words|
    ensures multiset(shuffled) == multiset(words)
  {
    ShuffleKeepsMultiset(words, perm);
    ShuffleAt(words, perm)
  }

  /**
   * The bare rearrangement, with no contract, so that the lemmas below can
   * reason about it without depending on `Shuffle`'s own ensures.
   */
  function ShuffleAt(words: seq<VocabWord>, perm: seq<nat>): seq<VocabWord>
    requires IsPermutation(perm, |words|)
  {
    seq(|words|, k requires 0 <= k < |words| => words[perm[k]])
  }

  /** Rearranging by a permutation neither adds nor loses a word. */
  lemma {:induction false} ShuffleKeepsMultiset(words: seq<VocabWord>, perm: seq<nat>)
    requires IsPermutation(perm, |words|)
    ensures multiset(ShuffleAt(words, perm)) == multiset(words)
    decreases |words|
  {
    var n := |words|;
    if n > 0 {
      var v := perm[n - 1];
      var q := DropLastDraw(words, perm);
      ShuffleKeepsMultiset(RemoveAt(words, v), q);
    }
  }

  /**
   * Taking the last draw `v` off a shuffle of `words` leaves a shuffle of
   * `RemoveAt(words, v)`.
   */
  lemma DropLastDraw(words: seq<VocabWord>, perm: seq<nat>) returns (q: seq<nat>)
    requires IsPermutation(perm, |words|) && |words| > 0
    ensures IsPermutation(q, |words| - 1)
    ensures ShuffleAt(words, perm) == ShuffleAt(RemoveAt(words, perm[|words| - 1]), q) + [words[perm[|words| - 1]]]
  {
    var n := |words|;
    var v := perm[n - 1];
    q := seq(n - 1, k requires 0 <= k < n - 1 => if perm[k] < v then perm[k] else perm[k] - 1);
    assert IsPermutation(q, n - 1) by {
      forall j, k | 0 <= j < k < n - 1 ensures q[j] != q[k] {
        assert perm[j] != perm[k] && perm[j] != v && perm[k] != v;
      }
    }
  }

  /** The sequence without its element at position `v`. */
  function RemoveAt(words: seq<VocabWord>, v: nat): (rest: seq<VocabWord>)
    requires v < |words|
    ensures |rest| == |words| - 1
    ensures multiset(rest) == multiset(words) - multiset{words[v]}
  {
    assert words == words[..v] + [words[v]] + words[v + 1..];
    words[..v] + words[v + 1..]
  }

  /**
   * Extending a shuffle of `RemoveAt(words, v)` by a last draw of position
   * `v` gives a shuffle of `words`.
   */
  lemma ExtendShuffle(words: seq<VocabWord>, v: nat, q: seq<nat>) returns (perm: seq<nat>)
    requires v < |words| && IsPermutation(q, |words| - 1)
    ensures IsPermutation(perm, |words|)
    ensures ShuffleAt(words, perm) == ShuffleAt(RemoveAt(words, v), q) + [words[v]]
  {
    var n := |words|;
    perm := seq(n, k requires 0 <= k < n => if k == n - 1 then v else if q[k] < v then q[k] else q[k] + 1);
  }

  /**
   * Conversely, every rearrangement of the words is the outcome of some
   * permutation: the parameter rules out no order the sort could produce.
   */
  lemma {:induction false} EveryRearrangementIsAShuffle(words: seq<VocabWord>, s: seq<VocabWord>)
    returns (perm: seq<nat>)
    requires multiset(s) == multiset(words)
    ensures IsPermutation(perm, |words|) && ShuffleAt(words, perm) == s
    decreases |words|
  {
    assert |s| == |multiset(s)| == |multiset(words)| == |words|;
    var n := |words|;
    if n == 0 {
      perm := [];
    } else {
      var x := s[n - 1];
      assert multiset(words)[x] > 0 by { assert x in multiset(s); }
      var v :| 0 <= v < n && words[v] == x;
      assert s == s[..n - 1] + [x];
      assert multiset(s[..n - 1]) == multiset(s) - multiset{x};
      var q := EveryRearrangementIsAShuffle(RemoveAt(words, v), s[..n - 1]);
      perm := ExtendShuffle(words, v, q);
    }
  }

  /**
   * `shuffled.slice(0, count)` for an integer `count`: a prefix, ending at
   * `count` clamped to the length, or counted from the end when `count` is
   * negative.
   */
  function Slice(shuffled: seq<VocabWord>, count: int): (r: seq<VocabWord>)
    ensures |r| <= |shuffled| && r == shuffled[..|r|]
    ensures 0 <= count ==> |r| == if count < |shuffled| then count else |shuffled|
    ensures count < 0 ==> |r| == if |shuffled| + count < 0 then 0 else |shuffled| + count
  {
    var end := if count < 0 then (if |shuffled| + count < 0 then 0 else |shuffled| + count)
               else if count < |shuffled| then count else |shuffled|;
    shuffled[..end]
  }

  /**
   * `selectRandomWords(words, count)`. With `count` at least the number of
   * words, the input itself; otherwise a prefix of the shuffled copy, whose
   * length follows `slice`: `count` when it is not negative, else
   * `max(0, n + count)`.
   */
  function SelectRandomWords(words: seq<VocabWord>, count: int, perm: seq<nat>): (r: seq<VocabWord>)
    requires IsPermutation(perm, |words|)
    ensures count >= |words| ==> r == words
    ensures 0 <= count < |words| ==> |r| == count
    ensures count < 0 ==> |r| == if |words| + count < 0 then 0 else |words| + count
    ensures multiset(r) <= multiset(words)
  {
    if count >= |words| then words
    else
      var shuffled := Shuffle(words, perm);
      PrefixSubMultiset(shuffled, |Slice(shuffled, count)|);
      Slice(shuffled, count)
  }

  /** A prefix holds no word more often than the whole sequence does. */
  lemma PrefixSubMultiset(s: seq<VocabWord>, k: nat)
    requires k <= |s|
    ensures multiset(s[..k]) <= multiset(s)
  {
    assert s == s[..k] + s[k..];
  }

  /** Every selected word is one of the input words. */
  lemma SelectedWordsComeFromInput(words: seq<VocabWord>, count: int, perm: seq<nat>, w: VocabWord)
    requires IsPermutation(perm, |words|)
    requires w in SelectRandomWords(words, count, perm)
    ensures w in words
  {
  }

  /** Some sequence holding exactly the words of the multiset `m`. */
  lemma {:induction false} SequenceOf(m: multiset<VocabWord>) returns (r: seq<VocabWord>)
    ensures multiset(r) == m
    decreases |m|
  {
    if |m| == 0 {
      r := [];
    } else {
      var x :| x in m;
      var r' := SequenceOf(m - multiset{x});
      r := r' + [x];
    }
  }

  /**
   * Conversely, any `count` of the input words, in any order, is a possible
   * outcome of `selectRandomWords(words, count)`.
   */
  lemma EverySelectionIsPossible(words: seq<VocabWord>, count: int, s: seq<VocabWord>) returns (perm: seq<nat>)
    requires 0 <= count < |words| && |s| == count && multiset(s) <= multiset(words)
    ensures IsPermutation(perm, |words|) && SelectRandomWords(words, count, perm) == s
  {
    var rest := SequenceOf(multiset(words) - multiset(s));
    assert multiset(s + rest) == multiset(words) by {
      forall y ensures multiset(s + rest)[y] == multiset(words)[y] {
        assert multiset(s + rest) == multiset(s) + multiset(rest);
      }
    }
    perm := EveryRearrangementIsAShuffle(words, s + rest);
    assert (s + rest)[..count] == s;
  }

  /** `selectWordsForQuiz`: ten words, or all of them when there are fewer. */
  function SelectWordsForQuiz(words: seq<VocabWord>, perm: seq<nat>): (r: seq<VocabWord>)
    requires IsPermutation(perm, |words|)
    ensures |r| == if |words| < 10 then |words| else 10
    ensures |words| <= 10 ==> r == words
    ensures multiset(r) <= multiset(words)
  {
    SelectRandomWords(words, 10, perm)
  }

  /** `selectWordsForWordSearch`: fifteen words, or the input unchanged when it has no more. */
  function SelectWordsForWordSearch(words: seq<VocabWord>, perm: seq<nat>): (r: seq<VocabWord>)
    requires IsPermutation(perm, |words|)
    ensures |r| == if |words| < 15 then |words| else 15
    ensures |words| <= 15 ==> r == words
    ensures multiset(r) <= multiset(words)
  {
    var maxWords := if 15 < |words| then 15 else |words|;
    SelectRandomWords(words, maxWords, perm)
  }

  /** `selectWordsForMemory`: all the words, shuffled. */
  function SelectWordsForMemory(words: seq<VocabWord>, perm: seq<nat>): (r: seq<VocabWord>)
    requires IsPermutation(perm, |words|)
    ensures |r| == |words|
    ensures multiset(r) == multiset(words)
  {
    Shuffle(words, perm)
  }

  /** `selectWordsForFlashcards`: all the words, shuffled. */
  function SelectWordsForFlashcards(words: seq<VocabWord>, perm: seq<nat>): (r: seq<VocabWord>)
    requires IsPermutation(perm, |words|)
    ensures |r| == |words|
    ensures multiset(r) == multiset(words)
  {
    Shuffle(words, perm)
  }
}
