/**
 * The server's word source: a fixed vocabulary, a shuffled pool of entries
 * that is popped from the end, and a refill with a fresh shuffled copy of
 * the vocabulary whenever the pool runs dry.
 */
module WordPool {

  /** The vocabulary. A `const` sequence: nothing can change it. */
  const Words: seq<string> := ["Sombrero", "Google", "Mountain", "California",
    "Kubernetes", "Tensorflow", "Rhythmic", "Numbskull", "Haphazard",
    "Memento", "Ostracize", "Mystify", "Squawk", "Wildebeest", "Zombie",
    "Zealous", "Colombia"]

  /** No element occurs twice. */
  predicate Distinct<T(==)>(s: seq<T>)
  {
    forall i, j :: 0 <= i < j < |s| ==> s[i] != s[j]
  }

  /**
   * Fisher-Yates in place. The random index `Math.floor(Math.random() * (i + 1))`
   * is an arbitrary choice with `0 <= j <= i`.
   */
  method Shuffle<T>(a: array<T>)
    modifies a
    ensures multiset(a[..]) == multiset(old(a[..]))
  {
    var i := a.Length - 1;
    while i > 0
      invariant -1 <= i < a.Length
      invariant multiset(a[..]) == multiset(old(a[..]))
    {
      var j :| 0 <= j <= i;
      var x := a[i];
      a[i] := a[j];
      a[j] := x;
      i := i - 1;
    }
  }

  /** `shuffle(clone(words))`: a permutation of `words`, made on a fresh copy. */
  method ShuffledCopy(words: seq<string>) returns (s: seq<string>)
    ensures multiset(s) == multiset(words)
    ensures |s| == |words|
  {
    var a := new string[|words|](i requires 0 <= i < |words| => words[i]);
    assert a[..] == words;
    Shuffle(a);
    s := a[..];
    assert |s| == |multiset(s)| == |multiset(words)| == |words|;
  }

  class Dictionary {
    /** The vocabulary the entries are drawn from; set once to `Words`. */
    const words: seq<string>
    /** The words not yet handed out in this cycle; `getWord` pops the last one. */
    var entries: seq<string>
    /** The shuffled copy `entries` was last filled from. */
    ghost var pool: seq<string>

    ghost predicate Valid()
      reads this
    {
      && |words| > 0
      && multiset(pool) == multiset(words)
      && |entries| <= |pool|
      && entries == pool[..|entries|]
    }

    /** The words handed out since the last refill, as positions of the pool. */
    ghost function Drawn(): seq<string>
      reads this
      requires Valid()
    {
      pool[|entries|..]
    }

    constructor ()
      ensures Valid() && words == Words
      ensures entries == pool && multiset(entries) == multiset(words)
    {
      words := Words;
      new;
      Refill();
    }

    /** `this.entries = this.shuffle(clone(words))`, at construction and on exhaustion. */
    method Refill()
      requires |words| > 0
      modifies this
      ensures Valid()
      ensures entries == pool && multiset(entries) == multiset(words)
    {
      var shuffled := ShuffledCopy(words);
      entries := shuffled;
      pool := shuffled;
    }

    /**
     * Pops the last entry, refilling the pool with a fresh shuffle of the
     * vocabulary first when it is empty, so it never fails.
     */
    method GetWord() returns (word: string)
      requires Valid()
      modifies this
      ensures Valid()
      ensures word in words
      ensures |entries| < |pool| && word == pool[|entries|]
      ensures old(entries) != [] ==> pool == old(pool) && entries + [word] == old(entries)
      ensures old(entries) == [] ==>
        |entries| == |words| - 1 && multiset(entries + [word]) == multiset(words)
    {
      if |entries| == 0 {
        Refill();
      }
      word := entries[|entries| - 1];
      entries := entries[..|entries| - 1];
      assert entries + [word] == pool[..|entries| + 1];
      assert word in multiset(pool);
    }
  }

  /** A sequence with no repeats has every element at most once in its multiset. */
  lemma {:induction false} DistinctCountsAtMostOne<T>(s: seq<T>, x: T)
    requires Distinct(s)
    ensures multiset(s)[x] <= 1
  {
    if s != [] {
      assert s == [s[0]] + s[1..];
      assert Distinct(s[1..]);
      DistinctCountsAtMostOne(s[1..], x);
      if x == s[0] {
        assert x !in s[1..];
      }
    }
  }

  /** Two equal elements at different positions make a count of at least two. */
  lemma RepeatCountsTwice<T>(s: seq<T>, i: nat, j: nat)
    requires i < j < |s| && s[i] == s[j]
    ensures multiset(s)[s[i]] >= 2
  {
    assert s == s[..j] + s[j..];
    assert s[i] in s[..j];
    assert s[j] in s[j..];
  }

  /** A permutation of a sequence without repeats has no repeats. */
  lemma PermutationKeepsDistinct<T>(s: seq<T>, t: seq<T>)
    requires Distinct(s) && multiset(s) == multiset(t)
    ensures Distinct(t)
  {
    forall i, j | 0 <= i < j < |t|
      ensures t[i] != t[j]
    {
      if t[i] == t[j] {
        RepeatCountsTwice(t, i, j);
        DistinctCountsAtMostOne(s, t[i]);
      }
    }
  }

  lemma WordsAreDistinct()
    ensures Distinct(Words)
  {
  }

  /**
   * Within one cycle no word is handed out twice, and no word already handed
   * out is still waiting in the entries.
   */
  lemma NoRepeatsWithinCycle(d: Dictionary)
    requires d.Valid() && Distinct(d.words)
    ensures Distinct(d.Drawn())
    ensures forall w :: w in d.Drawn() ==> w !in d.entries
  {
    PermutationKeepsDistinct(d.words, d.pool);
    assert d.pool == d.entries + d.Drawn();
  }
}
