/**
 * The client-side engine of the older canvas: a `Word` holding the upper-cased
 * secret and its display mask, a `Snowman` that shows one more part per miss,
 * and a `WordPlaceholder` that combines the two into the game's verdicts.
 * Sprites are reduced to their visibility flags.
 */
module Classes {
  import opened Text
  import opened Wire

  /** The snowman has four parts: head, torso, arms, lower body. */
  const SnowmanParts: nat := 4

  /** `visibleIndex` after `showNext`: one more, until the last part is shown. */
  function ShowNextIndex(visibleIndex: int): (r: int)
    ensures visibleIndex < SnowmanParts - 1 ==> r == visibleIndex + 1
    ensures visibleIndex == SnowmanParts - 1 ==> r == visibleIndex
  {
    if visibleIndex == SnowmanParts - 1 then visibleIndex else visibleIndex + 1
  }

  /**
   * Whether a guess hits the word as `Word.isInWord` judges it: a guess of
   * several characters must be the whole word; a single letter must occur in
   * it; the empty guess passes.
   */
  predicate Hit(text: string, letterOrWord: string)
    ensures Hit(text, letterOrWord) <==>
      || Upper(letterOrWord) == text
      || |letterOrWord| == 0
      || (|letterOrWord| == 1 && UpperChar(letterOrWord[0]) in text)
  {
    var guess := Upper(letterOrWord);
    if |guess| > 1 then guess == text else |guess| == 0 || guess[0] in text
  }

  /** The mask with every position holding letter `c` revealed. */
  function RevealLetter(text: string, display: string, c: char): (r: string)
    requires |display| == |text|
    ensures |r| == |text|
    ensures forall k :: 0 <= k < |text| ==> r[k] == if text[k] == c then c else display[k]
  {
    seq(|text|, k requires 0 <= k < |text| => if text[k] == c then c else display[k])
  }

  /** The mask after revealing each of `letters` in turn. */
  function Uncover(text: string, display: string, letters: string): (r: string)
    requires |display| == |text|
    ensures |r| == |text|
    decreases |letters|
  {
    if |letters| == 0 then display
    else RevealLetter(text, Uncover(text, display, letters[..|letters| - 1]), letters[|letters| - 1])
  }

  /** Uncovering reveals exactly the positions whose letter is one of `letters`. */
  lemma {:induction false} UncoverReveals(text: string, display: string, letters: string)
    requires |display| == |text|
    ensures forall k :: 0 <= k < |text| ==>
      Uncover(text, display, letters)[k] == if text[k] in letters then text[k] else display[k]
    decreases |letters|
  {
    if |letters| > 0 {
      var front := letters[..|letters| - 1];
      UncoverReveals(text, display, front);
      assert letters == front + [letters[|letters| - 1]];
    }
  }

  /** Between upper-case letters, the case-insensitive comparison is equality. */
  lemma MatchesOfUpper(text: string, c: char, indices: seq<nat>)
    requires IsUpper(text) && UpperChar(c) == c
    requires forall k: nat :: k in indices <==> k < |text| && UpperChar(c) == UpperChar(text[k])
    ensures forall k: nat :: k in indices <==> k < |text| && text[k] == c
  {
  }

  /** Uncovering keeps every position a placeholder or the secret's letter. */
  lemma UncoverKeepsMask(text: string, display: string, letters: string)
    requires |display| == |text|
    requires forall k :: 0 <= k < |text| ==> display[k] == Placeholder || display[k] == text[k]
    ensures forall k :: 0 <= k < |text| ==>
      Uncover(text, display, letters)[k] == Placeholder || Uncover(text, display, letters)[k] == text[k]
  {
    UncoverReveals(text, display, letters);
  }

  class Snowman {
    /** Visibility flags of the four parts, shown cumulatively. */
    const parts: array<bool>
    /** The index of the last part shown, -1 when none is. */
    var visibleIndex: int

    ghost predicate Valid()
      reads this, parts
    {
      && parts.Length == SnowmanParts
      && -1 <= visibleIndex < parts.Length
      && forall k :: 0 <= k < parts.Length ==> (parts[k] <==> k <= visibleIndex)
    }

    constructor ()
      ensures Valid() && fresh(parts) && visibleIndex == -1
    {
      parts := new bool[SnowmanParts](_ => false);
      visibleIndex := -1;
    }

    /** Shows the next part; does nothing once all four are shown. */
    method ShowNext()
      requires Valid()
      modifies this, parts
      ensures Valid()
      ensures visibleIndex == ShowNextIndex(old(visibleIndex))
    {
      if visibleIndex == parts.Length - 1 {
        return;
      }
      visibleIndex := visibleIndex + 1;
      parts[visibleIndex] := true;
    }

    /** Some part is still hidden. */
    function HasMoreParts(): (r: bool)
      reads this, parts
      ensures Valid() ==> (r <==> visibleIndex < SnowmanParts - 1)
    {
      assert Valid() && visibleIndex < SnowmanParts - 1 ==> !parts[SnowmanParts - 1];
      exists k :: 0 <= k < parts.Length && !parts[k]
    }

    /** Hides every part. */
    method Reset()
      requires parts.Length == SnowmanParts
      modifies this, parts
      ensures Valid()
      ensures visibleIndex == -1
    {
      for k := 0 to parts.Length
        invariant forall j :: 0 <= j < k ==> !parts[j]
      {
        parts[k] := false;
      }
      visibleIndex := -1;
    }
  }

  class Word {
    /** The secret, upper-cased once on construction. */
    const text: string
    /** The mask: one placeholder or revealed letter per letter of `text`. */
    var display: string

    ghost predicate Valid()
      reads this
    {
      && IsUpper(text)
      && |display| == |text|
      && forall k :: 0 <= k < |text| ==> display[k] == Placeholder || display[k] == text[k]
    }

    constructor (word: string)
      ensures Valid()
      ensures text == Upper(word)
      ensures |display| == |text| && forall k :: 0 <= k < |text| ==> display[k] == Placeholder
    {
      UpperIsUpper(word);
      text := Upper(word);
      display := Repeat(Placeholder, |word|);
    }

    /**
     * The positions of `text` holding `guessLetter`, compared case-insensitively,
     * in ascending order.
     */
    method FindLetter(guessLetter: char) returns (indices: seq<nat>)
      ensures forall i, j :: 0 <= i < j < |indices| ==> indices[i] < indices[j]
      ensures forall i :: 0 <= i < |indices| ==> indices[i] < |text|
      ensures forall k: nat :: k in indices <==> k < |text| && UpperChar(guessLetter) == UpperChar(text[k])
    {
      indices := [];
      var index := 0;
      while index < |text|
        invariant 0 <= index <= |text|
        invariant forall i, j :: 0 <= i < j < |indices| ==> indices[i] < indices[j]
        invariant forall i :: 0 <= i < |indices| ==> indices[i] < index
        invariant forall k: nat :: k in indices <==> k < index && UpperChar(guessLetter) == UpperChar(text[k])
      {
        if UpperChar(guessLetter) == UpperChar(text[index]) {
          indices := indices + [index];
        }
        index := index + 1;
      }
    }

    /**
     * `replaceAt`: the display with `replacement` spliced in at `index`;
     * for one character inside the display, that one position changes.
     */
    function ReplaceAt(index: nat, replacement: string): (r: string)
      reads this
      ensures index + |replacement| <= |display| ==> |r| == |display|
      ensures index < |display| && |replacement| == 1 ==>
        r[index] == replacement[0] && forall k :: 0 <= k < |display| && k != index ==> r[k] == display[k]
    {
      Splice(display, index, replacement)
    }

    /** Writes `letter` at each of the given positions of the display. */
    method ReplaceLetterPlaceholders(letter: char, indices: seq<nat>)
      requires forall i :: 0 <= i < |indices| ==> indices[i] < |display|
      modifies this
      ensures |display| == |old(display)|
      ensures forall k :: 0 <= k < |display| ==> display[k] == if k in indices then letter else old(display)[k]
    {
      var i := 0;
      while i < |indices|
        invariant 0 <= i <= |indices|
        invariant |display| == |old(display)|
        invariant forall k :: 0 <= k < |display| ==>
          display[k] == if k in indices[..i] then letter else old(display)[k]
      {
        display := ReplaceAt(indices[i], [letter]);
        assert indices[..i + 1] == indices[..i] + [indices[i]];
        i := i + 1;
      }
      assert indices[..i] == indices;
    }

    /** Every letter is revealed. */
    function IsWordComplete(): (r: bool)
      reads this
      ensures Valid() ==> (r <==> display == text)
    {
      Upper(text) == Upper(display)
    }

    /**
     * Checks a guess against the word and reveals what it matches: all
     * occurrences of a single letter, or the whole word for an exact match.
     */
    method IsInWord(letterOrWord: string) returns (found: bool)
      requires Valid()
      modifies this
      ensures Valid()
      ensures found == Hit(text, letterOrWord)
      ensures display == if found then Uncover(text, old(display), Upper(letterOrWord)) else old(display)
    {
      var guess := Upper(letterOrWord);
      UpperIsUpper(letterOrWord);
      UpperOfUpper(text);
      if |guess| > 1 && Upper(guess) != Upper(text) {
        return false;
      }
      found := RevealLetters(guess);
    }

    /**
     * The letter loop of `isInWord`: reveals each letter of an upper-case
     * guess in turn, stopping with `false` at the first letter the word lacks.
     * The guess is one letter at most, or the word itself.
     */
    method RevealLetters(guess: string) returns (found: bool)
      requires Valid() && IsUpper(guess)
      requires |guess| <= 1 || guess == text
      modifies this
      ensures Valid()
      ensures found <==> forall j :: 0 <= j < |guess| ==> guess[j] in text
      ensures display == if found then Uncover(text, old(display), guess) else old(display)
    {
      var i := 0;
      while i < |guess|
        invariant 0 <= i <= |guess|
        invariant |display| == |text|
        invariant forall j :: 0 <= j < i ==> guess[j] in text
        invariant display == Uncover(text, old(display), guess[..i])
      {
        assert guess[..i + 1] == guess[..i] + [guess[i]];
        var letterIndexes := FindLetter(guess[i]);
        MatchesOfUpper(text, guess[i], letterIndexes);
        if |letterIndexes| == 0 {
          assert guess[i] !in text by {
            forall k | 0 <= k < |text| ensures text[k] != guess[i] {
              assert k !in letterIndexes;
            }
          }
          assert i == 0 && guess[..i] == [];
          return false;
        }
        assert text[letterIndexes[0]] == guess[i];
        ghost var before := display;
        ReplaceLetterPlaceholders(guess[i], letterIndexes);
        assert display == RevealLetter(text, before, guess[i]);
        i := i + 1;
      }
      assert guess[..i] == guess;
      UncoverKeepsMask(text, old(display), guess);
      found := true;
    }
  }

  /** What the older canvas shows: the secret, its mask and the last snowman part shown. */
  datatype Board = Board(text: string, display: string, shown: int)

  /** The board a `WordPlaceholder` keeps between guesses. */
  ghost predicate WellFormed(b: Board)
  {
    && IsUpper(b.text)
    && |b.display| == |b.text|
    && (forall k :: 0 <= k < |b.text| ==> b.display[k] == Placeholder || b.display[k] == b.text[k])
    && -1 <= b.shown < SnowmanParts
  }

  /** The board for a new word: everything hidden. */
  function FreshBoard(word: string): (b: Board)
    ensures WellFormed(b)
    ensures b.text == Upper(word) && b.shown == -1
    ensures forall k :: 0 <= k < |b.display| ==> b.display[k] == Placeholder
  {
    UpperIsUpper(word);
    Board(Upper(word), Repeat(Placeholder, |word|), -1)
  }

  /** `WordPlaceholder.isInWord` on values: a hit uncovers, a miss shows a part. */
  function AfterGuess(b: Board, letterOrWord: string): (r: Board)
    requires |b.display| == |b.text|
    ensures r.text == b.text && |r.display| == |r.text|
    ensures Hit(b.text, letterOrWord) ==>
      && r.shown == b.shown
      && forall k :: 0 <= k < |b.text| ==>
           r.display[k] == if b.text[k] in Upper(letterOrWord) then b.text[k] else b.display[k]
    ensures !Hit(b.text, letterOrWord) ==> r.display == b.display && r.shown == ShowNextIndex(b.shown)
  {
    UncoverReveals(b.text, b.display, Upper(letterOrWord));
    if Hit(b.text, letterOrWord) then b.(display := Uncover(b.text, b.display, Upper(letterOrWord)))
    else b.(shown := ShowNextIndex(b.shown))
  }

  /** The game is over: the whole snowman is shown or the whole word revealed. */
  predicate Over(b: Board)
    ensures b.shown < SnowmanParts ==> (Over(b) <==> Won(b) || b.shown == SnowmanParts - 1)
  {
    b.shown == SnowmanParts - 1 || b.display == b.text
  }

  /** The player won: the word is revealed before the snowman is complete. */
  predicate Won(b: Board)
    ensures Won(b) ==> b.display == b.text
    ensures b.shown == SnowmanParts - 1 ==> !Won(b)
  {
    b.display == b.text && b.shown < SnowmanParts - 1
  }

  /** A guess keeps the board well formed and moves the snowman by at most one part. */
  lemma AfterGuessKeepsWellFormed(b: Board, letterOrWord: string)
    requires WellFormed(b)
    ensures WellFormed(AfterGuess(b, letterOrWord))
    ensures AfterGuess(b, letterOrWord).text == b.text
    ensures b.shown <= AfterGuess(b, letterOrWord).shown <= b.shown + 1
  {
    UncoverKeepsMask(b.text, b.display, Upper(letterOrWord));
  }

  /** Guessing the secret itself, in any case, reveals the whole word and shows no part. */
  lemma WholeWordRevealsIt(b: Board, letterOrWord: string)
    requires WellFormed(b) && Upper(letterOrWord) == b.text
    ensures Hit(b.text, letterOrWord)
    ensures AfterGuess(b, letterOrWord) == b.(display := b.text)
  {
    assert Hit(b.text, letterOrWord) by {
      if |b.text| == 1 {
        assert b.text[0] in b.text;
      }
    }
    UncoverReveals(b.text, b.display, b.text);
  }

  /**
   * The cases of a guess: a single letter of the word reveals each of its
   * occurrences and nothing else; a letter not in the word, or several
   * letters that are not the word, change the mask not at all and show the
   * next part.
   */
  lemma AfterGuessCases(b: Board, letterOrWord: string)
    requires WellFormed(b)
    ensures var guess := Upper(letterOrWord); var after := AfterGuess(b, letterOrWord);
      && (|guess| == 1 && guess[0] in b.text ==>
            && after.shown == b.shown
            && forall k :: 0 <= k < |b.text| ==>
                 after.display[k] == if b.text[k] == guess[0] then b.text[k] else b.display[k])
      && ((|guess| == 1 && guess[0] !in b.text) || (|guess| > 1 && guess != b.text) ==>
            after.display == b.display && after.shown == ShowNextIndex(b.shown))
  {
    var guess := Upper(letterOrWord);
    UncoverReveals(b.text, b.display, guess);
    if |guess| == 1 {
      assert forall c :: c in guess <==> c == guess[0];
    }
  }

  /** Guessing a letter that hit once more changes nothing further. */
  lemma RepeatedHitChangesNothing(b: Board, letterOrWord: string)
    requires WellFormed(b) && Hit(b.text, letterOrWord)
    ensures AfterGuess(AfterGuess(b, letterOrWord), letterOrWord) == AfterGuess(b, letterOrWord)
  {
    var guess := Upper(letterOrWord);
    var once := AfterGuess(b, letterOrWord);
    UncoverReveals(b.text, b.display, guess);
    UncoverReveals(b.text, once.display, guess);
  }

  /** Four misses in a row from a new word complete the snowman and end the game lost. */
  lemma FourMissesLose(word: string, a: string, b: string, c: string, d: string)
    requires var t := Upper(word); !Hit(t, a) && !Hit(t, b) && !Hit(t, c) && !Hit(t, d)
    ensures var end := AfterGuess(AfterGuess(AfterGuess(AfterGuess(FreshBoard(word), a), b), c), d);
      Over(end) && !Won(end) && end.shown == SnowmanParts - 1
  {
  }

  class WordPlaceholder {
    var word: Word
    const snowman: Snowman

    ghost predicate Valid()
      reads this, word, snowman, snowman.parts
    {
      word.Valid() && snowman.Valid()
    }

    /** The board as the game state stands. */
    function Snapshot(): Board
      reads this, word, snowman
    {
      Board(word.text, word.display, snowman.visibleIndex)
    }

    constructor (text: string)
      ensures Valid() && fresh(word) && fresh(snowman) && fresh(snowman.parts)
      ensures Snapshot() == FreshBoard(text)
    {
      word := new Word(text);
      snowman := new Snowman();
    }

    /** Checks a guess; a miss shows the next snowman part, a hit shows none. */
    method IsInWord(letterOrWord: string) returns (found: bool)
      requires Valid()
      modifies word, snowman, snowman.parts
      ensures Valid()
      ensures found == Hit(word.text, letterOrWord)
      ensures Snapshot() == AfterGuess(old(Snapshot()), letterOrWord)
    {
      found := word.IsInWord(letterOrWord);
      if !found {
        snowman.ShowNext();
      }
    }

    /** The game is over once every part is shown or every letter revealed. */
    function IsGameOver(): (r: bool)
      reads this, word, snowman, snowman.parts
      ensures Valid() ==> (r <==> Over(Snapshot()))
    {
      !snowman.HasMoreParts() || word.IsWordComplete()
    }

    /** The player won: every letter revealed while some part is still hidden. */
    function UserWins(): (r: bool)
      reads this, word, snowman, snowman.parts
      ensures Valid() ==> (r <==> Won(Snapshot()))
    {
      word.IsWordComplete() && snowman.HasMoreParts()
    }

    /** Starts over with a new word and a hidden snowman. */
    method Reset(text: string)
      requires Valid()
      modifies this, snowman, snowman.parts
      ensures Valid() && fresh(word)
      ensures Snapshot() == FreshBoard(text)
    {
      snowman.Reset();
      word := new Word(text);
    }
  }
}
