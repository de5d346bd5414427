/**
 * The Phaser scene of the current canvas: a Snow Pal of five parts that melt
 * one per incorrect guess, the word text showing the mask the fulfillment
 * sends, and the end-of-game screen. The scene keeps no game logic of its own;
 * it shows what the commands tell it. Sprites are reduced to visibility flags.
 */
module Game {
  import opened Options

  /** The Snow Pal's parts: left arm, right arm, bottom, torso, head. */
  const PartCount: nat := 5

  /** `visibleIndex` after `meltNextPart`: one more, until every part has melted. */
  function Melt(visibleIndex: int): (r: int)
    ensures visibleIndex < PartCount ==> r == visibleIndex + 1
    ensures visibleIndex == PartCount ==> r == visibleIndex
  {
    if visibleIndex == PartCount then visibleIndex else visibleIndex + 1
  }

  /**
   * What the scene shows: the word text, how many parts have melted, and the
   * end-of-game screen requested (`Some(true)` after a win, `Some(false)`
   * after a loss, `None` while playing).
   */
  datatype View = View(text: string, melted: int, ending: Option<bool>)

  class SnowPal {
    /** Visibility flags of the five parts. */
    const parts: array<bool>
    /** How many parts have melted; the next to melt is `parts[visibleIndex]`. */
    var visibleIndex: int

    ghost predicate Valid()
      reads this, parts
    {
      && parts.Length == PartCount
      && 0 <= visibleIndex <= parts.Length
      && forall k :: 0 <= k < visibleIndex ==> !parts[k]
    }

    /** The parts that have not melted are all shown. */
    ghost predicate Standing()
      reads this, parts
    {
      forall k :: 0 <= k < parts.Length && visibleIndex <= k ==> parts[k]
    }

    /** Every part starts hidden, until the first game resets the Snow Pal. */
    constructor ()
      ensures Valid() && fresh(parts) && visibleIndex == 0
      ensures forall k :: 0 <= k < parts.Length ==> !parts[k]
    {
      parts := new bool[PartCount](_ => false);
      visibleIndex := 0;
    }

    /** Hides the next part; does nothing once every part has melted. */
    method MeltNextPart()
      requires Valid()
      modifies this, parts
      ensures Valid()
      ensures visibleIndex == Melt(old(visibleIndex))
      ensures parts[..] == if old(visibleIndex) == PartCount then old(parts[..]) else old(parts[..])[old(visibleIndex) := false]
      ensures old(Standing()) ==> Standing()
    {
      if visibleIndex == parts.Length {
        return;
      }
      parts[visibleIndex] := false;
      visibleIndex := visibleIndex + 1;
    }

    /** Shows every part again. */
    method Reset()
      requires parts.Length == PartCount
      modifies this, parts
      ensures Valid() && Standing()
      ensures visibleIndex == 0
      ensures forall k :: 0 <= k < parts.Length ==> parts[k]
    {
      visibleIndex := 0;
      for k := 0 to parts.Length
        invariant visibleIndex == 0
        invariant forall j :: 0 <= j < k ==> parts[j]
      {
        parts[k] := true;
      }
    }
  }

  class Word {
    /** The text of the word's bitmap, empty until the first update. */
    var text: string

    constructor ()
      ensures text == ""
    {
      text := "";
    }

    /**
     * Shows `wordToDisplay`; `false` when the payload carries none, where the
     * script throws while sizing the text.
     */
    method UpdateText(wordToDisplay: Option<string>) returns (shown: bool)
      modifies this
      ensures shown <==> wordToDisplay.Some?
      ensures text == if shown then wordToDisplay.value else old(text)
    {
      if wordToDisplay == None {
        return false;
      }
      text := wordToDisplay.value;
      shown := true;
    }
  }

  /** The scene's effects on values, one per handler the canvas calls. */

  /** `start`: the Snow Pal stands again, the end screen goes, the new mask is shown. */
  function AfterStart(v: View, wordToDisplay: Option<string>): (r: View)
    ensures r.melted == 0 && r.ending == None
    ensures r.text == if wordToDisplay.Some? then wordToDisplay.value else v.text
  {
    if wordToDisplay.Some? then View(wordToDisplay.value, 0, None) else View(v.text, 0, None)
  }

  /** `correctGuess`: only the text changes. */
  function AfterCorrect(v: View, wordToDisplay: Option<string>): (r: View)
    ensures r.melted == v.melted && r.ending == v.ending
    ensures r.text == if wordToDisplay.Some? then wordToDisplay.value else v.text
  {
    if wordToDisplay.Some? then v.(text := wordToDisplay.value) else v
  }

  /** `incorrectGuess`: one more part melts while any is left; nothing else changes. */
  function AfterIncorrect(v: View): (r: View)
    ensures r.text == v.text && r.ending == v.ending
    ensures 0 <= v.melted < PartCount ==> r.melted == v.melted + 1
    ensures v.melted == PartCount ==> r.melted == PartCount
  {
    v.(melted := Melt(v.melted))
  }

  /** `win`: the final mask and the winning screen; nothing melts. */
  function AfterWin(v: View, wordToDisplay: Option<string>): (r: View)
    ensures r.melted == v.melted
    ensures wordToDisplay.Some? ==> r.text == wordToDisplay.value && r.ending == Some(true)
    ensures wordToDisplay.None? ==> r == v
  {
    if wordToDisplay.Some? then View(wordToDisplay.value, v.melted, Some(true)) else v
  }

  /** `lose`: one more part melts and the losing screen is requested; the text stays. */
  function AfterLose(v: View): (r: View)
    ensures r.text == v.text && r.ending == Some(false)
    ensures 0 <= v.melted < PartCount ==> r.melted == v.melted + 1
    ensures v.melted == PartCount ==> r.melted == PartCount
  {
    View(v.text, Melt(v.melted), Some(false))
  }

  /** Melting keeps the count within the Snow Pal and never undoes a part. */
  lemma MeltStaysInRange(i: int)
    requires 0 <= i <= PartCount
    ensures i <= Melt(i) <= PartCount
    ensures Melt(i) == if i + 1 < PartCount then i + 1 else PartCount
  {
  }

  class Scene {
    const word: Word
    const snowPal: SnowPal
    /** The end-of-game screen requested by `win` or `lose`, cleared by `start`. */
    var ending: Option<bool>

    ghost predicate Valid()
      reads this, snowPal, snowPal.parts
    {
      snowPal.Valid()
    }

    function Snapshot(): View
      reads this, word, snowPal
    {
      View(word.text, snowPal.visibleIndex, ending)
    }

    constructor ()
      ensures Valid() && fresh(word) && fresh(snowPal) && fresh(snowPal.parts)
      ensures Snapshot() == View("", 0, None)
    {
      word := new Word();
      snowPal := new SnowPal();
      ending := None;
    }

    /** Starts a game: the Snow Pal stands again and the mask is shown. */
    method Start(wordToDisplay: Option<string>) returns (shown: bool)
      requires Valid()
      modifies this, word, snowPal, snowPal.parts
      ensures Valid() && snowPal.Standing()
      ensures shown <==> wordToDisplay.Some?
      ensures Snapshot() == AfterStart(old(Snapshot()), wordToDisplay)
    {
      ending := None;
      snowPal.Reset();
      shown := word.UpdateText(wordToDisplay);
    }

    /** A correct guess: the new mask is shown. */
    method CorrectGuess(wordToDisplay: Option<string>) returns (shown: bool)
      requires Valid()
      modifies word
      ensures Valid()
      ensures shown <==> wordToDisplay.Some?
      ensures Snapshot() == AfterCorrect(old(Snapshot()), wordToDisplay)
    {
      shown := word.UpdateText(wordToDisplay);
    }

    /** An incorrect guess: one more part melts. */
    method IncorrectGuess()
      requires Valid()
      modifies snowPal, snowPal.parts
      ensures Valid()
      ensures old(snowPal.Standing()) ==> snowPal.Standing()
      ensures Snapshot() == AfterIncorrect(old(Snapshot()))
    {
      snowPal.MeltNextPart();
    }

    /** A win: the completed word is shown and the winning screen requested. */
    method Win(wordToDisplay: Option<string>) returns (shown: bool)
      requires Valid()
      modifies this, word
      ensures Valid()
      ensures shown <==> wordToDisplay.Some?
      ensures Snapshot() == AfterWin(old(Snapshot()), wordToDisplay)
    {
      shown := word.UpdateText(wordToDisplay);
      if shown {
        ending := Some(true);
      }
    }

    /** A loss: the last part melts and the losing screen is requested. */
    method Lose()
      requires Valid()
      modifies this, snowPal, snowPal.parts
      ensures Valid()
      ensures old(snowPal.Standing()) ==> snowPal.Standing()
      ensures Snapshot() == AfterLose(old(Snapshot()))
    {
      snowPal.MeltNextPart();
      ending := Some(false);
    }
  }
}
