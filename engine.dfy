/**
 * The conversational game engine (the fulfilment webhook). Its per-conversation
 * state `conv.data` is a record that each turn reads and replaces: the secret
 * word, the mask shown to the player and the number of incorrect guesses. Each
 * handler also emits one command for the canvas.
 */
module Engine {
  import opened Options
  import opened Text
  import opened Wire
  import WordPool

  /** After this many incorrect guesses the player has lost. */
  const MaxIncorrectGuesses: nat := 5

  datatype ConvData = ConvData(correctWord: string, wordToDisplay: string, incorrectGuesses: nat)

  /** The commands the engine sends to the canvas, with the mask where the payload has one. */
  datatype Command =
    | NewGame(wordToDisplay: string)
    | Correct(wordToDisplay: string)
    | Win(wordToDisplay: string)
    | Incorrect
    | Lose

  /** One handled turn: the new state and the command it emitted. */
  datatype Turn = Turn(data: ConvData, command: Command)

  /**
   * The shape every handled state keeps: the mask is as long as the word and
   * every position shows the placeholder or the word's letter.
   */
  predicate WellShaped(d: ConvData)
  {
    && |d.wordToDisplay| == |d.correctWord|
    && forall i :: 0 <= i < |d.correctWord| ==>
         d.wordToDisplay[i] == Placeholder || d.wordToDisplay[i] == d.correctWord[i]
  }

  /** The `data` object of the `HtmlResponse` each command is sent in. */
  function ToCanvasData(command: Command): (r: CanvasData)
    ensures r.state.Some?
    ensures r.wordToDisplay.Some? <==> !(command.Incorrect? || command.Lose?)
    ensures r.wordToDisplay.Some? ==> r.wordToDisplay.value == command.wordToDisplay
  {
    match command
    case NewGame(mask) => CanvasData(Some("NEW_GAME"), Some(mask))
    case Correct(mask) => CanvasData(Some("CORRECT"), Some(mask))
    case Win(mask) => CanvasData(Some("WIN"), Some(mask))
    case Incorrect => CanvasData(Some("INCORRECT"), None)
    case Lose => CanvasData(Some("LOSE"), None)
  }

  /**
   * The mask `updateWordToDisplay` leaves: the whole word when the guess is
   * the word, otherwise the old mask with every position whose letter is the
   * guess revealed.
   */
  function Reveal(word: string, mask: string, guess: string): (r: string)
    requires |mask| == |word|
    ensures |r| == |word|
    ensures guess == word ==> r == word
    ensures forall i :: 0 <= i < |word| && guess == [word[i]] ==> r[i] == word[i]
    ensures forall i :: 0 <= i < |word| && guess != [word[i]] && guess != word ==> r[i] == mask[i]
    ensures |guess| != 1 && guess != word ==> r == mask
  {
    if guess == word then word
    else seq(|word|, i requires 0 <= i < |word| => if guess == [word[i]] then word[i] else mask[i])
  }

  /** Revealing the same guess a second time changes nothing. */
  lemma RevealIdempotent(word: string, mask: string, guess: string)
    requires |mask| == |word|
    ensures Reveal(word, Reveal(word, mask, guess), guess) == Reveal(word, mask, guess)
  {
  }

  /** Revealing keeps the mask well shaped. */
  lemma RevealKeepsShape(d: ConvData, guess: string)
    requires WellShaped(d)
    ensures WellShaped(d.(wordToDisplay := Reveal(d.correctWord, d.wordToDisplay, guess)))
  {
  }

  /**
   * `updateWordToDisplay`: the whole word on an exact match, otherwise one
   * splice per position of the word whose character equals the guess.
   */
  method UpdateWordToDisplay(correctWord: string, wordToDisplay: string, letterOrWord: string)
    returns (mask: string)
    requires |wordToDisplay| == |correctWord|
    ensures mask == Reveal(correctWord, wordToDisplay, letterOrWord)
  {
    if letterOrWord == correctWord {
      return correctWord;
    }
    mask := wordToDisplay;
    var index := 0;
    while index < |correctWord|
      invariant 0 <= index <= |correctWord|
      invariant |mask| == |correctWord|
      invariant forall k :: 0 <= k < index ==>
        mask[k] == if letterOrWord == [correctWord[k]] then correctWord[k] else wordToDisplay[k]
      invariant forall k :: index <= k < |correctWord| ==> mask[k] == wordToDisplay[k]
    {
      if letterOrWord == [correctWord[index]] {
        mask := Splice(mask, index, letterOrWord);
      }
      index := index + 1;
    }
  }

  /** The state and command that "Start Game" and "Play Again" produce for a drawn word. */
  function NewRound(word: string): (t: Turn)
    ensures WellShaped(t.data)
    ensures t.data.incorrectGuesses == 0
    ensures t.data.correctWord == Upper(word) && IsUpper(t.data.correctWord)
    ensures |t.data.wordToDisplay| == |word|
    ensures forall i :: 0 <= i < |word| ==> t.data.wordToDisplay[i] == Placeholder
    ensures t.command == NewGame(t.data.wordToDisplay)
  {
    UpperIsUpper(word);
    var correctWord := Upper(word);
    var mask := Repeat(Placeholder, |correctWord|);
    Turn(ConvData(correctWord, mask, 0), NewGame(mask))
  }

  /** The "Start Game" intent: a fresh word from the dictionary, no misses, an all-placeholder mask. */
  method StartGame(dictionary: WordPool.Dictionary) returns (data: ConvData, command: Command)
    requires dictionary.Valid()
    modifies dictionary
    ensures dictionary.Valid()
    ensures |dictionary.entries| < |dictionary.pool|
    ensures dictionary.pool[|dictionary.entries|] in dictionary.words
    ensures Turn(data, command) == NewRound(dictionary.pool[|dictionary.entries|])
    ensures old(dictionary.entries) != [] ==>
      && dictionary.pool == old(dictionary.pool)
      && dictionary.entries + [dictionary.pool[|dictionary.entries|]] == old(dictionary.entries)
    ensures old(dictionary.entries) == [] ==>
      && |dictionary.entries| == |dictionary.words| - 1
      && multiset(dictionary.entries + [dictionary.pool[|dictionary.entries|]]) == multiset(dictionary.words)
  {
    var word := dictionary.GetWord();
    var t := NewRound(word);
    data, command := t.data, t.command;
  }

  /** The "Play Again" intent, which resets the game exactly as "Start Game" does. */
  method PlayAgain(dictionary: WordPool.Dictionary) returns (data: ConvData, command: Command)
    requires dictionary.Valid()
    modifies dictionary
    ensures dictionary.Valid()
    ensures |dictionary.entries| < |dictionary.pool|
    ensures dictionary.pool[|dictionary.entries|] in dictionary.words
    ensures Turn(data, command) == NewRound(dictionary.pool[|dictionary.entries|])
    ensures old(dictionary.entries) != [] ==>
      && dictionary.pool == old(dictionary.pool)
      && dictionary.entries + [dictionary.pool[|dictionary.entries|]] == old(dictionary.entries)
    ensures old(dictionary.entries) == [] ==>
      && |dictionary.entries| == |dictionary.words| - 1
      && multiset(dictionary.entries + [dictionary.pool[|dictionary.entries|]]) == multiset(dictionary.words)
  {
    data, command := StartGame(dictionary);
  }

  /**
   * What the "Guess Letter or Word" intent does to a well-shaped state. A guess is
   * correct when its upper-cased form occurs anywhere in the word; there is no
   * check that the game is still running.
   */
  function GuessTurn(data: ConvData, letterOrWord: string): (t: Turn)
    requires WellShaped(data)
    ensures WellShaped(t.data) && t.data.correctWord == data.correctWord
    ensures var guess := Upper(letterOrWord);
      if Occurs(guess, data.correctWord) then
        && t.data.incorrectGuesses == data.incorrectGuesses
        && t.data.wordToDisplay == Reveal(data.correctWord, data.wordToDisplay, guess)
        && (t.command.Win? <==> t.data.wordToDisplay == data.correctWord)
        && (t.command.Correct? || t.command.Win?)
        && t.command.wordToDisplay == t.data.wordToDisplay
      else
        && t.data.incorrectGuesses == data.incorrectGuesses + 1
        && t.data.wordToDisplay == data.wordToDisplay
        && (t.command.Lose? <==> t.data.incorrectGuesses >= MaxIncorrectGuesses)
        && (t.command.Incorrect? || t.command.Lose?)
  {
    var guess := Upper(letterOrWord);
    if Occurs(guess, data.correctWord) then
      RevealKeepsShape(data, guess);
      var mask := Reveal(data.correctWord, data.wordToDisplay, guess);
      Turn(data.(wordToDisplay := mask), if mask == data.correctWord then Win(mask) else Correct(mask))
    else
      var misses := data.incorrectGuesses + 1;
      Turn(data.(incorrectGuesses := misses), if misses >= MaxIncorrectGuesses then Lose else Incorrect)
  }

  /** The "Guess Letter or Word" handler, step by step as the webhook runs it. */
  method GuessLetterOrWord(data: ConvData, letterOrWord: string) returns (next: ConvData, command: Command)
    requires WellShaped(data)
    ensures Turn(next, command) == GuessTurn(data, letterOrWord)
  {
    var guess := Upper(letterOrWord);
    var correctGuess := IndexOf(data.correctWord, guess) > -1;
    next := data;
    if correctGuess {
      var mask := UpdateWordToDisplay(data.correctWord, data.wordToDisplay, guess);
      next := next.(wordToDisplay := mask);
      var userHasWon := next.wordToDisplay == next.correctWord;
      if userHasWon {
        command := Win(next.wordToDisplay);
      } else {
        command := Correct(next.wordToDisplay);
      }
    } else {
      next := next.(incorrectGuesses := next.incorrectGuesses + 1);
      var userHasLost := next.incorrectGuesses >= MaxIncorrectGuesses;
      if userHasLost {
        command := Lose;
      } else {
        command := Incorrect;
      }
    }
  }

  /** The state after a series of guesses, each handled in turn. */
  function Replay(data: ConvData, guesses: seq<string>): (d: ConvData)
    requires WellShaped(data)
    ensures WellShaped(d)
    decreases |guesses|
  {
    if guesses == [] then data else Replay(GuessTurn(data, guesses[0]).data, guesses[1..])
  }

  /**
   * Between resets the word is fixed and the miss counter never decreases,
   * rising by at most one per guess.
   */
  lemma {:induction false} CounterNeverDecreases(data: ConvData, guesses: seq<string>)
    requires WellShaped(data)
    ensures Replay(data, guesses).correctWord == data.correctWord
    ensures data.incorrectGuesses <= Replay(data, guesses).incorrectGuesses <= data.incorrectGuesses + |guesses|
    decreases |guesses|
  {
    if guesses != [] {
      CounterNeverDecreases(GuessTurn(data, guesses[0]).data, guesses[1..]);
    }
  }
}
