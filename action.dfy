/**
 * The Interactive Canvas callbacks of the older canvas: `onUpdate` dispatches
 * the `command` of the data blob the fulfillment sends, and `guess` checks a
 * guess on the client, reports it back to the conversation as a text query
 * and, on a loss, reveals the word.
 */
module CanvasAction {
  import opened Options
  import opened Text
  import opened Classes

  /** The data blob of an HtmlResponse as the older canvas reads it. */
  datatype ActionData = ActionData(command: Option<string>, letterOrWord: Option<string>)

  /** The keys of the `commands` table. */
  datatype CommandName = Guess | PlayAgain | ToggleCaptions | Default

  /** Why an update cannot be handled (the script would throw a TypeError). */
  datatype ActionError =
    | UnknownCommand(name: string)   // no entry in the table
    | MissingLetterOrWord            // GUESS without a guess to upper-case

  /** The key under which each handler is registered. */
  function Key(c: CommandName): string
  {
    match c
    case Guess => "GUESS"
    case PlayAgain => "PLAY_AGAIN"
    case ToggleCaptions => "TOGGLE_CAPTIONS"
    case Default => "DEFAULT"
  }

  /**
   * The handler `onUpdate` picks: a missing or empty command selects DEFAULT,
   * any other is upper-cased and must be one of the table's keys.
   */
  function Lookup(command: Option<string>): (r: Result<CommandName, ActionError>)
    ensures command == None || command == Some("") ==> r == Success(Default)
    ensures command.Some? && command.value != "" && r.Success? ==> Key(r.value) == Upper(command.value)
    ensures command.Some? && command.value != "" && r.Failure? ==>
      r.error == UnknownCommand(Upper(command.value)) && forall c :: Key(c) != Upper(command.value)
  {
    if command == None || command == Some("") then Success(Default)
    else
      var name := Upper(command.value);
      if name == "GUESS" then Success(Guess)
      else if name == "PLAY_AGAIN" then Success(PlayAgain)
      else if name == "TOGGLE_CAPTIONS" then Success(ToggleCaptions)
      else if name == "DEFAULT" then Success(Default)
      else Failure(UnknownCommand(name))
  }

  /** Every handler is reached by its own key. */
  lemma LookupFindsEveryKey(c: CommandName)
    ensures Lookup(Some(Key(c))) == Success(c)
  {
    assert IsUpper(Key(c));
    UpperOfUpper(Key(c));
  }

  /** The older canvas's table: the command is matched regardless of its case. */
  lemma LookupIgnoresCase(name: string)
    ensures Lookup(Some(name)) == Lookup(Some(Upper(name)))
  {
    UpperIsUpper(name);
  }

  /**
   * `guess` on values: the board after the check and the text query sent.
   * While the game goes on, the query reports the verdict; at the end it
   * announces the win, or names the word and reveals it.
   */
  function GuessReply(b: Board, letterOrWord: string): (r: (Board, string))
    requires |b.display| == |b.text|
    ensures r.0.text == b.text && |r.0.display| == |b.text|
  {
    var next := AfterGuess(b, letterOrWord);
    if !Over(next) then
      (next, if Hit(b.text, letterOrWord) then "Right Guess " + letterOrWord else "Wrong Guess " + letterOrWord)
    else if Won(next) then
      (next, Upper(b.text) + " word is right")
    else
      (AfterGuess(next, Upper(b.text)), "The word to guess is " + Upper(b.text))
  }

  /**
   * After a guess the board stays well formed and keeps its word; a lost game
   * ends with the whole snowman shown and the whole word revealed, a game that
   * goes on or is won shows what the guess alone did.
   */
  lemma GuessReplyOutcome(b: Board, letterOrWord: string)
    requires WellFormed(b)
    ensures var (after, _) := GuessReply(b, letterOrWord);
      && WellFormed(after)
      && after.text == b.text
      && (Over(AfterGuess(b, letterOrWord)) && !Won(AfterGuess(b, letterOrWord)) ==>
            after.display == b.text && after.shown == SnowmanParts - 1)
      && (!Over(AfterGuess(b, letterOrWord)) || Won(AfterGuess(b, letterOrWord)) ==>
            after == AfterGuess(b, letterOrWord))
  {
    var next := AfterGuess(b, letterOrWord);
    AfterGuessKeepsWellFormed(b, letterOrWord);
    UpperIsUpper(b.text);
    UpperOfUpper(b.text);
    WholeWordRevealsIt(next, Upper(b.text));
  }

  /** The query a guess sends, by outcome. */
  lemma GuessReplyQuery(b: Board, letterOrWord: string)
    requires WellFormed(b)
    ensures var next := AfterGuess(b, letterOrWord); var q := GuessReply(b, letterOrWord).1;
      && (!Over(next) && Hit(b.text, letterOrWord) ==> q == "Right Guess " + letterOrWord)
      && (!Over(next) && !Hit(b.text, letterOrWord) ==> q == "Wrong Guess " + letterOrWord)
      && (Won(next) ==> q == b.text + " word is right")
      && (Over(next) && !Won(next) ==> q == "The word to guess is " + b.text)
  {
    UpperOfUpper(b.text);
  }

  class Action {
    /** The game's word placeholder, shared with the rest of the canvas. */
    const wordPlaceholder: WordPlaceholder
    /** The text queries sent to the conversation, oldest first. */
    var queries: seq<string>

    ghost predicate Valid()
      reads this, wordPlaceholder, wordPlaceholder.word, wordPlaceholder.snowman, wordPlaceholder.snowman.parts
    {
      wordPlaceholder.Valid()
    }

    constructor (wordPlaceholder: WordPlaceholder)
      requires wordPlaceholder.Valid()
      ensures Valid() && this.wordPlaceholder == wordPlaceholder && queries == []
    {
      this.wordPlaceholder := wordPlaceholder;
      queries := [];
    }

    /** Checks a guess, sends the matching text query and reveals the word on a loss. */
    method Guess(letterOrWord: string)
      requires Valid()
      modifies this, wordPlaceholder.word, wordPlaceholder.snowman, wordPlaceholder.snowman.parts
      ensures Valid()
      ensures wordPlaceholder.Snapshot() == GuessReply(old(wordPlaceholder.Snapshot()), letterOrWord).0
      ensures queries == old(queries) + [GuessReply(old(wordPlaceholder.Snapshot()), letterOrWord).1]
    {
      var foundLetter := wordPlaceholder.IsInWord(letterOrWord);
      var rightWord := wordPlaceholder.word.text;
      if !wordPlaceholder.IsGameOver() {
        if foundLetter {
          queries := queries + ["Right Guess " + letterOrWord];
        } else {
          queries := queries + ["Wrong Guess " + letterOrWord];
        }
      } else {
        if wordPlaceholder.UserWins() {
          queries := queries + [Upper(rightWord) + " word is right"];
        } else {
          queries := queries + ["The word to guess is " + Upper(rightWord)];
          var _ := wordPlaceholder.IsInWord(Upper(rightWord));
        }
      }
    }

    /**
     * `onUpdate`: runs the handler the command selects. GUESS upper-cases the
     * guess first; PLAY_AGAIN starts over with `nextWord`, the word the
     * canvas draws from its own dictionary; the other two change nothing here.
     */
    method OnUpdate(data: ActionData, nextWord: string) returns (outcome: Outcome<ActionError>)
      requires Valid()
      modifies this, wordPlaceholder, wordPlaceholder.word, wordPlaceholder.snowman, wordPlaceholder.snowman.parts
      ensures Valid()
      ensures match Lookup(data.command)
        case Failure(e) =>
          outcome == Fail(e) && queries == old(queries) && wordPlaceholder.Snapshot() == old(wordPlaceholder.Snapshot())
        case Success(Guess) =>
          if data.letterOrWord == None then
            outcome == Fail(MissingLetterOrWord) && queries == old(queries)
            && wordPlaceholder.Snapshot() == old(wordPlaceholder.Snapshot())
          else
            var (after, query) := GuessReply(old(wordPlaceholder.Snapshot()), Upper(data.letterOrWord.value));
            outcome == Pass && queries == old(queries) + [query] && wordPlaceholder.Snapshot() == after
        case Success(PlayAgain) =>
          outcome == Pass && queries == old(queries) && wordPlaceholder.Snapshot() == FreshBoard(nextWord)
        case Success(_) =>
          outcome == Pass && queries == old(queries) && wordPlaceholder.Snapshot() == old(wordPlaceholder.Snapshot())
    {
      match Lookup(data.command)
      case Failure(e) =>
        outcome := Fail(e);
      case Success(Guess) =>
        if data.letterOrWord == None {
          outcome := Fail(MissingLetterOrWord);
        } else {
          Guess(Upper(data.letterOrWord.value));
          outcome := Pass;
        }
      case Success(PlayAgain) =>
        wordPlaceholder.Reset(nextWord);
        outcome := Pass;
      case Success(_) =>
        outcome := Pass;
    }
  }
}
