/**
 * The conversation and the current canvas together: every command the
 * fulfillment emits is serialised into a data blob and delivered to the
 * canvas's `onUpdate`. Between the two there is no shared state beyond these
 * messages, so the canvas shows the right thing only if each command carries
 * enough to keep it in step.
 */
module Sync {
  import opened Options
  import opened Text
  import opened Wire
  import opened Engine
  import opened Game
  import opened Assistant
  import Classes

  /**
   * What the player does: start (or restart) with a drawn word, guess, or
   * anything else (Welcome, Fallback, Instructions), which answers in speech
   * and sends an HtmlResponse without data.
   */
  datatype Intent = NewWord(word: string) | Guess(letterOrWord: string) | Other

  /** The fulfillment's handling of one intent: the new `conv.data` and the data blob sent. */
  function Respond(data: ConvData, intent: Intent): (r: (ConvData, CanvasData))
    requires WellShaped(data)
    ensures WellShaped(r.0)
    ensures intent.Other? ==> r == (data, CanvasData(None, None))
  {
    match intent
    case NewWord(word) => var t := NewRound(word); (t.data, ToCanvasData(t.command))
    case Guess(letterOrWord) => var t := GuessTurn(data, letterOrWord); (t.data, ToCanvasData(t.command))
    case Other => (data, CanvasData(None, None))
  }

  /** The canvas shows the conversation's mask and one melted part per miss, at most five. */
  predicate InSync(data: ConvData, view: View)
  {
    view.text == data.wordToDisplay && view.melted == Min(data.incorrectGuesses, PartCount)
  }

  /** Every blob the fulfillment sends names a handler and carries the mask it needs. */
  lemma DeliverNeverFails(view: View, data: ConvData, intent: Intent)
    requires WellShaped(data)
    ensures Deliver(view, Respond(data, intent).1).1 == Pass
  {
    LookupTable();
  }

  /**
   * A new word brings any canvas in step: the mask of placeholders, a
   * standing Snow Pal and no end-of-game screen.
   */
  lemma NewWordEstablishesSync(view: View, data: ConvData, word: string)
    requires WellShaped(data)
    ensures var (next, blob) := Respond(data, NewWord(word)); var (after, outcome) := Deliver(view, blob);
      outcome == Pass && InSync(next, after) && after.text == next.wordToDisplay
      && after.melted == 0 && after.ending == None
  {
    LookupTable();
  }

  /**
   * One intent keeps the two in step; a WIN blob requests the winning
   * screen, a LOSE blob the losing one, and a blob without data changes nothing.
   */
  lemma StepKeepsSync(data: ConvData, view: View, intent: Intent)
    requires WellShaped(data) && InSync(data, view)
    ensures var (next, blob) := Respond(data, intent); var (after, outcome) := Deliver(view, blob);
      && outcome == Pass
      && InSync(next, after)
      && (blob.state == Some("WIN") ==> after.ending == Some(true))
      && (blob.state == Some("LOSE") ==> after.ending == Some(false))
      && (intent.Other? ==> after == view)
  {
    LookupTable();
  }

  /** The handler of the current canvas that each command of the fulfillment is routed to. */
  function HandlerOf(command: Command): Handler
  {
    match command
    case NewGame(_) => Handler.NewGame
    case Correct(_) => Handler.Correct
    case Win(_) => WinGame
    case Incorrect => Handler.Incorrect
    case Lose => LoseGame
  }

  /** Every command is sent under the tag that routes it to its own scene handler. */
  lemma CommandReachesItsHandler(command: Command)
    ensures Lookup(ToCanvasData(command).state) == Success(HandlerOf(command))
  {
    LookupTable();
  }

  /**
   * The end screen after a guess, from the fulfillment's side: a hit that
   * completes the word shows the winning screen, a miss that reaches the
   * limit shows the losing one, and any other guess leaves the screen as it was.
   */
  lemma GuessShowsEnding(data: ConvData, view: View, letterOrWord: string)
    requires WellShaped(data)
    ensures var (next, blob) := Respond(data, Guess(letterOrWord)); var after := Deliver(view, blob).0;
      var hit := Occurs(Upper(letterOrWord), data.correctWord);
      && (hit && next.wordToDisplay == next.correctWord ==> after.ending == Some(true))
      && (!hit && next.incorrectGuesses >= MaxIncorrectGuesses ==> after.ending == Some(false))
      && (hit && next.wordToDisplay != next.correctWord ==> after.ending == view.ending)
      && (!hit && next.incorrectGuesses < MaxIncorrectGuesses ==> after.ending == view.ending)
  {
    CommandReachesItsHandler(GuessTurn(data, letterOrWord).command);
  }

  /** A whole session: the final conversation state, the final view, and whether every update was handled. */
  function Run(data: ConvData, view: View, intents: seq<Intent>): (r: (ConvData, View, bool))
    requires WellShaped(data)
    ensures WellShaped(r.0)
    ensures intents == [] ==> r == (data, view, true)
    decreases |intents|
  {
    if intents == [] then (data, view, true)
    else
      var (next, blob) := Respond(data, intents[0]);
      var (after, outcome) := Deliver(view, blob);
      var (d, v, ok) := Run(next, after, intents[1..]);
      (d, v, ok && outcome == Pass)
  }

  /** Once in step, the two stay in step for any sequence of intents, and no update fails. */
  lemma {:induction false} SessionStaysInSync(data: ConvData, view: View, intents: seq<Intent>)
    requires WellShaped(data) && InSync(data, view)
    ensures Run(data, view, intents).2
    ensures InSync(Run(data, view, intents).0, Run(data, view, intents).1)
    decreases |intents|
  {
    if intents != [] {
      var (next, blob) := Respond(data, intents[0]);
      StepKeepsSync(data, view, intents[0]);
      SessionStaysInSync(next, Deliver(view, blob).0, intents[1..]);
    }
  }

  /** A session that begins with a new word keeps the canvas in step whatever it showed before. */
  lemma SessionFromNewWord(data: ConvData, view: View, word: string, intents: seq<Intent>)
    requires WellShaped(data)
    ensures var (d, v, ok) := Run(data, view, [NewWord(word)] + intents);
      ok && InSync(d, v)
  {
    var (next, blob) := Respond(data, NewWord(word));
    NewWordEstablishesSync(view, data, word);
    SessionStaysInSync(next, Deliver(view, blob).0, intents);
    assert ([NewWord(word)] + intents)[1..] == intents;
  }

  /** A correct single-letter guess in the "Google" round, as the fulfillment handles it. */
  lemma GoogleHit(mask: string, misses: nat, guess: string, at: nat, after: string)
    requires |mask| == 6 && WellShaped(ConvData("GOOGLE", mask, misses))
    requires |guess| == 1 && at < 6 && "GOOGLE"[at] == UpperChar(guess[0])
    requires after == Reveal("GOOGLE", mask, Upper(guess))
    ensures GuessTurn(ConvData("GOOGLE", mask, misses), guess)
         == Turn(ConvData("GOOGLE", after, misses),
                 if after == "GOOGLE" then Command.Win(after) else Command.Correct(after))
  {
    assert Upper(guess) == ["GOOGLE"[at]];
    assert OccursAt("GOOGLE", Upper(guess), at);
  }

  /** The fulfillment's side of the "Google" round, turn by turn. */
  lemma GoogleStart()
    ensures NewRound("Google") == Turn(ConvData("GOOGLE", "______", 0), Command.NewGame("______"))
  {
    assert Upper("Google") == "GOOGLE";
  }

  lemma GoogleGuessO()
    ensures GuessTurn(ConvData("GOOGLE", "______", 0), "o")
         == Turn(ConvData("GOOGLE", "_OO___", 0), Command.Correct("_OO___"))
  {
    assert Upper("o") == "O" && Reveal("GOOGLE", "______", "O") == "_OO___";
    GoogleHit("______", 0, "o", 1, "_OO___");
  }

  lemma GoogleGuessG()
    ensures GuessTurn(ConvData("GOOGLE", "_OO___", 0), "g")
         == Turn(ConvData("GOOGLE", "GOOG__", 0), Command.Correct("GOOG__"))
  {
    assert Upper("g") == "G" && Reveal("GOOGLE", "_OO___", "G") == "GOOG__";
    GoogleHit("_OO___", 0, "g", 0, "GOOG__");
  }

  lemma GoogleGuessX()
    ensures GuessTurn(ConvData("GOOGLE", "GOOG__", 0), "x")
         == Turn(ConvData("GOOGLE", "GOOG__", 1), Command.Incorrect)
  {
    assert Upper("x") == "X";
    forall k | 0 <= k <= 6 ensures !OccursAt("GOOGLE", "X", k) {
      if k < 6 {
        assert "GOOGLE"[k..k + 1] == ["GOOGLE"[k]];
      }
    }
  }

  lemma GoogleGuessL()
    ensures GuessTurn(ConvData("GOOGLE", "GOOG__", 1), "l")
         == Turn(ConvData("GOOGLE", "GOOGL_", 1), Command.Correct("GOOGL_"))
  {
    assert Upper("l") == "L" && Reveal("GOOGLE", "GOOG__", "L") == "GOOGL_";
    GoogleHit("GOOG__", 1, "l", 4, "GOOGL_");
  }

  lemma GoogleGuessE()
    ensures GuessTurn(ConvData("GOOGLE", "GOOGL_", 1), "e")
         == Turn(ConvData("GOOGLE", "GOOGLE", 1), Command.Win("GOOGLE"))
  {
    assert Upper("e") == "E" && Reveal("GOOGLE", "GOOGL_", "E") == "GOOGLE";
    GoogleHit("GOOGL_", 1, "e", 5, "GOOGLE");
  }

  /** The canvas's side of the "Google" round: each command handled, view by view. */
  lemma GoogleViews()
    ensures Deliver(View("", 0, None), ToCanvasData(Command.NewGame("______"))) == (View("______", 0, None), Pass)
    ensures Deliver(View("______", 0, None), ToCanvasData(Command.Correct("_OO___"))) == (View("_OO___", 0, None), Pass)
    ensures Deliver(View("_OO___", 0, None), ToCanvasData(Command.Correct("GOOG__"))) == (View("GOOG__", 0, None), Pass)
    ensures Deliver(View("GOOG__", 0, None), ToCanvasData(Command.Incorrect)) == (View("GOOG__", 1, None), Pass)
    ensures Deliver(View("GOOG__", 1, None), ToCanvasData(Command.Correct("GOOGL_"))) == (View("GOOGL_", 1, None), Pass)
    ensures Deliver(View("GOOGL_", 1, None), ToCanvasData(Command.Win("GOOGLE"))) == (View("GOOGLE", 1, Some(true)), Pass)
  {
    LookupTable();
  }

  /**
   * A round of "Google": O reveals both O's, G both G's, X is a miss, L and
   * E complete the word, and the canvas ends on the winning screen with one
   * part melted.
   */
  lemma GoogleRound(data: ConvData, intents: seq<Intent>)
    requires WellShaped(data)
    requires intents == [NewWord("Google"), Guess("o"), Guess("g"), Guess("x"), Guess("l"), Guess("e")]
    ensures Run(data, View("", 0, None), intents)
         == (ConvData("GOOGLE", "GOOGLE", 1), View("GOOGLE", 1, Some(true)), true)
  {
    GoogleStart();
    GoogleGuessO();
    GoogleGuessG();
    GoogleGuessX();
    GoogleGuessL();
    GoogleGuessE();
    GoogleViews();
    var d1 := ConvData("GOOGLE", "______", 0);
    var d2 := ConvData("GOOGLE", "_OO___", 0);
    var d3 := ConvData("GOOGLE", "GOOG__", 0);
    var d4 := ConvData("GOOGLE", "GOOG__", 1);
    var d5 := ConvData("GOOGLE", "GOOGL_", 1);
    var d6 := ConvData("GOOGLE", "GOOGLE", 1);
    var v1 := View("______", 0, None);
    var v2 := View("_OO___", 0, None);
    var v3 := View("GOOG__", 0, None);
    var v4 := View("GOOG__", 1, None);
    var v5 := View("GOOGL_", 1, None);
    var v6 := View("GOOGLE", 1, Some(true));
    assert Run(d6, v6, intents[6..]) == (d6, v6, true);
    assert Run(d5, v5, intents[5..]) == (d6, v6, true);
    assert Run(d4, v4, intents[4..]) == (d6, v6, true);
    assert Run(d3, v3, intents[3..]) == (d6, v6, true);
    assert Run(d2, v2, intents[2..]) == (d6, v6, true);
    assert Run(d1, v1, intents[1..]) == (d6, v6, true);
  }

  /**
   * The fulfillment counts any substring of the word as a correct guess: "oo"
   * in "GOOGLE" is reported CORRECT and reveals nothing, while the older
   * canvas's `Word.isInWord`, which accepts a guess of several letters only
   * when it is the whole word, calls it a miss.
   */
  lemma SubstringGuessReportedCorrect()
    ensures GuessTurn(ConvData("GOOGLE", "______", 0), "oo")
         == Turn(ConvData("GOOGLE", "______", 0), Command.Correct("______"))
    ensures !Classes.Hit("GOOGLE", "oo")
  {
    assert Upper("oo") == "OO";
    assert OccursAt("GOOGLE", "OO", 1);
  }

  /** For a single letter the two engines agree: a hit exactly when the letter occurs in the word. */
  lemma SingleLetterVerdictsAgree(word: string, letter: string)
    requires |letter| == 1
    ensures Classes.Hit(Upper(word), letter) <==> Occurs(Upper(letter), Upper(word))
  {
    var w, g := Upper(word), Upper(letter);
    if g[0] in w {
      var k :| 0 <= k < |w| && w[k] == g[0];
      assert w[k..k + 1] == g;
      assert OccursAt(w, g, k);
    }
    if Occurs(g, w) {
      var k :| 0 <= k <= |w| && OccursAt(w, g, k);
      assert w[k] == w[k..k + 1][0];
    }
  }
}
