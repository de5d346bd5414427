/**
 * The Interactive Canvas callbacks of the current canvas: `onUpdate` looks the
 * upper-cased `state` of the data blob up in a table of handlers, each of which
 * calls one method of the scene with the blob's `wordToDisplay`.
 */
module Assistant {
  import opened Options
  import opened Text
  import opened Wire
  import opened Game

  /** The keys of the handler table. */
  datatype Handler = Correct | Incorrect | WinGame | LoseGame | NewGame | Default

  /** Why an update cannot be handled (the script would throw a TypeError). */
  datatype RouteError =
    | NoHandler(state: string)   // the state names no handler
    | MissingWordToDisplay       // the handler needs a mask the payload lacks

  /** The key under which each handler is registered. */
  function Key(h: Handler): string
  {
    match h
    case Correct => "CORRECT"
    case Incorrect => "INCORRECT"
    case WinGame => "WIN"
    case LoseGame => "LOSE"
    case NewGame => "NEW_GAME"
    case Default => "DEFAULT"
  }

  /**
   * The handler `onUpdate` picks: a missing or empty state selects DEFAULT,
   * any other is upper-cased and must be one of the table's keys.
   */
  function Lookup(state: Option<string>): (r: Result<Handler, RouteError>)
    ensures state == None || state == Some("") ==> r == Success(Default)
    ensures state.Some? && state.value != "" && r.Success? ==> Key(r.value) == Upper(state.value)
    ensures state.Some? && state.value != "" && r.Failure? ==>
      r.error == NoHandler(Upper(state.value)) && forall h :: Key(h) != Upper(state.value)
  {
    if state == None || state == Some("") then Success(Default)
    else
      var name := Upper(state.value);
      if name == "CORRECT" then Success(Correct)
      else if name == "INCORRECT" then Success(Incorrect)
      else if name == "WIN" then Success(WinGame)
      else if name == "LOSE" then Success(LoseGame)
      else if name == "NEW_GAME" then Success(NewGame)
      else if name == "DEFAULT" then Success(Default)
      else Failure(NoHandler(name))
  }

  /** Every handler is reached by its own key. */
  lemma LookupFindsEveryKey(h: Handler)
    ensures Lookup(Some(Key(h))) == Success(h)
  {
    assert IsUpper(Key(h));
    UpperOfUpper(Key(h));
  }

  /** The handler table, key by key. */
  lemma LookupTable()
    ensures Lookup(Some("CORRECT")) == Success(Correct)
    ensures Lookup(Some("INCORRECT")) == Success(Incorrect)
    ensures Lookup(Some("WIN")) == Success(WinGame)
    ensures Lookup(Some("LOSE")) == Success(LoseGame)
    ensures Lookup(Some("NEW_GAME")) == Success(NewGame)
    ensures Lookup(Some("DEFAULT")) == Success(Default)
  {
    LookupFindsEveryKey(Correct);
    LookupFindsEveryKey(Incorrect);
    LookupFindsEveryKey(WinGame);
    LookupFindsEveryKey(LoseGame);
    LookupFindsEveryKey(NewGame);
    LookupFindsEveryKey(Default);
  }

  /** The current canvas's table: the state is matched regardless of its case. */
  lemma LookupIgnoresCase(state: string)
    ensures Lookup(Some(state)) == Lookup(Some(Upper(state)))
  {
    UpperIsUpper(state);
  }

  /** Whether a handler shows the payload's `wordToDisplay`. */
  predicate NeedsWord(h: Handler)
  {
    h == Correct || h == WinGame || h == NewGame
  }

  /**
   * What an update does to the scene and whether it is handled: the chosen
   * handler's effect, and an error for an unknown state or a missing mask
   * (after whatever the handler did before it needed the mask).
   */
  function Deliver(v: View, data: CanvasData): (r: (View, Outcome<RouteError>))
    ensures Lookup(data.state).Failure? ==> r == (v, Fail(Lookup(data.state).error))
    ensures Lookup(data.state).Success? && NeedsWord(Lookup(data.state).value) && data.wordToDisplay.None? ==>
      r.1 == Fail(MissingWordToDisplay)
    ensures r.1 == Pass <==> Lookup(data.state).Success? && (NeedsWord(Lookup(data.state).value) ==> data.wordToDisplay.Some?)
  {
    match Lookup(data.state)
    case Failure(e) => (v, Fail(e))
    case Success(h) =>
      var after := match h
        case Correct => AfterCorrect(v, data.wordToDisplay)
        case Incorrect => AfterIncorrect(v)
        case WinGame => AfterWin(v, data.wordToDisplay)
        case LoseGame => AfterLose(v)
        case NewGame => AfterStart(v, data.wordToDisplay)
        case Default => v;
      (after, if NeedsWord(h) && data.wordToDisplay.None? then Fail(MissingWordToDisplay) else Pass)
  }

  /** A handled update that carries a mask leaves exactly that mask on screen. */
  lemma DeliveredMaskIsShown(v: View, data: CanvasData)
    requires Deliver(v, data).1 == Pass
    requires NeedsWord(Lookup(data.state).value)
    ensures Deliver(v, data).0.text == data.wordToDisplay.value
  {
  }

  class CanvasAssistant {
    const gameScene: Scene

    ghost predicate Valid()
      reads this, gameScene, gameScene.snowPal, gameScene.snowPal.parts
    {
      gameScene.Valid()
    }

    constructor (scene: Scene)
      requires scene.Valid()
      ensures Valid() && gameScene == scene
    {
      gameScene := scene;
    }

    /** `onUpdate`: runs the handler the state selects on the scene. */
    method OnUpdate(data: CanvasData) returns (outcome: Outcome<RouteError>)
      requires Valid()
      modifies gameScene, gameScene.word, gameScene.snowPal, gameScene.snowPal.parts
      ensures Valid()
      ensures (gameScene.Snapshot(), outcome) == Deliver(old(gameScene.Snapshot()), data)
    {
      match Lookup(data.state)
      case Failure(e) =>
        outcome := Fail(e);
      case Success(h) =>
        var shown := true;
        match h {
          case Correct => shown := gameScene.CorrectGuess(data.wordToDisplay);
          case Incorrect => gameScene.IncorrectGuess();
          case WinGame => shown := gameScene.Win(data.wordToDisplay);
          case LoseGame => gameScene.Lose();
          case NewGame => shown := gameScene.Start(data.wordToDisplay);
          case Default =>
        }
        outcome := if shown then Pass else Fail(MissingWordToDisplay);
    }
  }
}
