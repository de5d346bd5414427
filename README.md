# Snow Pal, modelled in Dafny

Snow Pal is a hangman-style game for the Google Assistant. A conversational
fulfillment (a Dialogflow webhook) owns the game. Its per-conversation state
`conv.data` holds the secret word, the mask shown to the player and the count
of incorrect guesses. After every turn it sends the canvas a small data blob:
a `state` tag (NEW_GAME, CORRECT, INCORRECT, WIN, LOSE) and, for some tags,
the mask. Two canvases exist:

- The current canvas (`public/js`) keeps no game logic. A table maps each
  state to a scene handler. The handlers melt a five-part Snow Pal and show
  the mask they are sent.
- The older canvas (`public/classes.js`, `public/action.js`) runs its own copy
  of the guess logic. It has a four-part snowman, and it reports every guess
  back to the conversation as a text query.

The model has one Dafny module per source file:

| module | file | what it holds |
|---|---|---|
| `Engine` | functions/index.js | `conv.data` as a record. The Start Game, Play Again and Guess Letter or Word handlers as methods that return the new record and the command. `updateWordToDisplay` as a loop proved against `Reveal`. |
| `WordPool` | functions/util/dictionary.js | The `Dictionary` class with its `entries` stack. The in-place shuffle over an `array`. |
| `Classes` | public/classes.js | The `Snowman`, `Word` and `WordPlaceholder` classes. A value-level `Board` with the guess and verdict functions their methods are proved against. |
| `CanvasAction` | public/action.js | The older canvas's `commands` table and `onUpdate` dispatch. `guess`, with its outbox of text queries. |
| `Game` | public/js/game.js | `SnowPal`, `Word` and the scene handlers, over visibility flags and the word text. |
| `Assistant` | public/js/assistant.js | The current canvas's handler table and `onUpdate`. |
| `Sync` | functions/index.js with public/js | The fulfillment's commands fed through the current canvas. The canvas stays in step with `conv.data` for any sequence of intents. |

`Options`, `Text` and `Wire` hold shared pieces:

- `Option`, `Result` and `Outcome`;
- the JavaScript string operations the code uses (upper-casing, `repeat`, `indexOf`, the `substr` splice);
- the shape of the data blob.

The model keeps the code's own behaviour, odd corners included:

- The fulfillment judges a guess correct when its upper-cased form occurs anywhere in the word (`indexOf(guess) > -1`). So "OO" in "GOOGLE" is reported CORRECT and reveals nothing (`Sync.SubstringGuessReportedCorrect`).
- The older canvas accepts a multi-letter guess only if it is the whole word. For single letters the two agree (`Sync.SingleLetterVerdictsAgree`).
- The code has no terminal state, so a guess after WIN or LOSE is handled like any other (functions/index.js:134-190).
- Commands carry no sequence number.
- The LOSE blob carries no mask and no secret word (functions/index.js:170-179).

An absent `correctWord` makes the Guess handler throw. The model states that case as the precondition `Engine.WellShaped`.

Some blobs make the canvas script throw a TypeError:

- an unknown `state` on the current canvas, or an unknown `command` on the older one;
- a CORRECT, WIN or NEW_GAME blob without `wordToDisplay` on the current canvas;
- a GUESS blob without `letterOrWord` on the older canvas.

The model returns these as errors.

## Model

| member | source | states |
|---|---|---|
| Text.Upper | functions/index.js:136 | `toUpperCase` keeps the length and upper-cases each character on its own. |
| Text.UpperIsUpper | functions/index.js:136 | Upper-casing is idempotent and its result is upper case. |
| Text.UpperOfUpper | public/classes.js:184 | Upper-casing an already upper-case string gives the same string. |
| Text.Repeat | functions/index.js:114 | `'_'.repeat(n)` has length `n` and holds the placeholder everywhere. |
| Text.IndexOf | functions/index.js:138 | `indexOf` is -1 exactly when the substring does not occur. Otherwise it is the first position where it occurs. |
| Text.Splice | functions/index.js:87-88 | The `substr` splice keeps the length when the replacement fits. A one-character replacement changes exactly that one position. |
| WordPool.Shuffle | functions/util/dictionary.js:55-64 | The in-place shuffle leaves a permutation, whatever each random choice `j` in `0..i` is. |
| WordPool.ShuffledCopy | functions/util/dictionary.js:24 | The shuffled clone has the vocabulary's length and multiset. The vocabulary itself is untouched. |
| WordPool.Dictionary.constructor | functions/util/dictionary.js:34-36 | A new dictionary's `entries` is a permutation of `words`. |
| WordPool.Dictionary.Refill | functions/util/dictionary.js:45 | A refill makes `entries` a fresh permutation of `words`. |
| WordPool.Dictionary.GetWord | functions/util/dictionary.js:43-48 | `getWord` never fails: an empty stack is refilled first. The word returned is in `words`. Exactly the last entry is popped. After a refill, `\|words\| - 1` entries remain. |
| WordPool.WordsAreDistinct | functions/util/dictionary.js:19-22 | The seventeen words are pairwise distinct. |
| WordPool.NoRepeatsWithinCycle | functions/util/dictionary.js:35-47 | The words drawn since the last refill are pairwise distinct. None of them is still waiting in `entries`. |
| WordPool.PermutationKeepsDistinct | functions/util/dictionary.js:57-62 | A permutation of a list without repeats has no repeats. |
| Engine.ToCanvasData | functions/index.js:115-187 | Every blob has a state; the tag each command is sent under is pinned by `Sync.CommandReachesItsHandler`. The blob carries the mask exactly for NEW_GAME, CORRECT and WIN, and that mask is the command's. |
| Engine.Reveal | functions/index.js:81-92 | The exact word gives the word. A single letter reveals every position holding it and leaves the others unchanged. Any other guess leaves the mask unchanged. Length is preserved. |
| Engine.RevealIdempotent | functions/index.js:85-90 | Revealing the same guess twice is revealing it once. |
| Engine.RevealKeepsShape | functions/index.js:81-92 | Every position stays the placeholder or the word's letter. |
| Engine.UpdateWordToDisplay | functions/index.js:81-92 | The `forEach` splice loop computes `Reveal`. |
| Engine.NewRound | functions/index.js:111-120 | A new round has zero misses and the upper-cased word. The mask is the placeholder repeated to the word's length. NEW_GAME carries that mask. |
| Engine.StartGame | functions/index.js:105-121 | Start Game produces `NewRound` of the word `getWord` hands out. When words remain, exactly the last entry is popped and the pool is kept. When none remain, the dictionary is refilled with a permutation of its words and one is popped. |
| Engine.PlayAgain | functions/index.js:207-218 | Play Again resets exactly as Start Game does, with the same effect on the dictionary. |
| Engine.GuessTurn | functions/index.js:134-190 | Correct means the upper-cased guess occurs in the word. Then the counter is unchanged, the mask is revealed, and the command is WIN exactly when the mask equals the word, else CORRECT, with the mask. Otherwise the counter rises by one, the mask is unchanged, and the command is LOSE exactly when the counter is at least 5, else INCORRECT. |
| Engine.GuessLetterOrWord | functions/index.js:134-190 | The handler, step by step, produces `GuessTurn`. |
| Engine.Replay | functions/index.js:134-190 | Handling a series of guesses in turn keeps the state well shaped. |
| Engine.CounterNeverDecreases | functions/index.js:168 | Over any run of guesses the word is fixed. The counter never decreases and rises by at most one per guess. |
| Classes.UncoverReveals | public/classes.js:187-193 | Revealing the guess's letters in turn reveals exactly the positions whose letter is among them. |
| Classes.MatchesOfUpper | public/classes.js:205 | Between upper-case characters the case-insensitive test of `findLetter` is equality. |
| Classes.UncoverKeepsMask | public/classes.js:217-221 | Revealing keeps every position the placeholder or the secret's letter. |
| Classes.ShowNextIndex | public/classes.js:48-53 | `visibleIndex` rises by one until the last part, then stays. |
| Classes.Hit | public/classes.js:180-196 | A guess hits exactly when it is the word in any case, is empty, or is one letter the word contains. |
| Classes.AfterGuess | public/classes.js:124-129 | The word is kept. A hit reveals exactly the positions whose letter is in the guess and shows no part. A miss keeps the mask and shows the next part. |
| Classes.Over | public/classes.js:135-140 | With the snowman index in range, the game is over exactly when it is won or every part is shown. |
| Classes.Won | public/classes.js:147-152 | A win has the whole word revealed, and no game with every part shown is won. |
| Classes.FreshBoard | public/classes.js:163-166 | A new word is upper-cased, fully hidden, and no part is shown. |
| Classes.AfterGuessKeepsWellFormed | public/classes.js:124-129 | A guess keeps the board well formed and the word fixed. The snowman moves by at most one part. |
| Classes.WholeWordRevealsIt | public/classes.js:183-195 | The word itself, in any case, is a hit and makes `display == text`. |
| Classes.AfterGuessCases | public/classes.js:180-196 | A single letter in the word reveals every occurrence and nothing else. A letter not in the word, or several letters other than the word, leave `display` unchanged and show the next part. |
| Classes.RepeatedHitChangesNothing | public/classes.js:217-221 | Re-guessing a letter that hit changes nothing. |
| Classes.FourMissesLose | public/classes.js:48-53 | Four misses on a new word complete the snowman and lose the game. |
| Classes.Snowman.constructor | public/classes.js:27-43 | No part is shown and `visibleIndex` is -1. |
| Classes.Snowman.ShowNext | public/classes.js:48-53 | `visibleIndex` rises by one up to 3 and the flags stay cumulative. At 3 it is a no-op. |
| Classes.Snowman.HasMoreParts | public/classes.js:59-61 | Some part is hidden exactly when `visibleIndex < 3`. |
| Classes.Snowman.Reset | public/classes.js:65-68 | Every part is hidden and `visibleIndex` is -1. |
| Classes.Word.constructor | public/classes.js:163-166 | `text` is upper-cased and `display` is '_' for each letter. |
| Classes.Word.FindLetter | public/classes.js:202-210 | Exactly the positions holding the letter, case-insensitively, in ascending order. |
| Classes.Word.ReplaceAt | public/classes.js:240-243 | The splice of one character replaces exactly that position. |
| Classes.Word.ReplaceLetterPlaceholders | public/classes.js:217-221 | The letter is written at exactly the listed positions. |
| Classes.Word.IsWordComplete | public/classes.js:228-230 | True exactly when `display == text`. |
| Classes.Word.IsInWord | public/classes.js:180-196 | The result is `Hit`: the exact word, one letter of it, or the empty guess. A hit reveals the guess's letters. A miss leaves `display` unchanged. |
| Classes.Word.RevealLetters | public/classes.js:187-195 | The letter loop returns false at the first letter the word lacks, with nothing changed. Otherwise it returns true with every letter revealed. |
| Classes.WordPlaceholder.constructor | public/classes.js:85-90 | A new placeholder shows the fresh board of its word. |
| Classes.WordPlaceholder.IsInWord | public/classes.js:124-129 | The board after the guess is `AfterGuess`. The snowman advances exactly once on a miss and never on a hit. |
| Classes.WordPlaceholder.IsGameOver | public/classes.js:135-140 | True exactly when every part is shown or the word is complete. |
| Classes.WordPlaceholder.UserWins | public/classes.js:147-152 | True exactly when the word is complete and a part is still hidden. |
| Classes.WordPlaceholder.Reset | public/classes.js:113-116 | Reset shows the fresh board of the new word. |
| CanvasAction.Lookup | public/action.js:58-61 | A missing or empty command selects DEFAULT. Any other is upper-cased and names its handler. A command outside the table is an error and matches no key. |
| CanvasAction.LookupFindsEveryKey | public/action.js:32-46 | Each of GUESS, PLAY_AGAIN, TOGGLE_CAPTIONS and DEFAULT reaches its own handler. |
| CanvasAction.LookupIgnoresCase | public/action.js:59 | The command is matched regardless of case. |
| CanvasAction.GuessReply | public/action.js:76-108 | The board after a guess keeps its word and the length of its mask. The outcome and the query are stated by the two lemmas below. |
| CanvasAction.GuessReplyOutcome | public/action.js:95-106 | After a guess the board is well formed and keeps its word. A lost game ends with all four parts shown and the whole word revealed, because the reveal is a hit. Otherwise the board is what the guess alone made it. |
| CanvasAction.GuessReplyQuery | public/action.js:87-103 | While the game goes on, a hit sends `Right Guess X` and a miss `Wrong Guess X`. A win sends `<WORD> word is right`. A loss sends `The word to guess is <WORD>`. |
| CanvasAction.Action.constructor | public/action.js:28-47 | The action wraps the placeholder with an empty outbox. |
| CanvasAction.Action.Guess | public/action.js:76-108 | The guess is checked once with the board updated as `GuessReply` says, and exactly one query is appended. |
| CanvasAction.Action.OnUpdate | public/action.js:32-46 | GUESS upper-cases the guess and runs `guess`. A GUESS without a guess, or an unknown command, is an error that changes nothing. PLAY_AGAIN starts over with a fresh board. TOGGLE_CAPTIONS and DEFAULT change nothing here. |
| Game.Melt | public/js/game.js:259-264 | One more melted part, until all five have melted. |
| Game.AfterStart | public/js/game.js:167-175 | Nothing is melted, no end screen, and the mask is the one sent (or the old text when none was sent). |
| Game.AfterCorrect | public/js/game.js:177-180 | Only the text changes, to the mask sent. |
| Game.AfterIncorrect | public/js/game.js:182-185 | One more part melts while any is left. The text and end screen stay. |
| Game.AfterWin | public/js/game.js:187-191 | The mask sent and the winning screen, with nothing melted further. Without a mask nothing changes. |
| Game.AfterLose | public/js/game.js:193-197 | One more part melts while any is left, the text stays, and the losing screen is requested. |
| Game.MeltStaysInRange | public/js/game.js:259-264 | The melt count stays within `0..5` and never decreases. |
| Game.SnowPal.constructor | public/js/game.js:240-254 | Five hidden parts and `visibleIndex == 0`. |
| Game.SnowPal.MeltNextPart | public/js/game.js:259-264 | The part at the old index is hidden and `visibleIndex` rises by one. At 5 it changes nothing. |
| Game.SnowPal.Reset | public/js/game.js:266-269 | `visibleIndex` is 0 and every part is shown. |
| Game.Word.constructor | public/js/game.js:280-288 | The text starts empty. |
| Game.Word.UpdateText | public/js/game.js:290-294 | A given mask becomes the text. A missing one fails and leaves the text as it was. |
| Game.Scene.constructor | public/js/game.js:155-156 | The scene starts with empty text, nothing melted and no end screen. |
| Game.Scene.Start | public/js/game.js:167-175 | The Snow Pal stands again with nothing melted, the end screen is cleared, and the mask is shown. |
| Game.Scene.CorrectGuess | public/js/game.js:177-180 | The new mask is shown and nothing melts. |
| Game.Scene.IncorrectGuess | public/js/game.js:182-185 | One part melts and the text is unchanged. |
| Game.Scene.Win | public/js/game.js:187-191 | The final mask is shown, nothing melts, and the winning screen is requested. |
| Game.Scene.Lose | public/js/game.js:193-197 | One part melts, the text is unchanged, and the losing screen is requested. |
| Assistant.Lookup | public/js/assistant.js:61 | A missing or empty state selects DEFAULT. Any other is upper-cased and names its handler. A state outside the table is an error. |
| Assistant.LookupFindsEveryKey | public/js/assistant.js:30-49 | Each of the six keys reaches its own handler. |
| Assistant.LookupTable | public/js/assistant.js:30-49 | The table, key by key. |
| Assistant.LookupIgnoresCase | public/js/assistant.js:61 | The state is matched regardless of case, so "win" routes to WIN. |
| Assistant.Deliver | public/js/assistant.js:30-49 | An unknown state is an error that changes nothing. CORRECT, WIN and NEW_GAME without a mask fail. Every other update is handled. |
| Assistant.DeliveredMaskIsShown | public/js/assistant.js:31-45 | A handled CORRECT, WIN or NEW_GAME leaves exactly the blob's mask on screen. |
| Assistant.CanvasAssistant.constructor | public/js/assistant.js:26-29 | The assistant wraps the scene. |
| Assistant.CanvasAssistant.OnUpdate | public/js/assistant.js:60-62 | The scene after an update, and the outcome, are `Deliver`'s. |
| Sync.Respond | functions/index.js:105-190 | Every intent keeps `conv.data` well shaped. A text-only intent changes nothing and sends no data. |
| Sync.CommandReachesItsHandler | functions/index.js:115-187 | Each command is sent under the tag that routes it to its own handler: NEW_GAME to `start`, CORRECT to `correctGuess`, WIN to `win`, INCORRECT to `incorrectGuess`, LOSE to `lose`. |
| Sync.GuessShowsEnding | functions/index.js:139-188 | A hit that completes the word brings up the winning screen. A miss that leaves the counter at 5 or more brings up the losing screen. Any other guess leaves the end screen as it was. |
| Sync.Run | functions/index.js:105-190 | Each intent is handled and its blob delivered to the current canvas in turn. The conversation state stays well shaped. An empty session changes nothing. |
| Sync.DeliverNeverFails | functions/index.js:115-187 | Every blob the fulfillment sends is handled by the current canvas. |
| Sync.NewWordEstablishesSync | functions/index.js:111-120 | After Start Game or Play Again, whatever the canvas showed, it shows the new mask with nothing melted and no end screen. |
| Sync.StepKeepsSync | functions/index.js:134-190 | One intent keeps the canvas's text equal to `wordToDisplay` and its melted parts equal to `min(incorrectGuesses, 5)`. WIN requests the winning screen and LOSE the losing one. |
| Sync.SessionStaysInSync | functions/index.js:134-190 | The same holds after any sequence of intents, and no update fails. |
| Sync.SessionFromNewWord | functions/index.js:105-121 | A session that starts with a new word keeps the canvas in step, whatever the canvas showed before. |
| Sync.GoogleHit | functions/index.js:136-165 | A hit of one letter in "GOOGLE" reveals it and reports CORRECT, or WIN once the word is complete. |
| Sync.GoogleStart | functions/index.js:111-114 | "Google" starts as "GOOGLE" under six placeholders. |
| Sync.GoogleGuessO | functions/index.js:85-90 | "o" reveals both O's. |
| Sync.GoogleGuessG | functions/index.js:85-90 | "g" reveals both G's. |
| Sync.GoogleGuessX | functions/index.js:167-188 | "x" is a miss: the counter becomes 1 and INCORRECT is sent. |
| Sync.GoogleGuessL | functions/index.js:85-90 | "l" reveals the L. |
| Sync.GoogleGuessE | functions/index.js:143-154 | "e" completes the word and WIN is sent. |
| Sync.GoogleViews | public/js/game.js:167-197 | The canvas's view after each command of that round. |
| Sync.GoogleRound | functions/index.js:105-190 | The whole round ends with "GOOGLE" shown, one part melted, and the winning screen. |
| Sync.SubstringGuessReportedCorrect | functions/index.js:138 | "oo" in "GOOGLE" is CORRECT with the mask unchanged, while the older canvas counts it a miss. |
| Sync.SingleLetterVerdictsAgree | public/classes.js:183-191 | For one letter, the older canvas's hit and the fulfillment's `indexOf` test agree. |

## Left out

- Speech and text responses (`conv.ask` strings, `randomArrayItem` and its arrays) are not modelled. Neither are the Welcome, Fallback and Instructions intents, beyond the HtmlResponse without data that they send (`Sync.Intent.Other`).
- The Dialogflow app, firebase-functions and the `HtmlResponse` transport are outside the model. The data blob is passed by value; no delivery order, loss or delay is modelled.
- `Math.random` in `shuffle` is an arbitrary choice of `j` in `0..i`. Its distribution is not modelled.
- `toUpperCase` and `toLocaleUpperCase` are ASCII upper-casing. Locale rules and non-ASCII letters are not modelled.
- public/main.js is not part of this model: captions, keyboard input, camera fades and the Phaser setup. It also holds `startSnowman`, which PLAY_AGAIN calls on the older canvas. main.js draws that word from a client-side `Dictionary` (main.js:64, 203), which this model does not cover, so the next word is the parameter `nextWord` of `CanvasAction.Action.OnUpdate`.
- Sounds, sprites, bitmap-text sizing and positioning, `setCaptions` and `toggleCaptions` are presentation only. So TOGGLE_CAPTIONS changes nothing in the model.
- `setTimeout(displayWinOrLoseScreen, 8000)` in `guess` later calls `finishGame` and sends "Play again or quit?". This timer is not modelled.
- `displayGameOverScreen` fades the camera and then shows the win or lose image. The model records the requested end screen at once, as `Game.Scene.ending`.
- `Game.Word.UpdateText`: when the mask is missing, the script assigns `undefined` to the bitmap text before it throws. What Phaser then displays is not modelled, so the model leaves the text unchanged. Effects that came before the throw are kept: `start` still resets the Snow Pal.
- The guess handler's precondition `Engine.WellShaped` is a restriction. Guessing before any Start Game makes the handler throw on the absent `correctWord`, and the model does not cover that case.
