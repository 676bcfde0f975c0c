# A verified model of the block-stacking game

This project models the simulation core of `game.js`, a browser game in
which pastel blocks slide across the top of the canvas, fall under gravity and
must be stacked. It covers:

- **Block motion.** Each frame a falling block gains 0.5 of vertical speed and
  moves down by it. It also moves sideways by `direction * speed`. It bounces
  when that unclamped move would leave the field, and is then clamped into the
  field.
- **Landing and scoring.** The falling block is compared with the top block of
  the stack, with one of three outcomes:
  - a *perfect* drop (both edges within 5 px) scores 3 and extends the combo
    streak, with a second floating text once the streak reaches 3;
  - a *regular* drop scores 1 and breaks the streak;
  - a miss (a collision without horizontal overlap, or a fall below the field)
    ends the run.

  A landing also records the best combo and the high score. It narrows the
  next block by half the overlap (never below 20), raises the speed by 0.1 and
  spawns the next block at the top centre.
- **Lifecycle and floating texts.** The model covers:
  - starting or restarting a run (everything but the high score starts over);
  - ending it;
  - one frame of the game loop, which moves the block, tests the landing, then
    advances every floating text and drops those whose life has run out.

Two behaviours of the code are kept exactly as written:

- The bounce is decided on the position *before* clamping.
- The landing test returns at once when the stack is empty. A run is started
  with an empty stack, so as the code stands no block ever lands and no run
  ever ends by itself. `Runs.StartedRunNeverLands` states this.

The project is in three modules:

- `rules.dfy`, module `Rules`. The game as functions on values:
  - records `BlockState` and `TextState`;
  - the whole game `State`, which holds the `gameState` record, the game's
    floating texts and a log of sound cues;
  - one function per step (`Moved`, `Landing`, `Ticked`, `Restarted`, …);
  - the invariant `Inv` of every reachable state.
- `runs.dfy`, module `Runs`. Lemmas over these functions:
  - the floating-text filter keeps, in order, exactly the texts still alive;
  - every step keeps `Inv`;
  - a frame only raises the score, the records, the speed and the stack;
  - when `Ticked` is iterated over a sequence of frames (`Run`), a stopped
    game is frozen, the best combo is the peak of the run, and the
    empty-stack behaviour above holds.
- `engine.dfy`, module `Engine`. The program's own objects:
  - classes `Block`, `FloatingText` and `Game`, whose methods update fields in
    place;
  - a stack `seq<Block>` that grows by push;
  - floating texts that are updated in place and then filtered.

  Each method is proved to leave the object in the state that the
  corresponding `Rules` function computes from the old state. A footprint
  `Repr` of the objects a game owns lets `GameLoop` run any number of frames
  in a row.

The width and height of the canvas are fields of `Game` set at construction.
They must satisfy `80 <= width` and `0 < height`. The two calls to
`Math.random()` are parameters of type `Roll`, a real in `[0, 1)`: the
direction of a new block (game.js:53) and its colour (game.js:181).
Coordinates, widths and speeds are exact reals.

## Model

| member | source | states |
|---|---|---|
| Rules.NewBlock | game.js:45-55 | a new block has the given position, width and colour, height 25, zero velocities, direction +1 or -1 (+1 exactly when the roll exceeds 0.5), and speed exactly `2 + gameSpeed * 0.5`, so at least 2.5 once the game speed is at least 1 |
| Rules.Colliding | game.js:88-91 | definition, no contract: the falling block's bottom edge is at or below the other block's top edge and its top edge is above the other block's bottom edge; `Rules.LandedOn` states that a landed block still satisfies it |
| Rules.Advanced | game.js:105-108 | life and `y` each go down by exactly 1, while `x`, text, colour and lifetime are unchanged; the text is still alive afterwards exactly when it had more than one frame left, and a live text stays within its lifetime |
| Rules.IsAlive | game.js:123-125 | definition, no contract: life is positive; `Rules.Advanced` and `Runs.SurvivorsExactly` state its role in the filter |
| Rules.NewText | game.js:96-103 | a new text is live, with 60 frames of life out of 60, at the given position with the given text and colour |
| Rules.AddText | game.js:259-261 | definition, no contract: the list of texts grows by one new text at its end; `Engine.Game.AddFloatingText` states it for the object |
| Rules.Initial | game.js:31-41 | definition, no contract: stopped, score, combo and best combo 0, width 80, empty stack, no falling block, speed 1, no texts, the given high score; `Runs.InitialInv` states that it satisfies the invariant |
| Rules.LeftDiff | game.js:197 | definition, no contract: the distance between the left edges; used by `Rules.IsPerfect` |
| Rules.RightDiff | game.js:198 | definition, no contract: the distance between the right edges; used by `Rules.IsPerfect` |
| Rules.IsPerfect | game.js:210-212 | definition, no contract: both edge distances below 5; `Runs.PerfectOverlaps` states what it implies |
| Rules.DirectionFrom | game.js:53 | the direction is +1 or -1, and +1 exactly when the roll exceeds 0.5 |
| Rules.ColorFrom | game.js:181 | the colour picked by `floor(roll * 6)` is one of the six pastel colours |
| Rules.Moved | game.js:57-69 | `vy` grows by 0.5 and `y` by the new `vy`; width, height, colour and speed are unchanged; the direction flips exactly when the unclamped move leaves the field; for `0 < width <= fieldWidth` the new `x` lies in `[0, fieldWidth - width]`, equals the unclamped move exactly when that stays inside, and is 0 or `fieldWidth - width` after a left or right overshoot; a block horizontally within the field's width, with height 25 and direction ±1, stays so (its `y` is not bounded) |
| Rules.Overlap | game.js:201-202 | the overlap is at most either width, and (for positive widths) it is positive exactly when the two horizontal extents intersect |
| Rules.LandedOn | game.js:206-208 | the landed block's bottom edge is the top block's top edge, it is at rest (`vy = vx = 0`), keeps its `x`, width, colour and direction, and still collides with the top block in the sense of `isColliding` (game.js:88-91) |
| Rules.Survivors | game.js:308-311 | a frame never lengthens the list of floating texts and every text it keeps is alive |
| Rules.Spawned | game.js:180-184 | the new block is at `x = width/2 - currentBlockWidth/2`, `y = 0`, with the current width, height 25, zero velocities, speed `2 + gameSpeed * 0.5`, a pastel colour and the rolled direction; nothing else changes; it lies horizontally within the field's width when the current width fits |
| Rules.Ended | game.js:268-270 | the run stops and a game-over cue is emitted; score, records, combo, stack, falling block, texts, width and speed are unchanged |
| Rules.Scored | game.js:210-228 | a perfect drop adds 3 to the score and 1 to the combo, emits the perfect cue and adds one text, or two once the combo reaches 3; a regular drop adds 1, resets the combo, emits the landing cue and adds one text; the old texts are kept in front and new ones start with 60 frames of life; nothing else changes |
| Rules.Recorded | game.js:230-244 | `maxCombo = max(old maxCombo, combo)`, `highScore = max(old highScore, score)`, next width `max(20, width - overlap/2)` (at least 20 and, when the old width is at least 20 and the overlap positive, at most the old width), the landed block pushed on the stack, the speed up by exactly 0.1; nothing else changes |
| Rules.Accepted | game.js:204-248 | the whole accepted landing: the scoring outcome by perfect or regular drop, the records as maxima, the narrower width, the stack grown by exactly the landed block (earlier blocks unchanged), speed +0.1, and a new current block spawned at the top centre with the new width and speed |
| Rules.Landing | game.js:186-257 | without a falling block or with an empty stack nothing changes; an accepted landing is `Accepted`; a miss or a fall below the field is `Ended`; otherwise nothing changes; the stack grows exactly on acceptance; the run stops exactly on a miss; without acceptance score, combo, best combo and stack are unchanged |
| Rules.Ticked | game.js:298-312 | a stopped game is left unchanged; without a falling block only the texts are filtered; a frame adds at most two texts |
| Rules.Restarted | game.js:278-296 | score, combo and best combo 0, width 80, empty stack, speed 1, running, no texts, the high score kept, and a freshly spawned block at the top centre |
| Runs.SurvivorsAppend | game.js:308-311 | filtering a concatenation is the concatenation of the filtered parts, so survivors keep their relative order |
| Runs.SurvivorsExactly | game.js:123-125 | a text is kept exactly when it is the update of some listed text and `isAlive` holds for it (life > 0) |
| Runs.SurvivorsLive | game.js:101-108 | if every listed text has `0 < life <= maxLife = 60`, so has every kept text |
| Runs.PerfectOverlaps | game.js:197-212 | a perfect drop of a block at least 10 wide overlaps the top block by more than its width minus 10, so it is never a miss by overlap (the fall-below-the-field case is not covered) |
| Runs.InitialInv | game.js:31-41 | with a nonnegative stored high score, the state at load time satisfies the invariant |
| Runs.LandingInv | game.js:186-257 | the landing test keeps the invariant: `0 <= score <= highScore`, `0 <= combo <= maxCombo`, width in `[20, 80]`, speed at least 1, every block (stacked or falling) horizontally within the field's width with height 25 and direction ±1, live texts; the vertical position is not bounded |
| Runs.TickedInv | game.js:298-312 | a frame keeps the invariant |
| Runs.RestartedInv | game.js:278-296 | from any state with a nonnegative high score, a restart establishes the invariant |
| Runs.TickedMonotone | game.js:298-312 | over one frame score, high score, best combo, speed and stack only grow (earlier blocks unchanged), the next width only shrinks, a stopped game stays stopped, and `maxCombo = max(old maxCombo, combo)` |
| Runs.RunSnoc | game.js:380-384 | running one more frame after a sequence of frames is one `Ticked` step of the state the sequence reaches |
| Runs.RunInv | game.js:380-384 | the invariant holds after any sequence of frames |
| Runs.RunMonotone | game.js:380-384 | over any sequence of frames the stack is append-only, score, high score, best combo and speed never decrease, the width never increases, and a stopped game never runs again |
| Runs.RunFrozen | game.js:299 | a stopped game is unchanged by any number of frames |
| Runs.PeakCombo | game.js:231-233 | the peak combo of a run is at least the combo it starts with |
| Runs.RunMaxCombo | game.js:231-233 | the best combo after a run is the larger of the best combo before it and the peak combo during it |
| Runs.EmptyStackRun | game.js:187-189 | with an empty stack a running game keeps running, with the same score, combo, records, width and speed, for any number of frames |
| Runs.StartedRunNeverLands | game.js:278-296 | after a restart no frame ever lands a block or ends the run: the score stays 0 and the high score is kept |
| Engine.Block.constructor | game.js:45-55 | a new block is `NewBlock`: height 25, zero velocities, the rolled direction and speed `2 + gameSpeed * 0.5` |
| Engine.Block.Update | game.js:57-69 | the block's new fields are `Moved` of its old ones, and `0 <= x <= fieldWidth - width` when the width fits the field |
| Engine.FloatingText.constructor | game.js:96-103 | a new text has 60 frames of life out of 60 |
| Engine.FloatingText.Update | game.js:105-108 | life and `y` each go down by 1, the rest is unchanged |
| Engine.AdvanceAndFilter | game.js:308-311 | after updating every text in place, the kept list holds distinct texts from the old list, and its contents are `Survivors` of the old contents |
| Engine.Game.constructor | game.js:31-41 | the game starts as `Initial` with the stored high score, satisfies its invariant, and owns only fresh objects |
| Engine.Game.SpawnBlock | game.js:180-184 | a fresh current block, as `Spawned` computes it, with stack and texts untouched |
| Engine.Game.AddFloatingText | game.js:259-261 | one fresh text appended to the list |
| Engine.Game.EndGame | game.js:268-270 | the state becomes `Ended` of the old state |
| Engine.Game.HandleBlockLanding | game.js:186-257 | the state becomes `Landing` of the old state; texts are only appended, and only fresh ones |
| Engine.Game.Settle | game.js:206-208 | the falling block becomes `LandedOn` the top block; nothing else changes |
| Engine.Game.ScoreLanding | game.js:212-228 | the state becomes `Scored` of the old state for the landed block |
| Engine.Game.ScorePerfect | game.js:213-221 | the perfect branch of `Scored` |
| Engine.Game.ScoreRegular | game.js:222-228 | the regular branch of `Scored` |
| Engine.Game.RecordLanding | game.js:230-244 | the state becomes `Recorded` of the old state, with the current block pushed on the stack |
| Engine.Game.FilterTexts | game.js:308-311 | the texts become `Survivors` of the old texts; nothing else changes |
| Engine.Game.Frame | game.js:300-311 | for a running game, the state becomes `Ticked` of the old state and the invariant is kept; the stack grows at most by the old falling block, and the falling block and the texts are old or fresh objects |
| Engine.Game.Update | game.js:298-312 | the state becomes `Ticked` of the old state, the invariant is kept, and the only objects added to the game's footprint are fresh ones |
| Engine.Game.ResetGame | game.js:278-296 | the state becomes `Restarted` of the old state, the invariant holds, and the only objects added to the footprint are fresh ones |
| Engine.GameLoop | game.js:380-384 | after any sequence of frames the state is `Runs.Run` of the old state, the invariant is kept, and the only objects added to the footprint are fresh ones |

## Left out

- Drawing: the `draw` methods, `drawBackgroundElements` and `drawStar` (game.js:71-86, 110-121, 314-378) are presentation only.
- Audio: `initializeAudio` and `playSound` (game.js:136-178) are calls into the Web Audio API. Each call of `playSound` is modelled as a cue appended to `sounds`; `soundEnabled` is always true.
- Page updates: `updateScore` and the `textContent` and `style.display` writes in `endGame` and `resetGame` (game.js:263-266, 271-275, 291-293, 295) only change the page.
- Stored high score: `localStorage.getItem` yields a string or 0 (game.js:34), and `setItem` writes it back (game.js:243). Here the high score is a nonnegative integer given to the `Game` constructor, and the write is not modelled.
- Frame scheduling: `requestAnimationFrame` in `gameLoop` (game.js:380-384) is host plumbing. One call of `Game.Update` is one frame; `Engine.GameLoop` runs a given number of frames, and `Runs.Run` is its value-level counterpart.
- Event handlers: the button listeners and the empty click and keydown handlers (game.js:392-420) have no effect on the simulation apart from calling `resetGame`.
- Floating point: positions are IEEE-754 doubles in the program and exact reals here, so rounding is not modelled.
- Canvas size: `GAME_WIDTH` and `GAME_HEIGHT` come from the canvas (game.js:14-15) and are parameters of the model.
- Default text colour: the `FloatingText` constructor's default colour (game.js:96) is never used by the game, which always passes one.
