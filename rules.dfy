/** The rules of the block-stacking game as functions on values.

    A falling block moves under gravity and bounces off the side walls; when it
    reaches the top of the stack it either lands (scoring one point, or three for
    a perfect alignment that also extends the combo streak) or misses, which ends
    the run.  The objects of the game (module Engine) are proved to follow these
    functions step by step; the lemmas of module Runs are stated over them.

    Positions and speeds are exact reals.  The width and height of the playing
    field depend on the canvas and are passed in; every value the game draws from
    Math.random() is passed in as a Roll. */
module Rules {

  // ---------------------------------------------------------------- settings

  const BlockHeight: real := 25.0
  const Gravity: real := 0.5
  const InitialBlockWidth: real := 80.0
  /** The next block never gets narrower than this. */
  const MinBlockWidth: real := 20.0
  /** Both edges within this many pixels of the top block make a perfect drop. */
  const PerfectTolerance: real := 5.0
  const SpeedStep: real := 0.1
  /** A perfect drop that brings the combo to at least this also shows a combo text. */
  const ComboThreshold: int := 3
  /** Frames a floating text lives. */
  const TextLife: int := 60

  const PastelColors: seq<string> :=
    ["#FFB6D9", "#D9B6FF", "#B6D9FF", "#FFCBA4", "#D4F4DD", "#FFE5B4"]

  const PerfectLabel: string := "\U{1F496} Perfect!"
  const PerfectColor: string := "#FF1493"
  const ComboLabel: string := "\U{2728} Cute Combo!"
  const ComboColor: string := "#FFB6D9"
  const PlusOneLabel: string := "+1"
  const PlusOneColor: string := "#FF69B4"

  /** A value of Math.random(). */
  type Roll = r: real | 0.0 <= r < 1.0

  /** The canvas must be positive and at least as wide as the first block. */
  predicate ValidField(width: real, height: real) {
    InitialBlockWidth <= width && 0.0 < height
  }

  // ---------------------------------------------------------------- values

  datatype Option<T> = None | Some(value: T)

  /** A block: top-left corner, size, colour, velocities, direction (+1 right, -1 left)
      and horizontal speed. */
  datatype BlockState = BlockState(
    x: real, y: real, width: real, height: real, color: string,
    vx: real, vy: real, direction: int, speed: real)

  /** A score annotation drifting up the screen. */
  datatype TextState = TextState(
    x: real, y: real, text: string, color: string, life: int, maxLife: int)

  /** The sound cues the game hands to the audio layer. */
  datatype Cue = LandCue | PerfectCue | GameOverCue

  /** The whole game: the game-state record, the game's floating texts and the
      sound cues emitted so far. */
  datatype State = State(
    isRunning: bool,
    score: int,
    highScore: int,
    combo: int,
    maxCombo: int,
    currentBlockWidth: real,
    blocks: seq<BlockState>,
    current: Option<BlockState>,
    gameSpeed: real,
    texts: seq<TextState>,
    sounds: seq<Cue>)

  function Min(a: real, b: real): real { if a <= b then a else b }
  function Max(a: real, b: real): real { if a >= b then a else b }
  function Abs(a: real): real { if a < 0.0 then -a else a }
  function IntMax(a: int, b: int): int { if a >= b then a else b }

  // ---------------------------------------------------------------- blocks

  /** The direction a new block starts in. */
  function DirectionFrom(roll: Roll): (d: int)
    ensures d == 1 || d == -1
    ensures d == 1 <==> roll > 0.5
  {
    if roll > 0.5 then 1 else -1
  }

  /** The palette entry a roll picks: floor(roll * 6). */
  function ColorFrom(roll: Roll): (c: string)
    ensures c in PastelColors
  {
    var i := (roll * |PastelColors| as real).Floor;
    assert 0 <= i < |PastelColors|;
    PastelColors[i]
  }

  /** A freshly constructed block: at rest vertically, speed 2 + gameSpeed/2. */
  function NewBlock(x: real, y: real, width: real, color: string, dirRoll: Roll, gameSpeed: real): (r: BlockState)
    ensures r.x == x && r.y == y && r.width == width && r.color == color
    ensures r.height == BlockHeight && r.vx == 0.0 && r.vy == 0.0
    ensures (r.direction == 1 || r.direction == -1) && (r.direction == 1 <==> dirRoll > 0.5)
    ensures r.speed == 2.0 + gameSpeed * 0.5 && (1.0 <= gameSpeed ==> 2.5 <= r.speed)
  {
    BlockState(x, y, width, BlockHeight, color, 0.0, 0.0, DirectionFrom(dirRoll), 2.0 + gameSpeed * 0.5)
  }

  /** Where the block would be moved horizontally before any clamping. */
  function Target(b: BlockState): real {
    b.x + b.direction as real * b.speed
  }

  /** The unclamped move leaves the field on the left or on the right. */
  predicate Overshoots(b: BlockState, fieldWidth: real) {
    Target(b) < 0.0 || Target(b) + b.width > fieldWidth
  }

  /** The block lies horizontally within the field's width and is well formed
      (height 25, direction +1 or -1); its vertical position is not limited. */
  predicate WithinWidth(b: BlockState, fieldWidth: real) {
    0.0 < b.width <= fieldWidth && 0.0 <= b.x <= fieldWidth - b.width &&
    b.height == BlockHeight && (b.direction == 1 || b.direction == -1)
  }

  /** One frame of block motion: gravity, sideways move, bounce decided on the
      unclamped position, then clamping into the field. */
  function Moved(b: BlockState, fieldWidth: real): (r: BlockState)
    ensures r.vy == b.vy + Gravity && r.y == b.y + r.vy
    ensures r.width == b.width && r.height == b.height && r.color == b.color
    ensures r.vx == b.vx && r.speed == b.speed
    ensures r.direction == if Overshoots(b, fieldWidth) then -b.direction else b.direction
    ensures 0.0 < b.width <= fieldWidth ==> 0.0 <= r.x <= fieldWidth - b.width
    ensures 0.0 < b.width <= fieldWidth ==> (r.x == Target(b) <==> !Overshoots(b, fieldWidth))
    ensures 0.0 < b.width <= fieldWidth && Target(b) < 0.0 ==> r.x == 0.0
    ensures 0.0 < b.width <= fieldWidth && Target(b) + b.width > fieldWidth ==> r.x == fieldWidth - b.width
    ensures WithinWidth(b, fieldWidth) ==> WithinWidth(r, fieldWidth)
  {
    var vy := b.vy + Gravity;
    var y := b.y + vy;
    var x := Target(b);
    var direction := if x < 0.0 || x + b.width > fieldWidth then b.direction * -1 else b.direction;
    b.(vy := vy, y := y, x := Max(0.0, Min(x, fieldWidth - b.width)), direction := direction)
  }

  /** The falling block has reached the height of the top block. */
  predicate Colliding(cur: BlockState, top: BlockState) {
    cur.y + cur.height >= top.y && cur.y < top.y + top.height
  }

  /** Length of the horizontal intersection of the two blocks (negative when apart). */
  function Overlap(cur: BlockState, top: BlockState): (o: real)
    ensures o <= cur.width && o <= top.width
    ensures 0.0 < cur.width && 0.0 < top.width ==>
      (o > 0.0 <==> cur.x < top.x + top.width && top.x < cur.x + cur.width)
  {
    Min(cur.x + cur.width, top.x + top.width) - Max(cur.x, top.x)
  }

  function LeftDiff(cur: BlockState, top: BlockState): real {
    Abs(cur.x - top.x)
  }

  function RightDiff(cur: BlockState, top: BlockState): real {
    Abs((cur.x + cur.width) - (top.x + top.width))
  }

  /** Both edges are within the tolerance. */
  predicate IsPerfect(cur: BlockState, top: BlockState) {
    LeftDiff(cur, top) < PerfectTolerance && RightDiff(cur, top) < PerfectTolerance
  }

  /** The block after it has landed on `top`: its bottom edge on the top
      block's top edge, at rest, still in contact with it. */
  function LandedOn(cur: BlockState, top: BlockState): (r: BlockState)
    ensures r.y + r.height == top.y && r.vy == 0.0 && r.vx == 0.0
    ensures r.x == cur.x && r.width == cur.width && r.height == cur.height && r.color == cur.color
    ensures r.direction == cur.direction && r.speed == cur.speed
    ensures 0.0 < cur.height && 0.0 < top.height ==> Colliding(r, top)
  {
    cur.(y := top.y - cur.height, vy := 0.0, vx := 0.0)
  }

  // ---------------------------------------------------------------- floating texts

  function NewText(x: real, y: real, text: string, color: string): (r: TextState)
    ensures LiveText(r) && r.life == r.maxLife
    ensures r.x == x && r.y == y && r.text == text && r.color == color
  {
    TextState(x, y, text, color, TextLife, TextLife)
  }

  /** One frame of a floating text: one frame less to live, one pixel higher. */
  function Advanced(t: TextState): (r: TextState)
    ensures r.life == t.life - 1 && r.y == t.y - 1.0
    ensures r.x == t.x && r.text == t.text && r.color == t.color && r.maxLife == t.maxLife
    ensures IsAlive(r) <==> 1 < t.life
    ensures LiveText(t) && IsAlive(r) ==> LiveText(r)
  {
    t.(life := t.life - 1, y := t.y - 1.0)
  }

  predicate IsAlive(t: TextState) {
    t.life > 0
  }

  /** A text as it can be on screen: alive, within its lifetime of 60 frames. */
  predicate LiveText(t: TextState) {
    0 < t.life <= t.maxLife && t.maxLife == TextLife
  }

  /** The texts kept by one frame: each is advanced, and those still alive are
      kept in their order. */
  function Survivors(ts: seq<TextState>): (r: seq<TextState>)
    ensures |r| <= |ts|
    ensures forall j :: 0 <= j < |r| ==> IsAlive(r[j])
    decreases |ts|
  {
    if ts == [] then []
    else
      var t := Advanced(ts[|ts| - 1]);
      Survivors(ts[..|ts| - 1]) + (if IsAlive(t) then [t] else [])
  }

  // ---------------------------------------------------------------- the game

  /** The game before the first start: stopped, with the stored high score. */
  function Initial(highScore: int): State {
    State(false, 0, highScore, 0, 0, InitialBlockWidth, [], None, 1.0, [], [])
  }

  /** The invariant every reachable state keeps. */
  predicate Inv(s: State, fieldWidth: real) {
    0 <= s.score <= s.highScore &&
    0 <= s.combo <= s.maxCombo &&
    MinBlockWidth <= s.currentBlockWidth <= InitialBlockWidth &&
    1.0 <= s.gameSpeed &&
    (forall i :: 0 <= i < |s.blocks| ==> WithinWidth(s.blocks[i], fieldWidth)) &&
    (s.current.Some? ==> WithinWidth(s.current.value, fieldWidth)) &&
    (forall i :: 0 <= i < |s.texts| ==> LiveText(s.texts[i]))
  }

  /** A new falling block, centred at the top with the current width. */
  function Spawned(s: State, fieldWidth: real, dirRoll: Roll, colorRoll: Roll): (r: State)
    ensures r.current.Some?
    ensures var b := r.current.value;
      b.x == fieldWidth / 2.0 - s.currentBlockWidth / 2.0 && b.y == 0.0 &&
      b.width == s.currentBlockWidth && b.height == BlockHeight &&
      b.vx == 0.0 && b.vy == 0.0 && b.speed == 2.0 + s.gameSpeed * 0.5 &&
      b.color in PastelColors && b.direction == DirectionFrom(dirRoll)
    ensures r == s.(current := r.current)
    ensures 0.0 < s.currentBlockWidth <= fieldWidth ==> WithinWidth(r.current.value, fieldWidth)
  {
    var x := fieldWidth / 2.0 - s.currentBlockWidth / 2.0;
    s.(current := Some(NewBlock(x, 0.0, s.currentBlockWidth, ColorFrom(colorRoll), dirRoll, s.gameSpeed)))
  }

  function AddText(s: State, x: real, y: real, text: string, color: string): State {
    s.(texts := s.texts + [NewText(x, y, text, color)])
  }

  /** The run ends: nothing but the running flag and the cue log changes. */
  function Ended(s: State): (r: State)
    ensures !r.isRunning && r.sounds == s.sounds + [GameOverCue]
    ensures r.score == s.score && r.highScore == s.highScore
    ensures r.combo == s.combo && r.maxCombo == s.maxCombo
    ensures r.blocks == s.blocks && r.current == s.current && r.texts == s.texts
    ensures r.currentBlockWidth == s.currentBlockWidth && r.gameSpeed == s.gameSpeed
  {
    s.(isRunning := false, sounds := s.sounds + [GameOverCue])
  }

  /** A falling block and a stack to land on. */
  predicate HasTop(s: State) {
    s.current.Some? && s.blocks != []
  }

  function Top(s: State): BlockState
    requires s.blocks != []
  {
    s.blocks[|s.blocks| - 1]
  }

  /** The falling block reaches the top block and overlaps it horizontally. */
  predicate Accepts(s: State) {
    HasTop(s) && Colliding(s.current.value, Top(s)) && Overlap(s.current.value, Top(s)) > 0.0
  }

  /** The falling block reaches the top block beside it, or drops below the field. */
  predicate Misses(s: State, fieldHeight: real) {
    HasTop(s) &&
    if Colliding(s.current.value, Top(s)) then Overlap(s.current.value, Top(s)) <= 0.0
    else s.current.value.y > fieldHeight
  }

  /** Score, combo, sound cue and floating texts of a landing of `landed`:
      +3 and one more in the streak for a perfect drop (with a second text once
      the streak reaches the threshold), +1 and a broken streak otherwise. */
  function Scored(s: State, landed: BlockState, perfect: bool): (r: State)
    ensures perfect ==>
      r.score == s.score + 3 && r.combo == s.combo + 1 &&
      r.sounds == s.sounds + [PerfectCue] &&
      |r.texts| == |s.texts| + (if r.combo >= ComboThreshold then 2 else 1)
    ensures !perfect ==>
      r.score == s.score + 1 && r.combo == 0 &&
      r.sounds == s.sounds + [LandCue] &&
      |r.texts| == |s.texts| + 1
    ensures r.texts[..|s.texts|] == s.texts
    ensures forall i :: |s.texts| <= i < |r.texts| ==> r.texts[i].life == TextLife && r.texts[i].maxLife == TextLife
    ensures r.isRunning == s.isRunning && r.highScore == s.highScore && r.maxCombo == s.maxCombo
    ensures r.currentBlockWidth == s.currentBlockWidth && r.blocks == s.blocks
    ensures r.current == s.current && r.gameSpeed == s.gameSpeed
  {
    var centre := landed.x + landed.width / 2.0;
    if perfect then
      var p := AddText(s.(score := s.score + 3, combo := s.combo + 1, sounds := s.sounds + [PerfectCue]),
                       centre, landed.y, PerfectLabel, PerfectColor);
      if p.combo >= ComboThreshold then AddText(p, centre, landed.y - 30.0, ComboLabel, ComboColor) else p
    else
      AddText(s.(score := s.score + 1, combo := 0, sounds := s.sounds + [LandCue]),
              centre, landed.y, PlusOneLabel, PlusOneColor)
  }

  /** What a landing records after scoring: the best streak, the narrower next
      width, the grown stack, the faster speed and the high score. */
  function Recorded(s: State, landed: BlockState, overlap: real): (r: State)
    ensures r.maxCombo == IntMax(s.maxCombo, s.combo)
    ensures r.highScore == IntMax(s.highScore, s.score)
    ensures r.currentBlockWidth == Max(MinBlockWidth, s.currentBlockWidth - overlap * 0.5)
    ensures MinBlockWidth <= r.currentBlockWidth
    ensures MinBlockWidth <= s.currentBlockWidth && 0.0 < overlap ==> r.currentBlockWidth <= s.currentBlockWidth
    ensures r.blocks == s.blocks + [landed]
    ensures r.gameSpeed == s.gameSpeed + SpeedStep
    ensures r.isRunning == s.isRunning && r.score == s.score && r.combo == s.combo
    ensures r.texts == s.texts && r.sounds == s.sounds && r.current == s.current
  {
    var s1 := s.(maxCombo := if s.combo > s.maxCombo then s.combo else s.maxCombo);
    var s2 := s1.(currentBlockWidth := Max(MinBlockWidth, s1.currentBlockWidth - overlap * 0.5));
    var s3 := s2.(blocks := s2.blocks + [landed]);
    var s4 := s3.(gameSpeed := s3.gameSpeed + SpeedStep);
    s4.(highScore := if s4.score > s4.highScore then s4.score else s4.highScore)
  }

  /** An accepted landing: the block is put on the stack, scored and recorded,
      and the next block is spawned. */
  function Accepted(s: State, fieldWidth: real, dirRoll: Roll, colorRoll: Roll): (r: State)
    requires Accepts(s)
    ensures var cur, top := s.current.value, Top(s);
      if IsPerfect(cur, top) then
        r.score == s.score + 3 && r.combo == s.combo + 1 &&
        r.sounds == s.sounds + [PerfectCue] &&
        |r.texts| == |s.texts| + (if r.combo >= ComboThreshold then 2 else 1)
      else
        r.score == s.score + 1 && r.combo == 0 &&
        r.sounds == s.sounds + [LandCue] &&
        |r.texts| == |s.texts| + 1
    ensures r.texts[..|s.texts|] == s.texts
    ensures forall i :: |s.texts| <= i < |r.texts| ==> r.texts[i].life == TextLife && r.texts[i].maxLife == TextLife
    ensures r.maxCombo == IntMax(s.maxCombo, r.combo)
    ensures r.highScore == IntMax(s.highScore, r.score)
    ensures r.currentBlockWidth == Max(MinBlockWidth, s.currentBlockWidth - Overlap(s.current.value, Top(s)) * 0.5)
    ensures MinBlockWidth <= r.currentBlockWidth
    ensures MinBlockWidth <= s.currentBlockWidth ==> r.currentBlockWidth <= s.currentBlockWidth
    ensures r.blocks == s.blocks + [LandedOn(s.current.value, Top(s))]
    ensures r.gameSpeed == s.gameSpeed + SpeedStep
    ensures r.current == Some(NewBlock(fieldWidth / 2.0 - r.currentBlockWidth / 2.0, 0.0,
                                       r.currentBlockWidth, ColorFrom(colorRoll), dirRoll, r.gameSpeed))
    ensures r.isRunning == s.isRunning
  {
    var cur, top := s.current.value, Top(s);
    var landed := LandedOn(cur, top);
    var scored := Scored(s.(current := Some(landed)), landed, IsPerfect(cur, top));
    Spawned(Recorded(scored, landed, Overlap(cur, top)), fieldWidth, dirRoll, colorRoll)
  }

  /** The landing test of one frame. */
  function Landing(s: State, fieldWidth: real, fieldHeight: real, dirRoll: Roll, colorRoll: Roll): (r: State)
    ensures !HasTop(s) ==> r == s
    ensures Accepts(s) ==> r == Accepted(s, fieldWidth, dirRoll, colorRoll)
    ensures Misses(s, fieldHeight) ==> r == Ended(s)
    ensures !Accepts(s) && !Misses(s, fieldHeight) ==> r == s
    ensures |r.blocks| == |s.blocks| + 1 <==> Accepts(s)
    ensures !r.isRunning <==> !s.isRunning || Misses(s, fieldHeight)
    ensures !Accepts(s) ==>
      r.score == s.score && r.combo == s.combo && r.maxCombo == s.maxCombo && r.blocks == s.blocks
  {
    if !HasTop(s) then s
    else
      var cur, top := s.current.value, Top(s);
      if Colliding(cur, top) then
        if Overlap(cur, top) > 0.0 then Accepted(s, fieldWidth, dirRoll, colorRoll)
        else Ended(s)
      else if cur.y > fieldHeight then Ended(s)
      else s
  }

  /** One frame of the game: move the falling block, test for landing, then
      advance and filter the floating texts.  A stopped game does nothing. */
  function Ticked(s: State, fieldWidth: real, fieldHeight: real, dirRoll: Roll, colorRoll: Roll): (r: State)
    ensures !s.isRunning ==> r == s
    ensures s.isRunning && s.current.None? ==> r == s.(texts := Survivors(s.texts))
    ensures |r.texts| <= |s.texts| + 2
  {
    if !s.isRunning then s
    else
      var landed :=
        if s.current.Some? then
          Landing(s.(current := Some(Moved(s.current.value, fieldWidth))), fieldWidth, fieldHeight, dirRoll, colorRoll)
        else s;
      landed.(texts := Survivors(landed.texts))
  }

  /** A new run: everything but the high score (and the cue log) starts over,
      and the first block is spawned. */
  function Restarted(s: State, fieldWidth: real, dirRoll: Roll, colorRoll: Roll): (r: State)
    ensures r.isRunning && r.score == 0 && r.combo == 0 && r.maxCombo == 0
    ensures r.currentBlockWidth == InitialBlockWidth && r.blocks == [] && r.gameSpeed == 1.0
    ensures r.texts == [] && r.highScore == s.highScore && r.sounds == s.sounds
    ensures r.current == Some(NewBlock(fieldWidth / 2.0 - InitialBlockWidth / 2.0, 0.0,
                                       InitialBlockWidth, ColorFrom(colorRoll), dirRoll, 1.0))
  {
    var cleared := State(true, 0, s.highScore, 0, 0, InitialBlockWidth, [], None, 1.0, [], s.sounds);
    Spawned(cleared, fieldWidth, dirRoll, colorRoll)
  }
}
