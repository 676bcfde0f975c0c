/** The objects of the game as the program has them: blocks and floating texts
    whose fields are updated in place, and the game that owns the game-state
    record, the stack of landed blocks and the list of floating texts.  Each
    method is proved to follow the function of module Rules it implements. */
module Engine {
  import opened Rules
  import Runs

  class Block {
    var x: real
    var y: real
    var width: real
    var height: real
    var color: string
    var vx: real
    var vy: real
    var direction: int
    var speed: real

    function View(): BlockState
      reads this
    {
      BlockState(x, y, width, height, color, vx, vy, direction, speed)
    }

    /** `dirRoll` is the random draw that picks the direction; `gameSpeed` is the
        game speed at the time of construction. */
    constructor (x: real, y: real, width: real, color: string, dirRoll: Roll, gameSpeed: real)
      ensures View() == NewBlock(x, y, width, color, dirRoll, gameSpeed)
    {
      this.x := x;
      this.y := y;
      this.width := width;
      this.height := BlockHeight;
      this.color := color;
      this.vx := 0.0;
      this.vy := 0.0;
      this.direction := DirectionFrom(dirRoll);
      this.speed := 2.0 + gameSpeed * 0.5;
    }

    method Update(fieldWidth: real)
      modifies this
      ensures View() == Moved(old(View()), fieldWidth)
      ensures 0.0 < width <= fieldWidth ==> 0.0 <= x <= fieldWidth - width
    {
      vy := vy + Gravity;
      y := y + vy;
      x := x + direction as real * speed;
      if x < 0.0 || x + width > fieldWidth {
        direction := direction * -1;
      }
      x := Max(0.0, Min(x, fieldWidth - width));
    }
  }

  class FloatingText {
    var x: real
    var y: real
    var text: string
    var color: string
    var life: int
    var maxLife: int

    function View(): TextState
      reads this
    {
      TextState(x, y, text, color, life, maxLife)
    }

    constructor (x: real, y: real, text: string, color: string)
      ensures View() == NewText(x, y, text, color)
    {
      this.x := x;
      this.y := y;
      this.text := text;
      this.color := color;
      this.life := TextLife;
      this.maxLife := TextLife;
    }

    method Update()
      modifies this
      ensures View() == Advanced(old(View()))
      ensures life == old(life) - 1 && y == old(y) - 1.0 && maxLife == old(maxLife)
    {
      life := life - 1;
      y := y - 1.0;
    }
  }

  function BlockViews(bs: seq<Block>): (r: seq<BlockState>)
    reads bs
    ensures |r| == |bs| && forall i :: 0 <= i < |bs| ==> r[i] == bs[i].View()
  {
    seq(|bs|, i requires 0 <= i < |bs| reads bs => bs[i].View())
  }

  function TextViews(ts: seq<FloatingText>): (r: seq<TextState>)
    reads ts
    ensures |r| == |ts| && forall i :: 0 <= i < |ts| ==> r[i] == ts[i].View()
  {
    seq(|ts|, i requires 0 <= i < |ts| reads ts => ts[i].View())
  }

  predicate Distinct(ts: seq<FloatingText>) {
    forall a, b :: 0 <= a < b < |ts| ==> ts[a] != ts[b]
  }

  /** A text not yet visited is not among those kept from the visited ones. */
  lemma NotYetKept(texts: seq<FloatingText>, i: int, kept: seq<FloatingText>)
    requires Distinct(texts) && 0 <= i < |texts|
    requires forall k :: 0 <= k < |kept| ==> kept[k] in texts[..i]
    ensures texts[i] !in kept
  {
    forall k | 0 <= k < |kept| ensures kept[k] != texts[i] {
      var j :| 0 <= j < i && texts[j] == kept[k];
    }
  }

  lemma DistinctSnoc(ts: seq<FloatingText>, t: FloatingText)
    requires Distinct(ts) && t !in ts
    ensures Distinct(ts + [t])
  {
  }

  /** Filtering the list of floating texts with a callback that first updates
      the text and then asks whether it is still alive. */
  method AdvanceAndFilter(texts: seq<FloatingText>) returns (kept: seq<FloatingText>)
    requires Distinct(texts)
    modifies texts
    ensures Distinct(kept)
    ensures forall t :: t in kept ==> t in texts
    ensures TextViews(kept) == Survivors(old(TextViews(texts)))
  {
    ghost var before := TextViews(texts);
    kept := [];
    var i := 0;
    while i < |texts|
      invariant 0 <= i <= |texts|
      invariant forall j :: i <= j < |texts| ==> texts[j].View() == before[j]
      invariant forall k :: 0 <= k < |kept| ==> kept[k] in texts[..i]
      invariant Distinct(kept)
      invariant TextViews(kept) == Survivors(before[..i])
    {
      var t := texts[i];
      NotYetKept(texts, i, kept);
      ghost var views := TextViews(kept);
      t.Update();
      assert TextViews(kept) == views;
      Runs.SurvivorsNext(before, i);
      if IsAlive(t.View()) {
        DistinctSnoc(kept, t);
        kept := kept + [t];
        assert TextViews(kept) == views + [t.View()];
      }
      i := i + 1;
    }
    assert before[..|texts|] == before;
  }

  /** The game: the fields of the game-state record, the floating texts, and the
      sound cues handed to the audio layer. */
  class Game {
    const fieldWidth: real
    const fieldHeight: real

    var isRunning: bool
    var score: int
    var highScore: int
    var combo: int
    var maxCombo: int
    var currentBlockWidth: real
    var blocks: seq<Block>
    var currentBlock: Block?
    var gameSpeed: real
    var floatingTexts: seq<FloatingText>
    var sounds: seq<Cue>
    /** The objects the game owns: itself, its blocks and its floating texts. */
    ghost var Repr: set<object>

    /** The sharing discipline: the falling block is not on the stack and no text
        is listed twice. */
    ghost predicate Structural()
      reads this
    {
      ValidField(fieldWidth, fieldHeight) &&
      (currentBlock != null ==> currentBlock !in blocks) &&
      Distinct(floatingTexts)
    }

    /** Every object the game refers to is in its footprint. */
    ghost predicate Owned()
      reads this
    {
      this in Repr && (currentBlock != null ==> currentBlock in Repr) &&
      (forall b :: b in blocks ==> b in Repr) &&
      (forall t :: t in floatingTexts ==> t in Repr)
    }

    function Abstract(): State
      reads this, blocks, currentBlock, floatingTexts
    {
      State(isRunning, score, highScore, combo, maxCombo, currentBlockWidth,
            BlockViews(blocks),
            if currentBlock == null then None else Some(currentBlock.View()),
            gameSpeed, TextViews(floatingTexts), sounds)
    }

    /** The texts listed before, followed only by texts created since. */
    twostate predicate TextsExtend(before: seq<FloatingText>)
      reads this
    {
      |before| <= |floatingTexts| && floatingTexts[..|before|] == before &&
      forall i :: |before| <= i < |floatingTexts| ==> fresh(floatingTexts[i])
    }

    ghost predicate Valid()
      reads this, blocks, currentBlock, floatingTexts
    {
      Structural() && Owned() && Inv(Abstract(), fieldWidth)
    }

    /** The game at load time, before the first start, with the stored high score. */
    constructor (fieldWidth: real, fieldHeight: real, storedHighScore: int)
      requires ValidField(fieldWidth, fieldHeight) && 0 <= storedHighScore
      ensures this.fieldWidth == fieldWidth && this.fieldHeight == fieldHeight
      ensures Valid() && fresh(Repr) && Abstract() == Initial(storedHighScore)
    {
      this.fieldWidth := fieldWidth;
      this.fieldHeight := fieldHeight;
      isRunning := false;
      score := 0;
      highScore := storedHighScore;
      combo := 0;
      maxCombo := 0;
      currentBlockWidth := InitialBlockWidth;
      blocks := [];
      currentBlock := null;
      gameSpeed := 1.0;
      floatingTexts := [];
      sounds := [];
      Repr := {this};
      Runs.InitialInv(storedHighScore, fieldWidth);
    }

    /** An internal step of `Update` and `ResetGame`, which keep the footprint
        and `Valid()`. Also called while the block that just landed is both on
        the stack and still the current block, so it asks for no invariant. */
    method SpawnBlock(dirRoll: Roll, colorRoll: Roll)
      modifies this
      ensures fresh(currentBlock)
      ensures blocks == old(blocks) && floatingTexts == old(floatingTexts)
      ensures Abstract() == Spawned(old(Abstract()), fieldWidth, dirRoll, colorRoll)
    {
      var randomColor := ColorFrom(colorRoll);
      var x := fieldWidth / 2.0 - currentBlockWidth / 2.0;
      currentBlock := new Block(x, 0.0, currentBlockWidth, randomColor, dirRoll, gameSpeed);
    }

    /** An internal step of a landing; the footprint is kept by `Update`. */
    method AddFloatingText(x: real, y: real, text: string, color: string)
      requires Structural()
      modifies this
      ensures Structural()
      ensures blocks == old(blocks) && currentBlock == old(currentBlock)
      ensures TextsExtend(old(floatingTexts))
      ensures Abstract() == AddText(old(Abstract()), x, y, text, color)
    {
      var t := new FloatingText(x, y, text, color);
      floatingTexts := floatingTexts + [t];
    }

    /** An internal step of a landing; the footprint is kept by `Update`. */
    method EndGame()
      requires Structural()
      modifies this
      ensures Structural()
      ensures blocks == old(blocks) && currentBlock == old(currentBlock) && floatingTexts == old(floatingTexts)
      ensures Abstract() == Ended(old(Abstract()))
    {
      isRunning := false;
      sounds := sounds + [GameOverCue];
    }

    /** An internal step of `Frame`; the footprint and `Valid()` are kept by
        `Update`. */
    method HandleBlockLanding(dirRoll: Roll, colorRoll: Roll)
      requires Structural()
      modifies this, currentBlock
      ensures Structural()
      ensures TextsExtend(old(floatingTexts))
      ensures currentBlock == old(currentBlock) || fresh(currentBlock)
      ensures blocks == old(blocks) || blocks == old(blocks) + [old(currentBlock)]
      ensures Abstract() == Landing(old(Abstract()), fieldWidth, fieldHeight, dirRoll, colorRoll)
    {
      if currentBlock == null || |blocks| == 0 {
        return;
      }
      var lastBlock := blocks[|blocks| - 1];
      var cur := currentBlock;
      ghost var s := Abstract();
      assert lastBlock.View() == Top(s);

      if Colliding(cur.View(), lastBlock.View()) {
        var perfect := IsPerfect(cur.View(), lastBlock.View());
        var overlap := Overlap(cur.View(), lastBlock.View());
        if overlap > 0.0 {
          Settle(lastBlock);
          ScoreLanding(perfect);
          RecordLanding(overlap);
          SpawnBlock(dirRoll, colorRoll);
        } else {
          EndGame();
        }
      } else if cur.y > fieldHeight {
        EndGame();
      }
    }

    /** The falling block comes to rest on the top of the stack. */
    method Settle(lastBlock: Block)
      requires Structural() && currentBlock != null && lastBlock in blocks
      modifies currentBlock
      ensures Abstract() == old(Abstract()).(current := Some(LandedOn(old(currentBlock.View()), lastBlock.View())))
    {
      currentBlock.y := lastBlock.y - currentBlock.height;
      currentBlock.vy := 0.0;
      currentBlock.vx := 0.0;
    }

    /** The scoring part of a landing, with its sound cue and floating texts:
        the branch on a perfect drop inside the landing test. */
    method ScoreLanding(perfect: bool)
      requires Structural() && currentBlock != null
      modifies this
      ensures Structural()
      ensures blocks == old(blocks) && currentBlock == old(currentBlock)
      ensures TextsExtend(old(floatingTexts))
      ensures Abstract() == Scored(old(Abstract()), currentBlock.View(), perfect)
    {
      if perfect {
        ScorePerfect();
      } else {
        ScoreRegular();
      }
    }

    /** A perfect drop: three points, a longer streak, and a second text once
        the streak reaches the threshold. */
    method ScorePerfect()
      requires Structural() && currentBlock != null
      modifies this
      ensures Structural()
      ensures blocks == old(blocks) && currentBlock == old(currentBlock)
      ensures TextsExtend(old(floatingTexts))
      ensures Abstract() == Scored(old(Abstract()), currentBlock.View(), true)
    {
      ghost var s := Abstract();
      var cur := currentBlock;
      ghost var v := cur.View();
      score := score + 3;
      combo := combo + 1;
      sounds := sounds + [PerfectCue];
      ghost var p := s.(score := s.score + 3, combo := s.combo + 1, sounds := s.sounds + [PerfectCue]);
      assert Abstract() == p;
      AddFloatingText(cur.x + cur.width / 2.0, cur.y, PerfectLabel, PerfectColor);
      ghost var q := AddText(p, v.x + v.width / 2.0, v.y, PerfectLabel, PerfectColor);
      assert Abstract() == q;
      if combo >= ComboThreshold {
        AddFloatingText(cur.x + cur.width / 2.0, cur.y - 30.0, ComboLabel, ComboColor);
        assert Abstract() == AddText(q, v.x + v.width / 2.0, v.y - 30.0, ComboLabel, ComboColor);
      }
      assert cur.View() == v;
    }

    /** A regular drop: one point and a broken streak. */
    method ScoreRegular()
      requires Structural() && currentBlock != null
      modifies this
      ensures Structural()
      ensures blocks == old(blocks) && currentBlock == old(currentBlock)
      ensures TextsExtend(old(floatingTexts))
      ensures Abstract() == Scored(old(Abstract()), currentBlock.View(), false)
    {
      ghost var s := Abstract();
      var cur := currentBlock;
      ghost var v := cur.View();
      score := score + 1;
      combo := 0;
      sounds := sounds + [LandCue];
      ghost var p := s.(score := s.score + 1, combo := 0, sounds := s.sounds + [LandCue]);
      assert Abstract() == p;
      AddFloatingText(cur.x + cur.width / 2.0, cur.y, PlusOneLabel, PlusOneColor);
      assert Abstract() == AddText(p, v.x + v.width / 2.0, v.y, PlusOneLabel, PlusOneColor);
      assert cur.View() == v;
    }

    /** The bookkeeping after the score: best combo, next width, the stack,
        the speed and the high score. The landed block is then both on the
        stack and current, until the next block is spawned. */
    method RecordLanding(overlap: real)
      requires currentBlock != null
      modifies this
      ensures blocks == old(blocks) + [currentBlock] && currentBlock == old(currentBlock)
      ensures floatingTexts == old(floatingTexts)
      ensures Abstract() == Recorded(old(Abstract()), currentBlock.View(), overlap)
    {
      if combo > maxCombo {
        maxCombo := combo;
      }
      currentBlockWidth := Max(MinBlockWidth, currentBlockWidth - overlap * 0.5);
      blocks := blocks + [currentBlock];
      gameSpeed := gameSpeed + SpeedStep;
      if score > highScore {
        highScore := score;
      }
    }

    /** The floating-text step of a frame. */
    method FilterTexts()
      requires Structural()
      modifies this, floatingTexts
      ensures Structural()
      ensures blocks == old(blocks) && currentBlock == old(currentBlock)
      ensures forall t :: t in floatingTexts ==> t in old(floatingTexts)
      ensures Abstract() == old(Abstract()).(texts := Survivors(old(Abstract()).texts))
    {
      ghost var s := Abstract();
      floatingTexts := AdvanceAndFilter(floatingTexts);
      assert BlockViews(blocks) == s.blocks;
      assert currentBlock != null ==> Some(currentBlock.View()) == s.current;
    }

    /** Sets the footprint to `base` together with the falling block and the
        floating texts. */
    ghost method Adopt(base: set<object>)
      modifies this
      ensures forall o :: o in Repr ==> o in base || o == currentBlock || o in floatingTexts
      ensures blocks == old(blocks) && currentBlock == old(currentBlock) && floatingTexts == old(floatingTexts)
      ensures old(Structural()) ==> Structural()
      ensures this in base && (forall b :: b in blocks ==> b in base) ==> Owned()
      ensures Abstract() == old(Abstract())
    {
      Repr := base + (set t | t in floatingTexts) + (if currentBlock == null then {} else {currentBlock});
    }

    /** One frame of the game loop. */
    method Update(dirRoll: Roll, colorRoll: Roll)
      requires Valid()
      modifies Repr
      ensures Valid() && fresh(Repr - old(Repr))
      ensures Abstract() == Ticked(old(Abstract()), fieldWidth, fieldHeight, dirRoll, colorRoll)
    {
      if !isRunning {
        return;
      }
      ghost var s := Abstract();
      ghost var before := Repr;
      assert forall t :: t in floatingTexts ==> t in before;
      Frame(dirRoll, colorRoll);
      assert forall b :: b in blocks ==> b in before;
      assert forall t :: t in floatingTexts ==> t in before || fresh(t);
      assert currentBlock != null ==> currentBlock in before || fresh(currentBlock);
      Adopt(before);
      assert forall o :: o in Repr ==> o in before || fresh(o);
    }

    /** The body of a frame of a running game: move the falling block, test
        for a landing, then age and filter the floating texts. */
    method Frame(dirRoll: Roll, colorRoll: Roll)
      requires Structural() && isRunning && Inv(Abstract(), fieldWidth)
      modifies this, currentBlock, floatingTexts
      ensures Structural() && Inv(Abstract(), fieldWidth)
      ensures blocks == old(blocks) || blocks == old(blocks) + [old(currentBlock)]
      ensures currentBlock == old(currentBlock) || fresh(currentBlock)
      ensures forall t :: t in floatingTexts ==> t in old(floatingTexts) || fresh(t)
      ensures Abstract() == Ticked(old(Abstract()), fieldWidth, fieldHeight, dirRoll, colorRoll)
    {
      ghost var s := Abstract();
      ghost var landed := s;
      ghost var texts := floatingTexts;
      if currentBlock != null {
        currentBlock.Update(fieldWidth);
        assert Abstract() == s.(current := Some(Moved(s.current.value, fieldWidth)));
        HandleBlockLanding(dirRoll, colorRoll);
        landed := Landing(s.(current := Some(Moved(s.current.value, fieldWidth))), fieldWidth, fieldHeight, dirRoll, colorRoll);
      }
      assert Abstract() == landed;
      assert forall i :: 0 <= i < |floatingTexts| ==> floatingTexts[i] in texts || fresh(floatingTexts[i]) by {
        forall i | 0 <= i < |floatingTexts| ensures floatingTexts[i] in texts || fresh(floatingTexts[i]) {
          if i < |texts| { assert floatingTexts[i] == texts[i]; }
        }
      }
      FilterTexts();
      Runs.TickedInv(s, fieldWidth, fieldHeight, dirRoll, colorRoll);
    }

    /** Start (or restart) a run, keeping the high score. */
    method ResetGame(dirRoll: Roll, colorRoll: Roll)
      requires Valid()
      modifies Repr
      ensures Valid() && fresh(Repr - old(Repr))
      ensures Abstract() == Restarted(old(Abstract()), fieldWidth, dirRoll, colorRoll)
    {
      ghost var s := Abstract();
      ghost var before := Repr;
      isRunning := true;
      score := 0;
      combo := 0;
      maxCombo := 0;
      currentBlockWidth := InitialBlockWidth;
      blocks := [];
      currentBlock := null;
      gameSpeed := 1.0;
      floatingTexts := [];
      assert Abstract() == State(true, 0, s.highScore, 0, 0, InitialBlockWidth, [], None, 1.0, [], s.sounds);
      SpawnBlock(dirRoll, colorRoll);
      Adopt(before);
      assert Abstract() == Restarted(s, fieldWidth, dirRoll, colorRoll);
      Runs.RestartedInv(s, fieldWidth, dirRoll, colorRoll);
    }
  }

  /** The game loop: one frame for each pair of rolls (direction, colour) the
      frame may need. */
  method GameLoop(g: Game, rolls: seq<(Roll, Roll)>)
    requires g.Valid()
    modifies g.Repr
    ensures g.Valid() && fresh(g.Repr - old(g.Repr))
    ensures g.Abstract() == Runs.Run(old(g.Abstract()), g.fieldWidth, g.fieldHeight, rolls)
  {
    ghost var s := g.Abstract();
    var i := 0;
    while i < |rolls|
      invariant 0 <= i <= |rolls|
      invariant g.Valid() && fresh(g.Repr - old(g.Repr))
      invariant g.Abstract() == Runs.Run(s, g.fieldWidth, g.fieldHeight, rolls[..i])
    {
      Runs.RunSnoc(s, g.fieldWidth, g.fieldHeight, rolls[..i], rolls[i]);
      assert rolls[..i + 1] == rolls[..i] + [rolls[i]];
      g.Update(rolls[i].0, rolls[i].1);
      i := i + 1;
    }
    assert rolls[..|rolls|] == rolls;
  }
}
