/** Properties of the rules over one frame and over whole runs: the invariant
    is kept, a run only ever adds to the stack and the score, the width only
    shrinks, a finished run stays frozen until restarted, the best combo is the
    largest combo seen, and a run whose stack is empty never lands a block. */
module Runs {
  import opened Rules

  // ---------------------------------------------------------------- floating texts

  /** Filtering distributes over concatenation, so survivors keep their order. */
  lemma {:induction false} SurvivorsAppend(a: seq<TextState>, b: seq<TextState>)
    ensures Survivors(a + b) == Survivors(a) + Survivors(b)
    decreases |b|
  {
    if b == [] {
      assert a + b == a;
    } else {
      var n := |b| - 1;
      assert (a + b)[..|a + b| - 1] == a + b[..n];
      assert (a + b)[|a + b| - 1] == b[n];
      SurvivorsAppend(a, b[..n]);
    }
  }

  /** A frame keeps every remaining text within its lifetime. */
  lemma {:induction false} SurvivorsLive(ts: seq<TextState>)
    requires forall i :: 0 <= i < |ts| ==> LiveText(ts[i])
    ensures forall i :: 0 <= i < |Survivors(ts)| ==> LiveText(Survivors(ts)[i])
    decreases |ts|
  {
    if ts != [] {
      var n := |ts| - 1;
      var front := ts[..n];
      assert forall i :: 0 <= i < |front| ==> front[i] == ts[i];
      SurvivorsLive(front);
    }
  }

  /** The survivors of one more text: those of the texts before it, then the
      text itself, advanced, when it is still alive. */
  lemma SurvivorsNext(ts: seq<TextState>, i: int)
    requires 0 <= i < |ts|
    ensures Survivors(ts[..i + 1]) ==
            Survivors(ts[..i]) + (if IsAlive(Advanced(ts[i])) then [Advanced(ts[i])] else [])
  {
    assert ts[..i + 1][..i] == ts[..i];
  }

  /** A text survives a frame exactly when it is the advanced form of a text
      that is still alive after advancing. */
  lemma {:induction false} SurvivorsExactly(ts: seq<TextState>, u: TextState)
    ensures u in Survivors(ts) <==> exists i :: 0 <= i < |ts| && u == Advanced(ts[i]) && IsAlive(u)
    decreases |ts|
  {
    if ts != [] {
      var n := |ts| - 1;
      var front := ts[..n];
      SurvivorsExactly(front, u);
      var t := Advanced(ts[n]);
      assert Survivors(ts) == Survivors(front) + (if IsAlive(t) then [t] else []);
      if u in Survivors(ts) {
        if u in Survivors(front) {
          var i :| 0 <= i < |front| && u == Advanced(front[i]) && IsAlive(u);
          assert ts[i] == front[i];
        } else {
          assert u == t && IsAlive(u);
        }
      }
      if exists i :: 0 <= i < |ts| && u == Advanced(ts[i]) && IsAlive(u) {
        var i :| 0 <= i < |ts| && u == Advanced(ts[i]) && IsAlive(u);
        if i < n {
          assert front[i] == ts[i];
        }
      }
    }
  }

  // ---------------------------------------------------------------- one frame

  /** Within the tolerance on both edges, a block at least twice the tolerance
      wide always overlaps the top block: a perfect drop is never a miss by
      overlap (it can still fall below the field). */
  lemma PerfectOverlaps(cur: BlockState, top: BlockState)
    requires IsPerfect(cur, top) && 2.0 * PerfectTolerance <= cur.width
    ensures Overlap(cur, top) > cur.width - 2.0 * PerfectTolerance
    ensures Overlap(cur, top) > 0.0
  {
  }

  lemma InitialInv(highScore: int, fieldWidth: real)
    requires 0 <= highScore
    ensures Inv(Initial(highScore), fieldWidth)
  {
  }

  /** The landing test keeps the invariant. */
  lemma LandingInv(s: State, fieldWidth: real, fieldHeight: real, dirRoll: Roll, colorRoll: Roll)
    requires Inv(s, fieldWidth) && InitialBlockWidth <= fieldWidth
    ensures Inv(Landing(s, fieldWidth, fieldHeight, dirRoll, colorRoll), fieldWidth)
  {
    if Accepts(s) {
      var r := Accepted(s, fieldWidth, dirRoll, colorRoll);
      var landed := LandedOn(s.current.value, Top(s));
      assert WithinWidth(landed, fieldWidth);
      forall i | 0 <= i < |r.blocks| ensures WithinWidth(r.blocks[i], fieldWidth) {
        if i < |s.blocks| { assert r.blocks[i] == s.blocks[i]; }
      }
      forall i | 0 <= i < |r.texts| ensures LiveText(r.texts[i]) {
        if i < |s.texts| { assert r.texts[i] == r.texts[..|s.texts|][i]; }
      }
    }
  }

  /** A frame keeps the invariant. */
  lemma TickedInv(s: State, fieldWidth: real, fieldHeight: real, dirRoll: Roll, colorRoll: Roll)
    requires Inv(s, fieldWidth) && InitialBlockWidth <= fieldWidth
    ensures Inv(Ticked(s, fieldWidth, fieldHeight, dirRoll, colorRoll), fieldWidth)
  {
    if s.isRunning {
      var landed := s;
      if s.current.Some? {
        var moved := s.(current := Some(Moved(s.current.value, fieldWidth)));
        LandingInv(moved, fieldWidth, fieldHeight, dirRoll, colorRoll);
        landed := Landing(moved, fieldWidth, fieldHeight, dirRoll, colorRoll);
      }
      SurvivorsLive(landed.texts);
      assert Ticked(s, fieldWidth, fieldHeight, dirRoll, colorRoll) == landed.(texts := Survivors(landed.texts));
    }
  }

  /** A restart establishes the invariant from any state with a valid high score. */
  lemma RestartedInv(s: State, fieldWidth: real, dirRoll: Roll, colorRoll: Roll)
    requires 0 <= s.highScore && InitialBlockWidth <= fieldWidth
    ensures Inv(Restarted(s, fieldWidth, dirRoll, colorRoll), fieldWidth)
  {
  }

  /** Over one frame the score, the high score, the best combo, the speed and
      the stack only grow, the next width only shrinks, and a stopped game stays
      stopped. */
  lemma TickedMonotone(s: State, fieldWidth: real, fieldHeight: real, dirRoll: Roll, colorRoll: Roll)
    requires Inv(s, fieldWidth) && InitialBlockWidth <= fieldWidth
    ensures var r := Ticked(s, fieldWidth, fieldHeight, dirRoll, colorRoll);
      s.score <= r.score && s.highScore <= r.highScore && s.maxCombo <= r.maxCombo &&
      r.currentBlockWidth <= s.currentBlockWidth && s.gameSpeed <= r.gameSpeed &&
      |s.blocks| <= |r.blocks| && r.blocks[..|s.blocks|] == s.blocks &&
      (r.isRunning ==> s.isRunning) &&
      r.maxCombo == IntMax(s.maxCombo, r.combo)
  {
    if s.isRunning && s.current.Some? {
      var moved := s.(current := Some(Moved(s.current.value, fieldWidth)));
      if Accepts(moved) {
        var a := Accepted(moved, fieldWidth, dirRoll, colorRoll);
        assert a.blocks[..|s.blocks|] == s.blocks;
      }
    }
  }

  // ---------------------------------------------------------------- whole runs

  /** The state after one frame per pair of rolls (direction roll, colour roll). */
  function Run(s: State, fieldWidth: real, fieldHeight: real, rolls: seq<(Roll, Roll)>): State
    decreases |rolls|
  {
    if rolls == [] then s
    else Run(Ticked(s, fieldWidth, fieldHeight, rolls[0].0, rolls[0].1), fieldWidth, fieldHeight, rolls[1..])
  }

  /** One more frame at the end of a run is one more tick of its last state. */
  lemma {:induction false} RunSnoc(s: State, fieldWidth: real, fieldHeight: real,
                                   rolls: seq<(Roll, Roll)>, last: (Roll, Roll))
    ensures Run(s, fieldWidth, fieldHeight, rolls + [last]) ==
            Ticked(Run(s, fieldWidth, fieldHeight, rolls), fieldWidth, fieldHeight, last.0, last.1)
    decreases |rolls|
  {
    if rolls == [] {
      assert (rolls + [last])[1..] == [];
    } else {
      assert (rolls + [last])[1..] == rolls[1..] + [last];
      RunSnoc(Ticked(s, fieldWidth, fieldHeight, rolls[0].0, rolls[0].1), fieldWidth, fieldHeight, rolls[1..], last);
    }
  }

  lemma {:induction false} RunInv(s: State, fieldWidth: real, fieldHeight: real, rolls: seq<(Roll, Roll)>)
    requires Inv(s, fieldWidth) && InitialBlockWidth <= fieldWidth
    ensures Inv(Run(s, fieldWidth, fieldHeight, rolls), fieldWidth)
    decreases |rolls|
  {
    if rolls != [] {
      TickedInv(s, fieldWidth, fieldHeight, rolls[0].0, rolls[0].1);
      RunInv(Ticked(s, fieldWidth, fieldHeight, rolls[0].0, rolls[0].1), fieldWidth, fieldHeight, rolls[1..]);
    }
  }

  /** Within a run the stack is append-only, the score, high score, best combo
      and speed never go down, the next width never goes up, and once the game
      has stopped it does not run again. */
  lemma {:induction false} RunMonotone(s: State, fieldWidth: real, fieldHeight: real, rolls: seq<(Roll, Roll)>)
    requires Inv(s, fieldWidth) && InitialBlockWidth <= fieldWidth
    ensures var r := Run(s, fieldWidth, fieldHeight, rolls);
      s.score <= r.score && s.highScore <= r.highScore && s.maxCombo <= r.maxCombo &&
      r.currentBlockWidth <= s.currentBlockWidth && s.gameSpeed <= r.gameSpeed &&
      |s.blocks| <= |r.blocks| && r.blocks[..|s.blocks|] == s.blocks &&
      (r.isRunning ==> s.isRunning)
    decreases |rolls|
  {
    if rolls != [] {
      var t := Ticked(s, fieldWidth, fieldHeight, rolls[0].0, rolls[0].1);
      TickedMonotone(s, fieldWidth, fieldHeight, rolls[0].0, rolls[0].1);
      TickedInv(s, fieldWidth, fieldHeight, rolls[0].0, rolls[0].1);
      RunMonotone(t, fieldWidth, fieldHeight, rolls[1..]);
      var r := Run(t, fieldWidth, fieldHeight, rolls[1..]);
      assert r.blocks[..|s.blocks|] == r.blocks[..|t.blocks|][..|s.blocks|];
    }
  }

  /** A stopped game is frozen: no frame changes it until it is restarted. */
  lemma {:induction false} RunFrozen(s: State, fieldWidth: real, fieldHeight: real, rolls: seq<(Roll, Roll)>)
    requires !s.isRunning
    ensures Run(s, fieldWidth, fieldHeight, rolls) == s
    decreases |rolls|
  {
    if rolls != [] {
      RunFrozen(s, fieldWidth, fieldHeight, rolls[1..]);
    }
  }

  /** The largest combo in the states of a run, its first state included. */
  function PeakCombo(s: State, fieldWidth: real, fieldHeight: real, rolls: seq<(Roll, Roll)>): (p: int)
    ensures s.combo <= p
    decreases |rolls|
  {
    if rolls == [] then s.combo
    else IntMax(s.combo, PeakCombo(Ticked(s, fieldWidth, fieldHeight, rolls[0].0, rolls[0].1), fieldWidth, fieldHeight, rolls[1..]))
  }

  /** The best combo at the end of a run is the larger of the best combo at its
      start and every combo reached during it. */
  lemma {:induction false} RunMaxCombo(s: State, fieldWidth: real, fieldHeight: real, rolls: seq<(Roll, Roll)>)
    requires Inv(s, fieldWidth) && InitialBlockWidth <= fieldWidth
    ensures Run(s, fieldWidth, fieldHeight, rolls).maxCombo == IntMax(s.maxCombo, PeakCombo(s, fieldWidth, fieldHeight, rolls))
    decreases |rolls|
  {
    if rolls != [] {
      var t := Ticked(s, fieldWidth, fieldHeight, rolls[0].0, rolls[0].1);
      TickedMonotone(s, fieldWidth, fieldHeight, rolls[0].0, rolls[0].1);
      TickedInv(s, fieldWidth, fieldHeight, rolls[0].0, rolls[0].1);
      RunMaxCombo(t, fieldWidth, fieldHeight, rolls[1..]);
    }
  }

  /** With an empty stack there is nothing to land on: a running game keeps
      running, with the same score, combo and (empty) stack, frame after frame. */
  lemma {:induction false} EmptyStackRun(s: State, fieldWidth: real, fieldHeight: real, rolls: seq<(Roll, Roll)>)
    requires s.isRunning && s.blocks == []
    ensures var r := Run(s, fieldWidth, fieldHeight, rolls);
      r.isRunning && r.blocks == [] && r.score == s.score && r.combo == s.combo &&
      r.maxCombo == s.maxCombo && r.highScore == s.highScore &&
      r.currentBlockWidth == s.currentBlockWidth && r.gameSpeed == s.gameSpeed &&
      r.current.Some? == s.current.Some?
    decreases |rolls|
  {
    if rolls != [] {
      var t := Ticked(s, fieldWidth, fieldHeight, rolls[0].0, rolls[0].1);
      EmptyStackRun(t, fieldWidth, fieldHeight, rolls[1..]);
    }
  }

  /** Consequently a freshly started run never scores and never ends: its first
      block falls for ever. */
  lemma StartedRunNeverLands(s: State, fieldWidth: real, fieldHeight: real,
                             dirRoll: Roll, colorRoll: Roll, rolls: seq<(Roll, Roll)>)
    ensures var r := Run(Restarted(s, fieldWidth, dirRoll, colorRoll), fieldWidth, fieldHeight, rolls);
      r.isRunning && r.blocks == [] && r.score == 0 && r.combo == 0 && r.highScore == s.highScore
  {
    EmptyStackRun(Restarted(s, fieldWidth, dirRoll, colorRoll), fieldWidth, fieldHeight, rolls);
  }
}
