/**
 * The grid memory game (src/app/apps/machina00/page.tsx): a trail of cells lights up one
 * after another, then the player clicks the cells back in order; each click is logged as a
 * hit or a miss and the score is the share of hits. The random draws are a stream, and
 * the reaction time of a click, which comes from the clock, is a parameter.
 */
module GridGame {
  import opened Wrappers
  import opened Draws
  import Percent

  datatype Difficulty = Easy | Normal | Hard

  /** One row of `DIFF` without its label, which `Label` gives. */
  datatype Config = Config(rows: nat, cols: nat, intervalMs: nat, rounds: nat)

  /** `DIFF[d]` */
  function Diff(d: Difficulty): (c: Config)
    ensures c.rows == c.cols && 4 <= c.rows <= 6
    ensures c.rounds == c.rows + 1 && c.intervalMs == 1300 - 100 * c.rows
    ensures d == Easy <==> c.rows == 4
    ensures d == Hard <==> c.rows == 6
  {
    match d
    case Easy => Config(4, 4, 900, 5)
    case Normal => Config(5, 5, 800, 6)
    case Hard => Config(6, 6, 700, 7)
  }

  /** `DIFF[d].label` */
  function Label(d: Difficulty): string {
    match d
    case Easy => "初級"
    case Normal => "中級"
    case Hard => "上級"
  }

  /** Every board has more cells than the trail has steps, and at least two cells. */
  lemma DiffFits(d: Difficulty)
    ensures 2 <= Diff(d).rounds < Diff(d).rows * Diff(d).cols
  {
  }

  /** One cell of `makeSequence`: the drawn cell, or the next one (wrapping around) when
      the draw repeats the previous cell. */
  function Pick(draw: nat, prev: int, cellCount: nat): (c: nat)
    requires draw < cellCount
    ensures c < cellCount
    ensures draw != prev ==> c == draw
    ensures cellCount >= 2 ==> c != prev
  {
    if draw == prev then (draw + 1) % cellCount else draw
  }

  /** The first n cells `makeSequence` produces from the stream at `start`. */
  function Trail(cellCount: nat, rand: Rand, start: nat, n: nat): (s: seq<int>)
    requires Uniform(rand) && cellCount > 0
    ensures |s| == n
  {
    if n == 0 then []
    else
      var p := Trail(cellCount, rand, start, n - 1);
      p + [Pick(Index(rand(start + n - 1), cellCount), if n == 1 then -1 else p[n - 2], cellCount)]
  }

  /** Every cell is on the board, and on a board of two cells or more no cell is lit twice
      in a row. */
  lemma {:induction false} TrailCells(cellCount: nat, rand: Rand, start: nat, n: nat)
    requires Uniform(rand) && cellCount > 0
    ensures forall i | 0 <= i < n :: 0 <= Trail(cellCount, rand, start, n)[i] < cellCount
    ensures cellCount >= 2 ==> forall i | 0 < i < n :: Trail(cellCount, rand, start, n)[i] != Trail(cellCount, rand, start, n)[i - 1]
  {
    if n > 0 {
      TrailCells(cellCount, rand, start, n - 1);
      var p := Trail(cellCount, rand, start, n - 1);
      assert forall i | 0 <= i < n - 1 :: Trail(cellCount, rand, start, n)[i] == p[i];
    }
  }

  /** A draw that differs from the previous cell is lit as drawn. */
  lemma {:induction false} TrailKeepsDraw(cellCount: nat, rand: Rand, start: nat, n: nat, i: nat)
    requires Uniform(rand) && cellCount > 0 && i < n
    requires i == 0 || Index(rand(start + i), cellCount) != Trail(cellCount, rand, start, n)[i - 1]
    ensures Trail(cellCount, rand, start, n)[i] == Index(rand(start + i), cellCount)
  {
    if i < n - 1 {
      var p := Trail(cellCount, rand, start, n - 1);
      assert Trail(cellCount, rand, start, n)[i] == p[i];
      if i > 0 {
        assert Trail(cellCount, rand, start, n)[i - 1] == p[i - 1];
      }
      TrailKeepsDraw(cellCount, rand, start, n - 1, i);
    }
  }

  /** `makeSequence(cellCount, rounds)`, drawing from position `start` of the stream. The
      source is only ever called with the board sizes of the table, so at least one cell. */
  method MakeSequence(cellCount: nat, rounds: nat, rand: Rand, start: nat) returns (s: seq<int>)
    requires Uniform(rand) && cellCount > 0
    ensures s == Trail(cellCount, rand, start, rounds)
    ensures forall i | 0 <= i < rounds :: 0 <= s[i] < cellCount
    ensures cellCount >= 2 ==> forall i | 0 < i < rounds :: s[i] != s[i - 1]
  {
    s := [];
    var prev := -1;
    var i := 0;
    while i < rounds
      invariant i <= rounds
      invariant s == Trail(cellCount, rand, start, i)
      invariant prev == if i == 0 then -1 else s[i - 1]
    {
      var n := Index(rand(start + i), cellCount);
      if n == prev {
        n := (n + 1) % cellCount;
      }
      s := s + [n];
      prev := n;
      i := i + 1;
    }
    TrailCells(cellCount, rand, start, rounds);
  }

  /** One entry of the click log; the reaction time is kept for hits only. */
  datatype StepLog = StepLog(litIndex: Option<int>, clickedIndex: int, hit: bool, reactionMs: Option<int>)

  /** `logs.filter((l) => l?.hit).length`: holes in the log do not count. */
  function Hits(logs: seq<Option<StepLog>>): (h: nat)
    ensures h <= |logs|
  {
    if logs == [] then 0
    else Hits(logs[..|logs| - 1]) + (if logs[|logs| - 1].Some? && logs[|logs| - 1].value.hit then 1 else 0)
  }

  lemma {:induction false} HitsAppend(logs: seq<Option<StepLog>>, l: Option<StepLog>)
    ensures Hits(logs + [l]) == Hits(logs) + (if l.Some? && l.value.hit then 1 else 0)
  {
    assert (logs + [l])[..|logs|] == logs;
  }

  /** `Math.round((hits / rounds) * 100)` */
  function Accuracy(hits: nat, rounds: nat): int
    requires rounds > 0
  {
    Percent.RoundDiv(100 * hits, rounds)
  }

  /** The accuracy is a percentage; on boards of fewer than 200 steps it is 100 exactly when
      every step was a hit. */
  lemma AccuracyBounds(hits: nat, rounds: nat)
    requires 0 < rounds && hits <= rounds
    ensures 0 <= Accuracy(hits, rounds) <= 100
    ensures hits == rounds ==> Accuracy(hits, rounds) == 100
    ensures rounds < 200 && Accuracy(hits, rounds) == 100 ==> hits == rounds
  {
    Percent.RoundDivMono(0, 100 * hits, rounds);
    Percent.RoundDivMono(100 * hits, 100 * rounds, rounds);
    Percent.RoundDivExact(0, rounds);
    Percent.RoundDivExact(100, rounds);
    if hits < rounds {
      Percent.RoundDivMono(100 * hits, 100 * (rounds - 1), rounds);
      assert 100 * (rounds - 1) == 100 * rounds - 100;
    }
  }

  /** The score `finishGame` records as written: it reads the log through a reference that
      an effect refreshes only after the next render, so the final click's entry is not in
      it. `before` is the log as it was before the final click. */
  function RecordedAsWritten(before: seq<Option<StepLog>>, rounds: nat): int
    requires rounds > 0
  {
    Accuracy(Hits(before), rounds)
  }

  /** On the easy board, five hits in a row are shown as 100 but recorded as 80. */
  lemma StaleRecordedScore()
    ensures var hit := Some(StepLog(Some(0), 0, true, Some(0)));
      var before := [hit, hit, hit, hit];
      RecordedAsWritten(before, 5) == 80 && Accuracy(Hits(before + [hit]), 5) == 100
  {
    var hit := Some(StepLog(Some(0), 0, true, Some(0)));
    var before := [hit, hit, hit, hit];
    assert Hits(before) == 4 by {
      HitsAppend([], hit);
      assert [] + [hit] == [hit];
      HitsAppend([hit], hit);
      assert [hit] + [hit] == [hit, hit];
      HitsAppend([hit, hit], hit);
      assert [hit, hit] + [hit] == [hit, hit, hit];
      HitsAppend([hit, hit, hit], hit);
      assert [hit, hit, hit] + [hit] == before;
    }
    HitsAppend(before, hit);
    Percent.RoundDivExact(80, 5);
    Percent.RoundDivExact(100, 5);
  }

  /** `next[step] = entry` on a copy of the log: a write beyond the end grows the array,
      with empty slots in between. */
  function Logged(logs: seq<Option<StepLog>>, step: nat, entry: Option<StepLog>): (r: seq<Option<StepLog>>)
    ensures |r| == if step < |logs| then |logs| else step + 1
    ensures r[step] == entry
    ensures forall k | 0 <= k < |logs| && k != step :: r[k] == logs[k]
    ensures forall k | |logs| <= k < step :: r[k] == None
  {
    if step < |logs| then logs[step := entry] else logs + seq(step - |logs|, _ => None) + [entry]
  }

  datatype Phase = Idle | Running | Finished

  datatype Mode = Memorize | Replay

  class Game {
    var phase: Phase
    var difficulty: Option<Difficulty>
    var rows: nat
    var cols: nat
    var intervalMs: nat
    var rounds: nat
    var sequence: seq<int>
    var step: nat
    var litIndex: Option<int>
    var logs: seq<Option<StepLog>>
    var mode: Mode
    /** `clickLockedRef`: one click per step. */
    var clickLocked: bool
    /** The score passed to `appendResult`, once the game is finished. */
    var recorded: Option<int>

    /** The step counter stays below the number of rounds and the log never outgrows them. */
    predicate Valid()
      reads this
    {
      0 < rounds && step < rounds && |logs| <= rounds
    }

    constructor ()
      ensures Valid()
      ensures phase == Idle && difficulty == None && rows == 4 && cols == 4 && intervalMs == 900 && rounds == 5
      ensures sequence == [] && step == 0 && litIndex == None && logs == [] && mode == Memorize
      ensures !clickLocked && recorded == None
    {
      phase, difficulty := Idle, None;
      rows, cols, intervalMs, rounds := 4, 4, 900, 5;
      sequence, step, litIndex, logs, mode := [], 0, None, [], Memorize;
      clickLocked, recorded := false, None;
    }

    /** The score the result panel shows. */
    function Shown(): int
      reads this
      requires Valid()
    {
      Accuracy(Hits(logs), rounds)
    }

    /** `start(diff)` up to the first lit cell; the rest of the preview runs on timers. */
    method Start(d: Difficulty, rand: Rand, first: nat)
      requires Uniform(rand)
      modifies this
      ensures Valid()
      ensures difficulty == Some(d) && rows == Diff(d).rows && cols == Diff(d).cols
      ensures intervalMs == Diff(d).intervalMs && rounds == Diff(d).rounds
      ensures sequence == Trail(rows * cols, rand, first, rounds)
      ensures |sequence| == rounds && forall i | 0 <= i < rounds :: 0 <= sequence[i] < rows * cols
      ensures forall i | 0 < i < rounds :: sequence[i] != sequence[i - 1]
      ensures logs == [] && step == 0 && mode == Memorize && !clickLocked
      ensures litIndex == Some(sequence[0]) && phase == Running && recorded == old(recorded)
    {
      SetBoard(d);
      DiffFits(d);
      var trail := MakeSequence(rows * cols, rounds, rand, first);
      ResetRun(trail);
      litIndex := Some(trail[0]);
      phase := Running;
    }

    /** The settings `start` copies from `DIFF[diff]`. */
    method SetBoard(d: Difficulty)
      modifies this
      ensures difficulty == Some(d) && rows == Diff(d).rows && cols == Diff(d).cols
      ensures intervalMs == Diff(d).intervalMs && rounds == Diff(d).rounds
      ensures phase == old(phase) && sequence == old(sequence) && step == old(step) && logs == old(logs)
      ensures litIndex == old(litIndex) && mode == old(mode) && clickLocked == old(clickLocked)
      ensures recorded == old(recorded)
    {
      var cfg := Diff(d);
      difficulty := Some(d);
      rows, cols, intervalMs, rounds := cfg.rows, cfg.cols, cfg.intervalMs, cfg.rounds;
    }

    /** The run state `start` resets around a new trail. */
    method ResetRun(trail: seq<int>)
      modifies this
      ensures sequence == trail && logs == [] && step == 0 && mode == Memorize && litIndex == None
      ensures !clickLocked
      ensures phase == old(phase) && difficulty == old(difficulty) && rows == old(rows) && cols == old(cols)
      ensures intervalMs == old(intervalMs) && rounds == old(rounds) && recorded == old(recorded)
    {
      sequence := trail;
      logs, step, mode, litIndex := [], 0, Memorize, None;
      clickLocked := false;
    }

    /** The last preview callback: the light goes off and the replay begins. */
    method EndPreview()
      modifies this
      ensures litIndex == None && mode == Replay && !clickLocked
      ensures phase == old(phase) && sequence == old(sequence) && step == old(step) && logs == old(logs)
      ensures rounds == old(rounds) && recorded == old(recorded) && difficulty == old(difficulty)
      ensures rows == old(rows) && cols == old(cols) && intervalMs == old(intervalMs)
    {
      litIndex := None;
      mode := Replay;
      clickLocked := false;
    }

    /** `onCellClick(index)`; `reactionMs` is the rounded time since the step began. A
        click is taken only while running, replaying and unlocked; it logs a hit exactly when
        the cell is the one lit at this step, and the click on the last step ends the game.
        The recorded score counts the final click. */
    method OnCellClick(index: int, reactionMs: int)
      requires Valid()
      modifies this
      ensures Valid()
      ensures old(phase) != Running || old(mode) != Replay || old(clickLocked) ==>
                step == old(step) && logs == old(logs) && phase == old(phase) && recorded == old(recorded)
                && clickLocked == old(clickLocked)
      ensures old(phase) == Running && old(mode) == Replay && !old(clickLocked) ==>
                && |logs| == (if old(step) < |old(logs)| then |old(logs)| else old(step) + 1)
                && logs[old(step)].Some?
                && logs[old(step)].value.clickedIndex == index
                && (logs[old(step)].value.hit <==> old(step) < |sequence| && sequence[old(step)] == index)
                && (forall k | 0 <= k < |old(logs)| && k != old(step) :: logs[k] == old(logs)[k])
                && (old(step) + 1 < rounds ==> step == old(step) + 1 && !clickLocked && phase == Running && recorded == old(recorded))
                && (old(step) + 1 >= rounds ==>
                      (step == old(step) && clickLocked && phase == Finished
                       && recorded == Some(Accuracy(Hits(logs), rounds))))
      ensures sequence == old(sequence) && rounds == old(rounds) && mode == old(mode)
      ensures difficulty == old(difficulty) && rows == old(rows) && cols == old(cols)
      ensures intervalMs == old(intervalMs) && litIndex == old(litIndex)
    {
      if phase != Running || mode != Replay {
        return;
      }
      if clickLocked {
        return;
      }
      var correct := if step < |sequence| then Some(sequence[step]) else None;
      var hit := correct == Some(index);
      var entry := Some(StepLog(correct, index, hit, if hit then Some(reactionMs) else None));
      logs := Logged(logs, step, entry);
      clickLocked := true;
      var nextStep := step + 1;
      if nextStep >= rounds {
        recorded := Some(Accuracy(Hits(logs), rounds));
        phase := Finished;
      } else {
        step := nextStep;
        clickLocked := false;
      }
    }

    /** `restart()`: back to the start screen; the board size is kept. */
    method Restart()
      requires Valid()
      modifies this
      ensures Valid()
      ensures phase == Idle && difficulty == None && sequence == [] && step == 0 && litIndex == None
      ensures logs == [] && mode == Memorize
      ensures rows == old(rows) && cols == old(cols) && rounds == old(rounds) && intervalMs == old(intervalMs)
      ensures clickLocked == old(clickLocked) && recorded == old(recorded)
    {
      phase, difficulty, sequence, step, litIndex := Idle, None, [], 0, None;
      logs, mode := [], Memorize;
    }
  }
}
