/** The move-limit condition: a counter that goes down by one per move,
    shows itself as "MOVES:" and the count on a second line, and latches
    once it reaches zero. */
module Moves {
  import opened Text

  /** The label text for a counter value. */
  function MovesText(moves: int): (r: string)
    ensures |r| > 7 && r[..7] == "MOVES:\n"
  {
    "MOVES:\n" + IntToString(moves)
  }

  /** The label shows the counter faithfully: different counts give
      different texts. */
  lemma MovesTextDeterminesCount(a: int, b: int)
    requires MovesText(a) == MovesText(b)
    ensures a == b
  {
    var prefix := "MOVES:\n";
    assert MovesText(a)[|prefix|..] == IntToString(a);
    assert MovesText(b)[|prefix|..] == IntToString(b);
    IntToStringInjective(a, b);
  }

  /** The float-to-int cast: truncation toward zero (values outside the
      32-bit range are not modelled). */
  function TruncateToInt(v: real): (i: int)
    ensures 0.0 <= v ==> 0 <= i && i as real <= v < i as real + 1.0
    ensures v < 0.0 ==> i <= 0 && i as real - 1.0 < v <= i as real
  {
    if v >= 0.0 then v.Floor else -((-v).Floor)
  }

  class LevelMoves {
    var moves: int
    /** The latch of the condition: set once the condition has completed. */
    var conditionCompleted: bool
    /** Whether a label is attached; without one the text is never set. */
    const hasText: bool
    var text: string

    /** Setup: the counter starts at the configured value, cast to int, and
        the label shows it. Subscribing to the board's move event is the
        caller's part: it calls OnMove once per Moved event. */
    constructor Setup(value: real, hasText: bool)
      ensures moves == TruncateToInt(value) && !conditionCompleted
      ensures this.hasText == hasText
      ensures hasText ==> text == MovesText(moves)
    {
      this.hasText := hasText;
      conditionCompleted := false;
      moves := TruncateToInt(value);
      text := "";
      new;
      UpdateText();
    }

    /** One move: ignored once the condition has completed; otherwise the
        counter drops by exactly one and the condition completes when it
        is no longer positive. */
    method OnMove() returns (completedNow: bool)
      modifies this
      ensures old(conditionCompleted) ==>
        !completedNow && moves == old(moves) && conditionCompleted && text == old(text)
      ensures !old(conditionCompleted) ==>
        moves == old(moves) - 1 &&
        (completedNow <==> moves <= 0) && conditionCompleted == completedNow &&
        (hasText ==> text == MovesText(moves)) && (!hasText ==> text == old(text))
    {
      if conditionCompleted {
        return false;
      }
      moves := moves - 1;
      UpdateText();
      completedNow := false;
      if moves <= 0 {
        completedNow := OnConditionComplete();
      }
    }

    /** The condition's completion: sets the latch and reports it. */
    method OnConditionComplete() returns (completed: bool)
      modifies this
      ensures conditionCompleted && completed
      ensures moves == old(moves) && text == old(text)
    {
      conditionCompleted := true;
      completed := true;
    }

    method UpdateText()
      modifies this
      ensures hasText ==> text == MovesText(moves)
      ensures !hasText ==> text == old(text)
      ensures moves == old(moves) && conditionCompleted == old(conditionCompleted)
    {
      if hasText {
        text := MovesText(moves);
      }
    }
  }
}
