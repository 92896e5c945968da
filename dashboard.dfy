/**
 * Two small computations of the quiz dashboard: the daily-goal gauges and the
 * scale of the weekly activity chart.
 */
module Dashboard {

  /** One daily goal as shown: the clamped count and the clamped percentage. */
  datatype Goal = Goal(current: nat, target: nat, pct: nat)

  const ConversationTarget := 3
  const QuizTarget := 1
  const FlashcardTarget := 5

  /**
   * `round(count / target * 100)` computed exactly: the nearest integer to
   * 100 * count / target (within half a percent of it), halves rounded up (halves never occur for the
   * targets 1, 3 and 5, see `NoHalvesForTargets`).
   */
  function RoundedPercent(count: nat, target: nat): (p: nat)
    requires target > 0
    ensures 2 * p * target <= 200 * count + target < 2 * (p + 1) * target
  {
    (200 * count + target) / (2 * target)
  }

  /** `min(count, target)` and `min(100, round(count / target * 100))`. */
  function DailyGoal(count: nat, target: nat): (g: Goal)
    requires target > 0
    ensures g.current <= target && g.current <= count
    ensures g.current == count || g.current == target
    ensures g.pct <= 100
    ensures g.pct == if RoundedPercent(count, target) < 100 then RoundedPercent(count, target) else 100
    ensures g.target == target
  {
    var p := RoundedPercent(count, target);
    Goal(if count < target then count else target, target, if p < 100 then p else 100)
  }

  /** The three gauges for today's conversations, completed quizzes and reviewed flashcards. */
  function DailyGoals(convos: nat, quizzes: nat, flashcards: nat): (gs: seq<Goal>)
    ensures |gs| == 3
    ensures gs[0].target == ConversationTarget && gs[1].target == QuizTarget && gs[2].target == FlashcardTarget
    ensures gs[0] == DailyGoal(convos, ConversationTarget)
    ensures gs[1] == DailyGoal(quizzes, QuizTarget)
    ensures gs[2] == DailyGoal(flashcards, FlashcardTarget)
    ensures (gs[0].pct == 100 <==> convos >= ConversationTarget) && (gs[1].pct == 100 <==> quizzes >= QuizTarget)
            && (gs[2].pct == 100 <==> flashcards >= FlashcardTarget)
  {
    GoalFullIffMet(convos, ConversationTarget);
    GoalFullIffMet(quizzes, QuizTarget);
    GoalFullIffMet(flashcards, FlashcardTarget);
    [DailyGoal(convos, ConversationTarget), DailyGoal(quizzes, QuizTarget), DailyGoal(flashcards, FlashcardTarget)]
  }

  /** The targets the gauges use. */
  predicate GaugeTarget(target: nat)
  {
    target == ConversationTarget || target == QuizTarget || target == FlashcardTarget
  }

  /**
   * For the gauges' targets, the gauge is full exactly when the goal is met
   * (for a target of 200 or more, one short of it already rounds to 100%).
   */
  lemma GoalFullIffMet(count: nat, target: nat)
    requires GaugeTarget(target)
    ensures DailyGoal(count, target).pct == 100 <==> count >= target
    ensures DailyGoal(count, target).current == target <==> count >= target
  {
    if target == 1 {
      assert RoundedPercent(count, target) == (200 * count + 1) / 2;
    } else if target == 3 {
      assert RoundedPercent(count, target) == (200 * count + 3) / 6;
    } else {
      assert RoundedPercent(count, target) == (200 * count + 5) / 10;
    }
  }

  /** For the three targets used, `count / target * 100` is never a half, so rounding mode does not matter. */
  lemma NoHalvesForTargets(count: nat, target: nat)
    requires GaugeTarget(target)
    ensures 2 * ((100 * count) % target) != target
  {
  }

  /** `max(totals, default=1) or 1`: the largest daily total, or 1 when every total is 0. */
  function MaxWeekly(totals: seq<nat>): (m: nat)
    ensures m >= 1
    ensures forall i :: 0 <= i < |totals| ==> totals[i] <= m
    ensures m in totals || (m == 1 && forall i :: 0 <= i < |totals| ==> totals[i] == 0)
  {
    if totals == [] then 1
    else
      var rest := MaxWeekly(totals[1..]);
      if totals[0] >= rest then totals[0] else rest
  }
}
