/** Scores by key, and ranking by them. */
module Scores {

  function ScoreOf(scores: map<int, real>, key: int): real {
    if key in scores then scores[key] else 0.0
  }

  function HigherFirst(scores: map<int, real>): (int, int) -> bool {
    (a, b) => ScoreOf(scores, a) >= ScoreOf(scores, b)
  }
}
