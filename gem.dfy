/** The gem's score and win requests (src/level/objects/gem.rs). */
module GemRule {
  import opened Requests

  /** Gem::init: a gem adds one to the level's win total. */
  function Init(): seq<Request>
  {
    [AddMaxScore]
  }

  /** Gem::on_broken: score one, and ask for a win when this was the last gem, judged
      on the score before that AddScore is applied. */
  function OnBroken(v: LevelView): (r: seq<Request>)
    ensures 1 <= |r| <= 2 && r[0] == AddScore
    ensures |r| == 2 <==> v.score + 1 == v.maxScore
    ensures |r| == 2 ==> r[1] == UpdateState(Win)
  {
    var requests := [AddScore];
    if v.score + 1 == v.maxScore then requests + [UpdateState(Win)] else requests
  }
}
