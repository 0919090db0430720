/**
 * The Behaviour trait (src/objects.rs:89-100, src/level/traits.rs:20-31) dispatched
 * over the object kinds: every hook returns no requests unless the kind overrides it.
 */
module Behaviours {
  import opened Wrappers
  import opened Directions
  import opened Objects
  import opened Requests
  import RockRule
  import GemRule

  /** The player's own tick rule, which is not part of this model: any function of the
      level, the player's cell and the input direction. */
  type PlayerTick = (LevelView, Point, Option<Direction>) -> seq<Request>

  /** The player's rule names only cells of the level it is given. */
  ghost predicate PlayerTickInBounds(pt: PlayerTick)
  {
    forall v: LevelView, p: Point, d: Option<Direction> ::
      InBounds(p, v.matrix) ==> RequestsInBounds(pt(v, p, d), v.matrix)
  }

  /** Behaviour::init: only a gem asks for anything, one AddMaxScore. */
  function Init(o: Object): (r: seq<Request>)
    ensures forall i :: 0 <= i < |r| ==> r[i] == AddMaxScore
    ensures |r| == (if o == Gem then 1 else 0)
  {
    match o
    case Gem => GemRule.Init()
    case _ => []
  }

  /** Behaviour::on_broken: only a gem asks for anything. */
  function OnBroken(o: Object, v: LevelView): (r: seq<Request>)
    ensures o != Gem ==> r == []
    ensures o == Gem ==> r != [] && r[0] == AddScore
  {
    match o
    case Gem => GemRule.OnBroken(v)
    case _ => []
  }

  /** The reads a kind's tick makes at p stay inside the grid. */
  predicate TickDefined(o: Object, v: LevelView, p: Point)
  {
    o == Rock ==> RockRule.Defined(v, p)
  }

  /** Behaviour::tick: a rock falls or slides, the player follows its own rule, every
      other kind asks for nothing. */
  function Tick(o: Object, v: LevelView, p: Point, d: Option<Direction>, pt: PlayerTick): (r: seq<Request>)
    requires Bounded(v.matrix) && InBounds(p, v.matrix) && PlayerTickInBounds(pt)
    requires TickDefined(o, v, p)
    ensures RequestsInBounds(r, v.matrix)
    ensures o != Rock && o != Player ==> r == []
  {
    match o
    case Rock => RockRule.Tick(v, p)
    case Player => pt(v, p, d)
    case _ => []
  }

  /** A kind that overrides nothing has every capability false and every hook empty,
      whatever the level, point and direction. */
  lemma InertKinds(o: Object, v: LevelView, p: Point, d: Option<Direction>, pt: PlayerTick)
    requires o == Wall || o == Unknown
    requires Bounded(v.matrix) && InBounds(p, v.matrix) && PlayerTickInBounds(pt)
    ensures !o.Placeholder() && !o.CanBeMoved() && !o.IsPlayer() && !o.CanBeBroken()
    ensures Init(o) == [] && OnBroken(o, v) == [] && Tick(o, v, p, d, pt) == []
  {
  }
}
