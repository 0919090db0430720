/**
 * The older object table (src/level/objects.rs): five kinds with a strict letter
 * parser and a record of movement and breaking properties per kind.
 */
module LegacyObjects {
  import opened Wrappers
  import Objects

  const U8_MAX := 255

  /** Rust's u8. */
  type U8 = n: nat | n <= U8_MAX

  /** What happens when an object is broken. */
  datatype ObjEvent = AddScore(amount: U8) | GameOver

  datatype Props = Props(
    fall: bool,
    control: bool,
    moveForce: U8,
    breakForce: U8,
    movedWith: U8,
    brokenWith: U8,
    onBroken: Option<ObjEvent>)

  datatype LevelObj = Gem | Wall | Dirt | Rock | Player

  /** Props::default: nothing falls or is controlled, no force, thresholds at their
      maximum, and no event. */
  function DefaultProps(): Props
  {
    Props(false, false, 0, 0, U8_MAX, U8_MAX, None)
  }

  /** LevelObj::parse: one letter per kind; any other character is an error. */
  function Parse(c: char): (r: Result<LevelObj, string>)
    ensures r.Err? ==> c in r.error
  {
    match c
    case 'g' => Ok(Gem)
    case '#' => Ok(Wall)
    case 'd' => Ok(Dirt)
    case 'r' => Ok(Rock)
    case 'p' => Ok(Player)
    case _ => Err(Objects.ParseErrorMessage(c))
  }

  /** The letter each kind is written with in a level file. */
  function Letter(o: LevelObj): char
  {
    match o
    case Gem => 'g'
    case Wall => '#'
    case Dirt => 'd'
    case Rock => 'r'
    case Player => 'p'
  }

  /** LevelObj::get_props: the defaults, with the fields each kind overrides. */
  function GetProps(o: LevelObj): Props
  {
    var props := DefaultProps();
    match o
    case Dirt => props.(brokenWith := 2)
    case Gem => props.(brokenWith := 2, onBroken := Some(AddScore(1)))
    case Rock => props.(fall := true, movedWith := 1, breakForce := 1)
    case Player =>
      props.(control := true, moveForce := 1, breakForce := 2, brokenWith := 1,
             onBroken := Some(GameOver))
    case _ => props
  }

  /** The parser accepts exactly the five letters, each naming its own kind. */
  lemma ParseRoundTrip(c: char, o: LevelObj)
    ensures Parse(Letter(o)) == Ok(o)
    ensures Parse(c) == Ok(o) <==> c == Letter(o)
  {
  }

  /** Every other character, the space among them, is refused with a message naming it. */
  lemma ParseRejects(c: char)
    requires c !in {'g', '#', 'd', 'r', 'p'}
    ensures Parse(c).Err? && Parse(c).error == Objects.ParseErrorMessage(c) && c in Parse(c).error
  {
  }

  /** The table read by field: which kinds leave each field at its default and which
      override it, and to what. Only the wall keeps every default. */
  lemma PropsByField(o: LevelObj)
    ensures GetProps(o) == DefaultProps() <==> o == Wall
    ensures GetProps(o).brokenWith == 2 <==> o in {Gem, Dirt}
    ensures GetProps(o).brokenWith == 1 <==> o == Player
    ensures GetProps(o).brokenWith == U8_MAX <==> o in {Wall, Rock}
    ensures GetProps(o).movedWith == 1 <==> o == Rock
    ensures GetProps(o).movedWith == U8_MAX <==> o != Rock
    ensures GetProps(o).moveForce > 0 <==> o == Player
    ensures GetProps(o).breakForce > 0 <==> o in {Rock, Player}
  {
  }

  /** Only a rock falls, only the player is controlled, only a gem scores when broken
      and only the player ends the game when broken. */
  lemma PropsOwners(o: LevelObj)
    ensures GetProps(o).fall <==> o == Rock
    ensures GetProps(o).control <==> o == Player
    ensures GetProps(o).onBroken == Some(AddScore(1)) <==> o == Gem
    ensures GetProps(o).onBroken == Some(GameOver) <==> o == Player
    ensures GetProps(o).onBroken.None? <==> o in {Wall, Dirt, Rock}
  {
  }

  /** Comparing forces with thresholds in the table: the player's break force of 2 meets
      the thresholds of gem, dirt and player, a rock's break force of 1 only the player's. */
  lemma BreakThresholds(o: LevelObj)
    ensures GetProps(o).brokenWith <= GetProps(Player).breakForce <==> o in {Gem, Dirt, Player}
    ensures GetProps(o).brokenWith <= GetProps(Rock).breakForce <==> o == Player
  {
  }
}
