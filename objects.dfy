/**
 * The cell kinds of a level (src/objects.rs) with their character table and
 * capability predicates (the Properties trait of src/objects.rs and
 * src/level/traits.rs: every predicate is false unless the kind overrides it).
 */
module Objects {
  import opened Wrappers

  datatype Object = Gem | Wall | Dirt | Rock | Void | Unknown | Player
  {
    /** Void is the placeholder left behind by a move. */
    predicate Placeholder()
    {
      match this
      case Void => true
      case _ => false
    }

    /** Only a rock answers to the gravity pass. */
    predicate CanBeMoved()
    {
      match this
      case Rock => true
      case _ => false
    }

    predicate IsPlayer()
    {
      match this
      case Player => true
      case _ => false
    }

    /** Gems and dirt are destroyed by the player walking into them. */
    predicate CanBeBroken()
    {
      match this
      case Gem => true
      case Dirt => true
      case _ => false
    }
  }

  /** Object::new: the level character table, total because every other character is Unknown. */
  function New(c: char): Object
  {
    match c
    case '+' => Gem
    case '#' => Wall
    case '*' => Dirt
    case 'O' => Rock
    case ' ' => Void
    case 'p' => Player
    case _ => Unknown
  }

  /** The fallible lookup the level parser uses: the same table, failing on anything else. */
  function ParseChar(c: char): Option<Object>
  {
    var o := New(c);
    if o == Unknown then None else Some(o)
  }

  /** The message a parse failure carries, naming the offending character. */
  function ParseErrorMessage(c: char): (msg: string)
    ensures c in msg
  {
    var msg := "Can't parse char `" + [c] + "`";
    assert msg[18] == c;
    msg
  }

  /** Labels::char, the glyph a kind is saved as; Unknown's glyph is supplied by the caller. */
  function Glyph(o: Object, unknownGlyph: char): char
  {
    match o
    case Gem => '+'
    case Wall => '#'
    case Dirt => '*'
    case Rock => 'O'
    case Void => ' '
    case Player => 'p'
    case Unknown => unknownGlyph
  }

  /** Object::all_objects: the kinds the editor can paint, in palette order. */
  function AllObjects(): (r: seq<Object>)
    ensures |r| == 6
    ensures forall i, j :: 0 <= i < j < |r| ==> r[i] != r[j]
    ensures Unknown !in r
  {
    [Gem, Wall, Dirt, Rock, Void, Player]
  }

  /** The palette holds every kind except Unknown. */
  lemma AllObjectsCover(o: Object)
    ensures o in AllObjects() <==> o != Unknown
  {
    var r := AllObjects();
    match o
    case Gem => assert r[0] == o;
    case Wall => assert r[1] == o;
    case Dirt => assert r[2] == o;
    case Rock => assert r[3] == o;
    case Void => assert r[4] == o;
    case Player => assert r[5] == o;
    case Unknown =>
  }

  /** The palette order, which Period and Comma step through: gem, wall, dirt, rock,
      void, then player. */
  lemma PaletteOrder()
    ensures AllObjects()[0] == Gem && AllObjects()[1] == Wall && AllObjects()[2] == Dirt
    ensures AllObjects()[3] == Rock && AllObjects()[4] == Void && AllObjects()[5] == Player
  {
  }

  /** Object::get_void. */
  function GetVoid(): (o: Object)
    ensures o.Placeholder() && !o.CanBeMoved() && !o.IsPlayer() && !o.CanBeBroken()
  {
    Void
  }

  /** The object a move leaves behind (the level's placeholder). */
  function GetPlaceholder(): (o: Object)
    ensures o.Placeholder()
  {
    Void
  }

  /** The table maps exactly the six glyphs to the six known kinds. */
  lemma NewTable(c: char)
    ensures New(c) != Unknown <==> c in {'+', '#', '*', 'O', ' ', 'p'}
    ensures New('+') == Gem && New('#') == Wall && New('*') == Dirt
    ensures New('O') == Rock && New(' ') == Void && New('p') == Player
  {
  }

  /** Every known kind round-trips through its glyph, and every recognised
      character round-trips through its kind. */
  lemma GlyphRoundTrip(o: Object, c: char, u: char)
    ensures o != Unknown ==> New(Glyph(o, u)) == o
    ensures ParseChar(c) == Some(o) ==> Glyph(o, u) == c
  {
  }

  /** Each capability is held by exactly the kinds that override it. */
  lemma CapabilityOwners(o: Object)
    ensures o.Placeholder() <==> o == Void
    ensures o.CanBeMoved() <==> o == Rock
    ensures o.IsPlayer() <==> o == Player
    ensures o.CanBeBroken() <==> o == Gem || o == Dirt
    ensures o == Wall || o == Unknown ==>
      !o.Placeholder() && !o.CanBeMoved() && !o.IsPlayer() && !o.CanBeBroken()
  {
  }
}
