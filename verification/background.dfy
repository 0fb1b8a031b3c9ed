/** The shop's backgrounds: four of them, the first free, each with a price
    and a position in the shop, and the state of the button under each. */
module Backgrounds {
  import opened Common

  datatype BackgroundType = Bg | Bg2 | Bg3 | Bg4
  {
    function Price(): (p: int)
      ensures p >= 0
    {
      match this
      case Bg => 0
      case Bg2 => 100
      case Bg3 => 200
      case Bg4 => 300
    }

    predicate IsFree() {
      Price() == 0
    }

    /** `displayIndex`: the position in the shop, counted from 1. */
    function DisplayIndex(): (i: int)
      ensures 1 <= i <= 4
    {
      match this
      case Bg => 1
      case Bg2 => 2
      case Bg3 => 3
      case Bg4 => 4
    }
  }

  /** Only the first background is free, and the price rises by 100 with
      each position. */
  lemma PriceTable(t: BackgroundType)
    ensures t.IsFree() <==> t == Bg
    ensures t.Price() == 100 * (t.DisplayIndex() - 1)
  {
  }

  /** The background at a shop position, the inverse of `displayIndex`. */
  function AtDisplayIndex(i: int): (r: Option<BackgroundType>)
    ensures r.Some? <==> 1 <= i <= 4
  {
    match i
    case 1 => Some(Bg)
    case 2 => Some(Bg2)
    case 3 => Some(Bg3)
    case 4 => Some(Bg4)
    case _ => None
  }

  /** `displayIndex` is a bijection onto 1 to 4. */
  lemma DisplayIndexBijective(t: BackgroundType, i: int)
    ensures AtDisplayIndex(t.DisplayIndex()) == Some(t)
    ensures AtDisplayIndex(i).Some? ==> AtDisplayIndex(i).value.DisplayIndex() == i
  {
  }

  /** The identifier is dropped. */
  datatype BackgroundItem = BackgroundItem(kind: BackgroundType, isOwned: bool)
  {
    function Price(): int { kind.Price() }

    function DisplayIndex(): int { kind.DisplayIndex() }
  }

  /** `BackgroundItem(type:)`: owned from the start only when free. */
  function NewItem(t: BackgroundType): (item: BackgroundItem)
    ensures item.kind == t
    ensures item.isOwned <==> t == Bg
    ensures item.Price() == t.Price()
  {
    BackgroundItem(t, t.IsFree())
  }

  datatype ButtonState = Selected | Select | Buy(price: int)
  {
    /** `isEnabled`: every state but the current selection can be pressed. */
    predicate IsEnabled() {
      match this
      case Selected => false
      case Select => true
      case Buy(_) => true
    }
  }

  lemma OnlySelectedDisabled(b: ButtonState)
    ensures !b.IsEnabled() <==> b == Selected
  {
  }
}
