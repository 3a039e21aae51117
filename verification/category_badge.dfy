/** The icon lookup of `src/components/CategoryBadge.tsx`: a category's
    icon name picks one of eleven icons, and anything else shows `Hash`. */
module CategoryBadge {
  import opened TaskStore

  datatype Icon =
    | ShoppingBag | Music | Book | PartyPopper | Bookmark | Briefcase
    | Coffee | Zap | Heart | Star | Clock | Hash

  /** The name that selects each icon other than the fallback. */
  function IconName(i: Icon): (name: string)
    requires i != Hash
  {
    match i
    case ShoppingBag => "shopping-bag"
    case Music => "music"
    case Book => "book"
    case PartyPopper => "party-popper"
    case Bookmark => "bookmark"
    case Briefcase => "briefcase"
    case Coffee => "coffee"
    case Zap => "zap"
    case Heart => "heart"
    case Star => "star"
    case Clock => "clock"
  }

  /** A name the switch recognises. */
  predicate KnownIconName(name: string) {
    exists i: Icon :: i != Hash && IconName(i) == name
  }

  /** `getIcon`: total; every recognised name gives its own icon and every
      other string gives `Hash`. */
  function GetIcon(name: string): (r: Icon)
    ensures r != Hash ==> IconName(r) == name
    ensures r == Hash <==> !KnownIconName(name)
  {
    match name
    case "shopping-bag" => ShoppingBag
    case "music" => Music
    case "book" => Book
    case "party-popper" => PartyPopper
    case "bookmark" => Bookmark
    case "briefcase" => Briefcase
    case "coffee" => Coffee
    case "zap" => Zap
    case "heart" => Heart
    case "star" => Star
    case "clock" => Clock
    case _ => Hash
  }

  /** Looking up an icon's own name gives that icon back, so the eleven
      names select eleven different icons. */
  lemma GetIconOfName(i: Icon)
    requires i != Hash
    ensures GetIcon(IconName(i)) == i
  {
  }

  /** Every seed category shows a recognised icon, none the fallback. */
  lemma DefaultIconsKnown()
    ensures forall c :: c in DefaultCategories ==> GetIcon(c.icon) != Hash
  {
  }
}
