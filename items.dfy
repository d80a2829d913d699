/** The matchable unit of the game (NormalItem). */
module Items {

  /** A value of the NormalItem type enumeration, as its index. */
  type ItemType = nat

  /** An item; its identity is the object's, its type never changes once set. */
  class Item {
    const kind: ItemType

    constructor (kind: ItemType)
      ensures this.kind == kind
    {
      this.kind := kind;
    }
  }
}
