// Game/Item.cpp: a pickup lying on the map, with a polled lifetime.
module Items {
  import opened Vectors
  import opened Timers

  /** `EItemType` (Game/ItemType.h). */
  datatype ItemType = Clover | Fortify | Ghost | StrongWill | SwiftMove | King | None

  class Item {
    const index: int
    var location: Vector
    var radius: real
    var itemType: ItemType
    /** The moment the item appeared (its `spawnTime` timer's point). */
    var spawnTime: real

    /** `Item( index, location, type )` at clock `now`; `itemRadius` is the configured
        item radius. */
    constructor (index: int, location: Vector, itemType: ItemType, itemRadius: real, now: real)
      ensures this.index == index && this.location == location && this.itemType == itemType
      ensures radius == itemRadius && spawnTime == now
    {
      this.index := index;
      this.location := location;
      this.itemType := itemType;
      radius := itemRadius;
      spawnTime := now;
    }

    function GetType(): (t: ItemType)
      reads this
      ensures t == itemType
    {
      itemType
    }

    method SetType(itemType: ItemType)
      modifies this
      ensures GetType() == itemType
      ensures location == old(location) && radius == old(radius) && spawnTime == old(spawnTime)
    {
      this.itemType := itemType;
    }

    function GetLocation(): (v: Vector)
      reads this
      ensures v == location
    {
      location
    }

    method SetLocation(location: Vector)
      modifies this
      ensures GetLocation() == location
      ensures itemType == old(itemType) && radius == old(radius) && spawnTime == old(spawnTime)
    {
      this.location := location;
    }

    function GetRadius(): (r: real)
      reads this
      ensures r == radius
    {
      radius
    }

    method SetRadius(radius: real)
      modifies this
      ensures GetRadius() == radius
      ensures itemType == old(itemType) && location == old(location) && spawnTime == old(spawnTime)
    {
      this.radius := radius;
    }

    /** Expired once more than `lifeMaxSeconds` have passed since the spawn, strictly. */
    function IsExpired(lifeMaxSeconds: real, now: real): (r: bool)
      reads this
      ensures r <==> now - spawnTime > lifeMaxSeconds
    {
      Passed(spawnTime + lifeMaxSeconds, now)
    }

    /** The index never changes: it is fixed at construction. */
    function GetIndex(): (i: int)
      reads this
      ensures i == index
    {
      index
    }
  }

  /** An item that has expired stays expired as the clock moves on. */
  lemma ExpiredStaysExpired(item: Item, lifeMaxSeconds: real, earlier: real, later: real)
    requires earlier <= later && item.IsExpired(lifeMaxSeconds, earlier)
    ensures item.IsExpired(lifeMaxSeconds, later)
  {
    PassedStaysPassed(item.spawnTime + lifeMaxSeconds, earlier, later);
  }

  /** A freshly made item is not expired at its own creation time, for any non-negative
      lifetime. */
  lemma FreshItemNotExpired(item: Item, lifeMaxSeconds: real, now: real)
    requires item.spawnTime == now && lifeMaxSeconds >= 0.0
    ensures !item.IsExpired(lifeMaxSeconds, now)
  {
  }
}
