/**
 * The plain data components of an entity: position, the one-slot
 * inventory, health flags, identity, role, bed ownership and sleep
 * quality. They have no behaviour; systems and behaviour nodes change
 * their fields directly.
 */
module DataComponents {

  import opened Common

  class PositionComponent {
    var x: real
    var y: real

    constructor (x0: real, y0: real)
      ensures x == x0 && y == y0
    {
      x := x0;
      y := y0;
    }
  }

  /** The one-slot inventory (the class itself is not part of this model; this is the slot its callers use). */
  class InventoryComponent {
    var carriedItem: Option<Item>

    constructor ()
      ensures carriedItem == None
    {
      carriedItem := None;
    }
  }

  class HealthComponent {
    var dead: bool
    var deathEventFired: bool
    var deathTimer: real
    /** Whether the death drop has happened (used by the needs system; not declared in the shown class). */
    var deathItemsDropped: bool

    constructor ()
      ensures !dead && !deathEventFired && deathTimer == 0.0 && !deathItemsDropped
    {
      dead := false;
      deathEventFired := false;
      deathTimer := 0.0;
      deathItemsDropped := false;
    }
  }

  class IdentityComponent {
    var name: string
    var age: int

    constructor (name0: string, age0: int)
      ensures name == name0 && age == age0
    {
      name := name0;
      age := age0;
    }
  }

  class RoleComponent {
    var role: ColonistRole

    constructor (role0: ColonistRole)
      ensures role == role0
    {
      role := role0;
    }
  }

  /** A bed; owner -1 means unowned. */
  class BedComponent {
    var ownerEntityId: int
    var occupied: bool

    constructor ()
      ensures ownerEntityId == -1 && !occupied
    {
      ownerEntityId := -1;
      occupied := false;
    }
  }

  datatype SleepQuality = NoSleep | OnGround | InBed

  class SleepQualityComponent {
    var lastSleepQuality: SleepQuality

    constructor ()
      ensures lastSleepQuality == NoSleep
    {
      lastSleepQuality := NoSleep;
    }
  }
}
