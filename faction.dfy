/**
 * One faction entity: the persisted and derived fields that the loader and
 * the exporter read and write, as a value (`FactionState`) and as the
 * mutable object the registry holds (`Faction`).
 */
module FactionEntity {
  import opened Enums

  /** The upper bound the entity's favor setter enforces. */
  const MaxFavor: real := 35331.0

  datatype FactionState = FactionState(
    playerReputation: real,
    favor: real,
    discovery: Discovery,
    isMember: bool,
    alreadyInvited: bool,
    isBanned: bool,
    augmentations: seq<string>)

  /** The state of a freshly constructed faction. */
  const DefaultState := FactionState(0.0, 0.0, Unknown, false, false, false, [])

  /** Reputation is non-negative and favor lies in [0, MaxFavor]. */
  predicate InRange(f: FactionState) {
    f.playerReputation >= 0.0 && 0.0 <= f.favor <= MaxFavor
  }

  /** Clamping to a lower bound only, the upper bound being the largest number. */
  function ClampNumber(x: real, lo: real): (r: real)
    ensures r >= lo && r >= x
    ensures r == x || r == lo
  {
    if x < lo then lo else x
  }

  /** The favor setter's rule: the stored favor is the value clamped to [0, MaxFavor]. */
  function ClampFavor(x: real): (r: real)
    ensures 0.0 <= r <= MaxFavor
    ensures 0.0 <= x <= MaxFavor ==> r == x
    ensures x > MaxFavor ==> r == MaxFavor
    ensures x < 0.0 ==> r == 0.0
  {
    if x < 0.0 then 0.0 else if x > MaxFavor then MaxFavor else x
  }

  class Faction {
    const name: FactionName
    var playerReputation: real
    var favor: real
    var discovery: Discovery
    var isMember: bool
    var alreadyInvited: bool
    var isBanned: bool
    var augmentations: seq<string>

    constructor (name: FactionName)
      ensures this.name == name && State() == DefaultState
    {
      this.name := name;
      playerReputation, favor, discovery := 0.0, 0.0, Unknown;
      isMember, alreadyInvited, isBanned := false, false, false;
      augmentations := [];
    }

    /** The fields of this faction as a value. */
    function State(): FactionState
      reads this
    {
      FactionState(playerReputation, favor, discovery, isMember, alreadyInvited, isBanned, augmentations)
    }

    method SetFavor(value: real)
      modifies this
      ensures State() == old(State()).(favor := ClampFavor(value))
    {
      favor := ClampFavor(value);
    }
  }
}
