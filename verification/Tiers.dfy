/** The four lifecycle tiers of `tier.rs`, coldest last. */
module Tiers {
  import opened Wrappers

  datatype Tier = Hot | Frozen | Snapshot | Detached {
    /** How cold it is. */
    function Rank(): (r: nat)
      ensures r <= 3
    {
      match this
      case Hot => 0
      case Frozen => 1
      case Snapshot => 2
      case Detached => 3
    }

    function Colder(): Option<Tier> {
      match this
      case Hot => Some(Frozen)
      case Frozen => Some(Snapshot)
      case Snapshot => Some(Detached)
      case Detached => None
    }
  }

  predicate Warmer(a: Tier, b: Tier) {
    a.Rank() < b.Rank()
  }

  /** Seconds of idleness that earn each colder tier. */
  datatype IdlePolicy = IdlePolicy(toFrozen: nat, toSnapshot: nat, toDetached: nat) {
    /** The tier this long an idleness has earned. */
    function TierForIdle(idle: nat): Tier {
      if idle >= toDetached then Detached
      else if idle >= toSnapshot then Snapshot
      else if idle >= toFrozen then Frozen
      else Hot
    }
  }
}
