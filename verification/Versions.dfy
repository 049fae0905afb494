/** The (epoch, sequence) token and its total order. */
module Versions {
  import opened Bytes

  datatype Version = Version(epoch: u64, sequence: u64) {

    /** Version.Compare: -1, 0 or 1. */
    function Compare(other: Version): int {
      if epoch < other.epoch || (epoch == other.epoch && sequence < other.sequence) then -1
      else if epoch > other.epoch || (epoch == other.epoch && sequence > other.sequence) then 1
      else 0
    }

    /** Compare(other) < 0 */
    predicate Lt(other: Version) {
      epoch < other.epoch || (epoch == other.epoch && sequence < other.sequence)
    }

    /** Compare(other) <= 0 */
    predicate Le(other: Version) {
      !other.Lt(this)
    }

    predicate IsZero() {
      this == Zero
    }
  }

  const Zero := Version(0, 0)

  /** The number a version stands for in the single order of the authority. */
  function Rank(v: Version): int {
    v.epoch * 0x1_0000_0000_0000_0000 + v.sequence
  }

  /** Compare is the sign of the rank difference, so it is a total order with least element Zero. */
  lemma CompareIsRankOrder(a: Version, b: Version)
    ensures (a.Lt(b) <==> a.Compare(b) < 0) && (a.Le(b) <==> a.Compare(b) <= 0)
    ensures a.Compare(b) < 0 <==> Rank(a) < Rank(b)
    ensures a.Compare(b) == 0 <==> a == b
    ensures a.Compare(b) > 0 <==> Rank(a) > Rank(b)
    ensures Zero.Le(a)
  {
  }

  function Max(a: Version, b: Version): (m: Version)
    ensures a.Le(m) && b.Le(m) && (m == a || m == b)
  {
    if a.Lt(b) then b else a
  }
}
