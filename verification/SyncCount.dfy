/** How many synchronous standbys are asked for, and what that number guarantees. */
module SyncCount {
  import opened Common

  datatype Setting = All | Majority | Exactly(count: int)

  // The configuration admits positive counts only.
  predicate Admitted(setting: Setting) {
    setting.Exactly? ==> setting.count > 0
  }

  // Python's // is floor division, which for a non-negative dividend is Dafny's.
  function SynchronousNodeCount(setting: Setting, planned: nat): int {
    match setting
    case All => planned - 1
    case Majority => planned / 2
    case Exactly(count) => if count < planned - 1 then count else planned - 1
  }

  datatype Configuration = Configuration(count: int, strict: bool)

  function SynchronousConfiguration(
    setting: Setting, planned: nat, initialised: bool, members: nat, strictWanted: bool): Configuration
  {
    var count := SynchronousNodeCount(setting, planned);
    Configuration(count, initialised && members > 1 && strictWanted && count > 0)
  }

  // The count leaves room for the leader, and is none exactly for a lone unit.
  lemma CountIsInRange(setting: Setting, planned: nat)
    requires Admitted(setting)
    ensures planned >= 1 <==> 0 <= SynchronousNodeCount(setting, planned) <= planned - 1
    ensures planned >= 1 ==> (SynchronousNodeCount(setting, planned) == 0 <==> planned == 1)
  {
  }

  lemma CountIsMonotone(setting: Setting, planned: nat, more: nat)
    requires Admitted(setting) && planned <= more
    ensures SynchronousNodeCount(setting, planned) <= SynchronousNodeCount(setting, more)
  {
  }

  // Each setting is the most its words allow: no admitted setting asks for more than "all"; a count
  // is asked for up to that; and "majority" is the least count with which the units that hold a
  // write, the leader among them, are a majority of the planned ones.
  lemma SettingsMeanTheirWords(planned: nat, other: Setting, count: nat, n: nat)
    requires planned >= 1 && count >= 1 && Admitted(other)
    ensures SynchronousNodeCount(other, planned) <= SynchronousNodeCount(All, planned)
    ensures SynchronousNodeCount(Exactly(count), planned) ==
      if SynchronousNodeCount(All, planned) < count then SynchronousNodeCount(All, planned) else count
    ensures 2 * (n + 1) > planned <==> n >= SynchronousNodeCount(Majority, planned)
  {
  }

  // Strict mode never waits for a standby that is not asked for, and changes nothing about how many
  // are asked for.
  lemma StrictAsksForAStandby(setting: Setting, planned: nat, initialised: bool, members: nat, strictWanted: bool)
    requires Admitted(setting) && planned >= 1
    ensures var configuration := SynchronousConfiguration(setting, planned, initialised, members, strictWanted);
      configuration.count == SynchronousNodeCount(setting, planned) &&
      (configuration.strict <==> initialised && members > 1 && strictWanted && planned > 1) &&
      (configuration.strict ==> configuration.count >= 1)
  {
  }

  // ---- Quorums ----------------------------------------------------------------------------

  lemma Pigeonhole<T>(units: set<T>, a: set<T>, b: set<T>)
    requires a <= units && b <= units && |a| + |b| > |units|
    ensures a * b != {}
  {
    Subset(a + b, units);
    assert |a + b| == |a| + |b| - |a * b|;
  }

  // The units that hold every acknowledged write: the leader and as many standbys as asked for.
  ghost predicate Acknowledges<T>(units: set<T>, leader: T, standbys: set<T>, count: int) {
    leader in units && standbys <= units && leader !in standbys && |standbys| == count
  }

  ghost predicate IsMajority<T>(units: set<T>, votes: set<T>) {
    votes <= units && 2 * |votes| > |units|
  }

  // With "majority", whatever majority survives holds every acknowledged write.
  lemma MajoritiesHoldTheWrites<T>(units: set<T>, leader: T, standbys: set<T>, votes: set<T>)
    requires Acknowledges(units, leader, standbys, SynchronousNodeCount(Majority, |units|))
    requires IsMajority(units, votes)
    ensures votes * (standbys + {leader}) != {}
  {
    assert |standbys + {leader}| == |standbys| + 1;
    Pigeonhole(units, votes, standbys + {leader});
  }

  // For any count: every choice of standbys is met by every majority exactly when the leader and
  // its standbys are at least half of the units. So "majority" asks for one standby more than
  // needed where the number of units is even, and a smaller exact count loses the guarantee.
  lemma EveryMajorityHoldsTheWritesExactly<T(!new)>(units: set<T>, leader: T, count: nat)
    requires leader in units && count <= |units| - 1
    ensures (forall standbys, votes :: Acknowledges(units, leader, standbys, count) && IsMajority(units, votes) ==>
        votes * (standbys + {leader}) != {}) <==>
      2 * (count + 1) >= |units|
  {
    if 2 * (count + 1) >= |units| {
      forall standbys, votes | Acknowledges(units, leader, standbys, count) && IsMajority(units, votes)
        ensures votes * (standbys + {leader}) != {}
      {
        assert |standbys + {leader}| == |standbys| + 1;
        Pigeonhole(units, votes, standbys + {leader});
      }
    } else {
      assert |units - {leader}| == |units| - 1;
      var standbys := Choose(units - {leader}, count);
      var votes := units - (standbys + {leader});
      assert Acknowledges(units, leader, standbys, count);
      assert |standbys + {leader}| == count + 1;
      assert units == votes + (standbys + {leader});
      assert |units| == |votes| + (count + 1);
      assert IsMajority(units, votes);
      assert votes * (standbys + {leader}) == {};
    }
  }

  lemma {:induction false} Choose<T>(from: set<T>, count: nat) returns (chosen: set<T>)
    requires count <= |from|
    ensures chosen <= from && |chosen| == count
    decreases count
  {
    if count == 0 || from == {} {
      chosen := {};
    } else {
      var x :| x in from;
      var rest := Choose(from - {x}, count - 1);
      chosen := rest + {x};
    }
  }
}
