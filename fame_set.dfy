/** A player's fame set: at most one record per zone category 1..6, keyed by
    the category id. This module states, on values, what each operation of
    the fame service does to the whole set, and which record the service
    picks when it needs the one for a world. Iteration over the set is in
    ascending category id. */
module FameSet {
  import opened LevelTable
  import opened FameRules

  datatype Option<T> = None | Some(value: T)

  /** The zone categories a player has fame for. */
  const FIRST_ID: int := 1
  const LAST_ID: int := 6

  predicate IdsInRange(keys: set<int>)
  {
    forall k :: k in keys ==> FIRST_ID <= k <= LAST_ID
  }

  /** The record a pass over ids FIRST_ID..hi-1 in ascending order ends on
      when it keeps the last one whose world is `worldId`. */
  function LastMatchingBelow(keys: set<int>, worldOf: int -> int, worldId: int, hi: int): (r: Option<int>)
    ensures r.None? <==> forall k :: k in keys && FIRST_ID <= k < hi ==> worldOf(k) != worldId
    ensures r.Some? ==> FIRST_ID <= r.value < hi && r.value in keys && worldOf(r.value) == worldId
    ensures r.Some? ==> forall k :: k in keys && k < hi && worldOf(k) == worldId ==> k <= r.value
    decreases hi - FIRST_ID
  {
    if hi <= FIRST_ID then None
    else if hi - 1 in keys && worldOf(hi - 1) == worldId then Some(hi - 1)
    else LastMatchingBelow(keys, worldOf, worldId, hi - 1)
  }

  /** The record a search of the whole set for `worldId` returns. */
  function LastMatching(keys: set<int>, worldOf: int -> int, worldId: int): Option<int>
  {
    LastMatchingBelow(keys, worldOf, worldId, LAST_ID + 1)
  }

  /** The set after gaining `points` in world `worldId`. */
  function GainAll(m: map<int, Fame>, worldOf: int -> int, worldId: int, points: int,
                   expForLevel: Thresholds): map<int, Fame>
  {
    map k | k in m :: if worldOf(k) == worldId then Gain(m[k], points, expForLevel) else m[k]
  }

  /** The set after a death in world `worldId`. */
  function DieAll(m: map<int, Fame>, worldOf: int -> int, worldId: int): map<int, Fame>
  {
    map k | k in m :: if worldOf(k) == worldId && m[k].exp != 0 then Die(m[k]) else m[k]
  }

  /** The set after login: every category present, missing ones new. */
  function LoginAll(m: map<int, Fame>): map<int, Fame>
  {
    map k | FIRST_ID <= k <= LAST_ID :: if k in m then m[k] else NEW_FAME
  }

  /** The set after recovering the lost experience of world `worldId`: the
      last matching record's expLoss is gained by every record of that world,
      then that record's expLoss is cleared. */
  function RecoverAll(m: map<int, Fame>, worldOf: int -> int, worldId: int,
                      expForLevel: Thresholds): map<int, Fame>
  {
    match LastMatching(m.Keys, worldOf, worldId)
    case None => m
    case Some(k) =>
      var g := GainAll(m, worldOf, worldId, m[k].expLoss, expForLevel);
      g[k := g[k].(expLoss := 0)]
  }

  // ---------------------------------------------------------------------
  // Properties of the set operations
  // ---------------------------------------------------------------------

  /** A gain creates no record and leaves every record of another world as it was. */
  lemma GainAllChangesOnlyCurrentWorld(m: map<int, Fame>, worldOf: int -> int, worldId: int,
                                       points: int, expForLevel: Thresholds)
    ensures GainAll(m, worldOf, worldId, points, expForLevel).Keys == m.Keys
    ensures forall k :: k in m && worldOf(k) != worldId ==>
              GainAll(m, worldOf, worldId, points, expForLevel)[k] == m[k]
    ensures forall k :: k in m ==> GainAll(m, worldOf, worldId, points, expForLevel)[k].expLoss == m[k].expLoss
  {
  }

  /** With the multiplier at 0, a death leaves a set whose levels are all
      non-negative unchanged. */
  lemma DieAllChangesNothing(m: map<int, Fame>, worldOf: int -> int, worldId: int)
    requires forall k :: k in m ==> 0 <= m[k].level
    ensures DieAll(m, worldOf, worldId) == m
  {
    forall k | k in m ensures DieAll(m, worldOf, worldId)[k] == m[k] {
      DieIsIdentityIff(m[k]);
    }
  }

  /** Login leaves every category 1..6 present, keeps the records that were
      there and starts the others at level 1 with no experience. */
  lemma LoginAllCompletes(m: map<int, Fame>)
    ensures forall k :: k in LoginAll(m) <==> FIRST_ID <= k <= LAST_ID
    ensures forall k :: k in m && FIRST_ID <= k <= LAST_ID ==> LoginAll(m)[k] == m[k]
    ensures forall k :: FIRST_ID <= k <= LAST_ID && k !in m ==> LoginAll(m)[k] == NEW_FAME
  {
  }

  /** A second login changes nothing. */
  lemma LoginAllIdempotent(m: map<int, Fame>)
    ensures LoginAll(LoginAll(m)) == LoginAll(m)
  {
  }

  /** Recovery changes nothing when no record matches the world; otherwise it
      clears the matching record's expLoss, adds that expLoss to every record
      of the world through the gain rule and leaves other worlds alone. */
  lemma RecoverAllProperties(m: map<int, Fame>, worldOf: int -> int, worldId: int,
                             expForLevel: Thresholds)
    ensures LastMatching(m.Keys, worldOf, worldId).None? ==>
              RecoverAll(m, worldOf, worldId, expForLevel) == m
    ensures LastMatching(m.Keys, worldOf, worldId).Some? ==>
              var k := LastMatching(m.Keys, worldOf, worldId).value;
              var r := RecoverAll(m, worldOf, worldId, expForLevel);
              r.Keys == m.Keys &&
              r[k] == Gain(m[k], m[k].expLoss, expForLevel).(expLoss := 0) &&
              (forall j :: j in m && j != k && worldOf(j) == worldId ==>
                 r[j] == Gain(m[j], m[k].expLoss, expForLevel)) &&
              (forall j :: j in m && worldOf(j) != worldId ==> r[j] == m[j])
  {
  }

  /** Recovering a second time changes nothing exactly when every record of
      the world is then below its level's threshold: the second recovery
      gains 0 points, and a gain of 0 still clamps or levels up a record that
      has reached its threshold. */
  lemma RecoverAgainIsIdentityIff(m: map<int, Fame>, worldOf: int -> int, worldId: int,
                                  expForLevel: Thresholds)
    requires IdsInRange(m.Keys)
    ensures var r := RecoverAll(m, worldOf, worldId, expForLevel);
      RecoverAll(r, worldOf, worldId, expForLevel) == r <==>
      forall k :: k in r && worldOf(k) == worldId ==> r[k].exp < expForLevel(r[k].level)
  {
    var r := RecoverAll(m, worldOf, worldId, expForLevel);
    RecoverAllProperties(m, worldOf, worldId, expForLevel);
    forall j | j in r && worldOf(j) == worldId {
      GainZeroIsIdentityIff(r[j], expForLevel);
    }
  }
}
