/** The fame service: fame records as objects updated in place, the player
    that owns them, and the service whose operations walk a player's records
    (or the weekly batch) and write each changed record back to the database.
    The database row of a record is modelled by a ghost field of the record
    holding the state last written. */
module FameService {
  import opened LevelTable
  import opened FameRules
  import opened FameSet

  /** One fame record of one player, for one zone category. */
  class PlayerFame {
    const id: int
    const ownerId: int
    var level: int
    var exp: int
    var expLoss: int
    /** The record as the database last received it. */
    ghost var stored: Fame

    constructor (id: int, level: int, exp: int, expLoss: int, ownerId: int)
      ensures this.id == id && this.ownerId == ownerId
      ensures this.level == level && this.exp == exp && this.expLoss == expLoss
    {
      this.id := id;
      this.ownerId := ownerId;
      this.level := level;
      this.exp := exp;
      this.expLoss := expLoss;
    }

    function State(): Fame
      reads this
    {
      Fame(level, exp, expLoss)
    }

    /** The database row holds the record's current state. */
    ghost predicate Saved()
      reads this
    {
      stored == State()
    }
  }

  /** The part of a player the fame service uses. */
  class Player {
    const objectId: int
    var worldId: int
    var fame: map<int, PlayerFame>

    ghost function Fames(): map<int, Fame>
      reads this, fame.Values
    {
      States(fame)
    }
  }

  /** A fame set is keyed by category id 1..6, each record under its own id;
      distinct ids therefore hold distinct records. */
  predicate WellFormed(m: map<int, PlayerFame>)
  {
    forall k :: k in m ==> FIRST_ID <= k <= LAST_ID && m[k].id == k
  }

  ghost function States(m: map<int, PlayerFame>): map<int, Fame>
    reads m.Values
  {
    map k | k in m :: m[k].State()
  }

  /** The fame service, with the experience table and the world of each zone
      category as the configuration it reads. Each database write of a record
      (addPlayerFame, updatePlayerFame, reduceWeekly) is the ghost assignment
      of the record's state to its `stored` row. */
  class PlayerFameService {
    const expForLevel: Thresholds
    const worldOf: int -> int

    constructor (expForLevel: Thresholds, worldOf: int -> int)
      ensures this.expForLevel == expForLevel && this.worldOf == worldOf
    {
      this.expForLevel := expForLevel;
      this.worldOf := worldOf;
    }

    /** Installs the records loaded from the database and creates, in id
        order, a new record for each category that has none, writing each
        new record to the database. */
    method OnPlayerLogin(player: Player, loaded: map<int, PlayerFame>)
      requires WellFormed(loaded)
      modifies player
      ensures player.worldId == old(player.worldId)
      ensures WellFormed(player.fame)
      ensures forall k :: k in player.fame <==> FIRST_ID <= k <= LAST_ID
      ensures forall k :: k in loaded ==> player.fame[k] == loaded[k]
      ensures forall k :: k in player.fame && k !in loaded ==>
                fresh(player.fame[k]) && player.fame[k].ownerId == player.objectId &&
                player.fame[k].Saved()
      ensures player.Fames() == LoginAll(States(loaded))
    {
      player.fame := loaded;
      var i := FIRST_ID;
      while i <= LAST_ID
        invariant FIRST_ID <= i <= LAST_ID + 1
        invariant player.worldId == old(player.worldId)
        invariant WellFormed(player.fame)
        invariant forall k :: k in player.fame <==> k in loaded || FIRST_ID <= k < i
        invariant forall k :: k in loaded ==> player.fame[k] == loaded[k]
        invariant forall k :: k in player.fame && k !in loaded ==>
                    fresh(player.fame[k]) && player.fame[k].ownerId == player.objectId &&
                    player.fame[k].State() == NEW_FAME && player.fame[k].Saved()
      {
        if i !in player.fame {
          var fame := new PlayerFame(i, 1, 0, 0, player.objectId);
          player.fame := player.fame[fame.id := fame];
          fame.stored := fame.State();
        }
        i := i + 1;
      }
    }

    /** One record's share of a gain: the clamp at the maximum level, the
        single level-up carrying the overflow, or the plain add; the record
        is then written to the database. */
    method GainRecord(playerFame: PlayerFame, points: int)
      modifies playerFame
      ensures playerFame.State() == Gain(old(playerFame.State()), points, expForLevel)
      ensures playerFame.Saved()
    {
      var exp := playerFame.exp;
      if playerFame.level == MAX_LEVEL && exp + points > expForLevel(playerFame.level) {
        playerFame.exp := expForLevel(9);
      } else if exp + points >= expForLevel(playerFame.level) {
        var diff := exp + points - expForLevel(playerFame.level);
        playerFame.level := playerFame.level + 1;
        playerFame.exp := diff;
      } else {
        playerFame.exp := exp + points;
      }
      playerFame.stored := playerFame.State();
    }

    /** Adds `points` to every record of the player's current world, each by
        the gain rule, writing each such record to the database; records of
        other worlds, and their rows, are left alone. */
    method AddFameExp(player: Player, points: int)
      requires WellFormed(player.fame)
      modifies player.fame.Values
      ensures forall k :: k in player.fame && worldOf(k) == player.worldId ==>
                player.fame[k].State() == Gain(old(player.fame[k].State()), points, expForLevel) &&
                player.fame[k].Saved()
      ensures forall k :: k in player.fame && worldOf(k) != player.worldId ==> unchanged(player.fame[k])
      ensures player.Fames() == GainAll(old(player.Fames()), worldOf, player.worldId, points, expForLevel)
    {
      var fames := player.fame;
      var id := FIRST_ID;
      while id <= LAST_ID
        invariant FIRST_ID <= id <= LAST_ID + 1
        invariant WellFormed(fames)
        invariant forall k :: k in fames && (id <= k || worldOf(k) != player.worldId) ==> unchanged(fames[k])
        invariant forall k :: k in fames && k < id && worldOf(k) == player.worldId ==>
                    fames[k].State() == Gain(old(fames[k].State()), points, expForLevel) && fames[k].Saved()
      {
        if id in fames && worldOf(id) == player.worldId {
          var playerFame := fames[id];
          assert forall k :: k in fames && k != id ==> fames[k] != playerFame;
          GainRecord(playerFame, points);
        }
        id := id + 1;
      }
    }

    /** One record's share of a death: the loss is split into a recoverable
        and an unrecoverable part, and exp is zeroed when the level (not the
        exp) is below the loss; the record is then written to the database. */
    method DieRecord(playerFame: PlayerFame)
      modifies playerFame
      ensures playerFame.State() == Die(old(playerFame.State()))
      ensures playerFame.Saved()
    {
      var loss := playerFame.exp * DEATH_EXP_MULTIPLIER;
      var unrecoverable := Unrecoverable(loss);
      var recoverable := loss - unrecoverable;
      if playerFame.level - loss < 0 {
        playerFame.exp := 0;
      } else {
        playerFame.exp := playerFame.exp - loss;
      }
      playerFame.expLoss := playerFame.expLoss + recoverable;
      playerFame.stored := playerFame.State();
    }

    /** Applies the death rule to every record of the player's current world
        that holds experience, writing each such record to the database; all
        other records, and their rows, are left alone. */
    method OnPlayerDie(player: Player)
      requires WellFormed(player.fame)
      modifies player.fame.Values
      ensures forall k :: k in player.fame && worldOf(k) == player.worldId && old(player.fame[k].exp) != 0 ==>
                player.fame[k].State() == Die(old(player.fame[k].State())) && player.fame[k].Saved()
      ensures forall k :: k in player.fame && (worldOf(k) != player.worldId || old(player.fame[k].exp) == 0) ==>
                unchanged(player.fame[k])
      ensures player.Fames() == DieAll(old(player.Fames()), worldOf, player.worldId)
    {
      var fames := player.fame;
      var id := FIRST_ID;
      while id <= LAST_ID
        invariant FIRST_ID <= id <= LAST_ID + 1
        invariant WellFormed(fames)
        invariant forall k :: k in fames && (id <= k || worldOf(k) != player.worldId || old(fames[k].exp) == 0) ==>
                    unchanged(fames[k])
        invariant forall k :: k in fames && k < id && worldOf(k) == player.worldId && old(fames[k].exp) != 0 ==>
                    fames[k].State() == Die(old(fames[k].State())) && fames[k].Saved()
      {
        if id in fames && worldOf(id) == player.worldId && fames[id].exp != 0 {
          var playerFame := fames[id];
          assert forall k :: k in fames && k != id ==> fames[k] != playerFame;
          DieRecord(playerFame);
        }
        id := id + 1;
      }
    }

    /** The record of the player's set for world `worldId` that a pass in id
        order meets last, or null when none matches. */
    method FameLevelByWorld(player: Player, worldId: int) returns (playerFame: PlayerFame?)
      requires WellFormed(player.fame)
      ensures playerFame == null <==> LastMatching(player.fame.Keys, worldOf, worldId).None?
      ensures playerFame != null ==>
                playerFame == player.fame[LastMatching(player.fame.Keys, worldOf, worldId).value]
      ensures playerFame != null ==> playerFame.id in player.fame && worldOf(playerFame.id) == worldId
    {
      playerFame := null;
      var id := FIRST_ID;
      while id <= LAST_ID
        invariant FIRST_ID <= id <= LAST_ID + 1
        invariant match LastMatchingBelow(player.fame.Keys, worldOf, worldId, id)
                  case None => playerFame == null
                  case Some(k) => playerFame == player.fame[k]
      {
        if id in player.fame && worldOf(id) == worldId {
          playerFame := player.fame[id];
        }
        id := id + 1;
      }
    }

    /** Gives back the experience lost in the player's current world: the
        world's last record's expLoss is gained by the world's records, then
        cleared and written to the database. Nothing happens without one. */
    method RecoverExpFame(player: Player)
      requires WellFormed(player.fame)
      modifies player.fame.Values
      ensures player.Fames() == RecoverAll(old(player.Fames()), worldOf, player.worldId, expForLevel)
      ensures forall k :: k in player.fame && worldOf(k) != player.worldId ==> unchanged(player.fame[k])
      ensures LastMatching(player.fame.Keys, worldOf, player.worldId).Some? ==>
                forall k :: k in player.fame && worldOf(k) == player.worldId ==> player.fame[k].Saved()
    {
      ghost var before := player.Fames();
      assert before.Keys == player.fame.Keys;
      var fame := FameLevelByWorld(player, player.worldId);
      if fame != null {
        ghost var k := fame.id;
        assert fame.expLoss == before[k].expLoss;
        AddFameExp(player, fame.expLoss);
        ghost var gained := player.Fames();
        fame.expLoss := 0;
        fame.stored := fame.State();
        forall j | j in player.fame
          ensures player.Fames()[j] == gained[k := gained[k].(expLoss := 0)][j]
        {
          if j != k {
            assert player.fame[j] != fame;
          }
        }
        assert player.Fames().Keys == gained.Keys;
      }
    }

    /** The weekly job over every stored record: each is decayed by the
        weekly rule and written back, in the order the database gave them. */
    method OnResetWeekly(famesReduce: seq<PlayerFame>)
      requires forall i, j :: 0 <= i < j < |famesReduce| ==> famesReduce[i] != famesReduce[j]
      modifies famesReduce
      ensures forall i :: 0 <= i < |famesReduce| ==>
                famesReduce[i].State() == Decay(old(famesReduce[i].State()), expForLevel) &&
                famesReduce[i].Saved()
    {
      for n := 0 to |famesReduce|
        invariant forall i :: 0 <= i < |famesReduce| ==>
                    if i < n then famesReduce[i].State() == Decay(old(famesReduce[i].State()), expForLevel) &&
                                  famesReduce[i].Saved()
                    else unchanged(famesReduce[i])
      {
        var fame := famesReduce[n];
        var reduce := fame.exp * WEEKLY_EXP_MULTIPLIER;
        if fame.exp - reduce <= 0 {
          fame.level := fame.level - 1;
          var changeExp := expForLevel(fame.level) - RoundPenalty(fame.exp);
          fame.exp := changeExp;
          fame.stored := fame.State();
          continue;
        }
        fame.exp := fame.exp - reduce;
        fame.stored := fame.State();
      }
    }
  }
}
