/** Properties of one whole `apply_update`: the document invariants it keeps,
    which rooms it can touch, and the behaviour on concrete turns. */
module ApplyLaws {
  import opened Wrappers
  import opened Lists
  import opened World
  import opened Commands
  import opened UpdateRules
  import opened UpdateLaws

  predicate NonNegative(v: Option<int>) {
    v.None? || v.value >= 0
  }

  /** A duplicate-free inventory and no negative counter. */
  predicate PlayerOk(p: Player) {
    NoDup(p.inventory) && NonNegative(p.health) && NonNegative(p.mana) && NonNegative(p.gold) && NonNegative(p.xp)
  }

  /** Items and NPCs are each listed at most once in a room. */
  predicate RoomOk(room: Location) {
    NoDup(room.itemsPresent) && NoDup(room.npcsPresent)
  }

  /** The document invariants the engine keeps. (`equipped` is not among
      them: equipping appends without de-duplicating.) */
  predicate WellFormed(s: GameState) {
    && (s.player.Some? ==> PlayerOk(s.player.value))
    && (forall k :: k in s.locations ==> RoomOk(s.locations[k]))
    && (forall k :: k in s.npcs ==> NonNegative(s.npcs[k].health))
    && (forall k :: k in s.quests ==> NoDup(Done(s.quests[k])))
    && |s.eventHistory| <= HistoryLimit
  }

  /** The location the room and NPC stages act on: the one after movement. */
  function PostMoveLocation(s: GameState, cmd: Command): Option<string> {
    var ch := cmd.locationChanges;
    if ch.newLocationId.Some? && ch.newLocationId.value != "" then ch.newLocationId
    else CurrentLocation(EnsurePlayer(s))
  }

  lemma InventoryStagePreserves(s: GameState, ch: InventoryChanges)
    requires s.player.Some? && WellFormed(s)
    ensures WellFormed(InventoryStage(s, ch))
  {
    InventoryLaw(s.player.value, ch);
  }

  lemma StatsStagePreserves(s: GameState, c: StatsChanges)
    requires s.player.Some? && WellFormed(s)
    ensures WellFormed(StatsStage(s, c))
  {
    StatsLaw(s.player.value, c);
  }

  lemma RoomStagePreserves(s: GameState, us: seq<RoomStateUpdate>)
    requires WellFormed(s)
    ensures WellFormed(RoomStage(s, us))
  {
    RoomStageLaw(s, us);
    var here := CurrentLocation(s);
    if here.Some? && here.value in s.locations {
      RoomUpdatesLaw(s.locations[here.value], us);
    }
  }

  lemma EntityStagePreserves(s: GameState, its: seq<EntityInteraction>)
    requires WellFormed(s)
    ensures WellFormed(EntityStage(s, its))
  {
    var r := EntityStage(s, its);
    EntityStageRoomsOk(s, its);
    forall k | k in r.npcs ensures NonNegative(r.npcs[k].health) {
      NpcHealthLaw(s, its, k);
    }
  }

  lemma EntityStageRoomsOk(s: GameState, its: seq<EntityInteraction>)
    requires forall k :: k in s.locations ==> RoomOk(s.locations[k])
    ensures forall k :: k in EntityStage(s, its).locations ==> RoomOk(EntityStage(s, its).locations[k])
  {
    var r := EntityStage(s, its);
    EntityFrameLaw(s, its);
    forall k | k in r.locations ensures RoomOk(r.locations[k]) {
      assert r.locations[k].(npcsPresent := s.locations[k].npcsPresent) == s.locations[k];
      if Some(k) == CurrentLocation(s) {
        NpcsPresentLaw(s, its);
      }
    }
  }

  lemma QuestStagePreserves(s: GameState, us: seq<QuestUpdate>)
    requires WellFormed(s)
    ensures WellFormed(QuestStage(s, us))
  {
    var quests := QuestUpdatesOn(s.quests, us);
    forall k | k in quests ensures NoDup(Done(quests[k])) {
      QuestObjectivesLaw(s.quests, us, k);
    }
  }

  /** Every update keeps the document well formed: no duplicate inventory
      entries, room lists or completed objectives, no negative counters or NPC
      health, and at most 100 history entries. */
  lemma ApplyPreservesWellFormed(s: GameState, cmd: Command)
    requires WellFormed(s)
    ensures WellFormed(Apply(s, cmd))
  {
    var s0 := EnsurePlayer(s);
    var s1 := InventoryStage(s0, cmd.inventoryChanges);
    var s2 := MoveStage(s1, cmd.locationChanges);
    var s3 := StatsStage(s2, cmd.playerStatsChanges);
    var s4 := RoomStage(s3, cmd.locationChanges.roomStateUpdates);
    var s5 := EntityStage(s4, cmd.entityInteractions);
    var s6 := QuestStage(s5, cmd.questUpdates);
    var s7 := EventStage(s6, cmd.gameEvents);
    assert Apply(s, cmd) == s7;
    assert PlayerOk(DefaultPlayer);
    assert WellFormed(s0);
    InventoryStagePreserves(s0, cmd.inventoryChanges);
    assert WellFormed(s2);
    StatsStagePreserves(s2, cmd.playerStatsChanges);
    RoomStagePreserves(s3, cmd.locationChanges.roomStateUpdates);
    EntityStagePreserves(s4, cmd.entityInteractions);
    QuestStagePreserves(s5, cmd.questUpdates);
    HistoryLaw(s6.eventHistory, cmd.gameEvents);
  }

  /** Room and NPC updates resolve against the location after movement: every
      room other than that one is left exactly as it was, and no room is
      added or removed. */
  lemma ApplyTouchesOnlyCurrentRoom(s: GameState, cmd: Command)
    ensures Apply(s, cmd).locations.Keys == s.locations.Keys
    ensures forall k :: k in s.locations && Some(k) != PostMoveLocation(s, cmd) ==>
      Apply(s, cmd).locations[k] == s.locations[k]
  {
    var s0 := EnsurePlayer(s);
    var s3 := StatsStage(MoveStage(InventoryStage(s0, cmd.inventoryChanges), cmd.locationChanges), cmd.playerStatsChanges);
    assert CurrentLocation(s3) == PostMoveLocation(s, cmd);
    var s4 := RoomStage(s3, cmd.locationChanges.roomStateUpdates);
    RoomStageLaw(s3, cmd.locationChanges.roomStateUpdates);
    EntityFrameLaw(s4, cmd.entityInteractions);
  }

  /** When the room after movement is unknown, no room changes at all. */
  lemma ApplyUnknownRoomLeavesRooms(s: GameState, cmd: Command)
    requires PostMoveLocation(s, cmd).None? || PostMoveLocation(s, cmd).value !in s.locations
    ensures Apply(s, cmd).locations == s.locations
  {
    ApplyTouchesOnlyCurrentRoom(s, cmd);
  }

  /** The command a normalized empty object gives: every list empty, every
      counter zero, both equip lists present and empty. */
  const EmptyCommand := Command([], InventoryChanges([], [], Some([]), Some([])), [],
                                LocationChanges(None, None, []), StatsChanges(0, 0, 0, 0), [], [], None)

  /** An empty command only creates the player if it is missing, creates an
      empty `equipped` list if it is missing, and trims an over-long history;
      everything else stays. */
  lemma EmptyCommandLaw(s: GameState)
    ensures var p := s.player.GetOr(DefaultPlayer);
      Apply(s, EmptyCommand).player == Some(p.(equipped := Some(p.equipped.GetOr([]))))
    ensures Apply(s, EmptyCommand).locations == s.locations
    ensures Apply(s, EmptyCommand).npcs == s.npcs
    ensures Apply(s, EmptyCommand).quests == s.quests
    ensures |s.eventHistory| <= HistoryLimit ==> Apply(s, EmptyCommand).eventHistory == s.eventHistory
    ensures |s.eventHistory| > HistoryLimit ==>
      Apply(s, EmptyCommand).eventHistory == s.eventHistory[|s.eventHistory| - HistoryLimit..]
  {
    var cmd := EmptyCommand;
    var p := s.player.GetOr(DefaultPlayer);
    var s0 := EnsurePlayer(s);
    var s1 := InventoryStage(s0, cmd.inventoryChanges);
    var s3 := StatsStage(MoveStage(s1, cmd.locationChanges), cmd.playerStatsChanges);
    EmptyInventory(p);
    assert s3 == s1;
    var s4 := RoomStage(s3, cmd.locationChanges.roomStateUpdates);
    EmptyRoomStage(s3);
    var s7 := EventStage(QuestStage(EntityStage(s4, []), []), []);
    assert Apply(s, cmd) == s7;
    assert s.eventHistory + [] == s.eventHistory;
  }

  lemma EmptyInventory(p: Player)
    ensures InventoryOn(p, EmptyCommand.inventoryChanges) == p.(equipped := Some(p.equipped.GetOr([])))
  {
    assert p.equipped.GetOr([]) + [] == p.equipped.GetOr([]);
  }

  lemma EmptyRoomStage(s: GameState)
    ensures RoomStage(s, []) == s
  {
    var here := CurrentLocation(s);
    if here.Some? && here.value in s.locations {
      assert s.locations[here.value := s.locations[here.value]] == s.locations;
    }
  }

  // ----- concrete turns -----

  /** Picking up a dagger and gaining 10 xp from the initial player. */
  lemma DaggerTurn()
    ensures
      var s := GameState(Some(DefaultPlayer), map[], map[], map[], []);
      var cmd := EmptyCommand.(inventoryChanges := InventoryChanges(["dagger"], [], None, None),
                               playerStatsChanges := StatsChanges(0, 0, 0, 10));
      Apply(s, cmd).player == Some(DefaultPlayer.(inventory := ["dagger"], xp := Some(10)))
  {
    assert AddAll([], ["dagger"]) == ["dagger"] by {
      assert ["dagger"][..0] == [];
    }
  }

  /** Attacking and killing goblin_01 in the cave: health 30 -> 20, hostile,
      dead, and gone from the cave's NPC list. */
  lemma GoblinTurn()
    ensures
      var cave := Location("A cave", [], ["goblin_01"], map[], None);
      var goblin := Npc("Goblin", Some(30), None, None, Some(true));
      var s := GameState(Some(DefaultPlayer.(locationId := Some("cave"))), map["cave" := cave], map["goblin_01" := goblin], map[], []);
      var cmd := EmptyCommand.(entityInteractions := [EntityInteraction("goblin_01", "NPC", "attacked", Some("killed"))]);
      var r := Apply(s, cmd);
      && r.npcs["goblin_01"] == Npc("Goblin", Some(20), Some(true), None, Some(false))
      && r.locations["cave"].npcsPresent == []
  {
    var it := EntityInteraction("goblin_01", "NPC", "attacked", Some("killed"));
    assert [it][..0] == [];
  }

  /** Marking the torch "missing" in the room the player moved to removes
      it from that room's items and records the state; the room left behind
      keeps its torch. */
  lemma TorchTurn()
    ensures
      var hall := Location("Hall", ["torch"], [], map["down" := "cellar"], None);
      var cellar := Location("Cellar", ["torch"], [], map["up" := "hall"], None);
      var s := GameState(Some(DefaultPlayer.(locationId := Some("hall"))), map["hall" := hall, "cellar" := cellar], map[], map[], []);
      var cmd := EmptyCommand.(locationChanges := LocationChanges(Some("cellar"), Some("down"), [RoomStateUpdate("torch", "missing")]));
      var r := Apply(s, cmd);
      && r.locations["cellar"].itemsPresent == []
      && r.locations["cellar"].objectStates == Some(map["torch" := "missing"])
      && r.locations["hall"] == hall
  {
    var u := RoomStateUpdate("torch", "missing");
    assert [u][..0] == [];
  }
}
