/** `GameEngine`: owns the game-state document and applies one command per
    turn, mutating the document stage by stage. Each top-level key of the
    document is one field. */
module Engine {
  import opened Wrappers
  import opened Lists
  import opened World
  import opened Commands
  import opened UpdateRules

  class GameEngine {
    var player: Option<Player>
    var locations: map<string, Location>
    var npcs: map<string, Npc>
    var quests: map<string, Quest>
    var eventHistory: seq<string>

    /** The document as one value (what `get_state` copies). */
    function State(): GameState
      reads this
    {
      GameState(player, locations, npcs, quests, eventHistory)
    }

    /** A new engine holds the empty document. */
    constructor ()
      ensures State() == EmptyState
    {
      player, locations, npcs, quests, eventHistory := None, map[], map[], map[], [];
    }

    /** Applies every stage of the command in order; the document afterwards
        is `Apply` of the document before. */
    method ApplyUpdate(cmd: Command) returns (ok: bool)
      modifies this
      ensures ok
      ensures State() == Apply(old(State()), cmd)
    {
      if player.None? {
        player := Some(DefaultPlayer);
      }
      ApplyInventoryChanges(cmd.inventoryChanges);
      ApplyLocationChanges(cmd.locationChanges);
      ApplyStatsChanges(cmd.playerStatsChanges);
      ApplyRoomUpdates(cmd.locationChanges.roomStateUpdates);
      ApplyEntityInteractions(cmd.entityInteractions);
      ApplyQuestUpdates(cmd.questUpdates);
      ProcessGameEvents(cmd.gameEvents);
      ok := true;
    }

    method ApplyInventoryChanges(changes: InventoryChanges)
      requires player.Some?
      modifies this
      ensures State() == InventoryStage(old(State()), changes)
    {
      var p := player.value;
      var inventory := AppendAbsent(p.inventory, changes.added);
      inventory := RemoveEach(inventory, changes.removed);
      if changes.equipped.Some? {
        p := p.(equipped := Some(p.equipped.GetOr([]) + changes.equipped.value));
      }
      if changes.unequipped.Some? && p.equipped.Some? {
        var equipped := RemoveEach(p.equipped.value, changes.unequipped.value);
        p := p.(equipped := Some(equipped));
      }
      player := Some(p.(inventory := inventory));
    }

    method ApplyLocationChanges(changes: LocationChanges)
      requires player.Some?
      modifies this
      ensures State() == MoveStage(old(State()), changes)
    {
      var newLocation := changes.newLocationId;
      if newLocation.Some? && newLocation.value != "" {
        player := Some(player.value.(locationId := newLocation));
      }
    }

    method ApplyStatsChanges(changes: StatsChanges)
      requires player.Some?
      modifies this
      ensures State() == StatsStage(old(State()), changes)
    {
      var p := player.value;
      if changes.healthChange != 0 {
        p := p.(health := Some(AtLeastZero(p.health.GetOr(DefaultHealth) + changes.healthChange)));
      }
      if changes.manaChange != 0 {
        p := p.(mana := Some(AtLeastZero(p.mana.GetOr(0) + changes.manaChange)));
      }
      if changes.goldChange != 0 {
        p := p.(gold := Some(AtLeastZero(p.gold.GetOr(0) + changes.goldChange)));
      }
      if changes.xpGained > 0 {
        p := p.(xp := Some(p.xp.GetOr(0) + changes.xpGained));
      }
      player := Some(p);
    }

    method ApplyRoomUpdates(updates: seq<RoomStateUpdate>)
      modifies this
      ensures State() == RoomStage(old(State()), updates)
    {
      var here := CurrentLocation(State());
      if here.None? || here.value !in locations {
        return;
      }
      var room := locations[here.value];
      for i := 0 to |updates|
        invariant room == RoomUpdatesOn(old(locations)[here.value], updates[..i])
      {
        var objectId := updates[i].objectId;
        var newState := updates[i].state;
        assert updates[..i + 1][..i] == updates[..i];
        room := room.(objectStates := Some(room.objectStates.GetOr(map[])[objectId := newState]));
        if newState == "missing" && objectId in room.itemsPresent {
          room := room.(itemsPresent := RemoveFirst(room.itemsPresent, objectId));
        }
      }
      assert updates[..|updates|] == updates;
      locations := locations[here.value := room];
    }

    method ApplyEntityInteractions(interactions: seq<EntityInteraction>)
      modifies this
      ensures State() == EntityStage(old(State()), interactions)
    {
      for i := 0 to |interactions|
        invariant State() == EntityStage(old(State()), interactions[..i])
      {
        var it := interactions[i];
        assert interactions[..i + 1][..i] == interactions[..i];
        ghost var before := State();
        if it.kind == "NPC" && it.id in npcs {
          var npc := npcs[it.id];
          if it.action == "attacked" {
            if npc.health.Some? {
              npc := npc.(health := Some(AtLeastZero(npc.health.value - AttackDamage)));
            }
            npc := npc.(hostile := Some(true));
          } else if it.action == "talked_to" {
            npc := npc.(talked := Some(true));
          }
          if it.outcome.Some? && it.outcome.value in KillOutcomes {
            npc := npc.(alive := Some(false));
            RemoveNpcFromCurrentRoom(it.id);
          }
          assert npc == NpcAfter(before.npcs[it.id], it);
          npcs := npcs[it.id := npc];
        }
        assert State() == Interact(before, it);
      }
      assert interactions[..|interactions|] == interactions;
    }

    /** The removal at the end of a kill: the id leaves the current room's
        `npcs_present` when the room is known and lists it. */
    method RemoveNpcFromCurrentRoom(id: string)
      modifies this
      ensures State() == old(State()).(locations := RemoveNpcHere(old(State()), id))
    {
      var here := CurrentLocation(State());
      if here.Some? && here.value in locations {
        var room := locations[here.value];
        if id in room.npcsPresent {
          locations := locations[here.value := room.(npcsPresent := RemoveFirst(room.npcsPresent, id))];
        } else {
          assert locations[here.value := room.(npcsPresent := RemoveFirst(room.npcsPresent, id))] == locations;
        }
      }
    }

    method ApplyQuestUpdates(updates: seq<QuestUpdate>)
      modifies this
      ensures State() == QuestStage(old(State()), updates)
    {
      for i := 0 to |updates|
        invariant quests == QuestUpdatesOn(old(quests), updates[..i])
        invariant player == old(player) && locations == old(locations)
        invariant npcs == old(npcs) && eventHistory == old(eventHistory)
      {
        var u := updates[i];
        assert updates[..i + 1][..i] == updates[..i];
        if u.questId !in quests {
          quests := quests[u.questId := NewQuest];
        }
        if u.status == "started" {
          quests := quests[u.questId := quests[u.questId].(status := "in_progress")];
        } else if u.status == "completed" || u.status == "failed" {
          quests := quests[u.questId := quests[u.questId].(status := u.status)];
        }
        if u.objectiveId.Some? && u.objectiveId.value != "" {
          var q := quests[u.questId];
          var done := q.completedObjectives.GetOr([]);
          if u.objectiveId.value !in done {
            done := done + [u.objectiveId.value];
          }
          quests := quests[u.questId := q.(completedObjectives := Some(done))];
        }
      }
      assert updates[..|updates|] == updates;
    }

    method ProcessGameEvents(events: seq<string>)
      modifies this
      ensures State() == EventStage(old(State()), events)
    {
      eventHistory := eventHistory + events;
      if |eventHistory| > HistoryLimit {
        eventHistory := eventHistory[|eventHistory| - HistoryLimit..];
      }
    }
  }

  /** Appends, in order, each item the list does not hold yet. */
  method AppendAbsent(list: seq<string>, items: seq<string>) returns (r: seq<string>)
    ensures r == AddAll(list, items)
  {
    r := list;
    for i := 0 to |items|
      invariant r == AddAll(list, items[..i])
    {
      assert items[..i + 1][..i] == items[..i];
      if items[i] !in r {
        r := r + [items[i]];
      }
    }
    assert items[..|items|] == items;
  }

  /** Takes away, in order, the first occurrence of each item the list holds. */
  method RemoveEach(list: seq<string>, items: seq<string>) returns (r: seq<string>)
    ensures r == RemoveAll(list, items)
  {
    r := list;
    for i := 0 to |items|
      invariant r == RemoveAll(list, items[..i])
    {
      assert items[..i + 1][..i] == items[..i];
      if items[i] in r {
        r := RemoveFirst(r, items[i]);
      }
    }
    assert items[..|items|] == items;
  }
}
