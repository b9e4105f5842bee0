/** The structured turn command the engine consumes, with the same keys as
    the normalized JSON object. `equipped` and `unequipped` are optional
    because the engine acts on them only when the key is present; every
    other key is read with a default, so an absent key and its default mean
    the same thing here. */
module Commands {
  import opened Wrappers

  datatype InventoryChanges = InventoryChanges(
    added: seq<string>,
    removed: seq<string>,
    equipped: Option<seq<string>>,
    unequipped: Option<seq<string>>)

  datatype RoomStateUpdate = RoomStateUpdate(objectId: string, state: string)

  datatype LocationChanges = LocationChanges(
    newLocationId: Option<string>,
    directionMoved: Option<string>,
    roomStateUpdates: seq<RoomStateUpdate>)

  datatype StatsChanges = StatsChanges(
    healthChange: int,
    manaChange: int,
    goldChange: int,
    xpGained: int)

  /** `kind` is the interaction's `type` key. */
  datatype EntityInteraction = EntityInteraction(
    id: string,
    kind: string,
    action: string,
    outcome: Option<string>)

  datatype QuestUpdate = QuestUpdate(
    questId: string,
    status: string,
    objectiveId: Option<string>)

  datatype Command = Command(
    playerActions: seq<string>,
    inventoryChanges: InventoryChanges,
    entityInteractions: seq<EntityInteraction>,
    locationChanges: LocationChanges,
    playerStatsChanges: StatsChanges,
    questUpdates: seq<QuestUpdate>,
    gameEvents: seq<string>,
    narrativeHint: Option<string>)
}
