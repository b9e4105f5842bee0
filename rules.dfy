/** What each stage of `GameEngine.apply_update` does to the document, as
    functions of the old document and the command. The engine's methods are
    proved to compute exactly these; the laws about them are in UpdateLaws. */
module UpdateRules {
  import opened Wrappers
  import opened Lists
  import opened World
  import opened Commands

  /** Python's `max(0, v)`. */
  function AtLeastZero(v: int): int {
    if v < 0 then 0 else v
  }

  /** Creates the default player when the document has none. */
  function EnsurePlayer(s: GameState): GameState {
    if s.player.Some? then s else s.(player := Some(DefaultPlayer))
  }

  // ----- inventory -----

  /** Adds, then removes, then equips, then unequips. Unequipping works on
      the stored `equipped` list, so it does nothing when the player has none. */
  function InventoryOn(p: Player, ch: InventoryChanges): Player {
    var inventory := RemoveAll(AddAll(p.inventory, ch.added), ch.removed);
    var equipped :=
      if ch.equipped.Some? then Some(p.equipped.GetOr([]) + ch.equipped.value) else p.equipped;
    var equipped' :=
      if ch.unequipped.Some? && equipped.Some? then Some(RemoveAll(equipped.value, ch.unequipped.value))
      else equipped;
    p.(inventory := inventory, equipped := equipped')
  }

  function InventoryStage(s: GameState, ch: InventoryChanges): GameState
    requires s.player.Some?
  {
    s.(player := Some(InventoryOn(s.player.value, ch)))
  }

  // ----- movement -----

  /** Moves the player when the new location id is present and non-empty;
      it is not checked against `locations` or exits. */
  function MoveStage(s: GameState, ch: LocationChanges): GameState
    requires s.player.Some?
  {
    if ch.newLocationId.Some? && ch.newLocationId.value != "" then
      s.(player := Some(s.player.value.(locationId := ch.newLocationId)))
    else s
  }

  // ----- stats -----

  /** Non-zero deltas of health, mana and gold clamp the sum at zero; a
      missing field counts as 100 (health) or 0; xp only grows. */
  function StatsOn(p: Player, c: StatsChanges): Player {
    p.(health := if c.healthChange != 0 then Some(AtLeastZero(p.health.GetOr(DefaultHealth) + c.healthChange)) else p.health,
       mana := if c.manaChange != 0 then Some(AtLeastZero(p.mana.GetOr(0) + c.manaChange)) else p.mana,
       gold := if c.goldChange != 0 then Some(AtLeastZero(p.gold.GetOr(0) + c.goldChange)) else p.gold,
       xp := if c.xpGained > 0 then Some(p.xp.GetOr(0) + c.xpGained) else p.xp)
  }

  function StatsStage(s: GameState, c: StatsChanges): GameState
    requires s.player.Some?
  {
    s.(player := Some(StatsOn(s.player.value, c)))
  }

  // ----- room object states -----

  /** Records the object's state; the state "missing" also takes the object
      out of the room's item list. */
  function RoomUpdateOn(room: Location, u: RoomStateUpdate): Location {
    var items :=
      if u.state == "missing" && u.objectId in room.itemsPresent then RemoveFirst(room.itemsPresent, u.objectId)
      else room.itemsPresent;
    room.(objectStates := Some(room.objectStates.GetOr(map[])[u.objectId := u.state]), itemsPresent := items)
  }

  /** The updates applied in order. */
  function RoomUpdatesOn(room: Location, us: seq<RoomStateUpdate>): Location {
    if us == [] then room
    else RoomUpdateOn(RoomUpdatesOn(room, us[..|us| - 1]), us[|us| - 1])
  }

  /** Acts on the room the player is in now; an unknown room is left alone. */
  function RoomStage(s: GameState, us: seq<RoomStateUpdate>): GameState {
    var here := CurrentLocation(s);
    if here.Some? && here.value in s.locations then
      s.(locations := s.locations[here.value := RoomUpdatesOn(s.locations[here.value], us)])
    else s
  }

  // ----- NPC interactions -----

  predicate Kills(it: EntityInteraction) {
    it.outcome.Some? && it.outcome.value in KillOutcomes
  }

  /** Only an interaction of type "NPC" naming a known NPC has an effect. */
  predicate Affects(s: GameState, it: EntityInteraction) {
    it.kind == "NPC" && it.id in s.npcs
  }

  /** The NPC record after one interaction with it. */
  function NpcAfter(npc: Npc, it: EntityInteraction): Npc {
    var acted :=
      if it.action == "attacked" then
        npc.(health := if npc.health.Some? then Some(AtLeastZero(npc.health.value - AttackDamage)) else None,
             hostile := Some(true))
      else if it.action == "talked_to" then npc.(talked := Some(true))
      else npc;
    if Kills(it) then acted.(alive := Some(false)) else acted
  }

  /** Takes `id` out of the current room's `npcs_present`, if the room is known. */
  function RemoveNpcHere(s: GameState, id: string): map<string, Location> {
    var here := CurrentLocation(s);
    if here.Some? && here.value in s.locations then
      var room := s.locations[here.value];
      s.locations[here.value := room.(npcsPresent := RemoveFirst(room.npcsPresent, id))]
    else s.locations
  }

  function Interact(s: GameState, it: EntityInteraction): GameState {
    if Affects(s, it) then
      s.(npcs := s.npcs[it.id := NpcAfter(s.npcs[it.id], it)],
         locations := if Kills(it) then RemoveNpcHere(s, it.id) else s.locations)
    else s
  }

  /** The interactions applied in order. Only `npcs` and `locations` can
      change, and neither gains or loses a key. */
  function EntityStage(s: GameState, its: seq<EntityInteraction>): (r: GameState)
    ensures r.player == s.player && r.quests == s.quests && r.eventHistory == s.eventHistory
    ensures r.npcs.Keys == s.npcs.Keys && r.locations.Keys == s.locations.Keys
  {
    if its == [] then s
    else Interact(EntityStage(s, its[..|its| - 1]), its[|its| - 1])
  }

  // ----- quests -----

  /** "started" means in progress, "completed" and "failed" are copied, any
      other status is ignored; a non-empty objective id is recorded once. */
  function QuestAfter(q: Quest, u: QuestUpdate): Quest {
    var q' :=
      if u.status == "started" then q.(status := "in_progress")
      else if u.status == "completed" || u.status == "failed" then q.(status := u.status)
      else q;
    if u.objectiveId.Some? && u.objectiveId.value != "" then
      q'.(completedObjectives := Some(AddIfAbsent(q'.completedObjectives.GetOr([]), u.objectiveId.value)))
    else q'
  }

  /** One update; a quest not yet in the map is created first. */
  function QuestUpdateOn(quests: map<string, Quest>, u: QuestUpdate): map<string, Quest> {
    var q := if u.questId in quests then quests[u.questId] else NewQuest;
    quests[u.questId := QuestAfter(q, u)]
  }

  /** The updates applied in order; quests are only ever added. */
  function QuestUpdatesOn(quests: map<string, Quest>, us: seq<QuestUpdate>): (r: map<string, Quest>)
    ensures quests.Keys <= r.Keys
  {
    if us == [] then quests
    else QuestUpdateOn(QuestUpdatesOn(quests, us[..|us| - 1]), us[|us| - 1])
  }

  function QuestStage(s: GameState, us: seq<QuestUpdate>): GameState {
    s.(quests := QuestUpdatesOn(s.quests, us))
  }

  // ----- event history -----

  /** Appends the events, then keeps only the newest `HistoryLimit`. */
  function RecordEvents(history: seq<string>, events: seq<string>): seq<string> {
    var h := history + events;
    if |h| > HistoryLimit then h[|h| - HistoryLimit..] else h
  }

  function EventStage(s: GameState, events: seq<string>): GameState {
    s.(eventHistory := RecordEvents(s.eventHistory, events))
  }

  // ----- the whole update -----

  /** The stages in the engine's order: inventory, movement, stats, room
      states, NPC interactions, quests, events. */
  function Apply(s: GameState, cmd: Command): GameState {
    var s0 := EnsurePlayer(s);
    var s1 := InventoryStage(s0, cmd.inventoryChanges);
    var s2 := MoveStage(s1, cmd.locationChanges);
    var s3 := StatsStage(s2, cmd.playerStatsChanges);
    var s4 := RoomStage(s3, cmd.locationChanges.roomStateUpdates);
    var s5 := EntityStage(s4, cmd.entityInteractions);
    var s6 := QuestStage(s5, cmd.questUpdates);
    EventStage(s6, cmd.gameEvents)
  }
}
