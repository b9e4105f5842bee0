/** The game-state document that the engine owns, as typed records.
    In the document these are nested JSON objects; a field that the engine
    reads with a default and may create later is an `Option`, so that
    "the field is absent" stays distinguishable from "the field holds the
    default". */
module World {
  import opened Wrappers

  /** `game_state['player']`. */
  datatype Player = Player(
    locationId: Option<string>,
    inventory: seq<string>,
    equipped: Option<seq<string>>,
    health: Option<int>,
    mana: Option<int>,
    gold: Option<int>,
    xp: Option<int>)

  /** One entry of `game_state['locations']`. */
  datatype Location = Location(
    description: string,
    itemsPresent: seq<string>,
    npcsPresent: seq<string>,
    exits: map<string, string>,
    objectStates: Option<map<string, string>>)

  /** One entry of `game_state['npcs']`. */
  datatype Npc = Npc(
    name: string,
    health: Option<int>,
    hostile: Option<bool>,
    talked: Option<bool>,
    alive: Option<bool>)

  /** One entry of `game_state['quests']`; `objectives` is written when the
      engine creates a quest and is never read. */
  datatype Quest = Quest(
    status: string,
    objectives: Option<seq<string>>,
    completedObjectives: Option<seq<string>>)

  /** The whole document. An absent `locations`, `npcs` or `quests` key is
      the empty map and an absent `event_history` the empty list. */
  datatype GameState = GameState(
    player: Option<Player>,
    locations: map<string, Location>,
    npcs: map<string, Npc>,
    quests: map<string, Quest>,
    eventHistory: seq<string>)

  /** The document `GameEngine.__init__` starts from. */
  const EmptyState := GameState(None, map[], map[], map[], [])

  /** The player record created when the document has none. */
  const DefaultPlayer := Player(Some("start"), [], None, Some(100), None, Some(0), Some(0))

  /** Health a player is assumed to have when the field is missing. */
  const DefaultHealth := 100

  /** The record of a quest first mentioned by an update. */
  const NewQuest := Quest("not_started", Some([]), None)

  /** Damage one attack does to an NPC that has a health field. */
  const AttackDamage := 10

  /** Longest event history kept. */
  const HistoryLimit := 100

  /** Interaction outcomes that take an NPC out of the game. */
  const KillOutcomes: set<string> := {"killed", "defeated", "destroyed"}

  /** The player's current location, as `player.get('location_id')`. */
  function CurrentLocation(s: GameState): Option<string> {
    if s.player.Some? then s.player.value.locationId else None
  }
}
