/** `LLMParser._normalize_update_data` and `_create_error_response`: turn a
    decoded JSON object into a command object with every key present. */
module Normalizer {
  import opened Wrappers
  import opened JsonValues

  type JsonObject = map<string, Json>

  /** `d.get(key, default)`. */
  function Get(d: JsonObject, key: string, default: Json): Json {
    if key in d then d[key] else default
  }

  const EmptyList := Array([])

  /** The eight keys of a command. */
  const CommandKeys: set<string> := {
    "player_actions", "inventory_changes", "entity_interactions", "location_changes",
    "player_stats_changes", "quest_updates", "game_events", "narrative_hint" }

  const InventoryKeys: set<string> := {"added", "removed", "equipped", "unequipped"}
  const LocationKeys: set<string> := {"new_location_id", "direction_moved", "room_state_updates"}
  const StatsKeys: set<string> := {"health_change", "mana_change", "gold_change", "xp_gained"}

  /** The message of the `AttributeError` that `.get` raises on a value that
      is not an object. */
  function NoGetMessage(j: Json): string {
    "'" + TypeName(j) + "' object has no attribute 'get'"
  }

  /** `normalized['inventory_changes']`: the four lists, each copied when the
      input has it and `[]` otherwise. */
  function InventoryPart(data: JsonObject): Result<Json, string> {
    if "inventory_changes" !in data then
      Success(Object(map["added" := EmptyList, "removed" := EmptyList, "equipped" := EmptyList, "unequipped" := EmptyList]))
    else match data["inventory_changes"]
      case Object(inv) =>
        Success(Object(map[
          "added" := Get(inv, "added", EmptyList),
          "removed" := Get(inv, "removed", EmptyList),
          "equipped" := Get(inv, "equipped", EmptyList),
          "unequipped" := Get(inv, "unequipped", EmptyList)]))
      case other => Failure(NoGetMessage(other))
  }

  /** `normalized['location_changes']`: the two ids default to null, the
      room-state list to `[]`. */
  function LocationPart(data: JsonObject): Result<Json, string> {
    if "location_changes" !in data then
      Success(Object(map["new_location_id" := Null, "direction_moved" := Null, "room_state_updates" := EmptyList]))
    else match data["location_changes"]
      case Object(loc) =>
        Success(Object(map[
          "new_location_id" := Get(loc, "new_location_id", Null),
          "direction_moved" := Get(loc, "direction_moved", Null),
          "room_state_updates" := Get(loc, "room_state_updates", EmptyList)]))
      case other => Failure(NoGetMessage(other))
  }

  /** `normalized['player_stats_changes']`: each counter defaults to 0. */
  function StatsPart(data: JsonObject): Result<Json, string> {
    if "player_stats_changes" !in data then
      Success(Object(map["health_change" := Int(0), "mana_change" := Int(0), "gold_change" := Int(0), "xp_gained" := Int(0)]))
    else match data["player_stats_changes"]
      case Object(stats) =>
        Success(Object(map[
          "health_change" := Get(stats, "health_change", Int(0)),
          "mana_change" := Get(stats, "mana_change", Int(0)),
          "gold_change" := Get(stats, "gold_change", Int(0)),
          "xp_gained" := Get(stats, "xp_gained", Int(0))]))
      case other => Failure(NoGetMessage(other))
  }

  /** Whether `data[key]`, if present, is something `.get` can be called on. */
  predicate ObjectOrAbsent(data: JsonObject, key: string) {
    key !in data || data[key].Object?
  }

  /** The normalized command, or the message of the exception raised when a
      sub-object that the merge reads is present but not an object (merged
      in the order inventory, location, stats). The result has exactly the
      eight command keys. */
  function Normalize(data: JsonObject): (r: Result<JsonObject, string>)
    ensures r.Success? <==>
      ObjectOrAbsent(data, "inventory_changes") && ObjectOrAbsent(data, "location_changes") &&
      ObjectOrAbsent(data, "player_stats_changes")
    ensures r.Success? ==> r.value.Keys == CommandKeys
    ensures r.Failure? ==>
      (!ObjectOrAbsent(data, "inventory_changes") && r.error == NoGetMessage(data["inventory_changes"])) ||
      (ObjectOrAbsent(data, "inventory_changes") && !ObjectOrAbsent(data, "location_changes") &&
       r.error == NoGetMessage(data["location_changes"])) ||
      (ObjectOrAbsent(data, "inventory_changes") && ObjectOrAbsent(data, "location_changes") &&
       r.error == NoGetMessage(data["player_stats_changes"]))
  {
    var inventory := InventoryPart(data);
    if inventory.Failure? then Failure(inventory.error)
    else
      var location := LocationPart(data);
      if location.Failure? then Failure(location.error)
      else
        var stats := StatsPart(data);
        if stats.Failure? then Failure(stats.error)
        else
          Success(map[
            "player_actions" := Get(data, "player_actions", EmptyList),
            "inventory_changes" := inventory.value,
            "entity_interactions" := Get(data, "entity_interactions", EmptyList),
            "location_changes" := location.value,
            "player_stats_changes" := stats.value,
            "quest_updates" := Get(data, "quest_updates", EmptyList),
            "game_events" := Get(data, "game_events", EmptyList),
            "narrative_hint" := Get(data, "narrative_hint", Null)])
  }

  /** `_create_error_response`: the empty command tagged with an error message. */
  function ErrorResponse(message: string): JsonObject {
    map[
      "error" := Str(message),
      "player_actions" := EmptyList,
      "inventory_changes" := Object(map["added" := EmptyList, "removed" := EmptyList, "equipped" := EmptyList, "unequipped" := EmptyList]),
      "entity_interactions" := EmptyList,
      "location_changes" := Object(map["new_location_id" := Null, "direction_moved" := Null, "room_state_updates" := EmptyList]),
      "player_stats_changes" := Object(map["health_change" := Int(0), "mana_change" := Int(0), "gold_change" := Int(0), "xp_gained" := Int(0)]),
      "quest_updates" := EmptyList,
      "game_events" := EmptyList,
      "narrative_hint" := Null]
  }

  /** What `parse_player_action` returns once the model's reply has been
      decoded: a value that is not an object and a failed normalization both
      become error responses (the latter through the outer handler). */
  function ParseDecoded(value: Json): (r: JsonObject)
    ensures r.Keys == CommandKeys || r.Keys == CommandKeys + {"error"}
    ensures "error" in r <==> !value.Object? || Normalize(value.fields).Failure?
    ensures "error" !in r ==> value.Object? && Normalize(value.fields) == Success(r)
    ensures "error" in r ==> r["error"].Str? && r == ErrorResponse(r["error"].s)
    ensures !value.Object? ==> r == ErrorResponse("LLM response is not a JSON object")
    ensures value.Object? && Normalize(value.fields).Failure? ==>
      r == ErrorResponse("LLM communication error: " + Normalize(value.fields).error)
  {
    match value
    case Object(data) =>
      (match Normalize(data)
       case Success(command) => command
       case Failure(e) => ErrorResponse("LLM communication error: " + e))
    case _ => ErrorResponse("LLM response is not a JSON object")
  }
}
