/** Properties of the command normalizer: defaults, pass-through, the exact
    shape of its output, idempotence, and the error response. */
module NormalizerLaws {
  import opened Wrappers
  import opened JsonValues
  import opened Normalizer

  /** The shape every normalized command has: the eight keys, and the three
      sub-objects with exactly their own keys. */
  predicate IsNormalized(n: JsonObject) {
    && n.Keys == CommandKeys
    && n["inventory_changes"].Object? && n["inventory_changes"].fields.Keys == InventoryKeys
    && n["location_changes"].Object? && n["location_changes"].fields.Keys == LocationKeys
    && n["player_stats_changes"].Object? && n["player_stats_changes"].fields.Keys == StatsKeys
  }

  /** Top-level lists and the hint are copied unchanged when present (no
      type check) and default to `[]` and null when absent; any other input
      key, such as "error", is dropped. */
  lemma TopLevelLaw(data: JsonObject)
    requires Normalize(data).Success?
    ensures var n := Normalize(data).value;
      && (forall k :: k in {"player_actions", "entity_interactions", "quest_updates", "game_events"} ==>
            n[k] == if k in data then data[k] else EmptyList)
      && n["narrative_hint"] == (if "narrative_hint" in data then data["narrative_hint"] else Null)
      && (forall k :: k in data && k !in CommandKeys ==> k !in n)
  {
  }

  /** Where each part of the normalized command comes from. */
  lemma NormalizeParts(data: JsonObject)
    requires Normalize(data).Success?
    ensures InventoryPart(data).Success? && LocationPart(data).Success? && StatsPart(data).Success?
    ensures var n := Normalize(data).value;
      && n["inventory_changes"] == InventoryPart(data).value
      && n["location_changes"] == LocationPart(data).value
      && n["player_stats_changes"] == StatsPart(data).value
  {
  }

  /** The input's sub-object under `key`, or the empty object when it is absent or not an object. */
  function Given(data: JsonObject, key: string): JsonObject {
    if key in data && data[key].Object? then data[key].fields else map[]
  }

  /** The inventory lists: a key the input sub-object has is copied, a
      missing one (or a missing sub-object) becomes `[]`. */
  lemma InventoryPartLaw(data: JsonObject)
    requires InventoryPart(data).Success?
    ensures var inv := InventoryPart(data).value;
      inv.Object? && inv.fields.Keys == InventoryKeys &&
      forall k :: k in InventoryKeys ==> inv.fields[k] == Get(Given(data, "inventory_changes"), k, EmptyList)
  {
  }

  /** The location changes: the two ids are copied or null, the room-state
      list copied or `[]`. */
  lemma LocationPartLaw(data: JsonObject)
    requires LocationPart(data).Success?
    ensures var loc := LocationPart(data).value;
      var given := Given(data, "location_changes");
      loc.Object? && loc.fields.Keys == LocationKeys &&
      loc.fields["new_location_id"] == Get(given, "new_location_id", Null) &&
      loc.fields["direction_moved"] == Get(given, "direction_moved", Null) &&
      loc.fields["room_state_updates"] == Get(given, "room_state_updates", EmptyList)
  {
  }

  /** The stat counters: each copied, or 0. */
  lemma StatsPartLaw(data: JsonObject)
    requires StatsPart(data).Success?
    ensures var stats := StatsPart(data).value;
      stats.Object? && stats.fields.Keys == StatsKeys &&
      forall k :: k in StatsKeys ==> stats.fields[k] == Get(Given(data, "player_stats_changes"), k, Int(0))
  {
  }

  /** Each sub-object of the result is rebuilt with exactly its own keys
      from the input's sub-object, defaults filling the gaps. */
  lemma SubObjectLaw(data: JsonObject)
    requires Normalize(data).Success?
    ensures var n := Normalize(data).value;
      && n["inventory_changes"].Object? && n["inventory_changes"].fields.Keys == InventoryKeys
      && (forall k :: k in InventoryKeys ==>
            n["inventory_changes"].fields[k] == Get(Given(data, "inventory_changes"), k, EmptyList))
      && n["location_changes"].Object? && n["location_changes"].fields.Keys == LocationKeys
      && n["location_changes"].fields["new_location_id"] == Get(Given(data, "location_changes"), "new_location_id", Null)
      && n["location_changes"].fields["direction_moved"] == Get(Given(data, "location_changes"), "direction_moved", Null)
      && n["location_changes"].fields["room_state_updates"] == Get(Given(data, "location_changes"), "room_state_updates", EmptyList)
      && n["player_stats_changes"].Object? && n["player_stats_changes"].fields.Keys == StatsKeys
      && (forall k :: k in StatsKeys ==>
            n["player_stats_changes"].fields[k] == Get(Given(data, "player_stats_changes"), k, Int(0)))
  {
    NormalizeParts(data);
    InventoryPartLaw(data);
    LocationPartLaw(data);
    StatsPartLaw(data);
  }

  /** Normalizing an already-normalized command gives it back unchanged, and
      the commands normalization returns unchanged are exactly the
      normalized ones. */
  lemma NormalizedIsFixedPoint(n: JsonObject)
    ensures Normalize(n) == Success(n) <==> IsNormalized(n)
  {
    if IsNormalized(n) {
      NormalizedIsKept(n);
    }
    if Normalize(n) == Success(n) {
      var r := Normalize(n).value;
      SubObjectLaw(n);
      assert n["inventory_changes"] == r["inventory_changes"];
      assert n["location_changes"] == r["location_changes"];
      assert n["player_stats_changes"] == r["player_stats_changes"];
    }
  }

  lemma NormalizedIsKept(n: JsonObject)
    requires IsNormalized(n)
    ensures Normalize(n) == Success(n)
  {
    var r := Normalize(n).value;
    assert r.Keys == n.Keys;
    var inv := n["inventory_changes"].fields;
    assert InventoryPart(n) == Success(Object(inv)) by {
      assert inv == map["added" := inv["added"], "removed" := inv["removed"],
                        "equipped" := inv["equipped"], "unequipped" := inv["unequipped"]];
    }
    var loc := n["location_changes"].fields;
    assert LocationPart(n) == Success(Object(loc)) by {
      assert loc == map["new_location_id" := loc["new_location_id"], "direction_moved" := loc["direction_moved"],
                        "room_state_updates" := loc["room_state_updates"]];
    }
    var stats := n["player_stats_changes"].fields;
    assert StatsPart(n) == Success(Object(stats)) by {
      assert stats == map["health_change" := stats["health_change"], "mana_change" := stats["mana_change"],
                          "gold_change" := stats["gold_change"], "xp_gained" := stats["xp_gained"]];
    }
    assert forall k :: k in n ==> r[k] == n[k];
    assert r == n;
  }

  /** Normalization is idempotent. */
  lemma NormalizeIdempotent(data: JsonObject)
    requires Normalize(data).Success?
    ensures IsNormalized(Normalize(data).value)
    ensures Normalize(Normalize(data).value) == Normalize(data)
  {
    SubObjectLaw(data);
    NormalizedIsFixedPoint(Normalize(data).value);
  }

  /** The normalization of the empty object: every default. */
  lemma NormalizeEmpty()
    ensures Normalize(map[]).Success?
    ensures Normalize(map[]).value == ErrorResponse("") - {"error"}
  {
    var n := Normalize(map[]).value;
    var e := ErrorResponse("") - {"error"};
    SubObjectLaw(map[]);
    assert n.Keys == e.Keys;
    assert n["inventory_changes"] == e["inventory_changes"];
    assert n["location_changes"] == e["location_changes"];
    assert n["player_stats_changes"] == e["player_stats_changes"];
    assert forall k :: k in n ==> n[k] == e[k];
  }

  /** The error response is the normalization of the empty object plus the
      "error" key. */
  lemma ErrorResponseLaw(message: string)
    ensures Normalize(map[]).Success?
    ensures ErrorResponse(message) == Normalize(map[]).value["error" := Str(message)]
  {
    NormalizeEmpty();
    var base := ErrorResponse("");
    assert ErrorResponse(message) == base["error" := Str(message)];
    assert (base - {"error"})["error" := Str(message)] == base["error" := Str(message)];
  }

  /** A key outside the eight command keys does not affect normalization. */
  lemma ExtraKeyIgnored(data: JsonObject, key: string, v: Json)
    requires key !in CommandKeys
    ensures Normalize(data[key := v]) == Normalize(data)
  {
    var d := data[key := v];
    assert InventoryPart(d) == InventoryPart(data);
    assert LocationPart(d) == LocationPart(data);
    assert StatsPart(d) == StatsPart(data);
  }

  /** Normalizing an error response drops the "error" key again. */
  lemma ErrorResponseNormalizes(message: string)
    ensures Normalize(ErrorResponse(message)) == Normalize(map[])
  {
    ErrorResponseLaw(message);
    var empty := Normalize(map[]).value;
    NormalizeIdempotent(map[]);
    ExtraKeyIgnored(empty, "error", Str(message));
  }

  /** Whatever `parse_player_action` hands to the engine has the normalized
      shape once its "error" key, if any, is set aside. */
  lemma ParseDecodedNormalized(value: Json)
    ensures IsNormalized(ParseDecoded(value) - {"error"})
  {
    var r := ParseDecoded(value);
    if "error" in r {
      var message := r["error"].s;
      ErrorResponseLaw(message);
      var empty := Normalize(map[]).value;
      NormalizeIdempotent(map[]);
      assert r - {"error"} == empty;
    } else {
      NormalizeIdempotent(value.fields);
      assert r - {"error"} == r;
    }
  }
}
