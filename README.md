# Text adventure world-state engine, in Dafny

This project models the two deterministic parts of an LLM-driven text
adventure:

- **The world-state update engine** (`GameEngine.apply_update` and its seven
  stages in `game_engine.py`). The engine owns one JSON document: the
  player, the rooms, the NPCs, the quests and the event history. For every
  turn it applies a structured command, one stage after another, in this
  order: inventory, movement, player stats, room object states, entity
  interactions, quests, events. Each stage works on the document as the
  previous stage left it.
  - `Engine.GameEngine` is a class with one field per top-level key of the
    document. Each stage is a `modifies this` method, with the source's loops
    as `for` loops.
  - Every method is proved against a pure function that gives its result:
    - `ApplyUpdate` against `UpdateRules.Apply`;
    - each stage method against its `UpdateRules` stage function
      (`InventoryStage`, `MoveStage`, `StatsStage`, `RoomStage`,
      `EntityStage`, `QuestStage`, `EventStage`);
    - `RemoveNpcFromCurrentRoom` against `UpdateRules.RemoveNpcHere`;
    - the list loops `AppendAbsent` and `RemoveEach` against `Lists.AddAll`
      and `Lists.RemoveAll`.
  - The laws in `UpdateLaws` and `ApplyLaws` are what the engine promises:
    - no duplicates in the inventory, room lists or completed objectives;
    - counters that are clamped at zero;
    - a history of at most 100 entries;
    - the exact contents each stage leaves;
    - which room a command can touch;
    - a few concrete turns.
- **The command normalizer** (`LLMParser._normalize_update_data` and
  `_create_error_response` in `llm_parser.py`). It turns the JSON object the
  language model returned into a command that has all eight keys, with
  defaults filling the gaps.
  - `Normalizer.Normalize` works on a `Json` datatype.
  - When a sub-object the merge reads is present but is not an object, the
    Python code raises `AttributeError`. Here that path is a `Failure` that
    carries Python's message.
  - `NormalizerLaws` proves:
    - the defaults;
    - pass-through of given values;
    - the exact output shape;
    - the fixed points and idempotence;
    - that the error response is the normalized empty object plus an
      `"error"` key.

Where the source is silent, the modelling choices are these:

- The document always holds a `locations`, `npcs` and `quests` map and an
  `event_history` list. An absent one is modelled as the empty map or `[]`.
  The engine reads `locations` and `npcs` with an empty default. It creates a
  missing `quests` map and `event_history` list in the document; the model
  cannot tell that creation apart from an empty one already being there
  (see "## Left out").
- Player fields that the engine reads with a default (`health`, `mana`,
  `gold`, `xp`, `equipped`, `location_id`) are `Option`s, so "absent" and
  "present" stay apart, as they do in the document. `inventory` is also read
  with a default (game_engine.py:158), but it is a plain list: the stage
  always writes it back (game_engine.py:180), so after any update it is
  present.

Three behaviours of the code that a reader may not expect, which the model
keeps:

- Equipping appends without de-duplicating. `UpdateLaws.EquipKeepsDuplicates`
  shows an item equipped twice and listed twice.
- Quest statuses are overwritten unconditionally. "started" after
  "completed" makes a quest `in_progress` again, and a quest can go straight
  from `not_started` to `completed`.
- The stage does not make a negative counter already in a loaded document
  lawful. Only a non-zero delta clamps.

## Model

| member | source | states |
|---|---|---|
| Engine.GameEngine.constructor | game_engine.py:25-35 | a new engine holds the empty document |
| Engine.GameEngine.ApplyUpdate | game_engine.py:100-148 | creates the default player if missing, then runs the seven stages in the source's order; the new document is `Apply` of the old one, and the call reports success |
| Engine.GameEngine.ApplyInventoryChanges | game_engine.py:150-180 | the new document is `InventoryStage` of the old: new ids appended, removed ids taken out, equip appended, unequip removing one occurrence each, only when `equipped` exists |
| Engine.GameEngine.ApplyLocationChanges | game_engine.py:182-191 | the new document is `MoveStage` of the old: the location changes only on a present, non-empty id |
| Engine.GameEngine.ApplyStatsChanges | game_engine.py:193-220 | the new document is `StatsStage` of the old |
| Engine.GameEngine.ApplyRoomUpdates | game_engine.py:222-249 | the new document is `RoomStage` of the old: the updates are folded over the room the player is in, and nothing changes when that room is unknown |
| Engine.GameEngine.ApplyEntityInteractions | game_engine.py:251-287 | the new document is `EntityStage` of the old: each interaction with a known NPC updates it and a kill removes it from the current room |
| Engine.GameEngine.RemoveNpcFromCurrentRoom | game_engine.py:283-287 | the id leaves the current room's NPC list when the room is known and lists it; the rest of the document stays |
| Engine.GameEngine.ApplyQuestUpdates | game_engine.py:289-325 | the new document is `QuestStage` of the old |
| Engine.GameEngine.ProcessGameEvents | game_engine.py:327-342 | the new document is `EventStage` of the old |
| Engine.AppendAbsent | game_engine.py:161-163 | the loop's result is `AddAll(list, items)` |
| Engine.RemoveEach | game_engine.py:166-168 | the loop's result is `RemoveAll(list, items)` |
| Lists.RemoveFirst | game_engine.py:166-168 | a guarded `remove` leaves a list without `x` unchanged; otherwise it is one shorter, its multiset loses exactly one `x`, and it gains no element |
| Lists.RemoveFirstOrder | game_engine.py:166-168 | removing `x` from `a + [x] + b`, where `a` holds no `x`, gives `a + b`: exactly the first occurrence goes and the rest keep their order |
| Lists.AddAllSnoc | game_engine.py:161-163 | adding one more id to the added list is one more append-if-absent at the end |
| Lists.AddAll | game_engine.py:161-163 | an element is in the result iff it was in the list or is among the added ones |
| Lists.RemoveAll | game_engine.py:166-168 | the result's multiset is the list's minus the removed ids' |
| Lists.RemoveFirstNoDup | game_engine.py:166-168 | on a duplicate-free list, removing the first `x` is the same as filtering every `x` out |
| Lists.AddAllShape | game_engine.py:161-163 | the old list is a prefix of the result, only ids absent from it are appended, and a duplicate-free list stays duplicate-free |
| Lists.RemoveAllNoDup | game_engine.py:166-168 | on a duplicate-free list, removing each id equals filtering out the set of removed ids, and the result is duplicate-free |
| Lists.Without | game_engine.py:166-168 | an element is in the filtered list iff it was in the list and not in the filter set |
| Lists.WithoutNoDup | game_engine.py:166-168 | filtering keeps a duplicate-free list duplicate-free |
| Lists.WithoutWithout | game_engine.py:166-168 | filtering by `a` and then by `b` is filtering by `a + b` |
| Lists.WithoutAbsent | game_engine.py:166-168 | filtering by a set disjoint from the list changes nothing |
| UpdateRules.Apply | game_engine.py:100-148 | the whole update: `EnsurePlayer`, then the inventory, movement, stats, room, interaction, quest and event stages, each on the previous one's document |
| UpdateRules.EnsurePlayer | game_engine.py:111-119 | the document with `DefaultPlayer` added when it has no player, and unchanged otherwise |
| UpdateRules.InventoryOn | game_engine.py:157-180 | the player after `AddAll` of the added ids, then `RemoveAll` of the removed ids; `equipped` concatenated with the equipped ids when that key is given; then `RemoveAll` of the unequipped ids when that key is given and an `equipped` list exists |
| UpdateRules.InventoryStage | game_engine.py:150-180 | the document with its player replaced by `InventoryOn` of it |
| UpdateRules.MoveStage | game_engine.py:182-191 | the document with the player's location set to the new id when that id is present and non-empty |
| UpdateRules.StatsOn | game_engine.py:200-220 | the player with health, mana and gold each set to `max(0, old + delta)` on a non-zero delta (old defaulting to 100, 0 and 0), and xp raised on a positive gain |
| UpdateRules.StatsStage | game_engine.py:193-220 | the document with its player replaced by `StatsOn` of it |
| UpdateRules.RoomUpdateOn | game_engine.py:238-249 | the room after one update: the object's state stored in `object_states` (created when missing), and the object's first occurrence taken out of `items_present` when the state is "missing" |
| UpdateRules.RoomUpdatesOn | game_engine.py:237-249 | `RoomUpdateOn` applied for each update in order |
| UpdateRules.RoomStage | game_engine.py:229-249 | the document with the player's current room replaced by `RoomUpdatesOn` of it; unchanged when the location is absent or not a known room |
| UpdateRules.NpcAfter | game_engine.py:268-281 | the NPC after one interaction: "attacked" lowers a present health by 10, clamped at 0, and sets `hostile`; "talked_to" sets `talked`; a "killed", "defeated" or "destroyed" outcome sets `alive` to false |
| UpdateRules.RemoveNpcHere | game_engine.py:283-287 | the rooms with the id's first occurrence taken out of the current room's `npcs_present`, when that room is known |
| UpdateRules.Interact | game_engine.py:261-287 | one interaction: for type "NPC" and a known id, the NPC replaced by `NpcAfter` and, on a killing outcome, the id removed from the current room by `RemoveNpcHere`; otherwise no change |
| UpdateRules.QuestAfter | game_engine.py:313-325 | the quest after one update: "started" gives "in_progress", "completed" and "failed" are copied, other statuses leave it alone; a non-empty objective id is appended to `completed_objectives` (created when missing) if not yet listed |
| UpdateRules.QuestUpdateOn | game_engine.py:302-325 | one update: the quest created as `{status: "not_started", objectives: []}` when missing, then replaced by `QuestAfter` of it |
| UpdateRules.QuestStage | game_engine.py:289-325 | the document with its quests replaced by `QuestUpdatesOn` of them |
| UpdateRules.RecordEvents | game_engine.py:338-342 | the history followed by the events, cut to its last 100 entries when longer |
| UpdateRules.EventStage | game_engine.py:327-342 | the document with its history replaced by `RecordEvents` of it |
| UpdateRules.EntityStage | game_engine.py:258-287 | the interactions change only `npcs` and `locations`, and neither gains or loses a key |
| UpdateRules.QuestUpdatesOn | game_engine.py:301-311 | no existing quest disappears |
| UpdateLaws.EnsurePlayerLaw | game_engine.py:111-119 | a missing player is created as `{location_id: "start", inventory: [], health: 100, gold: 0, xp: 0}`, an existing one is kept, and nothing else changes |
| UpdateLaws.InventoryLaw | game_engine.py:157-168 | on a duplicate-free inventory the result is the old inventory plus the new ids, with the removed ids filtered out; it stays duplicate-free; an id is present iff it was there or was added, and it was not removed |
| UpdateLaws.EquipLaw | game_engine.py:170-178 | equip alone makes `equipped` the old list (or `[]`) followed by the new ids, as a sequence; with unequip too, one occurrence per unequipped id goes, as multisets; with no `equipped` list, unequip alone changes nothing |
| UpdateLaws.EquipKeepsDuplicates | game_engine.py:171-172 | equipping an already equipped item lists it twice |
| UpdateLaws.MoveLaw | game_engine.py:189-191 | the location becomes the given id exactly when it is present and non-empty, whether or not such a room exists; nothing else changes |
| UpdateLaws.StatsLaw | game_engine.py:200-220 | a zero delta leaves a stat as it is, even absent; a non-zero delta stores max(0, old + delta), where a missing health counts as 100 and missing mana or gold as 0; xp changes only on a positive gain and never decreases; nothing else changes |
| UpdateLaws.RoomUpdatesLaw | game_engine.py:237-249 | each object's recorded state is its last update's and other objects keep theirs; the state map exists once there was an update; items only disappear, and on a duplicate-free list exactly the objects marked "missing" go; description, NPCs and exits stay |
| UpdateLaws.RoomStageLaw | game_engine.py:229-235 | only the room the player is in can change, and an unknown room means no change |
| UpdateLaws.EntityFrameLaw | game_engine.py:251-287 | interactions change no room other than the current one, and no field of it except `npcs_present` |
| UpdateLaws.NpcHealthLaw | game_engine.py:271-273 | an NPC's health drops by 10 per attack, clamped at 0, and only if its record has a health field |
| UpdateLaws.NpcFlagsLaw | game_engine.py:267-281 | an attack sets `hostile`, a talk sets `talked`, a killing outcome sets `alive` to false; otherwise those flags and the name stay |
| UpdateLaws.NpcsPresentLaw | game_engine.py:279-287 | on a duplicate-free NPC list, the current room loses exactly the known NPCs that some interaction kills, and the list stays duplicate-free |
| UpdateLaws.QuestKeysLaw | game_engine.py:301-310 | the quests afterwards are the old ones plus every quest an update mentions |
| UpdateLaws.QuestStatusLaw | game_engine.py:305-316 | a quest's status is the one its last status-setting update gives ("started" becomes "in_progress"); without one it keeps its status, and a new quest is "not_started" |
| UpdateLaws.QuestObjectivesLaw | game_engine.py:318-325 | a quest's completed objectives are its old ones plus every non-empty objective an update records for it; they stay duplicate-free, and the old list stays a prefix |
| UpdateLaws.QuestObjectivesOrder | game_engine.py:318-325 | a quest's completed objectives are exactly its old ones followed by the recorded objectives in update order, each appended only if not yet listed |
| UpdateLaws.QuestObjectiveStep | game_engine.py:319-325 | one update appends its non-empty objective to the named quest's list if it is new, and changes no other quest's list |
| UpdateLaws.NotRecordedBeforeFirstMention | game_engine.py:305-325 | a quest that still does not exist has no status and no objective set by the updates so far |
| UpdateLaws.HistoryLaw | game_engine.py:334-342 | the history is the newest min(100, n) entries of old history plus events, in order; it never exceeds 100; nothing is dropped while within the bound |
| ApplyLaws.InventoryStagePreserves | game_engine.py:150-180 | the inventory stage keeps the document well formed |
| ApplyLaws.StatsStagePreserves | game_engine.py:193-220 | the stats stage keeps the document well formed |
| ApplyLaws.RoomStagePreserves | game_engine.py:222-249 | the room stage keeps the document well formed |
| ApplyLaws.EntityStagePreserves | game_engine.py:251-287 | the interaction stage keeps the document well formed |
| ApplyLaws.QuestStagePreserves | game_engine.py:289-325 | the quest stage keeps the document well formed |
| ApplyLaws.ApplyPreservesWellFormed | game_engine.py:100-148 | one update keeps the document well formed: no duplicate inventory items, room items, room NPCs or completed objectives, no negative counter or NPC health, at most 100 history entries |
| ApplyLaws.ApplyTouchesOnlyCurrentRoom | game_engine.py:229-235 | an update changes no room other than the one the player is in after movement |
| ApplyLaws.ApplyUnknownRoomLeavesRooms | game_engine.py:232-233 | when the room after movement is unknown, no room changes |
| ApplyLaws.EmptyCommandLaw | game_engine.py:100-148 | an empty command only creates a missing player and an empty `equipped` list; rooms, NPCs and quests stay; the history stays, except that one longer than 100 is cut to its newest 100 entries |
| ApplyLaws.DaggerTurn | game_engine.py:100-148 | from the default player, picking up a dagger with 10 xp gives inventory `["dagger"]` and xp 10, with the other fields unchanged |
| ApplyLaws.GoblinTurn | game_engine.py:251-287 | attacking goblin_01 with outcome "killed" takes its health from 30 to 20, makes it hostile and dead, and removes it from the cave |
| ApplyLaws.TorchTurn | game_engine.py:222-249 | after moving to the cellar, marking the torch "missing" removes it from the cellar only and records its state |
| Normalizer.Normalize | llm_parser.py:160-218 | the normalization succeeds iff each of the three sub-objects is absent or an object; on success the result has exactly the eight command keys; on failure the message is the `AttributeError` of the first offending sub-object, in merge order |
| Normalizer.InventoryPart | llm_parser.py:195-201 | the inventory sub-object: four empty lists (the defaults of lines 172-177) when the input has no `inventory_changes`; each of `added`, `removed`, `equipped` and `unequipped` copied or `[]` when it is an object; and the `AttributeError` message when it is anything else |
| Normalizer.LocationPart | llm_parser.py:203-208 | the location sub-object: null ids and `[]` updates by default (lines 179-183); `new_location_id` and `direction_moved` copied or null, and `room_state_updates` copied or `[]`, from an object; the `AttributeError` message otherwise |
| Normalizer.StatsPart | llm_parser.py:210-216 | the stats sub-object: four zeros by default (lines 184-189); each counter copied or 0 from an object; the `AttributeError` message otherwise |
| Normalizer.ErrorResponse | llm_parser.py:220-254 | the literal error response: the given message under "error", with empty lists, null ids and hint, and zero counters under the eight command keys |
| Normalizer.ParseDecoded | llm_parser.py:69-85 | the result has the eight command keys, plus "error" exactly when the decoded value is not an object or normalizing it raised; without "error" it is the normalized command; with "error" it is the error response for that message: "LLM response is not a JSON object" for a value that is not an object, and "LLM communication error: " followed by the exception message when normalization raised |
| NormalizerLaws.ParseDecodedNormalized | llm_parser.py:69-85 | what the caller receives always has the normalized shape once "error" is set aside |
| NormalizerLaws.TopLevelLaw | llm_parser.py:170-193 | the top-level lists and the hint are copied unchanged when present and default to `[]` or null; any other input key is dropped |
| NormalizerLaws.NormalizeParts | llm_parser.py:195-218 | each sub-object of the result is what its merge step builds |
| NormalizerLaws.InventoryPartLaw | llm_parser.py:195-201 | the inventory sub-object has exactly its four keys, each copied from the input or `[]` |
| NormalizerLaws.LocationPartLaw | llm_parser.py:203-208 | the location sub-object has exactly its three keys: the ids copied or null, the update list copied or `[]` |
| NormalizerLaws.StatsPartLaw | llm_parser.py:210-216 | the stats sub-object has exactly its four keys, each copied or 0 |
| NormalizerLaws.SubObjectLaw | llm_parser.py:170-216 | every sub-object of the result is rebuilt with exactly its own keys, defaults filling the gaps |
| NormalizerLaws.NormalizedIsFixedPoint | llm_parser.py:160-218 | normalization returns an object unchanged iff the object already has the normalized shape |
| NormalizerLaws.NormalizeIdempotent | llm_parser.py:160-218 | a normalized command has the normalized shape, and normalizing it again changes nothing |
| NormalizerLaws.NormalizeEmpty | llm_parser.py:170-193 | the empty object normalizes to the all-defaults command, which is the error response without "error" |
| NormalizerLaws.ErrorResponseLaw | llm_parser.py:220-254 | the error response is the normalized empty object plus the "error" key |
| NormalizerLaws.ExtraKeyIgnored | llm_parser.py:170-218 | a key outside the eight command keys has no effect on normalization |
| NormalizerLaws.ErrorResponseNormalizes | llm_parser.py:220-254 | normalizing an error response gives the all-defaults command, dropping "error" |

## Left out

- Engine.GameEngine.ApplyUpdate: always reports success. The source's exception path (game_engine.py:146-148), which returns false after a partial, non-atomic update, is not modelled. The typed command cannot hold any mistyped value, whether it raises there (a non-iterable `added`, a non-object update entry) or not (a string `added`, which is iterated character by character).
- `load_state` and `save_state`: file I/O. An engine starts from a document value instead, and persistence is not modelled.
- `get_state`: a deep copy of the document. It corresponds to `GameEngine.State()`, which is a value.
- Command typing: the engine runs on typed commands. Translating a normalized JSON object into a `Command` is not modelled. In the typed form, `object_id`, `state`, `quest_id` and the interaction's `id`, `type` and `action` are always strings. The model therefore cannot represent a missing one. In the source, a missing `object_id` or `state` stores a `None` key or value in `object_states` (game_engine.py:238-245), and a missing `quest_id` creates a quest under the key `None` (game_engine.py:302-310).
- Creation of `quests` and `event_history`: the engine adds these keys to a document that lacks them (game_engine.py:296-297 and 335-336). The model's document always has them, so it cannot show that an update adds them.
- JSON floats, and Python's dynamic typing of list elements (an item id that is not a string): not modelled.
- NPC records: only `name`, `health`, `hostile`, `talked` and `alive` are modelled. Quest records: only `status`, `objectives` and `completed_objectives`. `status` is a plain string, so the model cannot hold a loaded quest that has no `status` key; in the source that key stays absent unless an update sets it (game_engine.py:313-316). Items and room exits have no behaviour in the engine.
- `LLMParser.parse_player_action` (llm_parser.py:33-85): the prompt build, the Ollama call and JSON decoding are external. Only what happens after decoding is modelled, in `ParseDecoded`. The messages for an empty reply and for invalid JSON are not modelled.
- `LLMParser._build_prompt`: text generation only.
- `main.py` (the interactive loop and its display) and `setup_check.py`: they are not part of this model.
