/** Properties of the update stages and of a whole update. */
module UpdateLaws {
  import opened Wrappers
  import opened Lists
  import opened World
  import opened Commands
  import opened UpdateRules

  // ----- player creation -----

  /** A missing player is created with the default record; an existing one
      is kept as it is; nothing else in the document changes. */
  lemma EnsurePlayerLaw(s: GameState)
    ensures EnsurePlayer(s).player == if s.player.Some? then s.player else Some(DefaultPlayer)
    ensures EnsurePlayer(s).(player := s.player) == s
  {
  }

  // ----- inventory -----

  /** On a duplicate-free inventory the stage keeps it duplicate-free and the
      result is the old inventory followed by the newly added ids, with the
      removed ids filtered out, order kept. */
  lemma InventoryLaw(p: Player, ch: InventoryChanges)
    requires NoDup(p.inventory)
    ensures InventoryOn(p, ch).inventory == Without(AddAll(p.inventory, ch.added), Elems(ch.removed))
    ensures NoDup(InventoryOn(p, ch).inventory)
    ensures forall x :: x in InventoryOn(p, ch).inventory <==> (x in p.inventory || x in ch.added) && x !in ch.removed
  {
    AddAllShape(p.inventory, ch.added);
    RemoveAllNoDup(AddAll(p.inventory, ch.added), ch.removed);
  }

  /** Equipping concatenates (duplicates included); each unequipped id takes
      away one occurrence; with no `equipped` field and no equip, unequip
      does nothing. */
  lemma EquipLaw(p: Player, ch: InventoryChanges)
    ensures ch.equipped.Some? && ch.unequipped.None? ==>
      InventoryOn(p, ch).equipped == Some(p.equipped.GetOr([]) + ch.equipped.value)
    ensures ch.equipped.None? && (ch.unequipped.None? || p.equipped.None?) ==>
      InventoryOn(p, ch).equipped == p.equipped
    ensures ch.equipped.Some? ==>
      InventoryOn(p, ch).equipped.Some? &&
      multiset(InventoryOn(p, ch).equipped.value) ==
        multiset(p.equipped.GetOr([]) + ch.equipped.value) - multiset(ch.unequipped.GetOr([]))
    ensures ch.equipped.None? && ch.unequipped.Some? && p.equipped.Some? ==>
      InventoryOn(p, ch).equipped.Some? &&
      multiset(InventoryOn(p, ch).equipped.value) == multiset(p.equipped.value) - multiset(ch.unequipped.value)
  {
    if ch.equipped.Some? && ch.unequipped.None? {
      assert multiset(ch.unequipped.GetOr([])) == multiset{};
    }
  }

  /** Equipping an item twice lists it twice: `equipped` is not kept
      duplicate-free. */
  lemma EquipKeepsDuplicates(p: Player, item: string)
    requires p.equipped == Some([item])
    ensures InventoryOn(p, InventoryChanges([], [], Some([item]), None)).equipped == Some([item, item])
  {
    assert [item] + [item] == [item, item];
  }

  // ----- movement -----

  /** The location changes exactly when a non-empty id is given, whatever the
      id names; nothing else changes. */
  lemma MoveLaw(s: GameState, ch: LocationChanges)
    requires s.player.Some?
    ensures MoveStage(s, ch).player.Some?
    ensures MoveStage(s, ch).player.value.locationId ==
      if ch.newLocationId.Some? && ch.newLocationId.value != "" then ch.newLocationId else s.player.value.locationId
    ensures MoveStage(s, ch).player.value.(locationId := s.player.value.locationId) == s.player.value
    ensures MoveStage(s, ch).(player := s.player) == s
  {
  }

  // ----- stats -----

  /** `v` is `max(0, x)`. */
  predicate ClampOf(v: int, x: int) {
    v >= 0 && v >= x && (v == 0 || v == x)
  }

  /** A zero delta leaves the field as it is (absent stays absent); a
      non-zero delta stores max(0, old + delta), with old 100 for a missing
      health and 0 for missing mana or gold; xp changes only on a positive
      gain, and then grows by it. */
  lemma StatsLaw(p: Player, c: StatsChanges)
    ensures c.healthChange == 0 ==> StatsOn(p, c).health == p.health
    ensures c.healthChange != 0 ==>
      StatsOn(p, c).health.Some? && ClampOf(StatsOn(p, c).health.value, p.health.GetOr(DefaultHealth) + c.healthChange)
    ensures c.manaChange == 0 ==> StatsOn(p, c).mana == p.mana
    ensures c.manaChange != 0 ==>
      StatsOn(p, c).mana.Some? && ClampOf(StatsOn(p, c).mana.value, p.mana.GetOr(0) + c.manaChange)
    ensures c.goldChange == 0 ==> StatsOn(p, c).gold == p.gold
    ensures c.goldChange != 0 ==>
      StatsOn(p, c).gold.Some? && ClampOf(StatsOn(p, c).gold.value, p.gold.GetOr(0) + c.goldChange)
    ensures c.xpGained <= 0 ==> StatsOn(p, c).xp == p.xp
    ensures c.xpGained > 0 ==> StatsOn(p, c).xp == Some(p.xp.GetOr(0) + c.xpGained)
    ensures StatsOn(p, c).xp.GetOr(0) >= p.xp.GetOr(0)
    ensures StatsOn(p, c).(health := p.health, mana := p.mana, gold := p.gold, xp := p.xp) == p
  {
  }

  // ----- room object states -----

  /** An optional map looked up at `k`. */
  function Lookup(m: Option<map<string, string>>, k: string): Option<string> {
    if m.Some? && k in m.value then Some(m.value[k]) else None
  }

  /** The state the last update for object `k` records, if any. */
  function LastState(us: seq<RoomStateUpdate>, k: string): Option<string> {
    if us == [] then None
    else if us[|us| - 1].objectId == k then Some(us[|us| - 1].state)
    else LastState(us[..|us| - 1], k)
  }

  /** The objects some update marks "missing". */
  function MissingIds(us: seq<RoomStateUpdate>): set<string> {
    set i | 0 <= i < |us| && us[i].state == "missing" :: us[i].objectId
  }

  /** After the updates each object's recorded state is the one its last
      update gives, other objects keep theirs; the object-states map exists
      once there was an update; items only disappear, and on a duplicate-free
      item list exactly the "missing" ones do; nothing else in the room
      changes. */
  lemma {:induction false} RoomUpdatesLaw(room: Location, us: seq<RoomStateUpdate>)
    ensures var r := RoomUpdatesOn(room, us);
      r.description == room.description && r.npcsPresent == room.npcsPresent && r.exits == room.exits
    ensures us == [] ==> RoomUpdatesOn(room, us) == room
    ensures us != [] ==> RoomUpdatesOn(room, us).objectStates.Some?
    ensures forall k ::
              Lookup(RoomUpdatesOn(room, us).objectStates, k) ==
              (if LastState(us, k).Some? then LastState(us, k) else Lookup(room.objectStates, k))
    ensures forall x :: x in RoomUpdatesOn(room, us).itemsPresent ==> x in room.itemsPresent
    ensures NoDup(room.itemsPresent) ==>
      RoomUpdatesOn(room, us).itemsPresent == Without(room.itemsPresent, MissingIds(us)) &&
      NoDup(RoomUpdatesOn(room, us).itemsPresent)
  {
    if us == [] {
      assert MissingIds(us) == {};
      WithoutAbsent(room.itemsPresent, {});
    } else {
      var init := us[..|us| - 1];
      var u := us[|us| - 1];
      RoomUpdatesLaw(room, init);
      var prev := RoomUpdatesOn(room, init);
      var r := RoomUpdateOn(prev, u);
      forall k ensures Lookup(r.objectStates, k) ==
        if LastState(us, k).Some? then LastState(us, k) else Lookup(room.objectStates, k)
      {
        if u.objectId != k {
          assert Lookup(r.objectStates, k) == Lookup(prev.objectStates, k);
        }
      }
      assert MissingIds(us) == MissingIds(init) + (if u.state == "missing" then {u.objectId} else {}) by {
        assert forall i :: 0 <= i < |init| ==> us[i] == init[i];
      }
      if NoDup(room.itemsPresent) {
        var missing := if u.state == "missing" then {u.objectId} else {};
        if u.state == "missing" && u.objectId in prev.itemsPresent {
          RemoveFirstNoDup(prev.itemsPresent, u.objectId);
        } else if u.state == "missing" {
          WithoutAbsent(prev.itemsPresent, missing);
        } else {
          WithoutAbsent(prev.itemsPresent, missing);
        }
        assert r.itemsPresent == Without(prev.itemsPresent, missing);
        WithoutWithout(room.itemsPresent, MissingIds(init), missing);
        WithoutNoDup(room.itemsPresent, MissingIds(us));
      }
    }
  }

  /** The room stage changes at most the room the player is in, only through
      `RoomUpdatesOn`; an unknown room means no change at all. */
  lemma RoomStageLaw(s: GameState, us: seq<RoomStateUpdate>)
    ensures RoomStage(s, us).(locations := s.locations) == s
    ensures RoomStage(s, us).locations.Keys == s.locations.Keys
    ensures forall k :: k in s.locations && Some(k) != CurrentLocation(s) ==> RoomStage(s, us).locations[k] == s.locations[k]
    ensures CurrentLocation(s).None? || CurrentLocation(s).value !in s.locations ==> RoomStage(s, us) == s
    ensures CurrentLocation(s).Some? && CurrentLocation(s).value in s.locations ==>
      RoomStage(s, us).locations[CurrentLocation(s).value] == RoomUpdatesOn(s.locations[CurrentLocation(s).value], us)
  {
  }

  // ----- NPC interactions -----

  /** Whether interaction `it` is of type "NPC" and names `id`. */
  predicate Names(it: EntityInteraction, id: string) {
    it.kind == "NPC" && it.id == id
  }

  /** How many interactions attack NPC `id`. */
  function Attacks(its: seq<EntityInteraction>, id: string): nat {
    if its == [] then 0
    else Attacks(its[..|its| - 1], id) + (if Names(its[|its| - 1], id) && its[|its| - 1].action == "attacked" then 1 else 0)
  }

  /** Whether some interaction talks to NPC `id`. */
  predicate TalkedTo(its: seq<EntityInteraction>, id: string) {
    its != [] &&
    (TalkedTo(its[..|its| - 1], id) || (Names(its[|its| - 1], id) && its[|its| - 1].action == "talked_to"))
  }

  /** Whether some interaction with NPC `id` has a killing outcome. */
  predicate KilledIn(its: seq<EntityInteraction>, id: string) {
    its != [] && (KilledIn(its[..|its| - 1], id) || (Names(its[|its| - 1], id) && Kills(its[|its| - 1])))
  }

  /** The known NPCs some interaction kills. */
  function KilledIds(s: GameState, its: seq<EntityInteraction>): set<string> {
    set i | 0 <= i < |its| && its[i].kind == "NPC" && its[i].id in s.npcs && Kills(its[i]) :: its[i].id
  }

  /** One interaction changes NPC `id` only when it names it. */
  lemma InteractNpc(s: GameState, it: EntityInteraction, id: string)
    requires id in s.npcs
    ensures id in Interact(s, it).npcs
    ensures Interact(s, it).npcs[id] == if Names(it, id) then NpcAfter(s.npcs[id], it) else s.npcs[id]
  {
  }

  /** Apart from the player, quests, history and key sets (which
      `EntityStage` keeps), the stage changes only the current room's
      `npcs_present`: every other room and every other field of the current
      room stay as they were. */
  lemma {:induction false} EntityFrameLaw(s: GameState, its: seq<EntityInteraction>)
    ensures forall k :: k in s.locations && Some(k) != CurrentLocation(s) ==>
      EntityStage(s, its).locations[k] == s.locations[k]
    ensures forall k :: k in s.locations ==>
      EntityStage(s, its).locations[k].(npcsPresent := s.locations[k].npcsPresent) == s.locations[k]
  {
    if its != [] {
      EntityFrameLaw(s, its[..|its| - 1]);
      InteractFrame(EntityStage(s, its[..|its| - 1]), its[|its| - 1]);
    }
  }

  /** One interaction changes at most the current room's `npcs_present`. */
  lemma InteractFrame(s: GameState, it: EntityInteraction)
    ensures Interact(s, it).locations.Keys == s.locations.Keys
    ensures forall k :: k in s.locations && Some(k) != CurrentLocation(s) ==>
      Interact(s, it).locations[k] == s.locations[k]
    ensures forall k :: k in s.locations ==>
      Interact(s, it).locations[k].(npcsPresent := s.locations[k].npcsPresent) == s.locations[k]
  {
  }

  /** An NPC's health drops by 10 per attack, clamped at 0, and only when its
      record has a health field; without attacks it is unchanged. */
  lemma {:induction false} NpcHealthLaw(s: GameState, its: seq<EntityInteraction>, id: string)
    requires id in s.npcs
    ensures var before := s.npcs[id].health;
      var after := EntityStage(s, its).npcs[id].health;
      && (before.None? ==> after.None?)
      && (Attacks(its, id) == 0 ==> after == before)
      && (before.Some? && Attacks(its, id) > 0 ==>
            after == Some(AtLeastZero(before.value - AttackDamage * Attacks(its, id))))
  {
    if its != [] {
      var init := its[..|its| - 1];
      var it := its[|its| - 1];
      NpcHealthLaw(s, init, id);
      InteractNpc(EntityStage(s, init), it, id);
      if Names(it, id) && it.action == "attacked" && s.npcs[id].health.Some? && Attacks(init, id) > 0 {
        var h := s.npcs[id].health.value;
        assert AtLeastZero(AtLeastZero(h - AttackDamage * Attacks(init, id)) - AttackDamage)
            == AtLeastZero(h - AttackDamage * (Attacks(init, id) + 1));
      }
    }
  }

  /** An attack makes the NPC hostile, a talk marks it talked to, a killing
      outcome marks it dead; otherwise those fields and its name stay. */
  lemma {:induction false} NpcFlagsLaw(s: GameState, its: seq<EntityInteraction>, id: string)
    requires id in s.npcs
    ensures var before := s.npcs[id];
      var after := EntityStage(s, its).npcs[id];
      && after.name == before.name
      && after.hostile == (if Attacks(its, id) > 0 then Some(true) else before.hostile)
      && after.talked == (if TalkedTo(its, id) then Some(true) else before.talked)
      && after.alive == (if KilledIn(its, id) then Some(false) else before.alive)
  {
    if its != [] {
      NpcFlagsLaw(s, its[..|its| - 1], id);
      InteractNpc(EntityStage(s, its[..|its| - 1]), its[|its| - 1], id);
    }
  }

  /** On a duplicate-free `npcs_present`, the current room loses exactly the
      known NPCs that some interaction kills. */
  lemma {:induction false} NpcsPresentLaw(s: GameState, its: seq<EntityInteraction>)
    requires CurrentLocation(s).Some? && CurrentLocation(s).value in s.locations
    requires NoDup(s.locations[CurrentLocation(s).value].npcsPresent)
    ensures var here := CurrentLocation(s).value;
      EntityStage(s, its).locations[here].npcsPresent == Without(s.locations[here].npcsPresent, KilledIds(s, its))
    ensures NoDup(EntityStage(s, its).locations[CurrentLocation(s).value].npcsPresent)
  {
    var here := CurrentLocation(s).value;
    var start := s.locations[here].npcsPresent;
    if its == [] {
      assert KilledIds(s, its) == {};
      WithoutAbsent(start, {});
    } else {
      var init := its[..|its| - 1];
      var it := its[|its| - 1];
      NpcsPresentLaw(s, init);
      var prev := EntityStage(s, init);
      var killed := if it.kind == "NPC" && it.id in s.npcs && Kills(it) then {it.id} else {};
      assert KilledIds(s, its) == KilledIds(s, init) + killed by {
        assert forall i :: 0 <= i < |init| ==> its[i] == init[i];
      }
      var before := prev.locations[here].npcsPresent;
      assert CurrentLocation(prev) == CurrentLocation(s);
      assert Interact(prev, it).locations[here].npcsPresent ==
        if killed != {} then RemoveFirst(before, it.id) else before;
      if killed != {} {
        RemoveFirstNoDup(before, it.id);
      } else {
        WithoutAbsent(before, killed);
      }
      WithoutWithout(start, KilledIds(s, init), killed);
    }
    WithoutNoDup(start, KilledIds(s, its));
  }

  // ----- quests -----

  /** The ids the updates mention. */
  function QuestIds(us: seq<QuestUpdate>): set<string> {
    set i | 0 <= i < |us| :: us[i].questId
  }

  /** The status the last status-setting update for quest `id` gives. */
  function LastStatus(us: seq<QuestUpdate>, id: string): Option<string> {
    if us == [] then None
    else
      var u := us[|us| - 1];
      if u.questId == id && u.status == "started" then Some("in_progress")
      else if u.questId == id && (u.status == "completed" || u.status == "failed") then Some(u.status)
      else LastStatus(us[..|us| - 1], id)
  }

  /** The objective ids the updates record for quest `id`, in update order. */
  function RecordedIds(us: seq<QuestUpdate>, id: string): seq<string> {
    if us == [] then []
    else
      var u := us[|us| - 1];
      RecordedIds(us[..|us| - 1], id) +
      (if u.questId == id && u.objectiveId.Some? && u.objectiveId.value != "" then [u.objectiveId.value] else [])
  }

  /** The completed objectives of a quest, an absent list read as empty. */
  function Done(q: Quest): seq<string> {
    q.completedObjectives.GetOr([])
  }

  /** The quests afterwards are the old ones plus every mentioned one. */
  lemma {:induction false} QuestKeysLaw(quests: map<string, Quest>, us: seq<QuestUpdate>)
    ensures QuestUpdatesOn(quests, us).Keys == quests.Keys + QuestIds(us)
  {
    if us == [] {
      assert QuestIds(us) == {};
    } else {
      var init := us[..|us| - 1];
      QuestKeysLaw(quests, init);
      assert forall i :: 0 <= i < |init| ==> us[i] == init[i];
      assert QuestIds(us) == QuestIds(init) + {us[|us| - 1].questId};
    }
  }

  /** A quest's status is the one its last status-setting update gives;
      without one it keeps its old status, and a new quest is "not_started".
      The inert `objectives` list exists exactly on quests the engine created
      or that had one. */
  lemma {:induction false} QuestStatusLaw(quests: map<string, Quest>, us: seq<QuestUpdate>, id: string)
    requires id in QuestUpdatesOn(quests, us)
    ensures QuestUpdatesOn(quests, us)[id].status ==
      if LastStatus(us, id).Some? then LastStatus(us, id).value
      else if id in quests then quests[id].status
      else NewQuest.status
    ensures QuestUpdatesOn(quests, us)[id].objectives ==
      if id in quests then quests[id].objectives else NewQuest.objectives
  {
    if us != [] {
      var init := us[..|us| - 1];
      if id in QuestUpdatesOn(quests, init) {
        QuestStatusLaw(quests, init, id);
      } else {
        NotRecordedBeforeFirstMention(quests, init, id);
      }
    }
  }

  /** A quest's completed objectives are its old ones plus every objective an
      update records for it, and they stay duplicate-free. */
  lemma QuestObjectivesLaw(quests: map<string, Quest>, us: seq<QuestUpdate>, id: string)
    requires id in QuestUpdatesOn(quests, us)
    requires id in quests ==> NoDup(Done(quests[id]))
    ensures forall x :: x in Done(QuestUpdatesOn(quests, us)[id]) <==>
      (id in quests && x in Done(quests[id])) || x in RecordedIds(us, id)
    ensures NoDup(Done(QuestUpdatesOn(quests, us)[id]))
    ensures id in quests ==> Done(quests[id]) <= Done(QuestUpdatesOn(quests, us)[id])
  {
    QuestObjectivesOrder(quests, us, id);
    AddAllShape(if id in quests then Done(quests[id]) else [], RecordedIds(us, id));
  }

  /** A quest's completed objectives are its old ones followed by each
      objective the updates record for it, in update order, skipping any
      already listed. */
  lemma {:induction false} QuestObjectivesOrder(quests: map<string, Quest>, us: seq<QuestUpdate>, id: string)
    requires id in QuestUpdatesOn(quests, us)
    ensures Done(QuestUpdatesOn(quests, us)[id]) ==
      AddAll(if id in quests then Done(quests[id]) else [], RecordedIds(us, id))
  {
    if us != [] {
      var init := us[..|us| - 1];
      var u := us[|us| - 1];
      var prev := QuestUpdatesOn(quests, init);
      var base := if id in quests then Done(quests[id]) else [];
      var before := RecordedIds(init, id);
      if id in prev {
        QuestObjectivesOrder(quests, init, id);
      } else {
        NotRecordedBeforeFirstMention(quests, init, id);
        assert AddAll(base, before) == [];
      }
      var old_ := if id in prev then Done(prev[id]) else [];
      assert old_ == AddAll(base, before);
      QuestObjectiveStep(prev, u, id);
      assert QuestUpdatesOn(quests, us) == QuestUpdateOn(prev, u);
      if u.questId == id && u.objectiveId.Some? && u.objectiveId.value != "" {
        assert RecordedIds(us, id) == before + [u.objectiveId.value];
        AddAllSnoc(base, before, u.objectiveId.value);
      } else {
        assert RecordedIds(us, id) == before + [];
        assert before + [] == before;
      }
    }
  }

  /** One update appends its objective to the named quest's list, if new. */
  lemma QuestObjectiveStep(quests: map<string, Quest>, u: QuestUpdate, id: string)
    requires id in QuestUpdateOn(quests, u)
    ensures var old_ := if id in quests then Done(quests[id]) else [];
      Done(QuestUpdateOn(quests, u)[id]) ==
        if u.questId == id && u.objectiveId.Some? && u.objectiveId.value != "" then AddIfAbsent(old_, u.objectiveId.value)
        else old_
  {
  }

  /** A quest that does not exist after some updates has had no status and
      no objective set by them. */
  lemma {:induction false} NotRecordedBeforeFirstMention(quests: map<string, Quest>, us: seq<QuestUpdate>, id: string)
    requires id !in QuestUpdatesOn(quests, us)
    ensures id !in quests
    ensures LastStatus(us, id).None?
    ensures RecordedIds(us, id) == []
  {
    if us != [] {
      NotRecordedBeforeFirstMention(quests, us[..|us| - 1], id);
    }
  }

  // ----- event history -----

  /** The history keeps the newest min(100, n) entries of old history plus
      events, in their order; it never exceeds 100. */
  lemma HistoryLaw(history: seq<string>, events: seq<string>)
    ensures var n := |history| + |events|;
      |RecordEvents(history, events)| == if n > HistoryLimit then HistoryLimit else n
    ensures |RecordEvents(history, events)| <= HistoryLimit
    ensures var all := history + events;
      RecordEvents(history, events) == all[|all| - |RecordEvents(history, events)|..]
    ensures |history| + |events| <= HistoryLimit ==> RecordEvents(history, events) == history + events
  {
  }
}
