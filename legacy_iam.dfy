/** The older threshold access model of chitragupt_iam.py: each action needs a
    minimum level, and an entity may act when its level reaches it. */
module LegacyIam {
  import opened Wrappers
  import opened PyText
  import opened Events
  import opened Identity

  /** One record of `users_data["entities"]`. */
  datatype Entity = Entity(name: Option<string>, level: Option<int>, special: Option<bool>)

  type Entities = map<string, Entity>

  /** `entity.get("level", 0)`. */
  function LevelOf(e: Entity): int {
    e.level.GetOr(0)
  }

  /** `get_entity_level` over a registry value. */
  function EntityLevelIn(entities: Entities, entityId: int): (level: int)
    ensures IntToStr(entityId) !in entities ==> level == 0
  {
    var key := IntToStr(entityId);
    if key in entities then LevelOf(entities[key]) else 0
  }

  /** `can_perform` over a rules table and a registry value. */
  function CanPerformIn(rules: map<string, int>, entities: Entities, entityId: int, action: string): (ok: bool)
    ensures action !in rules ==> !ok
    ensures IntToStr(entityId) !in entities ==> !ok
  {
    if action !in rules then false
    else
      var key := IntToStr(entityId);
      if key !in entities then false
      else LevelOf(entities[key]) >= rules[action]
  }

  /** The record `update_entity_level` leaves behind. */
  function UpdatedEntity(stored: Option<Entity>, entityId: int, newLevel: int, name: Option<string>): (e: Entity)
    ensures LevelOf(e) == newLevel
    ensures stored.Some? ==> e.name == stored.value.name
    ensures stored.None? ==> e.name == Some(if name.Some? && name.value != "" then name.value else IntToStr(entityId))
    ensures entityId < 0 ==> e.special == Some(true)
    ensures entityId >= 0 ==> e.special == (if stored.Some? then stored.value.special else None)
  {
    var base := match stored
      case None => Entity(Some(if name.Some? && name.value != "" then name.value else IntToStr(entityId)), Some(newLevel), None)
      case Some(s) => s.(level := Some(newLevel));
    if entityId < 0 then base.(special := Some(true)) else base
  }

  /** `identify_entity`: the same first-match rule as `get_identity`, written
      out again as the older module does. */
  function IdentifyEntity(u: Update): Option<int> {
    var message := OrMessage(OrMessage(u.message, u.editedMessage), u.channelPost);
    if message.None? || !message.value.Truthy() then None
    else
      var m := message.value;
      if m.senderChat.Some? && m.senderChat.value.Truthy() then m.senderChat.value.id
      else if m.from.Some? && m.from.value.Truthy() then m.from.value.id
      else None
  }

  /** The two identity rules agree on every update. */
  lemma IdentifyEntityIsGetIdentity(u: Update)
    ensures IdentifyEntity(u) == GetIdentity(u)
  {
  }

  /** `ChitraguptIAM`: the rules table (action to required level) and the
      entity registry, persisted after every update. */
  class ChitraguptIam {
    const rules: map<string, int>
    var entities: Entities
    /** Every registry value written to `users.json`, oldest first. */
    ghost var persisted: seq<Entities>

    /** Construction from the already-parsed `rules.json` and the `entities` of `users.json`. */
    constructor(rules: map<string, int>, entities: Entities)
      ensures this.rules == rules && this.entities == entities && persisted == []
    {
      this.rules := rules;
      this.entities := entities;
      persisted := [];
    }

    function CanPerform(entityId: int, action: string): bool
      reads this
    {
      CanPerformIn(rules, entities, entityId, action)
    }

    function GetEntityLevel(entityId: int): int
      reads this
    {
      EntityLevelIn(entities, entityId)
    }

    /** `update_entity_level`: create or update one record, then persist. */
    method UpdateEntityLevel(entityId: int, newLevel: int, name: Option<string> := None)
      modifies this
      ensures entities == old(entities)[IntToStr(entityId) :=
        UpdatedEntity(if IntToStr(entityId) in old(entities) then Some(old(entities)[IntToStr(entityId)]) else None, entityId, newLevel, name)]
      ensures persisted == old(persisted) + [entities]
      ensures GetEntityLevel(entityId) == newLevel
    {
      var key := IntToStr(entityId);
      var stored := if key in entities then Some(entities[key]) else None;
      var e: Entity;
      if stored.None? {
        e := Entity(Some(if name.Some? && name.value != "" then name.value else IntToStr(entityId)), Some(newLevel), None);
      } else {
        e := stored.value.(level := Some(newLevel));
      }
      if entityId < 0 {
        e := e.(special := Some(true));
      }
      entities := entities[key := e];
      persisted := persisted + [entities];
    }
  }

  /** After an update, the entity may perform exactly the known actions whose
      required level its new level reaches. */
  lemma CanPerformAfterUpdate(rules: map<string, int>, entities: Entities, entityId: int, newLevel: int, name: Option<string>, action: string)
    ensures var key := IntToStr(entityId);
      var updated := entities[key := UpdatedEntity(if key in entities then Some(entities[key]) else None, entityId, newLevel, name)];
      CanPerformIn(rules, updated, entityId, action) <==> action in rules && newLevel >= rules[action]
  {
  }

  /** An update leaves every other entity's level and permissions alone. */
  lemma UpdateLeavesOthers(rules: map<string, int>, entities: Entities, entityId: int, newLevel: int, name: Option<string>, other: int, action: string)
    requires other != entityId
    ensures var key := IntToStr(entityId);
      var updated := entities[key := UpdatedEntity(if key in entities then Some(entities[key]) else None, entityId, newLevel, name)];
      && EntityLevelIn(updated, other) == EntityLevelIn(entities, other)
      && CanPerformIn(rules, updated, other, action) == CanPerformIn(rules, entities, other, action)
  {
    IntToStrInjective(entityId, other);
  }

  /** Raising an entity's level never takes a permission away. */
  lemma CanPerformMonotone(rules: map<string, int>, entities: Entities, entityId: int, action: string, higher: int)
    requires IntToStr(entityId) in entities && higher >= LevelOf(entities[IntToStr(entityId)])
    requires CanPerformIn(rules, entities, entityId, action)
    ensures var key := IntToStr(entityId);
      CanPerformIn(rules, entities[key := entities[key].(level := Some(higher))], entityId, action)
  {
  }
}
