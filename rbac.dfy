/** The role-based access-control engine (core/rbac.py, class `RBAC`): a role
    table keyed by numeric level, and a mutable user registry keyed by the
    decimal string of each principal id. */
module Rbac {
  import opened Wrappers
  import opened PyText

  /** A profile value stored beside `name` and `level`. */
  datatype MetaValue = Text(s: string) | Flag(b: bool)

  /** `USER_META_KEYS`: the only keyword arguments copied into an entry. */
  const UserMetaKeys: seq<string> :=
    ["username", "first_name", "last_name", "language_code", "is_premium", "is_special"]

  /** The level whose holders receive registration alerts. */
  const SuperAdminLevel := 100

  /** One registry entry. `name` or `level` may be missing from a loaded file;
      `meta` holds every other key of the entry. */
  datatype UserEntry = UserEntry(name: Option<string>, level: Option<int>, meta: map<string, MetaValue>)

  /** The registry, keyed by `str(user_id)`. */
  type Registry = map<string, UserEntry>

  /** One role definition of the rules file; `name` and `actions` may be missing. */
  datatype RoleDef = RoleDef(level: int, name: Option<string>, actions: Option<seq<string>>)

  /** `_rules_by_level`. */
  type RoleTable = map<int, RoleDef>

  /** Keyword metadata as passed: a key may be present with the value `None`. */
  type Metadata = map<string, Option<MetaValue>>

  function Key(userId: int): string {
    IntToStr(userId)
  }

  function Lookup(users: Registry, key: string): Option<UserEntry> {
    if key in users then Some(users[key]) else None
  }

  /** Python's truthiness of an optional string: present and non-empty. */
  predicate Truthy(s: Option<string>) {
    s.Some? && s.value != ""
  }

  // ---------------------------------------------------------------------
  // Role table construction
  // ---------------------------------------------------------------------

  /** `{role["level"]: role for role in roles}`: a later role replaces an earlier
      one of the same level. */
  function BuildRoleTable(roles: seq<RoleDef>): RoleTable {
    if roles == [] then map[]
    else
      var last := roles[|roles| - 1];
      BuildRoleTable(roles[..|roles| - 1])[last.level := last]
  }

  /** The table holds exactly the levels that some role declares, and each
      level maps to the last role declaring it. */
  lemma {:induction false} BuildRoleTableLastWins(roles: seq<RoleDef>, level: int)
    ensures level in BuildRoleTable(roles) <==> exists j :: 0 <= j < |roles| && roles[j].level == level
    ensures forall j :: 0 <= j < |roles| && roles[j].level == level
                     && (forall j' :: j < j' < |roles| ==> roles[j'].level != level)
                     ==> level in BuildRoleTable(roles) && BuildRoleTable(roles)[level] == roles[j]
  {
    if roles != [] {
      var init := roles[..|roles| - 1];
      BuildRoleTableLastWins(init, level);
      forall j | 0 <= j < |init| && init[j].level == level
        ensures roles[j].level == level
      {
      }
      if roles[|roles| - 1].level != level {
        forall j | 0 <= j < |roles| && roles[j].level == level
          ensures j < |init| && init[j].level == level
        {
        }
      }
    }
  }

  // ---------------------------------------------------------------------
  // Metadata merging
  // ---------------------------------------------------------------------

  /** The non-`None` value supplied for `k`, if any. */
  function Supplied(md: Metadata, k: string): Option<MetaValue> {
    if k in md then md[k] else None
  }

  /** `for mk in keys: if mk in metadata and metadata[mk] is not None: entry[mk] = metadata[mk]`. */
  function MergeKeys(base: map<string, MetaValue>, md: Metadata, keys: seq<string>): map<string, MetaValue> {
    if keys == [] then base
    else
      var m := MergeKeys(base, md, keys[..|keys| - 1]);
      var k := keys[|keys| - 1];
      if Supplied(md, k).Some? then m[k := Supplied(md, k).value] else m
  }

  /** The merge that `set_user_level` and `sync_super_admin` apply. */
  function MergeMeta(base: map<string, MetaValue>, md: Metadata): map<string, MetaValue> {
    MergeKeys(base, md, UserMetaKeys)
  }

  /** A key is overwritten exactly when it is one of `keys` and a non-`None`
      value was supplied for it; every other key keeps its old value. */
  lemma {:induction false} MergeKeysAt(base: map<string, MetaValue>, md: Metadata, keys: seq<string>, k: string)
    ensures var m := MergeKeys(base, md, keys);
      && (k in m <==> (k in keys && Supplied(md, k).Some?) || k in base)
      && (k in keys && Supplied(md, k).Some? ==> m[k] == Supplied(md, k).value)
      && (!(k in keys && Supplied(md, k).Some?) && k in base ==> m[k] == base[k])
  {
    if keys != [] {
      var init := keys[..|keys| - 1];
      MergeKeysAt(base, md, init, k);
      assert keys == init + [keys[|keys| - 1]];
    }
  }

  /** `MergeMeta` as a whole: only supplied, non-`None` values of `USER_META_KEYS`
      are written, and nothing is removed. */
  lemma MergeMetaAt(base: map<string, MetaValue>, md: Metadata, k: string)
    ensures var m := MergeMeta(base, md);
      && (k in m <==> (k in UserMetaKeys && Supplied(md, k).Some?) || k in base)
      && (k in UserMetaKeys && Supplied(md, k).Some? ==> m[k] == Supplied(md, k).value)
      && (!(k in UserMetaKeys && Supplied(md, k).Some?) && k in base ==> m[k] == base[k])
  {
    MergeKeysAt(base, md, UserMetaKeys, k);
  }

  /** Merging the same metadata twice is the same as merging it once. */
  lemma MergeMetaIdempotent(base: map<string, MetaValue>, md: Metadata)
    ensures MergeMeta(MergeMeta(base, md), md) == MergeMeta(base, md)
  {
    var once := MergeMeta(base, md);
    forall k
      ensures (k in MergeMeta(once, md) <==> k in once)
      ensures k in once ==> MergeMeta(once, md)[k] == once[k]
    {
      MergeMetaAt(base, md, k);
      MergeMetaAt(once, md, k);
    }
  }

  /** Some supplied non-`None` value of `USER_META_KEYS` differs from (or is
      missing in) `meta`: the metadata part of `sync_super_admin`'s change test. */
  predicate MetaDiffers(meta: map<string, MetaValue>, md: Metadata) {
    exists i :: 0 <= i < |UserMetaKeys| && DiffersAt(meta, md, UserMetaKeys[i])
  }

  /** A non-`None` value is supplied for `k` and `meta` does not already hold it. */
  predicate DiffersAt(meta: map<string, MetaValue>, md: Metadata, k: string) {
    Supplied(md, k).Some? && (k !in meta || meta[k] != Supplied(md, k).value)
  }

  /** Merging changes the metadata exactly when `MetaDiffers` says so. */
  lemma MergeChangesIffDiffers(meta: map<string, MetaValue>, md: Metadata)
    ensures MergeMeta(meta, md) != meta <==> MetaDiffers(meta, md)
  {
    var m := MergeMeta(meta, md);
    if MetaDiffers(meta, md) {
      var i :| 0 <= i < |UserMetaKeys| && DiffersAt(meta, md, UserMetaKeys[i]);
      MergeMetaAt(meta, md, UserMetaKeys[i]);
    } else {
      forall k
        ensures (k in m <==> k in meta)
        ensures k in meta ==> m[k] == meta[k]
      {
        MergeMetaAt(meta, md, k);
        if k in UserMetaKeys && Supplied(md, k).Some? {
          var i :| 0 <= i < |UserMetaKeys| && UserMetaKeys[i] == k;
        }
      }
    }
  }

  // ---------------------------------------------------------------------
  // Entry updates
  // ---------------------------------------------------------------------

  /** The entry `set_user_level(user_id, level, name, **metadata)` leaves behind,
      given the entry (if any) that was stored under `str(user_id)`. */
  function SetLevelEntry(stored: Option<UserEntry>, userId: int, level: int, name: Option<string>, md: Metadata): UserEntry {
    match stored
    case None =>
      UserEntry(Some(if Truthy(name) then name.value else Key(userId)), Some(level), MergeMeta(map[], md))
    case Some(e) =>
      UserEntry(if Truthy(name) then name else e.name, Some(level), MergeMeta(e.meta, md))
  }

  /** A new entry holds the given level, the given name or else `str(user_id)`,
      and exactly the supplied non-`None` values of `USER_META_KEYS`. */
  lemma SetLevelCreates(userId: int, level: int, name: Option<string>, md: Metadata)
    ensures var e := SetLevelEntry(None, userId, level, name, md);
      && e.level == Some(level)
      && e.name == Some(if Truthy(name) then name.value else IntToStr(userId))
      && (forall k :: k in e.meta <==> k in UserMetaKeys && Supplied(md, k).Some?)
      && (forall k :: k in e.meta ==> e.meta[k] == Supplied(md, k).value)
  {
    forall k ensures var m := MergeMeta(map[], md); (k in m <==> k in UserMetaKeys && Supplied(md, k).Some?) && (k in m ==> m[k] == Supplied(md, k).value) {
      MergeMetaAt(map[], md, k);
    }
  }

  /** An existing entry gets the new level, keeps its name unless a non-empty
      name is given, takes the supplied non-`None` metadata and keeps every other key. */
  lemma SetLevelUpdates(e: UserEntry, userId: int, level: int, name: Option<string>, md: Metadata)
    ensures var e' := SetLevelEntry(Some(e), userId, level, name, md);
      && e'.level == Some(level)
      && e'.name == (if Truthy(name) then name else e.name)
      && (forall k :: k in UserMetaKeys && Supplied(md, k).Some? ==> k in e'.meta && e'.meta[k] == Supplied(md, k).value)
      && (forall k :: !(k in UserMetaKeys && Supplied(md, k).Some?) ==> (k in e'.meta <==> k in e.meta))
      && (forall k :: !(k in UserMetaKeys && Supplied(md, k).Some?) && k in e.meta ==> e'.meta[k] == e.meta[k])
  {
    forall k {
      MergeMetaAt(e.meta, md, k);
    }
  }

  /** Calling `set_user_level` twice with the same arguments leaves the same entry
      as calling it once. */
  lemma SetLevelIdempotent(stored: Option<UserEntry>, userId: int, level: int, name: Option<string>, md: Metadata)
    ensures var once := SetLevelEntry(stored, userId, level, name, md);
      SetLevelEntry(Some(once), userId, level, name, md) == once
  {
    match stored
    case None => MergeMetaIdempotent(map[], md);
    case Some(e) => MergeMetaIdempotent(e.meta, md);
  }

  /** The entry `sync_super_admin(user_id, name, **metadata)` leaves behind. */
  function SyncedEntry(stored: Option<UserEntry>, name: string, md: Metadata): UserEntry {
    match stored
    case None => UserEntry(Some(name), Some(SuperAdminLevel), MergeMeta(map[], md))
    case Some(e) => UserEntry(Some(name), Some(SuperAdminLevel), MergeMeta(e.meta, md))
  }

  /** The `needs_update` flag of `sync_super_admin`: a new entry, or a level,
      name or supplied non-`None` metadata value that differs from what is stored. */
  predicate SyncNeedsUpdate(stored: Option<UserEntry>, name: string, md: Metadata) {
    match stored
    case None => true
    case Some(e) => e.level != Some(SuperAdminLevel) || e.name != Some(name) || MetaDiffers(e.meta, md)
  }

  /** `sync_super_admin` persists exactly when it creates an entry or changes the
      stored one: its check-before-write skips no real change and writes no
      unchanged entry. */
  lemma SyncPersistsIffChanged(stored: Option<UserEntry>, name: string, md: Metadata)
    ensures SyncNeedsUpdate(stored, name, md) <==> stored.None? || SyncedEntry(stored, name, md) != stored.value
  {
    if stored.Some? {
      MergeChangesIffDiffers(stored.value.meta, md);
    }
  }

  /** An immediate second `sync_super_admin` with the same arguments changes
      nothing and does not persist. */
  lemma SyncTwiceDoesNotPersist(stored: Option<UserEntry>, name: string, md: Metadata)
    ensures var once := SyncedEntry(stored, name, md);
      SyncedEntry(Some(once), name, md) == once && !SyncNeedsUpdate(Some(once), name, md)
  {
    var once := SyncedEntry(stored, name, md);
    match stored {
      case None => MergeMetaIdempotent(map[], md);
      case Some(e) => MergeMetaIdempotent(e.meta, md);
    }
    SyncPersistsIffChanged(Some(once), name, md);
  }

  // ---------------------------------------------------------------------
  // Superadmin listing
  // ---------------------------------------------------------------------

  /** A registry key that `get_superadmins` reports: level exactly 100 and a key
      that `int()` accepts. */
  predicate IsSuperAdminKey(users: Registry, k: string) {
    k in users && users[k].level == Some(SuperAdminLevel) && ParseInt(k).Some?
  }

  function SuperAdminKeys(users: Registry): set<string> {
    set k | k in users && IsSuperAdminKey(users, k)
  }

  /** The keys of `s` that `get_superadmins` reports. */
  ghost function AdminKeysIn(users: Registry, s: set<string>): set<string> {
    set k | k in s && IsSuperAdminKey(users, k)
  }

  lemma AdminKeysInAdd(users: Registry, s: set<string>, k: string)
    requires k !in s
    ensures AdminKeysIn(users, s + {k}) == if IsSuperAdminKey(users, k) then AdminKeysIn(users, s) + {k} else AdminKeysIn(users, s)
  {
  }

  /** `admins` holds one id per superadmin key among `s`, read from the matching
      entry of `keys`. */
  ghost predicate ListsAdminsOf(users: Registry, s: set<string>, admins: seq<int>, keys: seq<string>) {
    && (forall x :: x in admins <==> exists k :: k in AdminKeysIn(users, s) && ParseInt(k) == Some(x))
    && |admins| == |AdminKeysIn(users, s)|
    && |keys| == |admins|
    && (forall i, j :: 0 <= i < j < |keys| ==> keys[i] != keys[j])
    && (forall k :: k in keys <==> k in AdminKeysIn(users, s))
    && (forall i :: 0 <= i < |keys| ==> ParseInt(keys[i]) == Some(admins[i]))
  }

  /** Looking at one more key keeps the listing exact. */
  lemma ListsAdminsStep(users: Registry, s: set<string>, k: string, admins: seq<int>, keys: seq<string>)
    requires k !in s && ListsAdminsOf(users, s, admins, keys)
    ensures IsSuperAdminKey(users, k) ==> ListsAdminsOf(users, s + {k}, admins + [ParseInt(k).value], keys + [k])
    ensures !IsSuperAdminKey(users, k) ==> ListsAdminsOf(users, s + {k}, admins, keys)
  {
    AdminKeysInAdd(users, s, k);
    if IsSuperAdminKey(users, k) {
      ListsAdminsAdd(users, s, k, admins, keys);
    }
  }

  /** The superadmin case of `ListsAdminsStep`: the new key and its id are appended. */
  lemma ListsAdminsAdd(users: Registry, s: set<string>, k: string, admins: seq<int>, keys: seq<string>)
    requires k !in s && IsSuperAdminKey(users, k) && ListsAdminsOf(users, s, admins, keys)
    requires AdminKeysIn(users, s + {k}) == AdminKeysIn(users, s) + {k}
    ensures ListsAdminsOf(users, s + {k}, admins + [ParseInt(k).value], keys + [k])
  {
    var a, a' := AdminKeysIn(users, s), AdminKeysIn(users, s + {k});
    var admins', keys' := admins + [ParseInt(k).value], keys + [k];
    assert k !in a && k !in keys;
    assert |a'| == |a| + 1;
    forall i | 0 <= i < |keys'|
      ensures ParseInt(keys'[i]) == Some(admins'[i])
    {
      if i < |keys| {
        assert keys'[i] == keys[i] && admins'[i] == admins[i];
      }
    }
    forall x | x in admins'
      ensures exists j :: j in a' && ParseInt(j) == Some(x)
    {
      if x !in admins {
        assert k in a';
      }
    }
  }

  // ---------------------------------------------------------------------
  // Start-up loading
  // ---------------------------------------------------------------------

  /** What reading one JSON file gives: no file, text that is not JSON, or the parsed value. */
  datatype Source<T> = Missing | Malformed | Parsed(value: T)

  /** The exception construction raises: `FileNotFoundError` or `ValueError`, per file. */
  datatype LoadError = RulesNotFound | RulesInvalid | UsersNotFound | UsersInvalid

  /** The loading half of `RBAC.__init__`: the rules file is read first, its
      `"roles"` list defaulting to empty, then the users file; the first failure
      aborts construction. */
  function LoadTables(rulesSrc: Source<Option<seq<RoleDef>>>, usersSrc: Source<Registry>): (r: Result<(seq<RoleDef>, Registry), LoadError>)
    ensures r.Success? <==> rulesSrc.Parsed? && usersSrc.Parsed?
    ensures r.Success? ==> r.value == (rulesSrc.value.GetOr([]), usersSrc.value)
    ensures rulesSrc.Missing? ==> r == Failure(RulesNotFound)
    ensures rulesSrc.Malformed? ==> r == Failure(RulesInvalid)
    ensures rulesSrc.Parsed? && usersSrc.Missing? ==> r == Failure(UsersNotFound)
    ensures rulesSrc.Parsed? && usersSrc.Malformed? ==> r == Failure(UsersInvalid)
  {
    match rulesSrc
    case Missing => Failure(RulesNotFound)
    case Malformed => Failure(RulesInvalid)
    case Parsed(roles) =>
      match usersSrc
      case Missing => Failure(UsersNotFound)
      case Malformed => Failure(UsersInvalid)
      case Parsed(users) => Success((roles.GetOr([]), users))
  }

  // ---------------------------------------------------------------------
  // The engine
  // ---------------------------------------------------------------------

  class RbacEngine {
    /** The operator allow-list (`SUPER_ADMINS`), fixed at start-up. */
    const superAdmins: seq<int>
    /** `_rules_by_level`, immutable after construction. */
    const rules: RoleTable
    /** `users`, the in-memory registry. */
    var users: Registry
    /** Every registry snapshot written to the backing file, oldest first. */
    ghost var persisted: seq<Registry>

    /** Construction from an already-parsed role list and user map; loading and
        its failures are `LoadTables`. */
    constructor (roles: seq<RoleDef>, loaded: Registry, superAdmins: seq<int>)
      ensures this.superAdmins == superAdmins && rules == BuildRoleTable(roles)
      ensures users == loaded && persisted == []
    {
      this.superAdmins := superAdmins;
      rules := BuildRoleTable(roles);
      users := loaded;
      persisted := [];
    }

    /** `get_user_level`: the stored level; 0 for an unknown id or an entry without a level. */
    function GetUserLevel(userId: int): (level: int)
      reads this
      ensures Key(userId) !in users ==> level == 0
    {
      match Lookup(users, Key(userId))
      case None => 0
      case Some(e) => e.level.GetOr(0)
    }

    /** The role of the id's level, if the table has one. */
    function RoleOf(userId: int): Option<RoleDef>
      reads this
    {
      var level := GetUserLevel(userId);
      if level in rules then Some(rules[level]) else None
    }

    /** `has_permission`: the allow-list bypass, then an exact-level role lookup
        and the `"*"` wildcard. Side-effect free. */
    function HasPermission(userId: int, action: string): (granted: bool)
      reads this
      ensures userId in superAdmins ==> granted
      ensures userId !in superAdmins && RoleOf(userId).None? ==> !granted
    {
      if userId in superAdmins then true
      else
        match RoleOf(userId)
        case None => false
        case Some(role) =>
          var actions := role.actions.GetOr([]);
          "*" in actions || action in actions
    }

    /** `get_role_name`. */
    function GetRoleName(userId: int): (name: string)
      reads this
      ensures RoleOf(userId).None? ==> name == "Unknown"
    {
      match RoleOf(userId)
      case None => "Unknown"
      case Some(role) => role.name.GetOr("Unknown")
    }

    /** `get_user_actions`. */
    function GetUserActions(userId: int): (actions: seq<string>)
      reads this
      ensures RoleOf(userId).None? ==> actions == []
    {
      match RoleOf(userId)
      case None => []
      case Some(role) => role.actions.GetOr([])
    }

    /** `get_superadmins`: every id whose stored level is exactly 100, once per
        registry key (keys that `int()` rejects are skipped). `keys` lists the
        registry key each returned id was read from. */
    method GetSuperadmins() returns (admins: seq<int>, ghost keys: seq<string>)
      ensures forall x :: x in admins <==> exists k :: k in SuperAdminKeys(users) && ParseInt(k) == Some(x)
      ensures |admins| == |SuperAdminKeys(users)|
      ensures |keys| == |admins|
      ensures forall i, j :: 0 <= i < j < |keys| ==> keys[i] != keys[j]
      ensures forall k :: k in keys <==> k in SuperAdminKeys(users)
      ensures forall i :: 0 <= i < |keys| ==> ParseInt(keys[i]) == Some(admins[i])
    {
      admins := [];
      keys := [];
      var rest := users.Keys;
      ghost var seen: set<string> := {};
      while rest != {}
        invariant rest + seen == users.Keys && rest !! seen
        invariant ListsAdminsOf(users, seen, admins, keys)
        decreases rest
      {
        var uid :| uid in rest;
        ListsAdminsStep(users, seen, uid, admins, keys);
        if users[uid].level == Some(SuperAdminLevel) {
          var id := ParseInt(uid);
          if id.Some? {
            admins := admins + [id.value];
            keys := keys + [uid];
          }
        }
        rest := rest - {uid};
        seen := seen + {uid};
      }
      assert AdminKeysIn(users, seen) == SuperAdminKeys(users);
    }

    /** `_save_users`: the whole registry is written to the backing file. */
    method Persist()
      modifies this`persisted
      ensures persisted == old(persisted) + [users]
    {
      persisted := persisted + [users];
    }

    /** `set_user_level`: create or update the entry of `user_id`, then always persist. */
    method SetUserLevel(userId: int, level: int, name: Option<string> := None, md: Metadata := map[])
      modifies this
      ensures users == old(users)[Key(userId) := SetLevelEntry(Lookup(old(users), Key(userId)), userId, level, name, md)]
      ensures persisted == old(persisted) + [users]
      ensures GetUserLevel(userId) == level
    {
      var key := Key(userId);
      if key !in users {
        var meta := CopyMetadata(map[], md);
        users := users[key := UserEntry(Some(if Truthy(name) then name.value else IntToStr(userId)), Some(level), meta)];
      } else {
        var entry := users[key];
        entry := entry.(level := Some(level));
        if Truthy(name) {
          entry := entry.(name := name);
        }
        var meta := CopyMetadata(entry.meta, md);
        users := users[key := entry.(meta := meta)];
      }
      Persist();
    }

    /** `sync_super_admin`: make the entry of `user_id` a level-100 entry named
        `name` with the supplied metadata, persisting only when something changed. */
    method SyncSuperAdmin(userId: int, name: string, md: Metadata := map[])
      modifies this
      ensures users == old(users)[Key(userId) := SyncedEntry(Lookup(old(users), Key(userId)), name, md)]
      ensures persisted == old(persisted) + (if SyncNeedsUpdate(Lookup(old(users), Key(userId)), name, md) then [users] else [])
      ensures GetUserLevel(userId) == SuperAdminLevel
    {
      var key := Key(userId);
      var needsUpdate := false;
      if key !in users {
        var meta := CopyMetadata(map[], md);
        users := users[key := UserEntry(Some(name), Some(SuperAdminLevel), meta)];
        needsUpdate := true;
      } else {
        var entry := users[key];
        if entry.level != Some(SuperAdminLevel) {
          entry := entry.(level := Some(SuperAdminLevel));
          needsUpdate := true;
        }
        if entry.name != Some(name) {
          entry := entry.(name := Some(name));
          needsUpdate := true;
        }
        var meta, changed := RefreshMetadata(entry.meta, md);
        needsUpdate := needsUpdate || changed;
        users := users[key := entry.(meta := meta)];
      }
      if needsUpdate {
        Persist();
      }
    }
  }

  /** The metadata loop of `set_user_level` (and of a new `sync_super_admin` entry). */
  method CopyMetadata(base: map<string, MetaValue>, md: Metadata) returns (meta: map<string, MetaValue>)
    ensures meta == MergeMeta(base, md)
  {
    meta := base;
    var i := 0;
    while i < |UserMetaKeys|
      invariant 0 <= i <= |UserMetaKeys|
      invariant meta == MergeKeys(base, md, UserMetaKeys[..i])
    {
      var mk := UserMetaKeys[i];
      assert UserMetaKeys[..i + 1][..i] == UserMetaKeys[..i];
      if mk in md && md[mk].Some? {
        meta := meta[mk := md[mk].value];
      }
      i := i + 1;
    }
    assert UserMetaKeys[..i] == UserMetaKeys;
  }

  /** The metadata loop of `sync_super_admin` on an existing entry: it writes the
      same values as `CopyMetadata` and raises the change flag exactly when a
      supplied value differs from the stored one. */
  method RefreshMetadata(base: map<string, MetaValue>, md: Metadata) returns (meta: map<string, MetaValue>, changed: bool)
    ensures meta == MergeMeta(base, md)
    ensures changed <==> MetaDiffers(base, md)
  {
    meta := base;
    changed := false;
    var i := 0;
    while i < |UserMetaKeys|
      invariant 0 <= i <= |UserMetaKeys|
      invariant meta == MergeKeys(base, md, UserMetaKeys[..i])
      invariant changed <==> exists j :: 0 <= j < i && DiffersAt(base, md, UserMetaKeys[j])
    {
      var mk := UserMetaKeys[i];
      assert UserMetaKeys[..i + 1][..i] == UserMetaKeys[..i];
      // The six keys are distinct, so `mk` still holds its original value here.
      MergeKeysAt(base, md, UserMetaKeys[..i], mk);
      if mk in md && md[mk].Some? && (mk !in meta || meta[mk] != md[mk].value) {
        meta := meta[mk := md[mk].value];
        changed := true;
      } else if mk in md && md[mk].Some? {
        meta := meta[mk := md[mk].value];
      }
      i := i + 1;
    }
    assert UserMetaKeys[..i] == UserMetaKeys;
  }

  // ---------------------------------------------------------------------
  // Queries, stated once for all inputs
  // ---------------------------------------------------------------------

  /** An unknown id resolves to level 0 and so gets level 0's role name and
      actions, or "Unknown" and no actions when level 0 has no role. */
  lemma UnknownIdIsLevelZero(r: RbacEngine, userId: int)
    requires Key(userId) !in r.users
    ensures r.GetUserLevel(userId) == 0
    ensures r.GetRoleName(userId) == if 0 in r.rules then r.rules[0].name.GetOr("Unknown") else "Unknown"
    ensures r.GetUserActions(userId) == if 0 in r.rules then r.rules[0].actions.GetOr([]) else []
  {
  }

  /** What `/status` lists is what `has_permission` enforces: outside the
      allow-list, an action is granted exactly when the id's action list holds it
      or the wildcard. */
  lemma PermissionAgreesWithActions(r: RbacEngine, userId: int, action: string)
    requires userId !in r.superAdmins
    ensures r.HasPermission(userId, action) <==> "*" in r.GetUserActions(userId) || action in r.GetUserActions(userId)
  {
  }

  /** A role holding `"*"` grants every action slug, even one no role lists. */
  lemma WildcardGrantsAll(r: RbacEngine, userId: int, action: string)
    requires "*" in r.GetUserActions(userId)
    ensures r.HasPermission(userId, action)
  {
  }
}
