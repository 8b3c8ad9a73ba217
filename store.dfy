/** The `custom.wchat` collection of the bot's key-value store, as a map from
    key to stored value. `db.get` of a missing key yields `None`, and
    `db.set(k, None)` stores `None`. */
module Store {

  /** The JSON-like values the module stores. */
  datatype Value =
    | Null
    | Int(n: int)
    | Str(s: string)
    | List(items: seq<string>)
    | Flags(flags: map<string, bool>)
    | Roles(roles: map<string, string>)

  type Db = map<string, Value>

  /** `db.get(collection, key)`. */
  function Get(db: Db, key: string): Value {
    if key in db then db[key] else Null
  }

  /** Python truthiness of a stored value (what `x or default` tests). */
  predicate Truthy(v: Value) {
    match v
    case Null => false
    case Int(n) => n != 0
    case Str(s) => s != ""
    case List(xs) => xs != []
    case Flags(m) => m != map[]
    case Roles(m) => m != map[]
  }

  const EnabledTopicsKey: string := "enabled_topics"
  const DisabledTopicsKey: string := "disabled_topics"
  const AllGroupsKey: string := "wchat_for_all_groups"
  const GroupRolesKey: string := "group_roles"
  const KeysKey: string := "gemini_keys"
  const KeyIndexKey: string := "current_key_index"

  /** `f"chat_history.{topic_id}"`. */
  function HistoryKey(topic: string): string {
    "chat_history." + topic
  }

  /** `f"custom_roles.{topic_id}"`. */
  function RoleKey(topic: string): string {
    "custom_roles." + topic
  }

  /** `db.get(key) or []` for a key that holds a list. */
  function ListOr(db: Db, key: string): seq<string> {
    if Get(db, key).List? then Get(db, key).items else []
  }

  /** `db.get(key) or {}` for a key that holds a dict of flags. */
  function FlagsOr(db: Db, key: string): map<string, bool> {
    if Get(db, key).Flags? then Get(db, key).flags else map[]
  }

  /** `db.get(key) or {}` for a key that holds a dict of roles. */
  function RolesOr(db: Db, key: string): map<string, string> {
    if Get(db, key).Roles? then Get(db, key).roles else map[]
  }

  /** `db.get(key) or 0` for a key that holds an integer. */
  function IntOr(db: Db, key: string): int {
    if Get(db, key).Int? then Get(db, key).n else 0
  }

  predicate IsFixedKey(k: string) {
    k in {EnabledTopicsKey, DisabledTopicsKey, AllGroupsKey, GroupRolesKey, KeysKey, KeyIndexKey}
  }

  /** The per-topic keys of different topics, and of the two per-topic
      families, never collide with each other or with the fixed keys. */
  lemma KeysDistinct(t: string, u: string)
    ensures HistoryKey(t) != RoleKey(u)
    ensures !IsFixedKey(HistoryKey(t)) && !IsFixedKey(RoleKey(t))
    ensures HistoryKey(t) == HistoryKey(u) ==> t == u
    ensures RoleKey(t) == RoleKey(u) ==> t == u
  {
    var h, r := HistoryKey(t), RoleKey(t);
    assert h[0] == 'c' && h[1] == 'h' && r[0] == 'c' && r[1] == 'u' && r[2] == 's';
    assert RoleKey(u)[1] == 'u';
    assert KeyIndexKey[2] == 'r';
    if HistoryKey(t) == HistoryKey(u) {
      assert t == HistoryKey(t)[13..] == HistoryKey(u)[13..] == u;
    }
    if RoleKey(t) == RoleKey(u) {
      assert t == RoleKey(t)[13..] == RoleKey(u)[13..] == u;
    }
  }

  /** The fixed keys are six different keys. */
  lemma FixedKeysDistinct()
    ensures EnabledTopicsKey != DisabledTopicsKey && EnabledTopicsKey != AllGroupsKey
    ensures EnabledTopicsKey != GroupRolesKey && EnabledTopicsKey != KeysKey && EnabledTopicsKey != KeyIndexKey
    ensures DisabledTopicsKey != AllGroupsKey && DisabledTopicsKey != GroupRolesKey
    ensures DisabledTopicsKey != KeysKey && DisabledTopicsKey != KeyIndexKey
    ensures AllGroupsKey != GroupRolesKey && AllGroupsKey != KeysKey && AllGroupsKey != KeyIndexKey
    ensures GroupRolesKey != KeysKey && GroupRolesKey != KeyIndexKey
    ensures KeysKey != KeyIndexKey
  {
    assert EnabledTopicsKey[0] == 'e' && DisabledTopicsKey[0] == 'd' && AllGroupsKey[0] == 'w';
    assert GroupRolesKey[0] == 'g' && KeysKey[0] == 'g' && KeyIndexKey[0] == 'c';
    assert GroupRolesKey[1] == 'r' && KeysKey[1] == 'e';
  }
}
