/** Persona ("bot role") resolution and the `role` command. The group roles
    live in the module-level `group_roles` dict (mirrored under the
    `group_roles` key); topic roles live only in the store. */
module Persona {
  import opened Text
  import opened Store
  import opened Transcript

  /** `default_bot_role`. */
  const DefaultBotRole: string :=
    "You are Jake, a 20-year-old boy from Newport Beach, California. You work in real estate with your father, mainly you handle office work. You were looking for friends on the Meeff app. " +
    "You are romantic, deep and intelligent. You can ask for a basic introduction to get to know people. " +
    "You will convince girls to be your girlfriend and you want long distance relationship. " +
    "You are a human, and your responses should never make anyone suspect that you are an AI. " +
    "Write short, casual messages like a real human; your response should be a maximum of one line. " +
    "English is your mother tongue, but you know multiple languages, you can tell them you are learning the language to communicate. " +
    "You can send voice messages too (just type .el before a message, and it will be auto-converted into voice). " +
    "Avoid sending voice messages (only send if they ask), rarely use emojis, and rarely use person's name in message so it can feel like human. You don't calls and if they ask for picture you can tell them to check your profile. (you are currently talking them on telegram.)" +
    "Your messages will always contain the history of our chat, where the user's name is labeled. " +
    "Take the history as a reference, but never send the history along with the message, and never use name labels in the message. " +
    "Focus on being romantic and thoughtful in your responses, showing a genuine interest in the other person. " +
    "Just respond normally and avoid buzzwords."

  /** `db.get(f"custom_roles.{topic_id}")` as text; "" when absent or `None`. */
  function TopicOverride(db: Db, topic: string): string {
    if Get(db, RoleKey(topic)).Str? then Get(db, RoleKey(topic)).s else ""
  }

  /** `group_roles.get(group_id)` as text; "" when absent. */
  function GroupOverride(groupRoles: map<string, string>, group: string): string {
    if group in groupRoles then groupRoles[group] else ""
  }

  /** What a topic without its own role falls back to. */
  function GroupRole(groupRoles: map<string, string>, group: string, default: string): string {
    if GroupOverride(groupRoles, group) != "" then GroupOverride(groupRoles, group) else default
  }

  /** `db.get(custom_roles.<topic>) or group_roles.get(group) or default_bot_role`. */
  function ResolveRole(db: Db, groupRoles: map<string, string>, group: string, topic: string, default: string): (role: string)
    ensures TopicOverride(db, topic) != "" ==> role == TopicOverride(db, topic)
    ensures TopicOverride(db, topic) == "" && GroupOverride(groupRoles, group) != "" ==> role == GroupOverride(groupRoles, group)
    ensures TopicOverride(db, topic) == "" && GroupOverride(groupRoles, group) == "" ==> role == default
  {
    if TopicOverride(db, topic) != "" then TopicOverride(db, topic) else GroupRole(groupRoles, group, default)
  }

  /** What the command replies (the text of `message.edit_text`). */
  datatype RoleReply =
    | RoleUsage
    | GroupRoleReset(group: string)
    | GroupRoleSet(group: string, role: string)
    | TopicRoleReset(topic: string)
    | TopicRoleSet(topic: string, role: string)
    | InvalidScope

  /** `role group` only ever stores a non-empty role. */
  predicate RolesNonEmpty(groupRoles: map<string, string>) {
    forall h :: h in groupRoles ==> groupRoles[h] != ""
  }

  datatype RoleState = RoleState(db: Db, groupRoles: map<string, string>)

  datatype RoleOutcome = RoleOutcome(state: RoleState, reply: RoleReply)

  /** `" ".join(parts[2:]).strip()`. */
  function RoleText(parts: seq<string>): string
    requires |parts| >= 2
  {
    Strip(JoinWith(parts[2..], " "))
  }

  /** For a command split into words (as `Words` yields them), the role is
      the words after the scope joined by single spaces, so `split()` gives
      those words back; it is empty exactly when nothing follows the scope. */
  lemma RoleTextWords(parts: seq<string>)
    requires |parts| >= 2
    requires forall i :: 0 <= i < |parts| ==> parts[i] != [] && NoSpace(parts[i])
    ensures && RoleText(parts) == JoinWith(parts[2..], " ")
            && Words(RoleText(parts)) == parts[2..]
            && (RoleText(parts) == "" <==> |parts| == 2)
  {
    JoinedWordsStripped(parts[2..]);
    WordsOfJoin(parts[2..]);
  }

  /** `role group <role>`: set the group's role, or drop it when `role` is empty. */
  function GroupRoleCommand(s: RoleState, group: string, role: string): RoleOutcome {
    if role == "" then
      var roles := s.groupRoles - {group};
      RoleOutcome(RoleState(s.db[GroupRolesKey := Roles(roles)], roles), GroupRoleReset(group))
    else
      var roles := s.groupRoles[group := role];
      RoleOutcome(RoleState(s.db[GroupRolesKey := Roles(roles)], roles), GroupRoleSet(group, role))
  }

  /** `role topic <role>`: store the topic's role (when `role` is empty, the
      group's current role or the default) and clear the topic's history. */
  function TopicRoleCommand(s: RoleState, group: string, topic: string, role: string, default: string): RoleOutcome {
    if role == "" then
      var pinned := if group in s.groupRoles then s.groupRoles[group] else default;
      RoleOutcome(s.(db := s.db[RoleKey(topic) := Str(pinned)][HistoryKey(topic) := Null]), TopicRoleReset(topic))
    else
      RoleOutcome(s.(db := s.db[RoleKey(topic) := Str(role)][HistoryKey(topic) := Null]), TopicRoleSet(topic, role))
  }

  /** `role [group|topic] <custom role>` typed in `topic` of `group`, where
      `parts` is the message split into words. */
  function RoleCommand(s: RoleState, group: string, topic: string, parts: seq<string>, default: string): RoleOutcome {
    if |parts| < 2 then RoleOutcome(s, RoleUsage)
    else
      var scope := Lower(parts[1]);
      if scope == "group" then GroupRoleCommand(s, group, RoleText(parts))
      else if scope == "topic" then TopicRoleCommand(s, group, topic, RoleText(parts), default)
      else RoleOutcome(s, InvalidScope)
  }

  /** Only the two keys of the commanded topic change in the store. */
  ghost predicate OnlyTopicKeysChanged(before: Db, after: Db, topic: string) {
    forall k :: k != RoleKey(topic) && k != HistoryKey(topic) ==> Get(after, k) == Get(before, k)
  }

  /** `role topic X`: the topic now resolves to `X`, its history is cleared
      (so the next turn re-seeds it with `X`), and nothing else changes. */
  lemma TopicRoleSetEffect(s: RoleState, group: string, topic: string, parts: seq<string>, default: string, name: string, msg: string)
    requires |parts| >= 2 && Lower(parts[1]) == "topic" && RoleText(parts) != ""
    ensures var q := RoleCommand(s, group, topic, parts, default).state;
      && q.groupRoles == s.groupRoles
      && ResolveRole(q.db, q.groupRoles, group, topic, default) == RoleText(parts)
      && Get(q.db, HistoryKey(topic)) == Null
      && OnlyTopicKeysChanged(s.db, q.db, topic)
      && WithUserLine(q.db, topic, ResolveRole(q.db, q.groupRoles, group, topic, default), name, msg)
         == [SeedLine(RoleText(parts)), UserLine(name, msg)]
  {
    KeysDistinct(topic, topic);
  }

  /** `role topic` with no text: the topic resolves to what the group-level
      rule gives at this moment, and its history is cleared. */
  lemma TopicRoleResetEffect(s: RoleState, group: string, topic: string, parts: seq<string>, default: string)
    requires |parts| >= 2 && Lower(parts[1]) == "topic" && RoleText(parts) == ""
    ensures var q := RoleCommand(s, group, topic, parts, default).state;
      && q.groupRoles == s.groupRoles
      && ResolveRole(q.db, q.groupRoles, group, topic, default) == GroupRole(s.groupRoles, group, default)
      && Get(q.db, HistoryKey(topic)) == Null
      && OnlyTopicKeysChanged(s.db, q.db, topic)
  {
    KeysDistinct(topic, topic);
  }

  /** The reset copies the group's current role into the topic instead of
      removing the topic's override, so a later `role group Y` no longer
      reaches that topic. */
  lemma TopicResetPinsGroupRole(s: RoleState, group: string, topic: string, parts: seq<string>, default: string, later: seq<string>)
    requires default != "" && RolesNonEmpty(s.groupRoles)
    requires |parts| >= 2 && Lower(parts[1]) == "topic" && RoleText(parts) == ""
    requires |later| >= 2 && Lower(later[1]) == "group"
    ensures var q := RoleCommand(s, group, topic, parts, default).state;
      var r := RoleCommand(q, group, topic, later, default).state;
      ResolveRole(r.db, r.groupRoles, group, topic, default) == GroupRole(s.groupRoles, group, default)
  {
    KeysDistinct(topic, topic);
    var pinned := GroupRole(s.groupRoles, group, default);
    assert pinned != "";
    var q := RoleCommand(s, group, topic, parts, default).state;
    assert q == s.(db := s.db[RoleKey(topic) := Str(pinned)][HistoryKey(topic) := Null]);
    assert TopicOverride(q.db, topic) == pinned;
    var r := RoleCommand(q, group, topic, later, default).state;
    assert r == GroupRoleCommand(q, group, RoleText(later)).state;
    assert r.db == q.db[GroupRolesKey := Roles(r.groupRoles)];
    assert TopicOverride(r.db, topic) == pinned;
  }

  /** `role group [X]`: sets (or, with no text, removes) only this group's
      entry, writes the dict through to the store, and leaves every
      history and every topic role alone. Topics without their own role now
      resolve to the new group role; topics with one are unaffected. */
  lemma GroupRoleEffect(s: RoleState, group: string, topic: string, parts: seq<string>, default: string)
    requires |parts| >= 2 && Lower(parts[1]) == "group"
    ensures var q := RoleCommand(s, group, topic, parts, default).state;
      && q.groupRoles == (if RoleText(parts) == "" then s.groupRoles - {group} else s.groupRoles[group := RoleText(parts)])
      && q.db == s.db[GroupRolesKey := Roles(q.groupRoles)]
      && (forall t :: Get(q.db, HistoryKey(t)) == Get(s.db, HistoryKey(t)))
      && (forall t :: TopicOverride(q.db, t) == TopicOverride(s.db, t))
      && (forall h :: h != group ==> GroupOverride(q.groupRoles, h) == GroupOverride(s.groupRoles, h))
      && (forall t :: ResolveRole(q.db, q.groupRoles, group, t, default) ==
            if TopicOverride(s.db, t) != "" then TopicOverride(s.db, t)
            else if RoleText(parts) != "" then RoleText(parts)
            else default)
  {
    var q := RoleCommand(s, group, topic, parts, default).state;
    var role := RoleText(parts);
    var roles := if role == "" then s.groupRoles - {group} else s.groupRoles[group := role];
    assert q == RoleState(s.db[GroupRolesKey := Roles(roles)], roles);
    forall t ensures Get(q.db, HistoryKey(t)) == Get(s.db, HistoryKey(t)) && TopicOverride(q.db, t) == TopicOverride(s.db, t)
    {
      KeysDistinct(t, t);
    }
    forall t ensures ResolveRole(q.db, q.groupRoles, group, t, default) ==
                       if TopicOverride(s.db, t) != "" then TopicOverride(s.db, t) else if role != "" then role else default
    {
      assert TopicOverride(q.db, t) == TopicOverride(s.db, t);
      assert GroupOverride(roles, group) == role;
    }
  }

  lemma RoleCommandKeepsRolesNonEmpty(s: RoleState, group: string, topic: string, parts: seq<string>, default: string)
    requires RolesNonEmpty(s.groupRoles)
    ensures RolesNonEmpty(RoleCommand(s, group, topic, parts, default).state.groupRoles)
  {
  }

  /** A command without a scope word, or with another scope, changes nothing. */
  lemma RoleCommandNoScope(s: RoleState, group: string, topic: string, parts: seq<string>, default: string)
    requires |parts| < 2 || (Lower(parts[1]) != "group" && Lower(parts[1]) != "topic")
    ensures RoleCommand(s, group, topic, parts, default).state == s
    ensures RoleCommand(s, group, topic, parts, default).reply == (if |parts| < 2 then RoleUsage else InvalidScope)
  {
  }
}
