/** The per-topic chat history: a list of lines stored under
    `chat_history.<topic>`, seeded with a `Role:` line on first use, and
    handed to the model joined by newlines. */
module Transcript {
  import opened Text
  import opened Store

  function SeedLine(role: string): string {
    "Role: " + role
  }

  /** The line recorded for a user turn: `f"{user_name}: {user_message}"`. */
  function UserLine(name: string, msg: string): string {
    name + ": " + msg
  }

  /** What is stored for the topic (`None`, a missing key and `[]` all read as empty). */
  function Stored(db: Db, topic: string): seq<string> {
    ListOr(db, HistoryKey(topic))
  }

  /** `db.get(f"chat_history.{topic_id}") or [f"Role: {bot_role}"]`. */
  function Prior(db: Db, topic: string, role: string): seq<string> {
    var h := Stored(db, topic);
    if h != [] then h else [SeedLine(role)]
  }

  /** The history `get_chat_history` returns and stores. */
  function WithUserLine(db: Db, topic: string, role: string, name: string, msg: string): seq<string> {
    Prior(db, topic, role) + [UserLine(name, msg)]
  }

  /** `db.set(collection, f"chat_history.{topic_id}", history)`. */
  function Record(db: Db, topic: string, history: seq<string>): Db {
    db[HistoryKey(topic) := List(history)]
  }

  /** The newline-joined history sent to the model as its context. */
  function Context(history: seq<string>): string {
    JoinWith(history, "\n")
  }

  /** A fresh (or cleared) history starts with the persona line and the
      user's line, nothing else; an existing one keeps every earlier line,
      in order, and gains exactly the user's line at the end. */
  lemma WithUserLineShape(db: Db, topic: string, role: string, name: string, msg: string)
    ensures var h := WithUserLine(db, topic, role, name, msg);
      && (Stored(db, topic) == [] ==> h == [SeedLine(role), UserLine(name, msg)])
      && (Stored(db, topic) != [] ==> h[..|h| - 1] == Stored(db, topic))
      && h[|h| - 1] == UserLine(name, msg)
  {
  }

  /** One user turn in the topic: the persona resolved at that moment, the
      sender's label and the message. */
  datatype Turn = Turn(role: string, name: string, msg: string)

  function UserLines(turns: seq<Turn>): seq<string> {
    seq(|turns|, i requires 0 <= i < |turns| => UserLine(turns[i].name, turns[i].msg))
  }

  /** The store after `get_chat_history` has run for each turn in order. */
  function RecordTurns(db: Db, topic: string, turns: seq<Turn>): Db
    decreases |turns|
  {
    if turns == [] then db
    else
      var t := turns[0];
      RecordTurns(Record(db, topic, WithUserLine(db, topic, t.role, t.name, t.msg)), topic, turns[1..])
  }

  /** Histories only grow: after a run of user turns the stored history is
      the earlier one (seeded with the FIRST turn's persona when there was
      none) followed by one line per turn, in order. Personas resolved for
      later turns never reach the history. */
  lemma {:induction false} RecordTurnsAppends(db: Db, topic: string, turns: seq<Turn>)
    requires turns != []
    ensures Stored(RecordTurns(db, topic, turns), topic) == Prior(db, topic, turns[0].role) + UserLines(turns)
    decreases |turns|
  {
    var t := turns[0];
    var h := WithUserLine(db, topic, t.role, t.name, t.msg);
    var db' := Record(db, topic, h);
    assert Stored(db', topic) == h;
    if |turns| == 1 {
      assert UserLines(turns) == [UserLine(t.name, t.msg)];
    } else {
      RecordTurnsAppends(db', topic, turns[1..]);
      assert Prior(db', topic, turns[1].role) == h;
      assert UserLines(turns) == [UserLine(t.name, t.msg)] + UserLines(turns[1..]);
    }
  }

  /** The context the model sees can be split back into the history's lines
      when no line holds a newline of its own. */
  lemma ContextLines(history: seq<string>)
    requires history != []
    requires forall i :: 0 <= i < |history| ==> '\n' !in history[i]
    ensures SplitOn(Context(history), '\n') == history
  {
    SplitJoin(history, '\n');
  }

  /** A message with a newline in it is indistinguishable, in the context,
      from two separate lines. */
  lemma ContextMergesMultiLine()
    ensures Context(["a\nb"]) == Context(["a", "b"])
    ensures ["a\nb"] != ["a", "b"]
  {
    assert Context(["a", "b"]) == "a" + "\n" + JoinWith(["b"], "\n");
  }
}
