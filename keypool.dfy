/** The pool of Gemini API keys: the `gemini_keys` list and the
    `current_key_index` integer in the store, and the `setwkey` command that
    edits them. */
module KeyPool {
  import opened Wrappers
  import opened Text
  import opened Store

  /** `db.get(collection, "gemini_keys") or []`. */
  function Keys(db: Db): seq<string> {
    ListOr(db, KeysKey)
  }

  /** `db.get(collection, "current_key_index") or 0`. */
  function Index(db: Db): int {
    IntOr(db, KeyIndexKey)
  }

  /** The pool invariant: the current index points at a key, or is 0 when
      there are none; both entries hold values of the expected type. */
  predicate PoolValid(db: Db) {
    && (Get(db, KeysKey).Null? || Get(db, KeysKey).List?)
    && (Get(db, KeyIndexKey).Null? || Get(db, KeyIndexKey).Int?)
    && 0 <= Index(db)
    && (Index(db) < |Keys(db)| || (Keys(db) == [] && Index(db) == 0))
  }

  /** The pool invariant depends on the two pool entries alone. */
  lemma PoolKept(db: Db, db': Db)
    requires PoolValid(db)
    requires Get(db', KeysKey) == Get(db, KeysKey) && Get(db', KeyIndexKey) == Get(db, KeyIndexKey)
    ensures PoolValid(db')
  {
  }

  /** Python's `xs[i]`: negative indices count from the end; out of range
      raises `IndexError`. */
  function PyIndex(xs: seq<string>, i: int): Option<string> {
    if 0 <= i < |xs| then Some(xs[i])
    else if -|xs| <= i < 0 then Some(xs[|xs| + i])
    else None
  }

  const IndexErrorText: string := "list index out of range"

  const IntErrorPrefix: string := "invalid literal for int() with base 10: "

  /** The `ValueError` text of `int(word)`: CPython writes at most the first
      200 characters of `repr(word)` after the prefix. */
  function IntErrorText(word: string): (m: string)
    ensures |IntErrorPrefix| < |m| <= |IntErrorPrefix| + 200
    ensures |m| - |IntErrorPrefix| <= |Repr(word)|
    ensures m == IntErrorPrefix + Repr(word)[..|m| - |IntErrorPrefix|]
    ensures |Repr(word)| <= 200 ==> m == IntErrorPrefix + Repr(word)
  {
    var r := Repr(word);
    IntErrorPrefix + (if |r| <= 200 then r else r[..200])
  }

  /** A short word of printable ASCII without quote or backslash appears in
      the message between single quotes, as it is. */
  lemma PlainIntError(word: string)
    requires |word| <= 198
    requires forall i :: 0 <= i < |word| ==> ' ' <= word[i] <= '~' && word[i] != '\'' && word[i] != '\\'
    ensures IntErrorText(word) == IntErrorPrefix + "'" + word + "'"
  {
    ReprPlain(word);
  }

  function Max(a: int, b: int): int {
    if a >= b then a else b
  }

  datatype KeyReply =
    | KeyAdded
    | KeySelected(word: string)
    | KeyDeleted(word: string)
    | InvalidIndex(word: string)
    | KeyListing(keys: seq<string>, current: string)
    | KeyError(message: string)

  datatype KeyOutcome = KeyOutcome(db: Db, reply: KeyReply)

  /** `del gemini_keys[index]` and the clamp of the current index that follows. */
  function DeleteAt(db: Db, index: nat): Db
    requires index < |Keys(db)|
  {
    var keys := Keys(db);
    var rest := keys[..index] + keys[index + 1..];
    var db1 := db[KeysKey := List(rest)];
    if Index(db) >= |rest| then db1[KeyIndexKey := Int(Max(0, |rest| - 1))] else db1
  }

  /** `setwkey add <key>`. */
  function AddKey(db: Db, key: string): KeyOutcome {
    KeyOutcome(db[KeysKey := List(Keys(db) + [key])], KeyAdded)
  }

  /** `setwkey set <word>`: select key number `word`, counting from 1. */
  function SelectKey(db: Db, word: string): KeyOutcome {
    match ParseInt(word)
    case None => KeyOutcome(db, KeyError(IntErrorText(word)))
    case Some(n) =>
      if 0 <= n - 1 < |Keys(db)| then KeyOutcome(db[KeyIndexKey := Int(n - 1)], KeySelected(word))
      else KeyOutcome(db, InvalidIndex(word))
  }

  /** `setwkey del <word>`: delete key number `word`, counting from 1. */
  function DeleteKey(db: Db, word: string): KeyOutcome {
    match ParseInt(word)
    case None => KeyOutcome(db, KeyError(IntErrorText(word)))
    case Some(n) =>
      if 0 <= n - 1 < |Keys(db)| then KeyOutcome(DeleteAt(db, n - 1), KeyDeleted(word))
      else KeyOutcome(db, InvalidIndex(word))
  }

  /** `setwkey` with anything else: list the keys and name the current one. */
  function ListKeys(db: Db): KeyOutcome {
    var keys := Keys(db);
    if keys == [] then KeyOutcome(db, KeyListing(keys, "None"))
    else
      match PyIndex(keys, Index(db))
      case None => KeyOutcome(db, KeyError(IndexErrorText))
      case Some(k) => KeyOutcome(db, KeyListing(keys, k))
  }

  /** `setwkey [add <key> | set <n> | del <n>]`, with `parts` the message
      split into words. */
  function KeyCommand(db: Db, parts: seq<string>): KeyOutcome {
    var sub := if |parts| > 1 then Some(parts[1]) else None;
    var key := if |parts| > 2 && parts[2] != "" then Some(parts[2]) else None;
    if sub == Some("add") && key.Some? then AddKey(db, key.value)
    else if sub == Some("set") && key.Some? then SelectKey(db, key.value)
    else if sub == Some("del") && key.Some? then DeleteKey(db, key.value)
    else ListKeys(db)
  }

  /** `add k` appends exactly `k` and keeps the current index. */
  lemma AddEffect(db: Db, parts: seq<string>)
    requires |parts| > 2 && parts[1] == "add" && parts[2] != ""
    ensures var o := KeyCommand(db, parts);
      && Keys(o.db) == Keys(db) + [parts[2]]
      && Index(o.db) == Index(db)
      && o.reply == KeyAdded
  {
  }

  /** `set w` selects key number `w` (1-based) exactly when `w` is an integer
      between 1 and the number of keys; otherwise nothing changes. */
  lemma SetEffect(db: Db, parts: seq<string>)
    requires |parts| > 2 && parts[1] == "set" && parts[2] != ""
    ensures var o := KeyCommand(db, parts);
      && Keys(o.db) == Keys(db)
      && (o.reply.KeySelected? <==> (ParseInt(parts[2]).Some? && 1 <= ParseInt(parts[2]).value <= |Keys(db)|))
      && (o.reply.KeySelected? ==> Index(o.db) == ParseInt(parts[2]).value - 1)
      && (!o.reply.KeySelected? ==> o.db == db)
  {
  }

  /** `del w` removes exactly key number `w` (1-based) when it exists; the
      current index moves only when it now points past the end, and then to
      the last key (or 0 when none are left). Otherwise nothing changes. */
  lemma DeleteEffect(db: Db, parts: seq<string>)
    requires |parts| > 2 && parts[1] == "del" && parts[2] != ""
    ensures var o := KeyCommand(db, parts);
      var keys := Keys(db);
      && (o.reply.KeyDeleted? <==> (ParseInt(parts[2]).Some? && 1 <= ParseInt(parts[2]).value <= |keys|))
      && (o.reply.KeyDeleted? ==>
            var k := ParseInt(parts[2]).value;
            && Keys(o.db) == keys[..k - 1] + keys[k..]
            && |Keys(o.db)| == |keys| - 1
            && Index(o.db) == (if Index(db) >= |keys| - 1 then Max(0, |keys| - 2) else Index(db)))
      && (!o.reply.KeyDeleted? ==> o.db == db)
  {
  }

  /** Every `setwkey` command keeps the pool invariant. */
  lemma KeyCommandValid(db: Db, parts: seq<string>)
    requires PoolValid(db)
    ensures PoolValid(KeyCommand(db, parts).db)
  {
  }

  /** Under the invariant, the listing names the key the index points at, or
      `None` for an empty pool. */
  lemma ListingEffect(db: Db, parts: seq<string>)
    requires PoolValid(db)
    requires |parts| < 3 || parts[2] == "" || (parts[1] != "add" && parts[1] != "set" && parts[1] != "del")
    ensures var o := KeyCommand(db, parts);
      && o.db == db
      && o.reply == KeyListing(Keys(db), if Keys(db) == [] then "None" else Keys(db)[Index(db)])
  {
  }

  /** Deleting a key does not keep the selection on the same key: deleting
      one before the current key, other than when the current key is the
      last, leaves the index pointing at the key that followed it. */
  lemma DeleteBeforeCurrentShifts(db: Db, index: nat)
    requires PoolValid(db)
    requires index < Index(db) < |Keys(db)| - 1
    ensures var db' := DeleteAt(db, index);
      && Index(db') == Index(db)
      && Keys(db')[Index(db')] == Keys(db)[Index(db) + 1]
  {
  }

  /** Deleting the last key while it is current moves the selection to the new
      last key (the index is clamped to `len - 2`, or 0); deleting the only
      key leaves an empty pool at index 0. */
  lemma DeleteLastCurrent(db: Db)
    requires PoolValid(db) && Keys(db) != [] && Index(db) == |Keys(db)| - 1
    ensures var db' := DeleteAt(db, Index(db));
      && Keys(db') == Keys(db)[..|Keys(db)| - 1]
      && Index(db') == Max(0, |Keys(db)| - 2)
  {
  }
}
