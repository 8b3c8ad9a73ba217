/** The two key-rotating retry loops around the remote model call: the
    single-shot loop of `generate_gemini_response` (3 attempts, next key after
    every retryable failure) and the chat loop of the text handler
    (2 x number-of-keys attempts, next key after every second failure). */
module Retry {
  import opened Wrappers
  import opened Text
  import opened Store
  import opened KeyPool
  import opened Transcript

  /** What one remote call does: a reply text, or an exception's message. */
  datatype Attempt = Answer(text: string) | Failure(message: string)

  /** The remote model, seen as an oracle from (attempt number, key used) to
      the outcome of that attempt. */
  type Oracle = (nat, string) -> Attempt

  /** `"429" in str(e) or "invalid" in str(e).lower()`. */
  predicate IsRetryable(message: string) {
    Contains(message, "429") || Contains(Lower(message), "invalid")
  }

  /** When the loop moves on to the next key. */
  datatype Cadence = EveryFailure | EverySecondFailure

  /** With `remaining` retries left after the decrement: the single-shot loop
      always rotates, the chat loop when `retries % 2 == 0`. */
  predicate RotatesAt(c: Cadence, remaining: nat) {
    c == EveryFailure || remaining % 2 == 0
  }

  /** How a loop ends: it returned a reply, it re-raised an error, or it ran
      out of retries and fell off the end (returning `None`). */
  datatype End = Replied(text: string) | Raised(message: string) | GaveUp

  /** The end of a loop, the key index it leaves behind, the number of calls
      it made and whether it ever stored a new index. */
  datatype Run = Run(end: End, index: int, attempts: nat, rotated: bool)

  /** The `while retries > 0` loop from some point on, with `retryable` the
      test of the `except` clause (always `IsRetryable` in the handlers). */
  function Loop(c: Cadence, retryable: string -> bool, keys: seq<string>, index: int, retries: nat, attempt: nat, oracle: Oracle, rotated: bool): Run
    decreases retries
  {
    if retries == 0 then Run(GaveUp, index, attempt, rotated)
    else match PyIndex(keys, index)
      case None => Run(Raised(IndexErrorText), index, attempt + 1, rotated)
      case Some(key) =>
        match oracle(attempt, key)
        case Answer(t) => Run(Replied(Strip(t)), index, attempt + 1, rotated)
        case Failure(m) =>
          if retryable(m) then
            var r := retries - 1;
            if RotatesAt(c, r) then Loop(c, retryable, keys, (index + 1) % |keys|, r, attempt + 1, oracle, true)
            else Loop(c, retryable, keys, index, r, attempt + 1, oracle, rotated)
          else Run(Raised(m), index, attempt + 1, rotated)
  }

  /** What Python raises when `gemini_keys` is `None`. */
  const NotSubscriptableText: string := "'NoneType' object is not subscriptable"
  const NoLenText: string := "object of type 'NoneType' has no len()"

  /** The single-shot loop as `generate_gemini_response` runs it on the store. */
  function SingleShot(db: Db, oracle: Oracle): Run {
    if Get(db, KeysKey).List? then Loop(EveryFailure, IsRetryable, Get(db, KeysKey).items, Index(db), 3, 0, oracle, false)
    else Run(Raised(NotSubscriptableText), Index(db), 1, false)
  }

  /** The chat loop as the text handler runs it on the store (`None` keys make
      `len` raise before the loop). */
  function ChatRun(db: Db, oracle: Oracle): Run {
    if Get(db, KeysKey).List? then
      var keys := Get(db, KeysKey).items;
      Loop(EverySecondFailure, IsRetryable, keys, Index(db), 2 * |keys|, 0, oracle, false)
    else Run(Raised(NoLenText), Index(db), 0, false)
  }

  /** The store after a loop: the last index written on rotation and, on a
      reply, the history with the reply appended. */
  function AfterRun(db: Db, topic: string, history: seq<string>, r: Run): Db {
    var db1 := if r.rotated then db[KeyIndexKey := Int(r.index)] else db;
    if r.end.Replied? then Record(db1, topic, history + [r.end.text]) else db1
  }

  /** The `while retries > 0` loop as the source runs it, from the store
      `db0` and the key list read from it: each call uses the current key, a
      reply is stripped, appended to `history` and stored, a retryable error
      costs a retry and (at the cadence's rate) moves on to the next key and
      stores its index, any other error ends the loop. Returns how the loop
      ended and the store it leaves. */
  method RetryLoop(c: Cadence, retryable: string -> bool, db0: Db, keys: seq<string>, budget: nat,
                   topic: string, history: seq<string>, oracle: Oracle) returns (end: End, db: Db)
    ensures var r := Loop(c, retryable, keys, Index(db0), budget, 0, oracle, false);
      end == r.end && db == AfterRun(db0, topic, history, r)
  {
    db := db0;
    var currentKeyIndex := Index(db0);
    var retries := budget;
    var attempt: nat := 0;
    ghost var rotated := false;
    while retries > 0
      invariant Loop(c, retryable, keys, currentKeyIndex, retries, attempt, oracle, rotated)
             == Loop(c, retryable, keys, Index(db0), budget, 0, oracle, false)
      invariant db == if rotated then db0[KeyIndexKey := Int(currentKeyIndex)] else db0
      decreases retries
    {
      var currentKey := PyIndex(keys, currentKeyIndex);
      if currentKey.None? {
        end := Raised(IndexErrorText);
        return;
      }
      match oracle(attempt, currentKey.value) {
        case Answer(text) =>
          var botResponse := Strip(text);
          db := db[HistoryKey(topic) := List(history + [botResponse])];
          end := Replied(botResponse);
          return;
        case Failure(message) =>
          if retryable(message) {
            retries := retries - 1;
            if RotatesAt(c, retries) {
              currentKeyIndex := (currentKeyIndex + 1) % |keys|;
              db := db[KeyIndexKey := Int(currentKeyIndex)];
              rotated := true;
            }
            attempt := attempt + 1;
          } else {
            end := Raised(message);
            return;
          }
      }
    }
    end := GaveUp;
  }

  /** A loop over the store writes the topic's history and the key index,
      and nothing else. */
  lemma AfterRunFrame(db: Db, topic: string, history: seq<string>, r: Run)
    ensures forall k :: k != HistoryKey(topic) && k != KeyIndexKey ==> Get(AfterRun(db, topic, history, r), k) == Get(db, k)
    ensures Stored(AfterRun(db, topic, history, r), topic) == if r.end.Replied? then history + [r.end.text] else Stored(db, topic)
  {
    KeysDistinct(topic, topic);
    assert KeyIndexKey[0] == 'c' && KeyIndexKey[1] == 'u' && KeyIndexKey[2] == 'r';
    assert HistoryKey(topic)[2] == 'a';
  }

  /** The index a loop leaves behind only changes when it rotated, and then
      to a position inside the pool. */
  lemma AfterRunPool(db: Db, topic: string, history: seq<string>, r: Run)
    requires PoolValid(db)
    requires r.rotated ==> 0 <= r.index < |Keys(db)|
    ensures PoolValid(AfterRun(db, topic, history, r))
  {
    var db' := AfterRun(db, topic, history, r);
    AfterRunFrame(db, topic, history, r);
    assert Get(db', KeysKey) == Get(db, KeysKey);
    KeysDistinct(topic, topic);
    if r.rotated {
      assert Get(db', KeyIndexKey) == Int(r.index);
    } else {
      assert Get(db', KeyIndexKey) == Get(db, KeyIndexKey);
    }
  }

  /** The single-shot loop keeps the pool invariant. */
  lemma SingleShotKeepsPool(db: Db, topic: string, history: seq<string>, oracle: Oracle)
    requires PoolValid(db)
    ensures PoolValid(AfterRun(db, topic, history, SingleShot(db, oracle)))
  {
    var r := SingleShot(db, oracle);
    if Keys(db) != [] {
      SingleShotSchedule(db, oracle);
    } else if Get(db, KeysKey).List? {
      assert PyIndex(Get(db, KeysKey).items, Index(db)) == None;
    }
    AfterRunPool(db, topic, history, r);
  }

  /** The chat loop keeps the pool invariant. */
  lemma ChatRunKeepsPool(db: Db, topic: string, history: seq<string>, oracle: Oracle)
    requires PoolValid(db)
    ensures PoolValid(AfterRun(db, topic, history, ChatRun(db, oracle)))
  {
    var r := ChatRun(db, oracle);
    if Keys(db) != [] {
      ChatSchedule(db, oracle);
    }
    AfterRunPool(db, topic, history, r);
  }

  /** Number of key rotations after `failures` retryable failures. */
  function Rotations(c: Cadence, failures: nat): nat {
    match c
    case EveryFailure => failures
    case EverySecondFailure => failures / 2
  }

  /** The key index used by attempt `j` (counting from 0). */
  function KeyAt(c: Cadence, start: int, n: nat, j: nat): int
    requires n > 0
  {
    (start + Rotations(c, j)) % n
  }

  /** The attempt failed with an error the loop retries. */
  predicate RetryableAt(retryable: string -> bool, oracle: Oracle, j: nat, key: string) {
    oracle(j, key).Failure? && retryable(oracle(j, key).message)
  }

  /** How the last attempt's outcome shows in the end of the loop. */
  predicate EndMatches(retryable: string -> bool, e: End, a: Attempt) {
    match e
    case Replied(t) => a.Answer? && t == Strip(a.text)
    case Raised(m) => a.Failure? && m == a.message && !retryable(m)
    case GaveUp => false
  }

  /** Number of failed attempts a run made that the loop retried. */
  function Failures(r: Run): nat {
    if r.end.GaveUp? || r.attempts == 0 then r.attempts else r.attempts - 1
  }

  lemma MulAtLeast(d: int, n: int)
    requires d >= 1 && n > 0
    ensures d * n >= n
    decreases d
  {
    if d > 1 {
      MulAtLeast(d - 1, n);
      assert d * n == (d - 1) * n + n;
    }
  }

  /** Euclidean remainder is determined by any quotient/remainder pair. */
  lemma ModUnique(a: int, n: int, q: int, r: int)
    requires n > 0 && 0 <= r < n && a == q * n + r
    ensures a % n == r
  {
    var q' := a / n;
    var r' := a % n;
    assert a == q' * n + r';
    var d := q - q';
    assert d * n == r' - r by { assert q * n - q' * n == (q - q') * n; }
    if d >= 1 { MulAtLeast(d, n); }
    else if d <= -1 { MulAtLeast(-d, n); }
  }

  lemma ModSucc(a: int, n: int)
    requires n > 0 && a >= 0
    ensures (a % n + 1) % n == (a + 1) % n
  {
    var q := a / n;
    var r := a % n;
    assert a == q * n + r;
    if r + 1 < n {
      ModUnique(a + 1, n, q, r + 1);
      ModUnique(r + 1, n, 0, r + 1);
    } else {
      assert (q + 1) * n == q * n + n;
      ModUnique(a + 1, n, q + 1, 0);
      ModUnique(n, n, 1, 0);
    }
  }

  lemma ModShift(a: int, n: int)
    requires n > 0 && a >= 0
    ensures (a + n) % n == a % n
  {
    var q := a / n;
    assert a == q * n + a % n;
    assert (q + 1) * n == q * n + n;
    ModUnique(a + n, n, q + 1, a % n);
  }

  /** One more retryable failure adds one rotation exactly when the loop
      rotates at that point. */
  lemma RotationStep(c: Cadence, budget: nat, attempt: nat, rest: nat)
    requires attempt + 1 + rest == budget
    requires c == EverySecondFailure ==> budget % 2 == 0
    ensures Rotations(c, attempt + 1) == Rotations(c, attempt) + (if RotatesAt(c, rest) then 1 else 0)
  {
  }

  /** After a retried failure the loop's index is the key of the next attempt. */
  lemma KeyStep(c: Cadence, start: int, n: nat, budget: nat, attempt: nat, rest: nat)
    requires n > 0 && 0 <= start
    requires attempt + 1 + rest == budget
    requires c == EverySecondFailure ==> budget % 2 == 0
    ensures var index := KeyAt(c, start, n, attempt);
      (if RotatesAt(c, rest) then (index + 1) % n else index) == KeyAt(c, start, n, attempt + 1)
  {
    RotationStep(c, budget, attempt, rest);
    if RotatesAt(c, rest) {
      ModSucc(start + Rotations(c, attempt), n);
    }
  }

  /** One turn of the loop at a valid index: a retried failure hands over to
      the rest of the loop, anything else ends it with this attempt. */
  lemma LoopStep(c: Cadence, retryable: string -> bool, keys: seq<string>, index: int, retries: nat, attempt: nat, oracle: Oracle, rotated: bool)
    requires 0 <= index < |keys| && retries > 0
    ensures var a := oracle(attempt, keys[index]);
      var r := Loop(c, retryable, keys, index, retries, attempt, oracle, rotated);
      if RetryableAt(retryable, oracle, attempt, keys[index]) then
        var rot := RotatesAt(c, retries - 1);
        r == Loop(c, retryable, keys, if rot then (index + 1) % |keys| else index, retries - 1, attempt + 1, oracle, rot || rotated)
      else
        r.attempts == attempt + 1 && r.index == index && r.rotated == rotated && !r.end.GaveUp? && EndMatches(retryable, r.end, a)
  {
    assert PyIndex(keys, index) == Some(keys[index]);
  }

  /** The schedule of a loop over a non-empty pool started at a valid index:
      attempt `j` uses key `KeyAt(j)`, every attempt but the last failed with
      a retryable error, the last one decides the end, no more than the
      budget of attempts is made, and the index left behind is the one the
      next attempt would have used. */
  lemma {:induction false} Schedule(c: Cadence, retryable: string -> bool, keys: seq<string>, start: int, budget: nat, oracle: Oracle,
                                    index: int, retries: nat, attempt: nat, rotated: bool)
    requires |keys| > 0 && 0 <= start < |keys|
    requires attempt + retries == budget
    requires c == EverySecondFailure ==> budget % 2 == 0
    requires index == KeyAt(c, start, |keys|, attempt)
    requires rotated == (Rotations(c, attempt) > 0)
    ensures var r := Loop(c, retryable, keys, index, retries, attempt, oracle, rotated);
      && attempt <= r.attempts <= budget
      && (forall j :: attempt <= j < Failures(r) ==> RetryableAt(retryable, oracle, j, keys[KeyAt(c, start, |keys|, j)]))
      && (r.end.GaveUp? ==> r.attempts == budget && r.index == KeyAt(c, start, |keys|, budget))
      && (!r.end.GaveUp? ==> r.attempts > attempt && r.index == KeyAt(c, start, |keys|, r.attempts - 1)
                             && EndMatches(retryable, r.end, oracle(r.attempts - 1, keys[r.index])))
      && r.rotated == (Rotations(c, Failures(r)) > 0)
    decreases retries
  {
    var n := |keys|;
    if retries > 0 {
      LoopStep(c, retryable, keys, index, retries, attempt, oracle, rotated);
      if RetryableAt(retryable, oracle, attempt, keys[index]) {
        var rest := retries - 1;
        var rot := RotatesAt(c, rest);
        KeyStep(c, start, n, budget, attempt, rest);
        RotationStep(c, budget, attempt, rest);
        var next := KeyAt(c, start, n, attempt + 1);
        Schedule(c, retryable, keys, start, budget, oracle, next, rest, attempt + 1, rot || rotated);
      }
    }
  }

  /** The single-shot loop over a valid non-empty pool makes at most 3 calls,
      moving to the next key (modulo the pool size) after each retryable
      failure; after 3 retryable failures it gives up with the index 3 keys on. */
  lemma SingleShotSchedule(db: Db, oracle: Oracle)
    requires PoolValid(db) && Keys(db) != []
    ensures var r := SingleShot(db, oracle);
      var keys := Keys(db);
      && 1 <= r.attempts <= 3
      && (forall j :: 0 <= j < Failures(r) ==> RetryableAt(IsRetryable, oracle, j, keys[KeyAt(EveryFailure, Index(db), |keys|, j)]))
      && (r.end.GaveUp? ==> r.attempts == 3 && r.index == (Index(db) + 3) % |keys|)
      && (!r.end.GaveUp? ==> r.index == (Index(db) + r.attempts - 1) % |keys|
                             && EndMatches(IsRetryable, r.end, oracle(r.attempts - 1, keys[r.index])))
      && r.rotated == (Failures(r) > 0)
  {
    assert Get(db, KeysKey).List? && Get(db, KeysKey).items == Keys(db);
    SingleShotLoop(IsRetryable, Keys(db), Index(db), oracle);
  }

  /** `SingleShotSchedule` for any error classifier and any valid start. */
  lemma SingleShotLoop(retryable: string -> bool, keys: seq<string>, start: int, oracle: Oracle)
    requires 0 <= start < |keys|
    ensures var r := Loop(EveryFailure, retryable, keys, start, 3, 0, oracle, false);
      && 1 <= r.attempts <= 3
      && (forall j :: 0 <= j < Failures(r) ==> RetryableAt(retryable, oracle, j, keys[KeyAt(EveryFailure, start, |keys|, j)]))
      && (r.end.GaveUp? ==> r.attempts == 3 && r.index == (start + 3) % |keys|)
      && (!r.end.GaveUp? ==> r.index == (start + r.attempts - 1) % |keys|
                             && EndMatches(retryable, r.end, oracle(r.attempts - 1, keys[r.index])))
      && r.rotated == (Failures(r) > 0)
  {
    assert (start + 0) % |keys| == start;
    Schedule(EveryFailure, retryable, keys, start, 3, oracle, start, 3, 0, false);
  }

  /** The chat loop over a valid non-empty pool of `n` keys makes at most
      `2 n` calls; attempts `2 m` and `2 m + 1` both use key `start + m`
      (modulo `n`); having tried every key twice it gives up with the index
      back where it started. */
  lemma ChatSchedule(db: Db, oracle: Oracle)
    requires PoolValid(db) && Keys(db) != []
    ensures var r := ChatRun(db, oracle);
      var keys := Keys(db);
      var n := |keys|;
      && 1 <= r.attempts <= 2 * n
      && (forall j :: 0 <= j < Failures(r) ==> RetryableAt(IsRetryable, oracle, j, keys[KeyAt(EverySecondFailure, Index(db), n, j)]))
      && (r.end.GaveUp? ==> r.attempts == 2 * n && r.index == Index(db))
      && (!r.end.GaveUp? ==> r.index == (Index(db) + (r.attempts - 1) / 2) % n
                             && EndMatches(IsRetryable, r.end, oracle(r.attempts - 1, keys[r.index])))
      && r.rotated == (Failures(r) >= 2)
  {
    assert Get(db, KeysKey).List? && Get(db, KeysKey).items == Keys(db);
    ChatLoopSchedule(IsRetryable, Keys(db), Index(db), oracle);
  }

  /** `ChatSchedule` for any error classifier and any valid start. */
  lemma ChatLoopSchedule(retryable: string -> bool, keys: seq<string>, start: int, oracle: Oracle)
    requires 0 <= start < |keys|
    ensures var n := |keys|;
      var r := Loop(EverySecondFailure, retryable, keys, start, 2 * n, 0, oracle, false);
      && 1 <= r.attempts <= 2 * n
      && (forall j :: 0 <= j < Failures(r) ==> RetryableAt(retryable, oracle, j, keys[KeyAt(EverySecondFailure, start, n, j)]))
      && (r.end.GaveUp? ==> r.attempts == 2 * n && r.index == start)
      && (!r.end.GaveUp? ==> r.index == (start + (r.attempts - 1) / 2) % n
                             && EndMatches(retryable, r.end, oracle(r.attempts - 1, keys[r.index])))
      && r.rotated == (Failures(r) >= 2)
  {
    var n := |keys|;
    ModUnique(start, n, 0, start);
    ModShift(start, n);
    assert KeyAt(EverySecondFailure, start, n, 2 * n) == start by {
      assert (2 * n) / 2 == n;
    }
    Schedule(EverySecondFailure, retryable, keys, start, 2 * n, oracle, start, 2 * n, 0, false);
    var r := Loop(EverySecondFailure, retryable, keys, start, 2 * n, 0, oracle, false);
    assert (Rotations(EverySecondFailure, Failures(r)) > 0) == (Failures(r) >= 2);
  }

  /** Whether the first turn of either loop on `db` reaches the model: the
      key list exists and the current index names one of its keys. Every
      call of a loop sends the same request, so a handler hands its request
      to the model exactly when this holds. */
  predicate MakesCall(db: Db) {
    Get(db, KeysKey).List? && PyIndex(Get(db, KeysKey).items, Index(db)).Some?
  }

  /** A loop that makes no call ends the same whatever the model would say:
      it raises, or (the chat loop, on an empty list) gives up, and writes
      nothing back. */
  lemma NoCallIgnoresOracle(db: Db, oracle: Oracle, other: Oracle)
    requires !MakesCall(db)
    ensures SingleShot(db, oracle) == SingleShot(db, other)
    ensures ChatRun(db, oracle) == ChatRun(db, other)
    ensures SingleShot(db, oracle).end.Raised? && !SingleShot(db, oracle).rotated
    ensures !ChatRun(db, oracle).end.Replied? && !ChatRun(db, oracle).rotated
  {
  }

  /** A loop with retries left takes at least one more turn. */
  lemma {:induction false} LoopTakesTurn(c: Cadence, retryable: string -> bool, keys: seq<string>, index: int, retries: nat, attempt: nat, oracle: Oracle, rotated: bool)
    requires retries > 0
    ensures Loop(c, retryable, keys, index, retries, attempt, oracle, rotated).attempts > attempt
    decreases retries
  {
    match PyIndex(keys, index)
    case None =>
    case Some(key) =>
      match oracle(attempt, key)
      case Answer(_) =>
      case Failure(m) =>
        if retryable(m) && retries > 1 {
          var r := retries - 1;
          if RotatesAt(c, r) {
            LoopTakesTurn(c, retryable, keys, (index + 1) % |keys|, r, attempt + 1, oracle, true);
          } else {
            LoopTakesTurn(c, retryable, keys, index, r, attempt + 1, oracle, rotated);
          }
        }
  }

  /** A loop that makes a call asks the model first with the current key,
      and a first answer is the loop's stripped reply. */
  lemma FirstCallAsks(db: Db, oracle: Oracle)
    requires MakesCall(db)
    ensures var key := PyIndex(Get(db, KeysKey).items, Index(db)).value;
      && SingleShot(db, oracle).attempts >= 1
      && ChatRun(db, oracle).attempts >= 1
      && (oracle(0, key).Answer? ==>
            && SingleShot(db, oracle).end == Replied(Strip(oracle(0, key).text))
            && ChatRun(db, oracle).end == Replied(Strip(oracle(0, key).text)))
  {
    var keys := Get(db, KeysKey).items;
    assert |keys| > 0;
    assert ChatRun(db, oracle) == Loop(EverySecondFailure, IsRetryable, keys, Index(db), 2 * |keys|, 0, oracle, false);
    assert SingleShot(db, oracle) == Loop(EveryFailure, IsRetryable, keys, Index(db), 3, 0, oracle, false);
    LoopTakesTurn(EverySecondFailure, IsRetryable, keys, Index(db), 2 * |keys|, 0, oracle, false);
    LoopTakesTurn(EveryFailure, IsRetryable, keys, Index(db), 3, 0, oracle, false);
  }

  /** With an empty pool the chat loop makes no call at all and ends silently;
      the single-shot loop raises the `IndexError` of `gemini_keys[0]`. */
  lemma EmptyPool(db: Db, oracle: Oracle)
    requires PoolValid(db) && Get(db, KeysKey).List? && Keys(db) == []
    ensures ChatRun(db, oracle) == Run(GaveUp, 0, 0, false)
    ensures SingleShot(db, oracle) == Run(Raised(IndexErrorText), 0, 1, false)
  {
  }

  /** The classification: a rate-limit code anywhere, or "invalid" in any
      letter case, makes an error retryable. */
  lemma RetryableCases(message: string, i: nat)
    ensures OccursAt(message, "429", i) ==> IsRetryable(message)
    ensures i + 7 <= |message| && Lower(message[i..i + 7]) == "invalid" ==> IsRetryable(message)
  {
    if OccursAt(message, "429", i) {
      ContainsAt(message, "429", i);
    }
    if i + 7 <= |message| && Lower(message[i..i + 7]) == "invalid" {
      assert Lower("invalid") == "invalid";
      LowerContains(message, "invalid", i);
    }
  }

  /** A message with no digit 4 and no letter v in either case is never
      retried. */
  lemma NotRetryableWithout(message: string)
    requires forall i :: 0 <= i < |message| ==> message[i] != '4' && message[i] != 'v' && message[i] != 'V'
    ensures !IsRetryable(message)
  {
    MissingCharNotContained(message, "429", 0);
    MissingCharNotContained(Lower(message), "invalid", 2);
  }

  /** The errors Python raises for a bad index or a missing pool are not
      retried, so the loops never compute `% len(gemini_keys)` of an empty pool. */
  lemma IndexErrorNotRetryable()
    ensures !IsRetryable(IndexErrorText)
  {
    NotRetryableWithout(IndexErrorText);
  }

  lemma NotSubscriptableNotRetryable()
    ensures !IsRetryable(NotSubscriptableText)
  {
    NotRetryableWithout(NotSubscriptableText);
  }

  lemma NoLenNotRetryable()
    ensures !IsRetryable(NoLenText)
  {
    NotRetryableWithout(NoLenText);
  }
}
