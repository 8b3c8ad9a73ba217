/** The running module: the store, the caches it loads from the store at
    import time, the image batches it keeps on the client, and the message
    and command handlers that read and update them. */
module Engine {
  import opened Wrappers
  import opened Text
  import opened Store
  import opened Topics
  import Policy
  import opened Transcript
  import opened Persona
  import opened KeyPool
  import opened Retry
  import opened Voice
  import opened Media

  /** What the handlers send through the chat client. */
  datatype Output =
    | SendText(chat: int, thread: Option<nat>, text: string)   // client.send_message(chat, text, ...)
    | SendVoice(chat: int, thread: Option<nat>, path: string)  // client.send_voice(chat, path, ...)
    | Reply(message: int, text: string)                        // message.reply_text(text)
    | ReplyNone(message: int)                                  // message.reply_text(None)
    | Operator(text: string)                                   // client.send_message("me", text)

  const ChatErrorPrefix: string := "An error occurred in the `wchat` module:\n\n"
  const FilesErrorPrefix: string := "An error occurred in the `handle_files` function:\n\n"

  /** What Python raises for `message.from_user.first_name` without a sender. */
  const NoSenderText: string := "'NoneType' object has no attribute 'first_name'"

  const Smileys: seq<string> := ["-.-", "):", ":)", "*.*", ")*"]

  /** `message.from_user.first_name or "User"`. */
  function SenderName(firstName: string): (name: string)
    ensures name != ""
    ensures firstName != "" ==> name == firstName
  {
    if firstName != "" then firstName else "User"
  }

  /** What `wchat on|off|del|all` replies with (the text of `edit_text`), or
      the error it reports to the operator. */
  datatype WchatReply =
    | TopicEnabled(topic: string)
    | TopicDisabled(topic: string)
    | HistoryDeleted(topic: string)
    | AllTopics(group: string, enabled: bool)
    | WchatUsage
    | WchatFailed(message: string)

  /** The outcome of a download: a local path (possibly empty, i.e. falsy),
      or the error the client raised. */
  datatype Fetch = Fetched(path: string) | FetchFailed(message: string)

  /** What a handler hands to the model: the prompt and the files or images
      sent with it. Every call of a retry loop sends the same request; a
      handler hands it over only when its loop makes a call (`MakesCall`). */
  datatype Request = Request(prompt: string, files: seq<string>)

  /** A started `process_images` task and what its closure captured from the
      photo message that started it. */
  datatype PendingBatch = PendingBatch(task: nat, replyTo: int, caption: string, history: seq<string>, context: string)

  /** The text handler's messages for the end of the chat loop. */
  function ChatOutputs(chat: int, thread: Option<nat>, e: End, synth: string -> Speech): seq<Output> {
    match e
    case Replied(text) =>
      if Contains(text, Marker) then VoiceOutputs(chat, thread, HandleVoice(text, synth))
      else [SendText(chat, thread, text)]
    case Raised(m) => [Operator(ChatErrorPrefix + m)]
    case GaveUp => []
  }

  /** What `handle_voice_message` sent, with the thread passed only when truthy. */
  function VoiceOutputs(chat: int, thread: Option<nat>, v: VoiceResult): seq<Output> {
    match v.sent
    case None => []
    case Some(VoiceNote(path)) => [SendVoice(chat, ThreadArg(thread), path)]
    case Some(TextNote(text)) => [SendText(chat, ThreadArg(thread), text)]
  }

  /** The file handler's messages for the end of a single-shot generation. */
  function FileOutputs(replyTo: int, e: End): seq<Output> {
    match e
    case Replied(text) => [Reply(replyTo, text)]
    case GaveUp => [ReplyNone(replyTo)]
    case Raised(m) => [Operator(FilesErrorPrefix + m)]
  }

  /** The store once the policy caches that changed have been written back
      (each `db.set` of the source happens exactly when its cache changed). */
  function WriteBack(db: Db, before: Policy.Policy, after: Policy.Policy): Db {
    var db1 := if after.disabled != before.disabled then db[DisabledTopicsKey := List(after.disabled)] else db;
    var db2 := if after.enabled != before.enabled then db1[EnabledTopicsKey := List(after.enabled)] else db1;
    if after.allGroups != before.allGroups then db2[AllGroupsKey := Flags(after.allGroups)] else db2
  }

  /** The reply of `wchat`, given the policy after the command. */
  function WchatReplyFor(cmd: Policy.Command, group: string, topic: string, after: Policy.Policy): WchatReply {
    match cmd
    case On => TopicEnabled(topic)
    case Off => TopicDisabled(topic)
    case Del => HistoryDeleted(topic)
    case All => AllTopics(group, Policy.FlagOf(after.allGroups, group))
    case Usage => WchatUsage
  }

  /** `client.image_buffer`, `client.image_timers` and the number of
      `process_images` tasks created so far. */
  datatype Batches = Batches(buffer: map<string, seq<string>>, timers: map<string, Option<PendingBatch>>, tasks: nat)

  /** A topic has a pending task exactly while it has buffered images, and
      every task was started before. */
  ghost predicate BatchesConsistent(b: Batches) {
    && (forall t :: t in b.buffer ==> t in b.timers)
    && (forall t :: t in b.timers && b.timers[t].Some? ==>
          t in b.buffer && b.buffer[t] != [] && b.timers[t].value.task < b.tasks)
    && (forall t :: t in b.buffer && b.buffer[t] != [] ==> b.timers[t].Some?)
  }

  /** Every cache equals what the store holds under its key. */
  ghost predicate Mirrors(db: Db, p: Policy.Policy, groupRoles: map<string, string>) {
    && p.enabled == ListOr(db, EnabledTopicsKey)
    && p.disabled == ListOr(db, DisabledTopicsKey)
    && p.allGroups == FlagsOr(db, AllGroupsKey)
    && groupRoles == RolesOr(db, GroupRolesKey)
  }

  /** The client's invariant, on the values of its fields. */
  ghost predicate Consistent(db: Db, p: Policy.Policy, groupRoles: map<string, string>, b: Batches) {
    && Mirrors(db, p, groupRoles)
    && Policy.Valid(p)
    && RolesNonEmpty(groupRoles)
    && PoolValid(db)
    && BatchesConsistent(b)
  }

  /** Writing a valid policy back keeps the invariant. */
  lemma WriteBackConsistent(db: Db, p: Policy.Policy, q: Policy.Policy, groupRoles: map<string, string>, b: Batches)
    requires Consistent(db, p, groupRoles, b)
    requires Policy.Valid(q)
    ensures Consistent(WriteBack(db, p, q), q, groupRoles, b)
  {
    FixedKeysDistinct();
    PoolKept(db, WriteBack(db, p, q));
  }

  /** Writing a key that no cache mirrors keeps the invariant. */
  lemma FreeKeyConsistent(db: Db, k: string, v: Value, p: Policy.Policy, groupRoles: map<string, string>, b: Batches)
    requires Consistent(db, p, groupRoles, b)
    requires !IsFixedKey(k)
    ensures Consistent(db[k := v], p, groupRoles, b)
  {
    PoolKept(db, db[k := v]);
  }

  /** The store after a model run keeps the invariant whenever its pool does. */
  lemma AfterRunConsistent(db: Db, topic: string, history: seq<string>, r: Run, p: Policy.Policy, groupRoles: map<string, string>, b: Batches)
    requires Consistent(db, p, groupRoles, b)
    requires PoolValid(AfterRun(db, topic, history, r))
    ensures Consistent(AfterRun(db, topic, history, r), p, groupRoles, b)
  {
    AfterRunFrame(db, topic, history, r);
    KeysDistinct(topic, topic);
    FixedKeysDistinct();
  }

  datatype PhotoOutcome = PhotoOutcome(batches: Batches, out: seq<Output>)

  /** The topic's buffer, created empty with no timer on first use. */
  function OpenBuffer(b: Batches, topic: string): (b': Batches)
    ensures topic in b'.buffer
    ensures topic in b.buffer ==> b' == b
    ensures topic !in b.buffer ==>
      && b'.buffer == b.buffer[topic := []]
      && b'.timers == b.timers[topic := None]
      && b'.tasks == b.tasks
  {
    if topic !in b.buffer then b.(buffer := b.buffer[topic := []], timers := b.timers[topic := None]) else b
  }

  /** Append a downloaded photo; the first photo of a batch starts its task. */
  function AddPhoto(b: Batches, topic: string, path: string, replyTo: int, caption: string, history: seq<string>): Batches
    requires topic in b.buffer
  {
    var b2 := b.(buffer := b.buffer[topic := b.buffer[topic] + [path]]);
    if topic in b2.timers && b2.timers[topic].Some? then b2
    else b2.(timers := b2.timers[topic := Some(PendingBatch(b.tasks, replyTo, caption, history, Context(history)))], tasks := b.tasks + 1)
  }

  /** The photo branch of `handle_files` for `topic`: make room for the
      topic, download the photo, buffer its path and, when no task is
      pending, start one that captures this message's reply target,
      caption and history. */
  function PhotoStep(b: Batches, topic: string, replyTo: int, caption: string, history: seq<string>, fetch: Fetch): PhotoOutcome {
    match fetch
    case FetchFailed(m) => PhotoOutcome(OpenBuffer(b, topic), [Operator(FilesErrorPrefix + m)])
    case Fetched(p) => PhotoOutcome(AddPhoto(OpenBuffer(b, topic), topic, p, replyTo, caption, history), [])
  }

  /** The buffers after a pending task for `topic` has taken its images. */
  function Fire(b: Batches, topic: string): Batches {
    b.(buffer := b.buffer - {topic}, timers := b.timers[topic := None])
  }

  /** The photo branch keeps the buffers consistent. */
  lemma PhotoStepConsistent(b: Batches, topic: string, replyTo: int, caption: string, history: seq<string>, fetch: Fetch)
    requires BatchesConsistent(b)
    ensures BatchesConsistent(PhotoStep(b, topic, replyTo, caption, history, fetch).batches)
  {
  }

  /** Taking a pending batch keeps the buffers consistent. */
  lemma FireConsistent(b: Batches, topic: string)
    requires BatchesConsistent(b)
    ensures BatchesConsistent(Fire(b, topic))
  {
  }

  /** A task is pending for `topic`. */
  predicate Busy(b: Batches, topic: string) {
    topic in b.timers && b.timers[topic].Some?
  }

  /** The paths buffered for `topic` (`[]` for a topic never seen). */
  function Held(b: Batches, topic: string): seq<string> {
    if topic in b.buffer then b.buffer[topic] else []
  }

  /** A downloaded photo is appended to its topic's buffer; a task is
      started, capturing this message's reply target, caption and history,
      exactly when none was pending; other topics are untouched. A failed
      download only reports the error. */
  lemma PhotoStepEffect(b: Batches, topic: string, replyTo: int, caption: string, history: seq<string>, fetch: Fetch)
    requires BatchesConsistent(b)
    ensures var o := PhotoStep(b, topic, replyTo, caption, history, fetch).batches;
      && (forall t :: t != topic ==> Held(o, t) == Held(b, t) && Busy(o, t) == Busy(b, t))
      && (forall t :: t != topic && Busy(b, t) ==> o.timers[t] == b.timers[t])
      && (fetch.FetchFailed? ==> Held(o, topic) == Held(b, topic) && Busy(o, topic) == Busy(b, topic) && o.tasks == b.tasks)
      && (fetch.Fetched? ==> Held(o, topic) == Held(b, topic) + [fetch.path] && Busy(o, topic))
      && (fetch.Fetched? && Busy(b, topic) ==> o.timers[topic] == b.timers[topic] && o.tasks == b.tasks)
      && (fetch.Fetched? && !Busy(b, topic) ==>
            && Held(b, topic) == []
            && o.timers[topic] == Some(PendingBatch(b.tasks, replyTo, caption, history, Context(history)))
            && o.tasks == b.tasks + 1)
  {
    if fetch.Fetched? && !Busy(b, topic) && topic in b.buffer {
      assert b.buffer[topic] == [];
    }
  }

  /** Three photos sent to an idle topic make one batch: all three paths,
      in order, under a single task that answers the first photo with the
      first photo's caption and history; the later captions are dropped. */
  lemma ThreePhotosOneBatch(b: Batches, topic: string, r1: int, r2: int, r3: int, c1: string, c2: string, c3: string,
                            h1: seq<string>, h2: seq<string>, h3: seq<string>, p1: string, p2: string, p3: string)
    requires BatchesConsistent(b) && !Busy(b, topic)
    ensures var b1 := PhotoStep(b, topic, r1, c1, h1, Fetched(p1)).batches;
      var b2 := PhotoStep(b1, topic, r2, c2, h2, Fetched(p2)).batches;
      var b3 := PhotoStep(b2, topic, r3, c3, h3, Fetched(p3)).batches;
      && Held(b3, topic) == [p1, p2, p3]
      && b3.timers[topic] == Some(PendingBatch(b.tasks, r1, c1, h1, Context(h1)))
      && b3.tasks == b.tasks + 1
  {
    var b1 := PhotoStep(b, topic, r1, c1, h1, Fetched(p1)).batches;
    PhotoStepEffect(b, topic, r1, c1, h1, Fetched(p1));
    PhotoStepConsistent(b, topic, r1, c1, h1, Fetched(p1));
    var b2 := PhotoStep(b1, topic, r2, c2, h2, Fetched(p2)).batches;
    PhotoStepEffect(b1, topic, r2, c2, h2, Fetched(p2));
    PhotoStepConsistent(b1, topic, r2, c2, h2, Fetched(p2));
    PhotoStepEffect(b2, topic, r3, c3, h3, Fetched(p3));
  }

  /** Firing a task takes every buffered path of its topic and leaves the
      topic idle with an empty buffer, so the next photo starts a new batch. */
  lemma FireEffect(b: Batches, topic: string)
    requires BatchesConsistent(b) && Busy(b, topic)
    ensures Held(b, topic) != []
    ensures Held(Fire(b, topic), topic) == [] && !Busy(Fire(b, topic), topic)
    ensures forall t :: t != topic ==> Held(Fire(b, topic), t) == Held(b, t) && Busy(Fire(b, topic), t) == Busy(b, t)
  {
  }

  /** The batch's reply is appended to the history captured with its first
      photo and stored over the topic's history: user lines recorded for the
      topic while the batch was pending are lost. */
  lemma BatchReplyDropsLaterLines(db: Db, topic: string, history: seq<string>, later: seq<string>, oracle: Oracle)
    requires Stored(db, topic) == history + later && later != []
    requires SingleShot(db, oracle).end.Replied?
    ensures var stored := Stored(AfterRun(db, topic, history, SingleShot(db, oracle)), topic);
      && stored == history + [SingleShot(db, oracle).end.text]
      && stored != Stored(db, topic) + [SingleShot(db, oracle).end.text]
  {
    var r := SingleShot(db, oracle);
    AfterRunFrame(db, topic, history, r);
    assert |Stored(db, topic) + [r.end.text]| == |history| + |later| + 1;
  }

  datatype FileOutcome = FileOutcome(db: Db, out: seq<Output>, request: Option<Request>)

  /** The non-photo branch of `handle_files`, once the history holds the
      caption's line. */
  function FileStep(db: Db, topic: string, replyTo: int, caption: string, history: seq<string>, attachment: Attachment,
                    fetch: Fetch, states: nat -> FileState, settled: nat, oracle: Oracle): FileOutcome
    requires states(settled) != Processing
  {
    match FileKind(attachment)
    case KindError(m) => FileOutcome(db, [Operator(FilesErrorPrefix + m)], None)
    case Untyped => FileOutcome(db, [], None)
    case Typed(fileType) =>
      match fetch
      case FetchFailed(m) => FileOutcome(db, [Operator(FilesErrorPrefix + m)], None)
      case Fetched(path) =>
        if path == "" then FileOutcome(db, [], None)
        else UploadStep(db, topic, replyTo, caption, history, fileType, path, states, settled, oracle)
  }

  /** A downloaded file of type `fileType` at `path`: wait for its upload,
      then ask the model about it. */
  function UploadStep(db: Db, topic: string, replyTo: int, caption: string, history: seq<string>, fileType: string,
                      path: string, states: nat -> FileState, settled: nat, oracle: Oracle): FileOutcome
    requires states(settled) != Processing
  {
    match UploadOf(fileType, states, settled)
    case UploadError(m) => FileOutcome(db, [Operator(FilesErrorPrefix + m)], None)
    case Uploaded(_) =>
      var r := SingleShot(db, oracle);
      FileOutcome(AfterRun(db, topic, history, r), FileOutputs(replyTo, r.end),
                  if MakesCall(db) then Some(Request(FilePrompt(Context(history), fileType, caption), [path])) else None)
  }

  /** A non-photo attachment leads to a model request exactly when it has a
      file type, was downloaded to a non-empty path, its upload became
      active and the key pool lets the loop make a call; the request carries
      that one path and the file prompt. The store changes only under the
      topic's history and the key index, and only when a request was made;
      the pool invariant holds throughout. */
  lemma FileStepEffect(db: Db, topic: string, replyTo: int, caption: string, history: seq<string>, attachment: Attachment,
                       fetch: Fetch, states: nat -> FileState, settled: nat, oracle: Oracle)
    requires states(settled) != Processing
    ensures var o := FileStep(db, topic, replyTo, caption, history, attachment, fetch, states, settled, oracle);
      && (o.request.Some? <==>
            && FileKind(attachment).Typed? && fetch.Fetched? && fetch.path != ""
            && UploadOf(FileKind(attachment).fileType, states, settled).Uploaded? && MakesCall(db))
      && (o.request.Some? ==>
            && o.request.value == Request(FilePrompt(Context(history), FileKind(attachment).fileType, caption), [fetch.path])
            && Stored(o.db, topic) == (if SingleShot(db, oracle).end.Replied? then history + [SingleShot(db, oracle).end.text] else Stored(db, topic)))
      && (o.request.None? ==> o.db == db)
      && (forall k :: k != HistoryKey(topic) && k != KeyIndexKey ==> Get(o.db, k) == Get(db, k))
      && (PoolValid(db) ==> PoolValid(o.db))
  {
    var o := FileStep(db, topic, replyTo, caption, history, attachment, fetch, states, settled, oracle);
    if FileKind(attachment).Typed? && fetch.Fetched? && fetch.path != "" {
      assert o == UploadStep(db, topic, replyTo, caption, history, FileKind(attachment).fileType, fetch.path, states, settled, oracle);
      UploadStepEffect(db, topic, replyTo, caption, history, FileKind(attachment).fileType, fetch.path, states, settled, oracle);
    }
  }

  /** The upload branch alone: a request exactly when the upload became
      active and the loop makes a call, and the store written only then. */
  lemma UploadStepEffect(db: Db, topic: string, replyTo: int, caption: string, history: seq<string>, fileType: string,
                         path: string, states: nat -> FileState, settled: nat, oracle: Oracle)
    requires states(settled) != Processing
    ensures var o := UploadStep(db, topic, replyTo, caption, history, fileType, path, states, settled, oracle);
      && (o.request.Some? <==> UploadOf(fileType, states, settled).Uploaded? && MakesCall(db))
      && (o.request.Some? ==>
            && o.request.value == Request(FilePrompt(Context(history), fileType, caption), [path])
            && Stored(o.db, topic) == (if SingleShot(db, oracle).end.Replied? then history + [SingleShot(db, oracle).end.text] else Stored(db, topic)))
      && (o.request.None? ==> o.db == db)
      && (forall k :: k != HistoryKey(topic) && k != KeyIndexKey ==> Get(o.db, k) == Get(db, k))
      && (PoolValid(db) ==> PoolValid(o.db))
  {
    AfterRunFrame(db, topic, history, SingleShot(db, oracle));
    if !MakesCall(db) {
      NoCallIgnoresOracle(db, oracle, oracle);
    }
    if PoolValid(db) {
      SingleShotKeepsPool(db, topic, history, oracle);
    }
  }

  /** `message.caption.strip() if message.caption else ""`. */
  function CaptionText(caption: Option<string>): string {
    match caption
    case None => ""
    case Some(c) => Strip(c)
  }

  /** What a finished `process_images` task sent; its errors escape the task
      and reach nobody. */
  function ImageOutputs(replyTo: int, e: End): seq<Output> {
    match e
    case Replied(text) => [Reply(replyTo, text)]
    case GaveUp => [ReplyNone(replyTo)]
    case Raised(_) => []
  }

  /** Every buffered path can be opened as an image. */
  predicate AllOpen(paths: seq<string>, opens: string -> bool) {
    forall i :: 0 <= i < |paths| ==> opens(paths[i])
  }

  class Wchat {
    /** The `custom.wchat` collection of the store. */
    var db: Db
    /** The module-level caches. */
    var enabledTopics: seq<string>
    var disabledTopics: seq<string>
    var allGroups: map<string, bool>
    var groupRoles: map<string, string>
    /** `client.image_buffer` and `client.image_timers`. */
    var imageBuffer: map<string, seq<string>>
    var imageTimers: map<string, Option<PendingBatch>>
    /** Number of `process_images` tasks created so far. */
    var tasksStarted: nat
    /** `default_bot_role`. */
    const defaultRole: string

    function Topics(): Policy.Policy
      reads this`enabledTopics, this`disabledTopics, this`allGroups
    {
      Policy.Policy(enabledTopics, disabledTopics, allGroups)
    }

    function Pending(): Batches
      reads this`imageBuffer, this`imageTimers, this`tasksStarted
    {
      Batches(imageBuffer, imageTimers, tasksStarted)
    }

    ghost predicate Valid()
      reads this
    {
      Consistent(db, Topics(), groupRoles, Pending())
    }

    /** Module import: the caches are loaded from the store. */
    constructor Load(store: Db)
      requires Policy.Valid(Policy.Policy(ListOr(store, EnabledTopicsKey), ListOr(store, DisabledTopicsKey), FlagsOr(store, AllGroupsKey)))
      requires RolesNonEmpty(RolesOr(store, GroupRolesKey))
      requires PoolValid(store)
      ensures Valid()
      ensures db == store && imageBuffer == map[] && imageTimers == map[] && tasksStarted == 0
      ensures defaultRole == DefaultBotRole
    {
      db := store;
      enabledTopics := ListOr(store, EnabledTopicsKey);
      disabledTopics := ListOr(store, DisabledTopicsKey);
      allGroups := FlagsOr(store, AllGroupsKey);
      groupRoles := RolesOr(store, GroupRolesKey);
      imageBuffer := map[];
      imageTimers := map[];
      tasksStarted := 0;
      defaultRole := DefaultBotRole;
    }

    /** `wchat on` in `topic`: leave the disabled list, join the enabled
        list, each list written back only when it changed. */
    method EnableTopic(topic: string)
      requires Valid()
      modifies this`db, this`enabledTopics, this`disabledTopics
      ensures Valid()
      ensures Topics() == Policy.Enable(old(Topics()), topic)
      ensures db == WriteBack(old(db), old(Topics()), Topics())
    {
      ghost var before := Topics();
      FixedKeysDistinct();
      Policy.EnableEffect(before, topic);
      WriteBackConsistent(db, before, Policy.Enable(before, topic), groupRoles, Pending());
      if topic in disabledTopics {
        disabledTopics := Policy.RemoveFirst(disabledTopics, topic);
        db := db[DisabledTopicsKey := List(disabledTopics)];
        assert |disabledTopics| < |before.disabled|;
      }
      if topic !in enabledTopics {
        enabledTopics := enabledTopics + [topic];
        db := db[EnabledTopicsKey := List(enabledTopics)];
        assert |enabledTopics| > |before.enabled|;
      }
    }

    /** `wchat off` in `topic`: join the disabled list, leave the enabled
        list, each list written back only when it changed. */
    method DisableTopic(topic: string)
      requires Valid()
      modifies this`db, this`enabledTopics, this`disabledTopics
      ensures Valid()
      ensures Topics() == Policy.Disable(old(Topics()), topic)
      ensures db == WriteBack(old(db), old(Topics()), Topics())
    {
      ghost var before := Topics();
      FixedKeysDistinct();
      Policy.DisableEffect(before, topic);
      WriteBackConsistent(db, before, Policy.Disable(before, topic), groupRoles, Pending());
      if topic !in disabledTopics {
        disabledTopics := disabledTopics + [topic];
        db := db[DisabledTopicsKey := List(disabledTopics)];
        assert |disabledTopics| > |before.disabled|;
      }
      if topic in enabledTopics {
        enabledTopics := Policy.RemoveFirst(enabledTopics, topic);
        db := db[EnabledTopicsKey := List(enabledTopics)];
        assert |enabledTopics| < |before.enabled|;
      }
    }

    /** `wchat all` in `group`: flip the group's flag and write the flags back. */
    method ToggleGroup(group: string)
      requires Valid()
      modifies this`db, this`allGroups
      ensures Valid()
      ensures Topics() == Policy.ToggleAll(old(Topics()), group)
      ensures db == WriteBack(old(db), old(Topics()), Topics())
    {
      FixedKeysDistinct();
      WriteBackConsistent(db, Topics(), Policy.ToggleAll(Topics(), group), groupRoles, Pending());
      allGroups := allGroups[group := !Policy.FlagOf(allGroups, group)];
      db := db[AllGroupsKey := Flags(allGroups)];
      assert allGroups != old(allGroups) by {
        assert Policy.FlagOf(allGroups, group) != Policy.FlagOf(old(allGroups), group);
      }
    }

    /** `wchat on|off|del|all`, typed as `text` in `thread` of group `chat`. */
    method WchatCommand(chat: int, thread: Option<nat>, text: string) returns (reply: WchatReply)
      requires Valid()
      modifies this`db, this`enabledTopics, this`disabledTopics, this`allGroups
      ensures Valid()
      ensures var parts := Words(Strip(text));
        var topic := TopicKey(chat, thread);
        var group := GroupId(chat);
        if |parts| < 2 then
          reply == WchatFailed(IndexErrorText) && db == old(db) && Topics() == old(Topics())
        else
          var cmd := Policy.ParseCommand(Lower(parts[1]));
          && Topics() == Policy.Apply(old(Topics()), cmd, group, topic)
          && db == (if cmd == Policy.Del then old(db)[HistoryKey(topic) := Null] else WriteBack(old(db), old(Topics()), Topics()))
          && reply == WchatReplyFor(cmd, group, topic, Topics())
    {
      reply := ApplyWchatCommand(chat, thread, Words(Strip(text)));
    }

    /** `WchatCommand` once the text has been split into `parts`. */
    method ApplyWchatCommand(chat: int, thread: Option<nat>, parts: seq<string>) returns (reply: WchatReply)
      requires Valid()
      modifies this`db, this`enabledTopics, this`disabledTopics, this`allGroups
      ensures Valid()
      ensures var topic := TopicKey(chat, thread);
        var group := GroupId(chat);
        if |parts| < 2 then
          reply == WchatFailed(IndexErrorText) && db == old(db) && Topics() == old(Topics())
        else
          var cmd := Policy.ParseCommand(Lower(parts[1]));
          && Topics() == Policy.Apply(old(Topics()), cmd, group, topic)
          && db == (if cmd == Policy.Del then old(db)[HistoryKey(topic) := Null] else WriteBack(old(db), old(Topics()), Topics()))
          && reply == WchatReplyFor(cmd, group, topic, Topics())
    {
      if |parts| < 2 {
        reply := WchatFailed(IndexErrorText);
        return;
      }
      var command := Policy.ParseCommand(Lower(parts[1]));
      var group := GroupId(chat);
      var topic := TopicKey(chat, thread);
      match command {
        case On =>
          EnableTopic(topic);
          reply := TopicEnabled(topic);
        case Off =>
          DisableTopic(topic);
          reply := TopicDisabled(topic);
        case Del =>
          KeysDistinct(topic, topic);
          FreeKeyConsistent(db, HistoryKey(topic), Null, Topics(), groupRoles, Pending());
          db := db[HistoryKey(topic) := Null];
          reply := HistoryDeleted(topic);
        case All =>
          ToggleGroup(group);
          reply := AllTopics(group, allGroups[group]);
        case Usage =>
          reply := WchatUsage;
      }
    }

    /** `role [group|topic] <custom role>`, typed as `text` in `thread` of
        group `chat`. */
    method SetCustomRole(chat: int, thread: Option<nat>, text: string) returns (reply: RoleReply)
      requires Valid()
      modifies this
      ensures Valid()
      ensures Topics() == old(Topics()) && imageBuffer == old(imageBuffer) && imageTimers == old(imageTimers)
      ensures tasksStarted == old(tasksStarted)
      ensures RoleCommand(old(RoleState(db, groupRoles)), GroupId(chat), TopicKey(chat, thread), Words(Strip(text)), defaultRole)
              == RoleOutcome(RoleState(db, groupRoles), reply)
    {
      reply := ApplyRoleCommand(chat, thread, Words(Strip(text)));
    }

    /** `SetCustomRole` once the text has been split into `parts`. */
    method ApplyRoleCommand(chat: int, thread: Option<nat>, parts: seq<string>) returns (reply: RoleReply)
      requires Valid()
      modifies this
      ensures Valid()
      ensures Topics() == old(Topics()) && imageBuffer == old(imageBuffer) && imageTimers == old(imageTimers)
      ensures tasksStarted == old(tasksStarted)
      ensures RoleCommand(old(RoleState(db, groupRoles)), GroupId(chat), TopicKey(chat, thread), parts, defaultRole)
              == RoleOutcome(RoleState(db, groupRoles), reply)
    {
      if |parts| < 2 {
        reply := RoleUsage;
        return;
      }
      var scope := Lower(parts[1]);
      var customRole := RoleText(parts);
      var group := GroupId(chat);
      var topic := TopicKey(chat, thread);
      if scope == "group" {
        reply := SetGroupRole(group, customRole);
      } else if scope == "topic" {
        reply := SetTopicRole(group, topic, customRole);
      } else {
        reply := InvalidScope;
      }
    }

    method SetGroupRole(group: string, customRole: string) returns (reply: RoleReply)
      requires Valid()
      modifies this
      ensures Valid()
      ensures Topics() == old(Topics()) && imageBuffer == old(imageBuffer) && imageTimers == old(imageTimers)
      ensures tasksStarted == old(tasksStarted)
      ensures GroupRoleCommand(old(RoleState(db, groupRoles)), group, customRole) == RoleOutcome(RoleState(db, groupRoles), reply)
    {
      FixedKeysDistinct();
      if customRole == "" {
        groupRoles := groupRoles - {group};
        db := db[GroupRolesKey := Roles(groupRoles)];
        reply := GroupRoleReset(group);
      } else {
        groupRoles := groupRoles[group := customRole];
        db := db[GroupRolesKey := Roles(groupRoles)];
        reply := GroupRoleSet(group, customRole);
      }
    }

    method SetTopicRole(group: string, topic: string, customRole: string) returns (reply: RoleReply)
      requires Valid()
      modifies this`db
      ensures Valid()
      ensures TopicRoleCommand(old(RoleState(db, groupRoles)), group, topic, customRole, defaultRole) == RoleOutcome(RoleState(db, groupRoles), reply)
    {
      KeysDistinct(topic, topic);
      if customRole == "" {
        var groupRole := if group in groupRoles then groupRoles[group] else defaultRole;
        FreeKeyConsistent(db, RoleKey(topic), Str(groupRole), Topics(), groupRoles, Pending());
        db := db[RoleKey(topic) := Str(groupRole)];
        FreeKeyConsistent(db, HistoryKey(topic), Null, Topics(), groupRoles, Pending());
        db := db[HistoryKey(topic) := Null];
        reply := TopicRoleReset(topic);
      } else {
        FreeKeyConsistent(db, RoleKey(topic), Str(customRole), Topics(), groupRoles, Pending());
        db := db[RoleKey(topic) := Str(customRole)];
        FreeKeyConsistent(db, HistoryKey(topic), Null, Topics(), groupRoles, Pending());
        db := db[HistoryKey(topic) := Null];
        reply := TopicRoleSet(topic, customRole);
      }
    }

    /** `setwkey [add <key> | set <n> | del <n>]`, typed as `text`. */
    method SetGeminiKey(text: string) returns (reply: KeyReply)
      requires Valid()
      modifies this`db
      ensures Valid()
      ensures KeyCommand(old(db), Words(Strip(text))) == KeyOutcome(db, reply)
    {
      reply := ApplyKeyCommand(Words(Strip(text)));
    }

    /** `SetGeminiKey` once the text has been split into the words `command`. */
    method ApplyKeyCommand(command: seq<string>) returns (reply: KeyReply)
      requires Valid()
      modifies this`db
      ensures Valid()
      ensures KeyCommand(old(db), command) == KeyOutcome(db, reply)
    {
      var subcommand := if |command| > 1 then Some(command[1]) else None;
      var key := if |command| > 2 && command[2] != "" then Some(command[2]) else None;
      if subcommand == Some("add") && key.Some? {
        reply := AddGeminiKey(key.value);
      } else if subcommand == Some("set") && key.Some? {
        reply := SelectGeminiKey(key.value);
      } else if subcommand == Some("del") && key.Some? {
        reply := DeleteGeminiKey(key.value);
      } else {
        reply := ListGeminiKeys();
      }
    }

    method AddGeminiKey(key: string) returns (reply: KeyReply)
      requires Valid()
      modifies this`db
      ensures Valid()
      ensures AddKey(old(db), key) == KeyOutcome(db, reply)
    {
      FixedKeysDistinct();
      var geminiKeys := Keys(db);
      geminiKeys := geminiKeys + [key];
      db := db[KeysKey := List(geminiKeys)];
      reply := KeyAdded;
    }

    method SelectGeminiKey(word: string) returns (reply: KeyReply)
      requires Valid()
      modifies this`db
      ensures Valid()
      ensures SelectKey(old(db), word) == KeyOutcome(db, reply)
    {
      FixedKeysDistinct();
      var geminiKeys := Keys(db);
      var n := ParseInt(word);
      if n.None? {
        reply := KeyError(IntErrorText(word));
        return;
      }
      var index := n.value - 1;
      if 0 <= index < |geminiKeys| {
        db := db[KeyIndexKey := Int(index)];
        reply := KeySelected(word);
      } else {
        reply := InvalidIndex(word);
      }
    }

    method DeleteGeminiKey(word: string) returns (reply: KeyReply)
      requires Valid()
      modifies this`db
      ensures Valid()
      ensures DeleteKey(old(db), word) == KeyOutcome(db, reply)
    {
      FixedKeysDistinct();
      var geminiKeys := Keys(db);
      var currentKeyIndex := Index(db);
      var n := ParseInt(word);
      if n.None? {
        reply := KeyError(IntErrorText(word));
        return;
      }
      var index := n.value - 1;
      if 0 <= index < |geminiKeys| {
        ghost var db0 := db;
        geminiKeys := geminiKeys[..index] + geminiKeys[index + 1..];
        db := db[KeysKey := List(geminiKeys)];
        if currentKeyIndex >= |geminiKeys| {
          currentKeyIndex := Max(0, |geminiKeys| - 1);
          db := db[KeyIndexKey := Int(currentKeyIndex)];
        }
        assert db == DeleteAt(db0, index);
        reply := KeyDeleted(word);
      } else {
        reply := InvalidIndex(word);
      }
    }

    method ListGeminiKeys() returns (reply: KeyReply)
      requires Valid()
      ensures ListKeys(db) == KeyOutcome(db, reply)
    {
      var geminiKeys := Keys(db);
      var currentKeyIndex := Index(db);
      if geminiKeys == [] {
        reply := KeyListing(geminiKeys, "None");
      } else {
        var current := PyIndex(geminiKeys, currentKeyIndex);
        if current.None? {
          reply := KeyError(IndexErrorText);
        } else {
          reply := KeyListing(geminiKeys, current.value);
        }
      }
    }

    /** `get_chat_history`: the topic's stored history (or the persona seed
        line) with the user's line appended, written back to the store. */
    method GetChatHistory(topic: string, role: string, userMessage: string, userName: string) returns (history: seq<string>)
      requires Valid()
      modifies this`db
      ensures Valid()
      ensures history == WithUserLine(old(db), topic, role, userName, userMessage)
      ensures db == Record(old(db), topic, history)
    {
      KeysDistinct(topic, topic);
      var chatHistory := ListOr(db, HistoryKey(topic));
      if chatHistory == [] {
        chatHistory := [SeedLine(role)];
      }
      history := chatHistory + [UserLine(userName, userMessage)];
      FreeKeyConsistent(db, HistoryKey(topic), List(history), Topics(), groupRoles, Pending());
      db := db[HistoryKey(topic) := List(history)];
    }

    /** `generate_gemini_response`: up to 3 calls, moving to the next key
        (and storing its index) after each retryable failure; a reply is
        appended to `history` and stored. */
    method GenerateGeminiResponse(history: seq<string>, topic: string, oracle: Oracle) returns (end: End)
      requires Valid()
      modifies this`db
      ensures Valid()
      ensures end == SingleShot(old(db), oracle).end
      ensures db == AfterRun(old(db), topic, history, SingleShot(old(db), oracle))
    {
      var geminiKeys := Get(db, KeysKey);
      if !geminiKeys.List? {
        end := Raised(NotSubscriptableText);
        return;
      }
      SingleShotKeepsPool(db, topic, history, oracle);
      AfterRunConsistent(db, topic, history, SingleShot(db, oracle), Topics(), groupRoles, Pending());
      end, db := RetryLoop(EveryFailure, IsRetryable, db, geminiKeys.items, 3, topic, history, oracle);
    }

    /** The retry loop of the text handler: `2 * len(gemini_keys)` calls,
        moving to the next key after every second retryable failure; a reply
        is appended to `history` and stored. Every call sends the history
        joined by newlines, as `request`. */
    method ChatAttempts(topic: string, history: seq<string>, oracle: Oracle) returns (end: End, request: Option<Request>)
      requires Valid()
      modifies this`db
      ensures Valid()
      ensures end == ChatRun(old(db), oracle).end
      ensures request == (if MakesCall(old(db)) then Some(Request(Context(history), [])) else None)
      ensures db == AfterRun(old(db), topic, history, ChatRun(old(db), oracle))
    {
      request := if MakesCall(db) then Some(Request(Context(history), [])) else None;
      var geminiKeys := Get(db, KeysKey);
      if !geminiKeys.List? {
        end := Raised(NoLenText);
        return;
      }
      ChatRunKeepsPool(db, topic, history, oracle);
      AfterRunConsistent(db, topic, history, ChatRun(db, oracle), Topics(), groupRoles, Pending());
      end, db := RetryLoop(EverySecondFailure, IsRetryable, db, geminiKeys.items, 2 * |geminiKeys.items|, topic, history, oracle);
    }

    /** The chat loop and what the text handler sends once it ends: the
        reply as voice when it holds the marker, as text otherwise; an
        error to the operator; nothing when every attempt failed. */
    method ChatLoop(chat: int, thread: Option<nat>, topic: string, history: seq<string>, oracle: Oracle, synth: string -> Speech)
      returns (out: seq<Output>, request: Option<Request>)
      requires Valid()
      modifies this`db
      ensures Valid()
      ensures request == (if MakesCall(old(db)) then Some(Request(Context(history), [])) else None)
      ensures out == ChatOutputs(chat, thread, ChatRun(old(db), oracle).end, synth)
      ensures db == AfterRun(old(db), topic, history, ChatRun(old(db), oracle))
    {
      var end;
      end, request := ChatAttempts(topic, history, oracle);
      match end {
        case Replied(botResponse) => out := Deliver(chat, thread, botResponse, synth);
        case Raised(message) => out := [Operator(ChatErrorPrefix + message)];
        case GaveUp => out := [];
      }
    }

    /** Sending the chat loop's reply: as voice when it holds the marker, as
        a text message to the thread otherwise. */
    static method Deliver(chat: int, thread: Option<nat>, botResponse: string, synth: string -> Speech) returns (out: seq<Output>)
      ensures out == ChatOutputs(chat, thread, Replied(botResponse), synth)
    {
      if Contains(botResponse, Marker) {
        out := VoiceOutputs(chat, thread, HandleVoice(botResponse, synth));
      } else {
        out := [SendText(chat, thread, botResponse)];
      }
    }

    /** The text handler `wchat` for a group message in `thread` of `chat`:
        `sender` is the sender's first name (`None` when the message has no
        sender), `text` the message text. */
    method OnText(chat: int, thread: Option<nat>, sender: Option<string>, text: string, oracle: Oracle, synth: string -> Speech)
      returns (out: seq<Output>, request: Option<Request>)
      requires Valid()
      modifies this`db
      ensures Valid()
      ensures sender.None? ==> out == [Operator(ChatErrorPrefix + NoSenderText)] && request == None && db == old(db)
      ensures sender.Some? && Policy.Ignored(Topics(), GroupId(chat), TopicKey(chat, thread)) ==> out == [] && request == None && db == old(db)
      ensures sender.Some? && !Policy.Ignored(Topics(), GroupId(chat), TopicKey(chat, thread)) ==>
        var topic := TopicKey(chat, thread);
        var role := ResolveRole(old(db), groupRoles, GroupId(chat), topic, defaultRole);
        var history := WithUserLine(old(db), topic, role, SenderName(sender.value), Strip(text));
        var db1 := Record(old(db), topic, history);
        && request == (if MakesCall(db1) then Some(Request(Context(history), [])) else None)
        && out == ChatOutputs(chat, thread, ChatRun(db1, oracle).end, synth)
        && db == AfterRun(db1, topic, history, ChatRun(db1, oracle))
    {
      request := None;
      var groupId := GroupId(chat);
      var topicId := TopicKey(chat, thread);
      if sender.None? {
        out := [Operator(ChatErrorPrefix + NoSenderText)];
        return;
      }
      var userName := SenderName(sender.value);
      var userMessage := Strip(text);
      if topicId in disabledTopics || (!Policy.FlagOf(allGroups, groupId) && topicId !in enabledTopics) {
        out := [];
        return;
      }
      var botRole := ResolveRole(db, groupRoles, groupId, topicId, defaultRole);
      var chatHistory := GetChatHistory(topicId, botRole, userMessage, userName);
      out, request := ChatLoop(chat, thread, topicId, chatHistory, oracle, synth);
    }

    /** `handle_sticker`: a random smiley (`Smileys[choice]`) in reply, unless
        the topic is ignored. */
    method OnSticker(chat: int, thread: Option<nat>, replyTo: int, choice: nat) returns (out: seq<Output>)
      requires Valid()
      requires choice < |Smileys|
      ensures Policy.Ignored(Topics(), GroupId(chat), TopicKey(chat, thread)) ==> out == []
      ensures !Policy.Ignored(Topics(), GroupId(chat), TopicKey(chat, thread)) ==> out == [Reply(replyTo, Smileys[choice])]
    {
      var groupId := GroupId(chat);
      var topicId := TopicKey(chat, thread);
      if topicId in disabledTopics || (!Policy.FlagOf(allGroups, groupId) && topicId !in enabledTopics) {
        out := [];
        return;
      }
      out := [Reply(replyTo, Smileys[choice])];
    }

    /** The photo branch of `handle_files`, on the client's buffers. */
    method BufferPhoto(topic: string, replyTo: int, caption: string, history: seq<string>, fetch: Fetch) returns (out: seq<Output>)
      requires Valid()
      modifies this`imageBuffer, this`imageTimers, this`tasksStarted
      ensures Valid()
      ensures PhotoStep(old(Pending()), topic, replyTo, caption, history, fetch) == PhotoOutcome(Pending(), out)
    {
      var before := Pending();
      PhotoStepConsistent(before, topic, replyTo, caption, history, fetch);
      var buffer, timers, tasks := imageBuffer, imageTimers, tasksStarted;
      if topic !in buffer {
        buffer := buffer[topic := []];
        timers := timers[topic := None];
      }
      assert Batches(buffer, timers, tasks) == OpenBuffer(before, topic);
      match fetch {
        case FetchFailed(message) =>
          out := [Operator(FilesErrorPrefix + message)];
        case Fetched(imagePath) =>
          buffer := buffer[topic := buffer[topic] + [imagePath]];
          if topic !in timers || timers[topic].None? {
            timers := timers[topic := Some(PendingBatch(tasks, replyTo, caption, history, Context(history)))];
            tasks := tasks + 1;
          }
          out := [];
      }
      assert PhotoStep(before, topic, replyTo, caption, history, fetch) == PhotoOutcome(Batches(buffer, timers, tasks), out);
      imageBuffer, imageTimers, tasksStarted := buffer, timers, tasks;
    }

    /** The non-photo branch of `handle_files`: classify the attachment,
        download it, wait for the upload to settle and ask the model about
        it; `states` are the upload's successive states and `settled` a
        check at which it is no longer processing. */
    method ProcessFile(topic: string, replyTo: int, caption: string, history: seq<string>, attachment: Attachment,
                       fetch: Fetch, states: nat -> FileState, ghost settled: nat, oracle: Oracle)
      returns (out: seq<Output>, request: Option<Request>)
      requires Valid()
      requires states(settled) != Processing
      modifies this`db
      ensures Valid()
      ensures FileStep(old(db), topic, replyTo, caption, history, attachment, fetch, states, settled, oracle) == FileOutcome(db, out, request)
    {
      request := None;
      match FileKind(attachment) {
        case KindError(message) =>
          out := [Operator(FilesErrorPrefix + message)];
        case Untyped =>
          out := [];
        case Typed(fileType) =>
          match fetch {
            case FetchFailed(message) =>
              out := [Operator(FilesErrorPrefix + message)];
            case Fetched(filePath) =>
              if filePath == "" {
                out := [];
                return;
              }
              out, request := AskAboutFile(topic, replyTo, caption, history, fileType, filePath, states, settled, oracle);
          }
      }
    }

    /** The upload and model call of `handle_files` for a downloaded file. */
    method AskAboutFile(topic: string, replyTo: int, caption: string, history: seq<string>, fileType: string,
                        filePath: string, states: nat -> FileState, ghost settled: nat, oracle: Oracle)
      returns (out: seq<Output>, request: Option<Request>)
      requires Valid()
      requires states(settled) != Processing
      modifies this`db
      ensures Valid()
      ensures UploadStep(old(db), topic, replyTo, caption, history, fileType, filePath, states, settled, oracle) == FileOutcome(db, out, request)
    {
      var uploadedFile := AwaitUpload(fileType, states, settled);
      match uploadedFile {
        case UploadError(message) =>
          out := [Operator(FilesErrorPrefix + message)];
          request := None;
        case Uploaded(_) =>
          var prompt := FilePrompt(Context(history), fileType, caption);
          request := if MakesCall(db) then Some(Request(prompt, [filePath])) else None;
          var response := GenerateGeminiResponse(history, topic, oracle);
          out := FileOutputs(replyTo, response);
      }
    }

    /** The file handler `handle_files` for a group message in `thread` of
        `chat`, replying to message `replyTo`: `sender` is the sender's first
        name (`None` without a sender), `caption` the message caption. */
    method OnFile(chat: int, thread: Option<nat>, replyTo: int, sender: Option<string>, caption: Option<string>,
                  attachment: Attachment, fetch: Fetch, states: nat -> FileState, ghost settled: nat, oracle: Oracle)
      returns (out: seq<Output>, request: Option<Request>)
      requires Valid()
      requires states(settled) != Processing
      modifies this`db, this`imageBuffer, this`imageTimers, this`tasksStarted
      ensures Valid()
      ensures sender.None? ==>
        out == [Operator(FilesErrorPrefix + NoSenderText)] && request == None && db == old(db) && Pending() == old(Pending())
      ensures sender.Some? && Policy.Ignored(Topics(), GroupId(chat), TopicKey(chat, thread)) ==>
        out == [] && request == None && db == old(db) && Pending() == old(Pending())
      ensures sender.Some? && !Policy.Ignored(Topics(), GroupId(chat), TopicKey(chat, thread)) ==>
        var topic := TopicKey(chat, thread);
        var text := CaptionText(caption);
        var role := ResolveRole(old(db), groupRoles, GroupId(chat), topic, defaultRole);
        var history := WithUserLine(old(db), topic, role, SenderName(sender.value), text);
        var db1 := Record(old(db), topic, history);
        if attachment == Photo then
          && request == None && db == db1
          && PhotoStep(old(Pending()), topic, replyTo, text, history, fetch) == PhotoOutcome(Pending(), out)
        else
          && Pending() == old(Pending())
          && FileStep(db1, topic, replyTo, text, history, attachment, fetch, states, settled, oracle) == FileOutcome(db, out, request)
    {
      request := None;
      var groupId := GroupId(chat);
      var topicId := TopicKey(chat, thread);
      if sender.None? {
        out := [Operator(FilesErrorPrefix + NoSenderText)];
        return;
      }
      var userName := SenderName(sender.value);
      if topicId in disabledTopics || (!Policy.FlagOf(allGroups, groupId) && topicId !in enabledTopics) {
        out := [];
        return;
      }
      var botRole := ResolveRole(db, groupRoles, groupId, topicId, defaultRole);
      var text := CaptionText(caption);
      var chatHistory := GetChatHistory(topicId, botRole, text, userName);
      if attachment == Photo {
        out := BufferPhoto(topicId, replyTo, text, chatHistory, fetch);
        return;
      }
      out, request := ProcessFile(topicId, replyTo, text, chatHistory, attachment, fetch, states, settled, oracle);
    }

    /** A pending `process_images` task for `topic` runs: it takes the
        topic's buffered paths, clears the timer, and asks the model about
        the images with the caption, history and context captured from the
        photo that started it, replying to that photo. `opens` says which
        paths open as images. */
    method FireImageTimer(topic: string, opens: string -> bool, oracle: Oracle) returns (out: seq<Output>, request: Option<Request>)
      requires Valid()
      requires topic in imageTimers && imageTimers[topic].Some?
      modifies this`db, this`imageBuffer, this`imageTimers
      ensures Valid()
      ensures Pending() == Fire(old(Pending()), topic)
      ensures old(imageBuffer)[topic] != []
      ensures !AllOpen(old(imageBuffer)[topic], opens) ==> out == [] && request == None && db == old(db)
      ensures AllOpen(old(imageBuffer)[topic], opens) ==>
        var batch := old(imageTimers)[topic].value;
        && request == (if MakesCall(old(db)) then Some(Request(ImagePrompt(batch.context, batch.caption), old(imageBuffer)[topic])) else None)
        && db == AfterRun(old(db), topic, batch.history, SingleShot(old(db), oracle))
        && out == ImageOutputs(batch.replyTo, SingleShot(old(db), oracle).end)
    {
      FireConsistent(Pending(), topic);
      var batch := imageTimers[topic].value;
      var imagePaths := imageBuffer[topic];
      var buffer, timers := imageBuffer - {topic}, imageTimers[topic := None];
      assert Batches(buffer, timers, tasksStarted) == Fire(Pending(), topic);
      imageBuffer, imageTimers := buffer, timers;
      if !AllOpen(imagePaths, opens) {
        out := [];
        request := None;
        return;
      }
      out, request := AskAboutImages(topic, batch, imagePaths, oracle);
    }

    /** The model call of `process_images`, with the caption, history and
        context the batch captured, answered in reply to its first photo. */
    method AskAboutImages(topic: string, batch: PendingBatch, imagePaths: seq<string>, oracle: Oracle)
      returns (out: seq<Output>, request: Option<Request>)
      requires Valid()
      modifies this`db
      ensures Valid()
      ensures request == (if MakesCall(old(db)) then Some(Request(ImagePrompt(batch.context, batch.caption), imagePaths)) else None)
      ensures db == AfterRun(old(db), topic, batch.history, SingleShot(old(db), oracle))
      ensures out == ImageOutputs(batch.replyTo, SingleShot(old(db), oracle).end)
    {
      var prompt := ImagePrompt(batch.context, batch.caption);
      request := if MakesCall(db) then Some(Request(prompt, imagePaths)) else None;
      var response := GenerateGeminiResponse(batch.history, topic, oracle);
      out := ImageOutputs(batch.replyTo, response);
    }
  }
}
