/** How a chat event is named: `group_id = str(message.chat.id)` and
    `topic_id = f"{group_id}:{message.message_thread_id}"`, where a missing
    thread prints as `None`. */
module Topics {
  import opened Wrappers
  import opened Text

  function GroupId(chat: int): string {
    IntText(chat)
  }

  function ThreadText(thread: Option<nat>): string {
    match thread
    case None => "None"
    case Some(n) => Decimal(n)
  }

  function TopicKey(chat: int, thread: Option<nat>): (t: string)
    ensures |GroupId(chat)| < |t| && t[..|GroupId(chat)|] == GroupId(chat)
  {
    GroupId(chat) + ":" + ThreadText(thread)
  }

  /** Different (chat, thread) pairs get different topic keys, so state kept
      per topic key never leaks between topics. */
  lemma TopicKeyInjective(c1: int, t1: Option<nat>, c2: int, t2: Option<nat>)
    requires TopicKey(c1, t1) == TopicKey(c2, t2)
    ensures c1 == c2 && t1 == t2
  {
    var a, b := GroupId(c1), GroupId(c2);
    var k := TopicKey(c1, t1);
    IndexOfPrefix(a, ':', ThreadText(t1));
    IndexOfPrefix(b, ':', ThreadText(t2));
    assert a == k[..|a|] == b;
    IntTextInjective(c1, c2);
    assert ThreadText(t1) == k[|a| + 1..] == ThreadText(t2);
    if t1.Some? && t2.Some? {
      DecimalInjective(t1.value, t2.value);
    }
    assert t1.Some? ==> IsDigit(ThreadText(t1)[0]);
    assert t2.Some? ==> IsDigit(ThreadText(t2)[0]);
  }
}
