/** Topic policy: which topics the bot answers in. Three module-level caches
    hold it: the `enabled_topics` and `disabled_topics` lists and the
    `wchat_for_all_groups` dict of per-group flags. */
module Policy {

  datatype Policy = Policy(enabled: seq<string>, disabled: seq<string>, allGroups: map<string, bool>)

  /** `wchat_for_all_groups.get(group_id, False)`. */
  function FlagOf(allGroups: map<string, bool>, group: string): bool {
    if group in allGroups then allGroups[group] else false
  }

  /** The early-return test shared by the sticker, text and file handlers. */
  predicate Ignored(p: Policy, group: string, topic: string) {
    topic in p.disabled || (!FlagOf(p.allGroups, group) && topic !in p.enabled)
  }

  predicate NoDup(s: seq<string>) {
    forall i, j :: 0 <= i < j < |s| ==> s[i] != s[j]
  }

  /** What `on` and `off` keep true of the two lists. */
  predicate Valid(p: Policy) {
    && NoDup(p.enabled)
    && NoDup(p.disabled)
    && (forall t :: t in p.enabled ==> t !in p.disabled)
  }

  /** Python's `list.remove(x)`: drops the first occurrence of `x`. */
  function RemoveFirst(s: seq<string>, x: string): (r: seq<string>)
    ensures x !in s ==> r == s
    ensures x in s ==> |r| == |s| - 1
    ensures forall y :: y != x ==> (y in r <==> y in s)
    ensures NoDup(s) ==> NoDup(r) && x !in r
  {
    if s == [] then []
    else if s[0] == x then s[1..]
    else
      var r := RemoveFirst(s[1..], x);
      NoDupTail(s);
      [s[0]] + r
  }

  /** The tail of a duplicate-free list is duplicate-free and lacks the head. */
  lemma NoDupTail(s: seq<string>)
    requires s != []
    ensures NoDup(s) ==> NoDup(s[1..]) && s[0] !in s[1..]
  {
    if NoDup(s) {
      forall i, j | 0 <= i < j < |s[1..]| ensures s[1..][i] != s[1..][j] {
        assert s[1..][i] == s[i + 1] && s[1..][j] == s[j + 1];
      }
    }
  }

  /** `r` is `s` without its first `x`, at index `i`. */
  predicate RemovedAt(s: seq<string>, x: string, r: seq<string>, i: int) {
    0 <= i < |s| && s[i] == x && x !in s[..i] && r == s[..i] + s[i + 1..]
  }

  /** Dropping the first `x` from the tail of a list that does not start
      with `x` drops the first `x` of the whole list. */
  lemma RemovedAfterHead(s: seq<string>, x: string, r: seq<string>)
    requires s != [] && s[0] != x
    requires x in s[1..] ==> exists i :: RemovedAt(s[1..], x, r, i)
    ensures x in s ==> exists i :: RemovedAt(s, x, [s[0]] + r, i)
  {
    if x in s {
      assert x in s[1..] by {
        var k :| 0 <= k < |s| && s[k] == x;
        assert s[1..][k - 1] == x;
      }
      var i :| RemovedAt(s[1..], x, r, i);
      assert s[..i + 1] == [s[0]] + s[1..][..i];
      assert s[i + 2..] == s[1..][i + 1..];
      assert RemovedAt(s, x, [s[0]] + r, i + 1);
    }
  }

  /** `list.remove(x)` removes the first occurrence of `x` and keeps the
      order of everything else. */
  lemma {:induction false} RemoveFirstAt(s: seq<string>, x: string)
    requires x in s
    ensures exists i :: RemovedAt(s, x, RemoveFirst(s, x), i)
  {
    if s[0] == x {
      assert RemovedAt(s, x, RemoveFirst(s, x), 0);
    } else {
      var r := RemoveFirst(s[1..], x);
      if x in s[1..] {
        RemoveFirstAt(s[1..], x);
      }
      RemovedAfterHead(s, x, r);
      assert RemoveFirst(s, x) == [s[0]] + r;
    }
  }

  /** The sub-commands of `wchat`, from `parts[1].lower()`. */
  datatype Command = On | Off | Del | All | Usage

  function ParseCommand(word: string): Command {
    if word == "on" then On
    else if word == "off" then Off
    else if word == "del" then Del
    else if word == "all" then All
    else Usage
  }

  /** `wchat on`. */
  function Enable(p: Policy, topic: string): Policy {
    var disabled := if topic in p.disabled then RemoveFirst(p.disabled, topic) else p.disabled;
    var enabled := if topic !in p.enabled then p.enabled + [topic] else p.enabled;
    p.(enabled := enabled, disabled := disabled)
  }

  /** `wchat off`. */
  function Disable(p: Policy, topic: string): Policy {
    var disabled := if topic !in p.disabled then p.disabled + [topic] else p.disabled;
    var enabled := if topic in p.enabled then RemoveFirst(p.enabled, topic) else p.enabled;
    p.(enabled := enabled, disabled := disabled)
  }

  /** `wchat all`: flip this group's flag, a missing flag counting as off. */
  function ToggleAll(p: Policy, group: string): Policy {
    p.(allGroups := p.allGroups[group := !FlagOf(p.allGroups, group)])
  }

  /** The policy after one `wchat` command issued in `topic` of `group`. */
  function Apply(p: Policy, cmd: Command, group: string, topic: string): Policy {
    match cmd
    case On => Enable(p, topic)
    case Off => Disable(p, topic)
    case All => ToggleAll(p, group)
    case Del => p
    case Usage => p
  }

  /** Topic `u` is listed the same way in `p` and `q`. */
  predicate SameListing(p: Policy, q: Policy, u: string) {
    (u in q.enabled <==> u in p.enabled) && (u in q.disabled <==> u in p.disabled)
  }

  /** `on` leaves the topic enabled and not disabled, so it is answered
      whatever the group flag says; it touches nothing else and a second `on`
      changes nothing. */
  lemma EnableEffect(p: Policy, topic: string)
    requires Valid(p)
    ensures var q := Enable(p, topic);
      && Valid(q)
      && topic in q.enabled && topic !in q.disabled
      && (forall g :: !Ignored(q, g, topic))
      && q.allGroups == p.allGroups
      && (forall u :: u != topic ==> SameListing(p, q, u))
      && Enable(q, topic) == q
  {
    var q := Enable(p, topic);
    assert NoDup(q.enabled) by {
      if topic !in p.enabled {
        forall i, j | 0 <= i < j < |q.enabled| ensures q.enabled[i] != q.enabled[j] {
          if j == |p.enabled| { assert q.enabled[i] == p.enabled[i]; }
        }
      }
    }
  }

  /** `off` leaves the topic disabled and not enabled, so it is ignored
      whatever the group flag says; it touches nothing else and a second `off`
      changes nothing. */
  lemma DisableEffect(p: Policy, topic: string)
    requires Valid(p)
    ensures var q := Disable(p, topic);
      && Valid(q)
      && topic in q.disabled && topic !in q.enabled
      && (forall g :: Ignored(q, g, topic))
      && q.allGroups == p.allGroups
      && (forall u :: u != topic ==> SameListing(p, q, u))
      && Disable(q, topic) == q
  {
    var q := Disable(p, topic);
    assert NoDup(q.disabled) by {
      if topic !in p.disabled {
        forall i, j | 0 <= i < j < |q.disabled| ensures q.disabled[i] != q.disabled[j] {
          if j == |p.disabled| { assert q.disabled[i] == p.disabled[i]; }
        }
      }
    }
  }

  /** `all` flips exactly this group's flag; doing it twice gives the flag
      back; the topic lists and every other group's flag stay as they were. */
  lemma ToggleAllEffect(p: Policy, group: string)
    ensures var q := ToggleAll(p, group);
      && FlagOf(q.allGroups, group) == !FlagOf(p.allGroups, group)
      && FlagOf(ToggleAll(q, group).allGroups, group) == FlagOf(p.allGroups, group)
      && (forall h :: h != group ==> (h in q.allGroups <==> h in p.allGroups) && FlagOf(q.allGroups, h) == FlagOf(p.allGroups, h))
      && q.enabled == p.enabled && q.disabled == p.disabled
  {
  }

  /** Every command keeps the lists duplicate-free and disjoint. */
  lemma ApplyValid(p: Policy, cmd: Command, group: string, topic: string)
    requires Valid(p)
    ensures Valid(Apply(p, cmd, group, topic))
  {
    match cmd
    case On => EnableEffect(p, topic);
    case Off => DisableEffect(p, topic);
    case All =>
    case Del =>
    case Usage =>
  }

  /** One `wchat` command: the sub-command and where it was typed. */
  datatype Step = Step(cmd: Command, group: string, topic: string)

  function Run(p: Policy, steps: seq<Step>): Policy
    decreases |steps|
  {
    if steps == [] then p
    else Run(Apply(p, steps[0].cmd, steps[0].group, steps[0].topic), steps[1..])
  }

  /** Disable wins: once a topic is disabled, no sequence of commands that
      does not say `on` in that very topic makes it answered, however the
      group flags are toggled and whatever other topics are switched. */
  lemma {:induction false} StaysDisabled(p: Policy, steps: seq<Step>, topic: string, group: string)
    requires topic in p.disabled
    requires forall i :: 0 <= i < |steps| ==> !(steps[i].cmd == On && steps[i].topic == topic)
    ensures Ignored(Run(p, steps), group, topic)
    decreases |steps|
  {
    if steps != [] {
      var s := steps[0];
      var q := Apply(p, s.cmd, s.group, s.topic);
      assert topic in q.disabled;
      assert forall i :: 0 <= i < |steps[1..]| ==> steps[1..][i] == steps[i + 1];
      StaysDisabled(q, steps[1..], topic, group);
    }
  }

  /** Every command leaves the answering decision of other topics alone,
      except that `all` changes it for the topics of its own group. */
  lemma ApplyLocal(p: Policy, cmd: Command, group: string, topic: string, g: string, u: string)
    requires Valid(p)
    requires u != topic
    requires cmd == All ==> g != group
    ensures Ignored(Apply(p, cmd, group, topic), g, u) == Ignored(p, g, u)
  {
    match cmd
    case On => EnableEffect(p, topic);
    case Off => DisableEffect(p, topic);
    case All => ToggleAllEffect(p, group);
    case Del =>
    case Usage =>
  }
}
