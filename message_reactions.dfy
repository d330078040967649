/**
 * `src/components/community/MessageReactions.tsx`: the emoji chips under a
 * chat message. Reactions are grouped by emoji, a chip shows the group's
 * size and its reactors' names, and clicking a chip the viewer is in asks
 * the server to remove the viewer's reaction.
 */
module MessageReactions {
  import opened Wrappers
  import opened Strings

  /** A `MessageReaction`: the emoji, who reacted, and that user's name if loaded. */
  datatype Reaction = Reaction(emoji: string, userId: string, fullName: Option<string>)

  /** The reactions with emoji `e`, in their original order. */
  function GroupOf(reactions: seq<Reaction>, e: string): (g: seq<Reaction>)
    ensures |g| <= |reactions|
    ensures forall r :: r in g <==> r in reactions && r.emoji == e
  {
    if reactions == [] then []
    else
      var prefix := GroupOf(reactions[..|reactions| - 1], e);
      var last := reactions[|reactions| - 1];
      assert reactions == reactions[..|reactions| - 1] + [last];
      if last.emoji == e then prefix + [last] else prefix
  }

  /** The emojis in order of first use: the order of `Object.entries` over the groups. */
  function Emojis(reactions: seq<Reaction>): (es: seq<string>)
    ensures forall e :: e in es <==> exists k :: 0 <= k < |reactions| && reactions[k].emoji == e
    ensures forall i, j :: 0 <= i < j < |es| ==> es[i] != es[j]
  {
    if reactions == [] then []
    else
      var prefix := Emojis(reactions[..|reactions| - 1]);
      var last := reactions[|reactions| - 1].emoji;
      assert forall k :: 0 <= k < |reactions| - 1 ==> reactions[k] == reactions[..|reactions| - 1][k];
      if last in prefix then prefix else prefix + [last]
  }

  /**
   * The `reduce` that builds `reactionGroups`: each reaction is pushed
   * onto its emoji's list, which is created on the emoji's first use.
   * `order` is the key order in which the lists were created.
   */
  method GroupReactions(reactions: seq<Reaction>) returns (groups: map<string, seq<Reaction>>, order: seq<string>)
    ensures order == Emojis(reactions)
    ensures groups.Keys == set e | e in order
    ensures forall e :: e in groups ==> groups[e] == GroupOf(reactions, e)
  {
    groups := map[];
    order := [];
    var i := 0;
    while i < |reactions|
      invariant 0 <= i <= |reactions|
      invariant order == Emojis(reactions[..i])
      invariant forall e :: e in groups <==> e in order
      invariant forall e :: e in groups ==> groups[e] == GroupOf(reactions[..i], e)
    {
      var reaction := reactions[i];
      GroupStep(reactions, i, groups, order);
      if reaction.emoji !in groups {
        groups := groups[reaction.emoji := []];
        order := order + [reaction.emoji];
      }
      groups := groups[reaction.emoji := groups[reaction.emoji] + [reaction]];
      i := i + 1;
    }
    assert reactions[..i] == reactions;
  }

  /** One step of the `reduce` keeps `order` and `groups` in line with the reactions read. */
  lemma GroupStep(reactions: seq<Reaction>, i: nat, groups: map<string, seq<Reaction>>, order: seq<string>)
    requires i < |reactions| && order == Emojis(reactions[..i])
    requires forall e :: e in groups <==> e in order
    requires forall e :: e in groups ==> groups[e] == GroupOf(reactions[..i], e)
    ensures var x := reactions[i];
      var started := if x.emoji in groups then groups else groups[x.emoji := []];
      var next := started[x.emoji := started[x.emoji] + [x]];
      var order' := if x.emoji in groups then order else order + [x.emoji];
      && order' == Emojis(reactions[..i + 1])
      && (forall e :: e in next <==> e in order')
      && (forall e :: e in next ==> next[e] == GroupOf(reactions[..i + 1], e))
  {
    var x := reactions[i];
    EmojisStep(reactions, i);
    if x.emoji !in groups {
      NoSuchEmoji(reactions[..i], x.emoji);
    }
    forall e | true
      ensures GroupOf(reactions[..i + 1], e) ==
        if x.emoji == e then GroupOf(reactions[..i], e) + [x] else GroupOf(reactions[..i], e)
    {
      GroupOfStep(reactions, i, e);
    }
  }

  /** One reaction more adds its emoji at the end, unless it was used before. */
  lemma EmojisStep(reactions: seq<Reaction>, i: nat)
    requires i < |reactions|
    ensures Emojis(reactions[..i + 1]) ==
      if reactions[i].emoji in Emojis(reactions[..i]) then Emojis(reactions[..i])
      else Emojis(reactions[..i]) + [reactions[i].emoji]
  {
    assert reactions[..i + 1][..i] == reactions[..i];
  }

  /** One reaction more joins the end of its own emoji's group only. */
  lemma GroupOfStep(reactions: seq<Reaction>, i: nat, e: string)
    requires i < |reactions|
    ensures GroupOf(reactions[..i + 1], e) ==
      if reactions[i].emoji == e then GroupOf(reactions[..i], e) + [reactions[i]] else GroupOf(reactions[..i], e)
  {
    assert reactions[..i + 1][..i] == reactions[..i];
  }

  /** An emoji nobody used has an empty group. */
  lemma {:induction false} NoSuchEmoji(reactions: seq<Reaction>, e: string)
    requires e !in Emojis(reactions)
    ensures GroupOf(reactions, e) == []
  {
    if reactions != [] {
      var init := reactions[..|reactions| - 1];
      assert reactions[|reactions| - 1].emoji != e;
      assert forall k :: 0 <= k < |init| ==> init[k] == reactions[k];
      NoSuchEmoji(init, e);
    }
  }

  /** The sizes of the groups named in `es`. */
  function SizeSum(reactions: seq<Reaction>, es: seq<string>): nat {
    if es == [] then 0 else |GroupOf(reactions, es[0])| + SizeSum(reactions, es[1..])
  }

  /** One more reaction adds one to the group of its emoji and nothing to the others. */
  lemma {:induction false} SizeSumAppend(reactions: seq<Reaction>, x: Reaction, es: seq<string>)
    requires forall i, j :: 0 <= i < j < |es| ==> es[i] != es[j]
    ensures SizeSum(reactions + [x], es) == SizeSum(reactions, es) + (if x.emoji in es then 1 else 0)
  {
    if es != [] {
      var all := reactions + [x];
      assert all[..|all| - 1] == reactions;
      SizeSumAppend(reactions, x, es[1..]);
      assert x.emoji in es <==> x.emoji == es[0] || x.emoji in es[1..];
      assert es[0] !in es[1..];
    }
  }

  /** Adding a group that is empty changes no sum. */
  lemma {:induction false} SizeSumEmptyLast(reactions: seq<Reaction>, es: seq<string>, e: string)
    requires GroupOf(reactions, e) == []
    ensures SizeSum(reactions, es + [e]) == SizeSum(reactions, es)
  {
    if es != [] {
      assert (es + [e])[1..] == es[1..] + [e];
      SizeSumEmptyLast(reactions, es[1..], e);
    }
  }

  /** The groups partition the reactions: their sizes add up to the total. */
  lemma {:induction false} GroupsPartition(reactions: seq<Reaction>)
    ensures SizeSum(reactions, Emojis(reactions)) == |reactions|
  {
    if reactions != [] {
      var init := reactions[..|reactions| - 1];
      var x := reactions[|reactions| - 1];
      assert reactions == init + [x];
      GroupsPartition(init);
      var es := Emojis(init);
      SizeSumAppend(init, x, es);
      if x.emoji !in es {
        NoSuchEmoji(init, x.emoji);
        SizeSumEmptyLast(init, es, x.emoji);
        SizeSumAppend(init, x, es + [x.emoji]);
        assert SizeSum(reactions, es + [x.emoji]) == SizeSum(init, es) + 1;
      }
    }
  }

  /** `reactionList.some(r => r.user_id === currentUserId)`. */
  predicate UserReacted(group: seq<Reaction>, currentUserId: Option<string>) {
    exists k :: 0 <= k < |group| && Some(group[k].userId) == currentUserId
  }

  /** A signed-out viewer is in no group. */
  lemma SignedOutReactedNowhere(group: seq<Reaction>)
    ensures !UserReacted(group, None)
  {
  }

  /** `removeReaction(messageId, emoji)` as the chip's click sends it. */
  datatype RemoveCall = RemoveCall(messageId: string, emoji: string)

  /** The chip's `onClick`: a removal only when the viewer is in the group. */
  function Click(messageId: string, emoji: string, group: seq<Reaction>, currentUserId: Option<string>): (c: Option<RemoveCall>)
    ensures c.Some? <==> UserReacted(group, currentUserId)
    ensures c.Some? ==> c.value == RemoveCall(messageId, emoji)
  {
    if UserReacted(group, currentUserId) then Some(RemoveCall(messageId, emoji)) else None
  }

  /** `parts.join(sep)`. */
  function JoinWith(parts: seq<string>, sep: string): string {
    if parts == [] then ""
    else if |parts| == 1 then parts[0]
    else parts[0] + sep + JoinWith(parts[1..], sep)
  }

  /** `r.user?.full_name`: a missing name is joined as the empty string. */
  function Names(group: seq<Reaction>): (names: seq<string>)
    ensures |names| == |group|
    ensures forall k :: 0 <= k < |group| ==> names[k] == (if group[k].fullName.Some? then group[k].fullName.value else "")
  {
    if group == [] then [] else [if group[0].fullName.Some? then group[0].fullName.value else ""] + Names(group[1..])
  }

  /** What a chip shows: the emoji, the count and the `title` tooltip. */
  datatype Chip = Chip(emoji: string, count: nat, title: string, highlighted: bool)

  function RenderChip(emoji: string, group: seq<Reaction>, currentUserId: Option<string>): (chip: Chip)
    ensures chip.emoji == emoji && chip.count == |group|
    ensures chip.highlighted <==> UserReacted(group, currentUserId)
  {
    Chip(emoji, |group|, JoinWith(Names(group), ", "), UserReacted(group, currentUserId))
  }

  lemma ContainsInSuffix(a: string, b: string, x: string)
    requires Contains(b, x)
    ensures Contains(a + b, x)
  {
    var i: nat :| i <= |b| && OccursAt(b, x, i);
    assert (a + b)[|a| + i..|a| + i + |x|] == b[i..i + |x|];
    assert OccursAt(a + b, x, |a| + i);
  }

  lemma ContainsInPrefix(a: string, b: string, x: string)
    requires Contains(a, x)
    ensures Contains(a + b, x)
  {
    var i: nat :| i <= |a| && OccursAt(a, x, i);
    assert (a + b)[i..i + |x|] == a[i..i + |x|];
    assert OccursAt(a + b, x, i);
  }

  /** Every reactor's name appears in the title. */
  lemma {:induction false} TitleNamesEveryone(parts: seq<string>, sep: string, k: nat)
    requires k < |parts|
    ensures Contains(JoinWith(parts, sep), parts[k])
  {
    if |parts| == 1 {
      assert OccursAt(parts[0], parts[0], 0);
    } else if k == 0 {
      assert OccursAt(parts[0], parts[0], 0);
      ContainsInPrefix(parts[0], sep + JoinWith(parts[1..], sep), parts[0]);
      assert parts[0] + sep + JoinWith(parts[1..], sep) == parts[0] + (sep + JoinWith(parts[1..], sep));
    } else {
      TitleNamesEveryone(parts[1..], sep, k - 1);
      assert parts[1..][k - 1] == parts[k];
      ContainsInSuffix(parts[0] + sep, JoinWith(parts[1..], sep), parts[k]);
    }
  }

  /** The chips of a message: one per emoji, in order of first use. */
  function RenderReactions(reactions: seq<Reaction>, currentUserId: Option<string>): (chips: seq<Chip>)
    ensures |chips| == |Emojis(reactions)|
    ensures forall k :: 0 <= k < |chips| ==>
      chips[k] == RenderChip(Emojis(reactions)[k], GroupOf(reactions, Emojis(reactions)[k]), currentUserId)
  {
    var es := Emojis(reactions);
    seq(|es|, k requires 0 <= k < |es| => RenderChip(es[k], GroupOf(reactions, es[k]), currentUserId))
  }

  /** The counts on the chips add up to the number of reactions. */
  lemma CountsAddUp(reactions: seq<Reaction>, currentUserId: Option<string>)
    ensures var chips := RenderReactions(reactions, currentUserId);
      ChipSum(chips) == |reactions|
  {
    var chips := RenderReactions(reactions, currentUserId);
    ChipSumIsSizeSum(reactions, Emojis(reactions), chips);
    GroupsPartition(reactions);
  }

  function ChipSum(chips: seq<Chip>): nat {
    if chips == [] then 0 else chips[0].count + ChipSum(chips[1..])
  }

  lemma {:induction false} ChipSumIsSizeSum(reactions: seq<Reaction>, es: seq<string>, chips: seq<Chip>)
    requires |chips| == |es|
    requires forall k :: 0 <= k < |es| ==> chips[k].count == |GroupOf(reactions, es[k])|
    ensures ChipSum(chips) == SizeSum(reactions, es)
  {
    if es != [] {
      ChipSumIsSizeSum(reactions, es[1..], chips[1..]);
    }
  }
}
