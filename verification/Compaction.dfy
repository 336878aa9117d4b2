/**
 Transcript compaction (compaction.rs): when the estimate exceeds the budget, keep the first message
 and the recent tail, and replace what is between by one note, never orphaning a tool result.
 */
module Compaction {
  import opened Wrappers

  datatype Block =
    | Text(text: string)
    | Reasoning(thought: string)
    | ToolUse(useId: string, name: string, input: string)
    | ToolResult(resultId: string, content: string)
    | Citation(quote: string)
    | Media

  datatype Message = Message(blocks: seq<Block>)

  datatype Policy = Policy(maxContextTokens: nat, keepRecent: nat)

  const MEDIA_COST := 512
  const SUMMARY_MAX_CHARS := 4000
  const DIGEST_MAX_CHARS := 1000

  // ---------------------------------------------------------------- the estimate

  function BlockChars(b: Block): nat {
    match b
    case Text(text) => |text|
    case Reasoning(thought) => |thought|
    case ToolUse(_, name, input) => |name| + |input|
    case ToolResult(_, content) => |content|
    case Citation(quote) => |quote|
    case Media => MEDIA_COST
  }

  function BlocksChars(blocks: seq<Block>): nat {
    if blocks == [] then 0 else BlockChars(blocks[0]) + BlocksChars(blocks[1..])
  }

  function EstimateMessage(m: Message): nat {
    BlocksChars(m.blocks) / 4 + 4
  }

  function EstimateTokens(ms: seq<Message>): nat {
    if ms == [] then 0 else EstimateMessage(ms[0]) + EstimateTokens(ms[1..])
  }

  predicate HasToolResult(m: Message) {
    exists i :: 0 <= i < |m.blocks| && m.blocks[i].ToolResult?
  }

  predicate HasToolUse(m: Message) {
    exists i :: 0 <= i < |m.blocks| && m.blocks[i].ToolUse?
  }

  predicate Uses(m: Message, id: string) {
    exists i :: 0 <= i < |m.blocks| && m.blocks[i].ToolUse? && m.blocks[i].useId == id
  }

  predicate Answers(m: Message, id: string) {
    exists i :: 0 <= i < |m.blocks| && m.blocks[i].ToolResult? && m.blocks[i].resultId == id
  }

  // ---------------------------------------------------------------- the cut

  predicate Due(ms: seq<Message>, policy: Policy) {
    policy.maxContextTokens > 0 && EstimateTokens(ms) > policy.maxContextTokens
  }

  /** The first index from `i` on whose message carries no tool result. */
  function SkipResults(ms: seq<Message>, i: nat): nat
    requires i <= |ms|
    decreases |ms| - i
  {
    if i < |ms| && HasToolResult(ms[i]) then SkipResults(ms, i + 1) else i
  }

  function FirstKept(ms: seq<Message>, policy: Policy): nat {
    if |ms| >= policy.keepRecent then |ms| - policy.keepRecent else 0
  }

  function Cut(ms: seq<Message>, policy: Policy): Option<nat> {
    if !Due(ms, policy) then None
    else
      var cut := SkipResults(ms, FirstKept(ms, policy));
      if cut <= 1 || cut >= |ms| then None else Some(cut)
  }

  method CompactionCut(ms: seq<Message>, policy: Policy) returns (r: Option<nat>)
    ensures r == Cut(ms, policy)
    ensures r.Some? ==> 1 < r.value < |ms| && |ms| - r.value <= policy.keepRecent && !HasToolResult(ms[r.value])
  {
    if !Due(ms, policy) {
      return None;
    }
    var cut := FirstKept(ms, policy);
    while cut < |ms| && HasToolResult(ms[cut])
      invariant FirstKept(ms, policy) <= cut <= |ms|
      invariant SkipResults(ms, cut) == SkipResults(ms, FirstKept(ms, policy))
    {
      cut := cut + 1;
    }
    if cut <= 1 || cut >= |ms| {
      return None;
    }
    return Some(cut);
  }

  /** Only text: nothing in the note can be mistaken for tool traffic, whatever the summarizer said. */
  function Note(body: string): Message {
    Message([Text(body)])
  }

  function Truncated(s: string, max: nat): string {
    if |s| <= max then s else s[..max]
  }

  /** `summary` is the summarizer's trimmed output; none or empty falls back to the digest. */
  function NoteFor(summary: Option<string>, digest: string): Message {
    if summary.Some? && summary.value != "" then Note(Truncated(summary.value, SUMMARY_MAX_CHARS))
    else Note(Truncated(digest, DIGEST_MAX_CHARS))
  }

  function Compacted(ms: seq<Message>, policy: Policy, summary: Option<string>, digest: string): Option<seq<Message>> {
    match Cut(ms, policy)
    case None => None
    case Some(cut) => if 1 <= cut <= |ms| then Some([ms[0], NoteFor(summary, digest)] + ms[cut..]) else None
  }

  method AssembleCompacted(ms: seq<Message>, cut: nat, note: Message) returns (out: seq<Message>)
    requires 1 <= cut <= |ms|
    ensures out == [ms[0], note] + ms[cut..]
  {
    out := [];
    out := out + [ms[0]];
    out := out + [note];
    out := out + ms[cut..];
  }

  method CompactMessages(ms: seq<Message>, policy: Policy, summary: Option<string>, digest: string)
    returns (r: Option<seq<Message>>)
    ensures r == Compacted(ms, policy, summary, digest)
  {
    var cut := CompactionCut(ms, policy);
    if cut.None? {
      return None;
    }
    var out := AssembleCompacted(ms, cut.value, NoteFor(summary, digest));
    return Some(out);
  }

  // ---------------------------------------------------------------- which messages survive

  /**
   The recent messages are not always kept, and the cut moves later, never earlier: all of them survive a
   compaction if and only if the first of them carries no tool result, and what is lost otherwise is
   exactly the tool results they begin with.
   */
  lemma RecentMessagesSurviveExactly(ms: seq<Message>, policy: Policy, summary: Option<string>, digest: string)
    requires Compacted(ms, policy, summary, digest).Some?
    ensures var first, tail := FirstKept(ms, policy), Compacted(ms, policy, summary, digest).value[2..];
            && first == (if |ms| < policy.keepRecent then 0 else |ms| - policy.keepRecent) && first < |ms|
            && (tail == ms[first..] <==> !HasToolResult(ms[first]))
            && |tail| <= |ms| - first && tail == ms[|ms| - |tail|..]
            && tail != [] && !HasToolResult(tail[0])
            && forall k :: first <= k < |ms| - |tail| ==> HasToolResult(ms[k])
  {
    SkipResultsFinds(ms, FirstKept(ms, policy));
    var tail := Compacted(ms, policy, summary, digest).value[2..];
    assert tail == ms[Cut(ms, policy).value..];
  }

  /** Four messages of which the last two are to be kept, and only the last one is. */
  lemma RecentResultIsDropped()
    ensures var ask, answer := Message([ToolUse("t", "f", "")]), Message([ToolResult("t", "")]);
            var ms := [Message([Text("task")]), ask, answer, Message([Text("done")])];
            FirstKept(ms, Policy(1, 2)) == 2 && Cut(ms, Policy(1, 2)) == Some(3)
  {
    var ask, answer := Message([ToolUse("t", "f", "")]), Message([ToolResult("t", "")]);
    var ms := [Message([Text("task")]), ask, answer, Message([Text("done")])];
    assert answer.blocks[0].ToolResult?;
    assert HasToolResult(ms[2]) && !HasToolResult(ms[3]);
    assert SkipResults(ms, 3) == 3;
    assert EstimateTokens(ms) == EstimateMessage(ms[0]) + EstimateTokens(ms[1..]);
  }

  /**
   A compaction that is due happens if and only if some message to be kept carries no tool result, and
   the anchor and its successor are not among those kept, tool results at the front aside.
   */
  lemma DueCompactionHappensExactly(ms: seq<Message>, policy: Policy)
    ensures Cut(ms, policy).Some? <==>
              && Due(ms, policy)
              && (exists k :: FirstKept(ms, policy) <= k < |ms| && !HasToolResult(ms[k]))
              && (forall k :: FirstKept(ms, policy) <= k < |ms| && k <= 1 ==> HasToolResult(ms[k]))
  {
    SkipResultsFinds(ms, FirstKept(ms, policy));
  }

  lemma {:induction false} SkipResultsFinds(ms: seq<Message>, i: nat)
    requires i <= |ms|
    ensures i <= SkipResults(ms, i) <= |ms|
    ensures SkipResults(ms, i) < |ms| <==> exists k :: i <= k < |ms| && !HasToolResult(ms[k])
    ensures SkipResults(ms, i) < |ms| ==> !HasToolResult(ms[SkipResults(ms, i)])
    ensures forall k :: i <= k < SkipResults(ms, i) ==> HasToolResult(ms[k])
    decreases |ms| - i
  {
    if i < |ms| && HasToolResult(ms[i]) {
      SkipResultsFinds(ms, i + 1);
    }
  }

  // ---------------------------------------------------------------- tool pairing

  /** The message that opened the group `i` belongs to: the nearest one without tool results. */
  function Opener(ms: seq<Message>, i: nat): int
    requires i < |ms|
    ensures -1 <= Opener(ms, i) <= i
    ensures Opener(ms, i) >= 0 ==> !HasToolResult(ms[Opener(ms, i)])
    ensures forall k :: Opener(ms, i) < k <= i ==> HasToolResult(ms[k])
  {
    if !HasToolResult(ms[i]) then i else if i == 0 then -1 else Opener(ms, i - 1)
  }

  /** Every tool result answers a tool use of the message that opened its group. */
  ghost predicate ResultOk(ms: seq<Message>, i: nat)
    requires i < |ms|
  {
    HasToolResult(ms[i]) ==>
      Opener(ms, i) >= 0 && forall id :: Answers(ms[i], id) ==> Uses(ms[Opener(ms, i)], id)
  }

  ghost predicate GroupsOk(ms: seq<Message>) {
    forall i :: 0 <= i < |ms| ==> ResultOk(ms, i)
  }

  /** A transcript with a task anchor that opens no tool group. */
  ghost predicate Transcript(ms: seq<Message>) {
    ms != [] && !HasToolUse(ms[0]) && GroupsOk(ms)
  }

  lemma {:induction false} OpenerShifts(ms: seq<Message>, out: seq<Message>, cut: nat, i: nat)
    requires 1 <= cut <= i < |ms| && !HasToolResult(ms[cut])
    requires |out| == |ms| - cut + 2 && out[2..] == ms[cut..]
    ensures Opener(ms, i) >= cut && Opener(out, i - cut + 2) == Opener(ms, i) - cut + 2
  {
    assert out[2..][i - cut] == ms[cut..][i - cut];
    if HasToolResult(ms[i]) {
      OpenerShifts(ms, out, cut, i - 1);
    }
  }

  lemma TailKeepsItsGroups(ms: seq<Message>, out: seq<Message>, cut: nat, i: nat)
    requires GroupsOk(ms) && 1 <= cut < |ms| && !HasToolResult(ms[cut])
    requires |out| == |ms| - cut + 2 && out[2..] == ms[cut..] && 2 <= i < |out|
    ensures ResultOk(out, i) && Opener(out, i) >= 2
  {
    var j := i - 2 + cut;
    assert ResultOk(ms, j);
    assert out[i] == out[2..][i - 2] && ms[j] == ms[cut..][j - cut];
    OpenerShifts(ms, out, cut, j);
    var o := Opener(ms, j);
    assert out[o - cut + 2] == out[2..][o - cut] && ms[o] == ms[cut..][o - cut];
  }

  /**
   One compaction keeps a transcript a transcript: same anchor, every kept tool result still answers
   a tool use inside the kept tail, never more messages, and at most the recent ones plus two.
   */
  lemma CompactionKeepsTranscript(ms: seq<Message>, policy: Policy, summary: Option<string>, digest: string)
    requires Transcript(ms) && Compacted(ms, policy, summary, digest).Some?
    ensures var out := Compacted(ms, policy, summary, digest).value;
            && Transcript(out) && out[0] == ms[0]
            && |out| <= |ms| && |out| <= policy.keepRecent + 2
            && (forall i :: 0 <= i < |out| && HasToolResult(out[i]) ==> Opener(out, i) >= 2)
  {
    var out := Compacted(ms, policy, summary, digest).value;
    var cut := Cut(ms, policy).value;
    SkipResultsFinds(ms, FirstKept(ms, policy));
    assert out[1] == NoteFor(summary, digest) && !HasToolResult(out[1]);
    assert ResultOk(ms, 0) && out[0] == ms[0];
    forall i | 0 <= i < |out|
      ensures ResultOk(out, i) && (HasToolResult(out[i]) ==> Opener(out, i) >= 2)
    {
      if i >= 2 {
        TailKeepsItsGroups(ms, out, cut, i);
      }
    }
  }

  // ---------------------------------------------------------------- whole conversations

  datatype Op = AppendMessage(message: Message) | CompactOp(policy: Policy, summary: Option<string>, digest: string)

  /** The loop only appends a result message right behind the tool use or results of its own group. */
  ghost predicate Appendable(ms: seq<Message>, m: Message) {
    ResultOk(ms + [m], |ms|)
  }

  ghost predicate Next(ms: seq<Message>, op: Op, ms': seq<Message>) {
    match op
    case AppendMessage(m) => Appendable(ms, m) && ms' == ms + [m]
    case CompactOp(policy, summary, digest) =>
      ms' == match Compacted(ms, policy, summary, digest) case Some(out) => out case None => ms
  }

  ghost predicate Conversation(transcripts: seq<seq<Message>>, ops: seq<Op>) {
    && |transcripts| == |ops| + 1
    && |transcripts[0]| == 1 && Transcript(transcripts[0])
    && forall i :: 0 <= i < |ops| ==> Next(transcripts[i], ops[i], transcripts[i + 1])
  }

  lemma {:induction false} OpenerOfPrefix(ms: seq<Message>, m: Message, i: nat)
    requires i < |ms|
    ensures Opener(ms + [m], i) == Opener(ms, i)
  {
    assert (ms + [m])[i] == ms[i];
    if HasToolResult(ms[i]) && i > 0 {
      OpenerOfPrefix(ms, m, i - 1);
    }
  }

  lemma AppendKeepsTranscript(ms: seq<Message>, m: Message)
    requires Transcript(ms) && Appendable(ms, m)
    ensures Transcript(ms + [m])
  {
    forall i | 0 <= i < |ms + [m]|
      ensures ResultOk(ms + [m], i)
    {
      if i < |ms| {
        assert ResultOk(ms, i);
        OpenerOfPrefix(ms, m, i);
      }
    }
  }

  /**
   Over any run of appends and compactions, under any policies and any summaries, the anchor never
   changes and every tool result in the transcript still answers a tool use that is in it.
   */
  lemma {:induction false} ConversationKeepsPairing(transcripts: seq<seq<Message>>, ops: seq<Op>, i: nat)
    requires Conversation(transcripts, ops) && i < |transcripts|
    ensures Transcript(transcripts[i]) && transcripts[i][0] == transcripts[0][0]
    decreases i
  {
    if i > 0 {
      ConversationKeepsPairing(transcripts, ops, i - 1);
      var ms, op := transcripts[i - 1], ops[i - 1];
      assert Next(ms, op, transcripts[i]);
      match op
      case AppendMessage(m) => AppendKeepsTranscript(ms, m);
      case CompactOp(policy, summary, digest) =>
        if Compacted(ms, policy, summary, digest).Some? {
          CompactionKeepsTranscript(ms, policy, summary, digest);
        }
    }
  }

  // ---------------------------------------------------------------- the estimate

  /** Everything a transcript says, as one text: texts, thoughts, tool calls, tool results and quotes. */
  function Said(b: Block): string {
    match b
    case Text(text) => text
    case Reasoning(thought) => thought
    case ToolUse(_, name, input) => name + input
    case ToolResult(_, content) => content
    case Citation(quote) => quote
    case Media => ""
  }

  function SaidInAll(ms: seq<Message>): string {
    if ms == [] then "" else SaidInMessage(ms[0].blocks) + SaidInAll(ms[1..])
  }

  function SaidInMessage(blocks: seq<Block>): string {
    if blocks == [] then "" else Said(blocks[0]) + SaidInMessage(blocks[1..])
  }

  function MediaIn(blocks: seq<Block>): nat {
    if blocks == [] then 0 else (if blocks[0].Media? then 1 else 0) + MediaIn(blocks[1..])
  }

  function MediaInAll(ms: seq<Message>): nat {
    if ms == [] then 0 else MediaIn(ms[0].blocks) + MediaInAll(ms[1..])
  }

  lemma {:induction false} MessageSize(blocks: seq<Block>)
    ensures BlocksChars(blocks) == |SaidInMessage(blocks)| + 512 * MediaIn(blocks)
  {
    if blocks != [] {
      MessageSize(blocks[1..]);
    }
  }

  /**
   The estimate in terms of what is said: a token for every four characters of a message, counting a medium
   as 512 of them, and four tokens for every message, losing less than a token per message to rounding.
   */
  lemma {:induction false} EstimateFollowsContent(ms: seq<Message>)
    ensures var size := |SaidInAll(ms)| + 512 * MediaInAll(ms);
            size - 3 * |ms| <= 4 * (EstimateTokens(ms) - 4 * |ms|) <= size
  {
    if ms != [] {
      MessageSize(ms[0].blocks);
      EstimateFollowsContent(ms[1..]);
    }
  }

  /** So a transcript that says enough is due for compaction, and one that says little is not. */
  lemma DueFollowsContent(ms: seq<Message>, policy: Policy)
    ensures var size := |SaidInAll(ms)| + 512 * MediaInAll(ms);
            && (policy.maxContextTokens > 0 && size + 13 * |ms| > 4 * policy.maxContextTokens ==> Due(ms, policy))
            && (policy.maxContextTokens == 0 || size + 16 * |ms| <= 4 * policy.maxContextTokens ==> !Due(ms, policy))
  {
    EstimateFollowsContent(ms);
  }

  /** The note is one text: the summary, or the digest where there is none, cut to its length limit and never changed. */
  lemma NoteIsSummaryOrDigest(summary: Option<string>, digest: string)
    ensures var note := NoteFor(summary, digest);
            var source := if summary.Some? && summary.value != "" then summary.value else digest;
            var limit := if summary.Some? && summary.value != "" then 4000 else 1000;
            && |note.blocks| == 1 && note.blocks[0].Text? && note.blocks[0].text <= source
            && |note.blocks[0].text| == if |source| <= limit then |source| else limit
  {
  }
}
