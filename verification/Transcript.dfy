/** Packing an earlier conversation into the first prompt of a new one
    (apps/web/src/historyBootstrap.ts), within a budget of characters. */
module Transcript {
  import opened Text
  import opened Decimal

  datatype Attachment = Attachment(isImage: bool, name: string)

  datatype Message = Message(fromAssistant: bool, text: string, attachments: seq<Attachment>)

  datatype Packed = Packed(text: string, includedCount: nat, omittedCount: nat, truncated: bool)

  /** The fixed texts around the transcript. */
  datatype Frame = Frame(preamble: string, transcriptHeader: string, promptHeader: string)

  const FRAME := Frame(
    "Continue this conversation using the transcript context below. The final section is the latest user request to answer now.",
    "Transcript context:",
    "Latest user request (answer this now):")

  function OmittedSummary(count: nat): string {
    "[" + NatText(count) + " earlier message(s) omitted to stay within input limits.]"
  }

  // ----- Blocks.

  function ImageNames(attachments: seq<Attachment>): seq<string> {
    if attachments == [] then []
    else (if attachments[0].isImage then [attachments[0].name] else []) + ImageNames(attachments[1..])
  }

  function AttachmentSummary(message: Message): Option<string> {
    var images := ImageNames(message.attachments);
    var count := |images|;
    if count == 0 then None
    else
      var names := if count > 3 then images[..3] else images;
      var extra := if count > |names| then " (+" + NatText(count - |names|) + " more)" else "";
      Some("[Attached image" + (if count == 1 then "" else "s") + ": " + Join(names, ", ") + extra + "]")
  }

  function RoleLabel(message: Message): string { if message.fromAssistant then "ASSISTANT" else "USER" }

  function MessageBlock(message: Message): string {
    var attachments := AttachmentSummary(message);
    RoleLabel(message) + ":\n"
    + if message.text != "" && attachments.Some? then message.text + "\n" + attachments.value
      else if message.text != "" then message.text
      else if attachments.Some? then attachments.value
      else "(empty message)"
  }

  function Blocks(messages: seq<Message>): (blocks: seq<string>)
    ensures |blocks| == |messages|
    ensures forall k :: 0 <= k < |messages| ==> blocks[k] == MessageBlock(messages[k])
  {
    seq(|messages|, (k: nat) requires k < |messages| => MessageBlock(messages[k]))
  }

  // ----- Packing.

  /** `maxChars`, or `None` when it is not a finite number. */
  function Budget(maxChars: Option<real>): (budget: nat)
    ensures budget >= 1
  {
    if maxChars.None? || maxChars.value.Floor < 1 then 1 else maxChars.value.Floor
  }

  function PromptOnly(prompt: string, budget: nat): string {
    if |prompt| <= budget then prompt else prompt[..budget]
  }

  /** The transcript of the included blocks, with a note about the others. */
  function BodyOf(included: seq<string>, omitted: nat): string {
    if omitted == 0 then Join(included, "\n\n")
    else if |included| > 0 then OmittedSummary(omitted) + "\n\n" + Join(included, "\n\n")
    else OmittedSummary(omitted)
  }

  /** The transcript with the last `k` blocks. */
  function Body(blocks: seq<string>, k: nat): string
    requires k <= |blocks|
  {
    BodyOf(blocks[|blocks| - k..], |blocks| - k)
  }

  function WithPrompt(frame: Frame, body: string, prompt: string): string {
    frame.preamble + "\n\n" + frame.transcriptHeader + "\n" + body + "\n\n" + frame.promptHeader + "\n" + prompt
  }

  function Finalize(frame: Frame, body: string, prompt: string, budget: nat): Option<string> {
    if |WithPrompt(frame, body, prompt)| <= budget then Some(WithPrompt(frame, body, prompt)) else None
  }

  predicate Fits(frame: Frame, blocks: seq<string>, prompt: string, budget: nat, k: nat)
    requires k <= |blocks|
  {
    Finalize(frame, Body(blocks, k), prompt, budget).Some?
  }

  /** Adds blocks from the newest back, starting with `k`, until one does not fit. */
  function Greedy(frame: Frame, blocks: seq<string>, prompt: string, budget: nat, k: nat): (r: nat)
    requires k <= |blocks|
    ensures k <= r <= |blocks|
    decreases |blocks| - k
  {
    if k < |blocks| && Fits(frame, blocks, prompt, budget, k + 1) then Greedy(frame, blocks, prompt, budget, k + 1) else k
  }

  /** Every end of the conversation up to the chosen one fits; one block more does not. */
  lemma {:induction false} GreedyStopsAtFirstMisfit(frame: Frame, blocks: seq<string>, prompt: string, budget: nat, k: nat)
    requires k <= |blocks|
    ensures var r := Greedy(frame, blocks, prompt, budget, k);
            && (forall j :: k < j <= r ==> Fits(frame, blocks, prompt, budget, j))
            && (r < |blocks| ==> !Fits(frame, blocks, prompt, budget, r + 1))
    decreases |blocks| - k
  {
    hide Fits;
    if k < |blocks| && Fits(frame, blocks, prompt, budget, k + 1) {
      GreedyStopsAtFirstMisfit(frame, blocks, prompt, budget, k + 1);
    }
  }

  /** What is returned when `k` blocks are included. */
  function Included(frame: Frame, blocks: seq<string>, prompt: string, budget: nat, k: nat): Packed
    requires k <= |blocks|
  {
    Packed(WithPrompt(frame, Body(blocks, k), prompt), k, |blocks| - k,
           k < |blocks| || |prompt| != |PromptOnly(prompt, budget)|)
  }

  function GivenUp(blocks: seq<string>, prompt: string, budget: nat): Packed {
    Packed(PromptOnly(prompt, budget), 0, |blocks|, true)
  }

  /** The final loop: drops the oldest included block until the text fits. */
  function Shrink(frame: Frame, blocks: seq<string>, prompt: string, budget: nat, k: nat): Packed
    requires k <= |blocks|
  {
    if Fits(frame, blocks, prompt, budget, k) then Included(frame, blocks, prompt, budget, k)
    else if k == 0 then GivenUp(blocks, prompt, budget)
    else Shrink(frame, blocks, prompt, budget, k - 1)
  }

  function Pack(frame: Frame, messages: seq<Message>, prompt: string, maxChars: Option<real>): Packed {
    var budget, blocks := Budget(maxChars), Blocks(messages);
    if messages == [] then Packed(PromptOnly(prompt, budget), 0, 0, |PromptOnly(prompt, budget)| != |prompt|)
    else Shrink(frame, blocks, prompt, budget, Greedy(frame, blocks, prompt, budget, 0))
  }

  function Reversed(s: seq<string>): (r: seq<string>)
    ensures |r| == |s|
    ensures forall k :: 0 <= k < |s| ==> r[k] == s[|s| - 1 - k]
  {
    seq(|s|, (k: nat) requires k < |s| => s[|s| - 1 - k])
  }

  lemma ReversedPrefix(blocks: seq<string>, newestFirst: seq<string>, k: nat)
    requires newestFirst == Reversed(blocks) && k <= |blocks|
    ensures Reversed(newestFirst[..k]) == blocks[|blocks| - k..]
  {}

  method BuildBlocks(messages: seq<Message>) returns (newestFirst: seq<string>)
    ensures newestFirst == Reversed(Blocks(messages))
  {
    hide MessageBlock;
    newestFirst := [];
    var index := |messages| - 1;
    while index >= 0
      invariant -1 <= index < |messages| && |newestFirst| == |messages| - 1 - index
      invariant forall k :: 0 <= k < |newestFirst| ==> newestFirst[k] == Blocks(messages)[|messages| - 1 - k]
    {
      newestFirst := newestFirst + [MessageBlock(messages[index])];
      index := index - 1;
    }
  }

  /** Whether `k` blocks fit, seen from the newest ones. */
  lemma FitsNewest(frame: Frame, blocks: seq<string>, newest: seq<string>, prompt: string, budget: nat, k: nat)
    requires k <= |blocks| && newest == Reversed(blocks)[..k]
    ensures Fits(frame, blocks, prompt, budget, k) <==>
            Finalize(frame, BodyOf(Reversed(newest), |blocks| - k), prompt, budget).Some?
  {
    hide Finalize, BodyOf;
    ReversedPrefix(blocks, Reversed(blocks), k);
  }

  lemma GreedyStep(frame: Frame, blocks: seq<string>, prompt: string, budget: nat, k: nat)
    requires k < |blocks|
    ensures Greedy(frame, blocks, prompt, budget, k) ==
            if Fits(frame, blocks, prompt, budget, k + 1) then Greedy(frame, blocks, prompt, budget, k + 1) else k
  {
    hide Fits;
  }

  /** The first loop: from the newest block back, while the text fits. */
  method TakeNewest(frame: Frame, newestFirst: seq<string>, prompt: string, budget: nat, ghost blocks: seq<string>)
    returns (included: seq<string>)
    requires newestFirst == Reversed(blocks)
    ensures |included| == Greedy(frame, blocks, prompt, budget, 0) && included == newestFirst[..|included|]
  {
    hide Fits, Greedy, Finalize, BodyOf;
    included := [];
    for k := 0 to |newestFirst|
      invariant |included| == k && included == newestFirst[..k]
      invariant Greedy(frame, blocks, prompt, budget, 0) == Greedy(frame, blocks, prompt, budget, k)
    {
      var next := included + [newestFirst[k]];
      var omitted := |newestFirst| - |next|;
      FitsNewest(frame, blocks, next, prompt, budget, k + 1);
      GreedyStep(frame, blocks, prompt, budget, k);
      if Finalize(frame, BodyOf(Reversed(next), omitted), prompt, budget).None? { break; }
      included := next;
    }
  }

  lemma ShrinkStep(frame: Frame, blocks: seq<string>, oldest: nat, prompt: string, budget: nat)
    requires oldest <= |blocks|
    ensures var finalized, k := Finalize(frame, BodyOf(blocks[oldest..], oldest), prompt, budget), |blocks| - oldest;
            Shrink(frame, blocks, prompt, budget, k) ==
            if finalized.Some? then
              Packed(finalized.value, k, oldest, oldest > 0 || |prompt| != |PromptOnly(prompt, budget)|)
            else if k == 0 then GivenUp(blocks, prompt, budget)
            else Shrink(frame, blocks, prompt, budget, k - 1)
  {
    hide BodyOf, WithPrompt;
  }

  lemma PackUnfolds(frame: Frame, messages: seq<Message>, prompt: string, maxChars: Option<real>)
    ensures var budget, blocks := Budget(maxChars), Blocks(messages);
            Pack(frame, messages, prompt, maxChars) ==
            if messages == [] then Packed(PromptOnly(prompt, budget), 0, 0, |PromptOnly(prompt, budget)| != |prompt|)
            else Shrink(frame, blocks, prompt, budget, Greedy(frame, blocks, prompt, budget, 0))
  {
    hide Shrink, Greedy, MessageBlock;
  }

  lemma DropOldest(blocks: seq<string>, from: nat)
    requires from < |blocks|
    ensures blocks[from..][1..] == blocks[from + 1..]
  {}

  /** The final loop: until the text fits, drop the oldest block. */
  method DropUntilFits(frame: Frame, start: seq<string>, prompt: string, promptOnly: string, budget: nat, count: nat,
                       ghost blocks: seq<string>, ghost from: nat) returns (r: Packed)
    requires |blocks| == count && from <= count && start == blocks[from..]
    requires promptOnly == PromptOnly(prompt, budget)
    ensures r == Shrink(frame, blocks, prompt, budget, count - from)
  {
    hide Shrink, Finalize, BodyOf, PromptOnly;
    var included := start;
    ghost var oldest := from;
    while true
      invariant oldest <= count && included == blocks[oldest..]
      invariant Shrink(frame, blocks, prompt, budget, count - from) == Shrink(frame, blocks, prompt, budget, count - oldest)
      decreases count - oldest
    {
      ShrinkStep(frame, blocks, oldest, prompt, budget);
      var omitted := count - |included|;
      var finalized := Finalize(frame, BodyOf(included, omitted), prompt, budget);
      if finalized.Some? {
        return Packed(finalized.value, |included|, omitted, omitted > 0 || |prompt| != |promptOnly|);
      }
      if |included| == 0 {
        return Packed(promptOnly, 0, count, true);
      }
      DropOldest(blocks, oldest);
      included, oldest := included[1..], oldest + 1;
    }
  }

  method PackInto(frame: Frame, messages: seq<Message>, prompt: string, maxChars: Option<real>) returns (r: Packed)
    ensures r == Pack(frame, messages, prompt, maxChars)
  {
    hide Fits, Greedy, Shrink, MessageBlock, Pack;
    PackUnfolds(frame, messages, prompt, maxChars);
    var budget := Budget(maxChars);
    var promptOnly := if |prompt| <= budget then prompt else prompt[..budget];
    if |messages| == 0 {
      return Packed(promptOnly, 0, 0, |promptOnly| != |prompt|);
    }
    ghost var blocks := Blocks(messages);
    var newestFirst := BuildBlocks(messages);
    var newest := TakeNewest(frame, newestFirst, prompt, budget, blocks);
    ReversedPrefix(blocks, newestFirst, |newest|);
    r := DropUntilFits(frame, Reversed(newest), prompt, promptOnly, budget, |newestFirst|, blocks, |blocks| - |newest|);
  }

  method BuildBootstrapInput(messages: seq<Message>, prompt: string, maxChars: Option<real>) returns (r: Packed)
    ensures r == Pack(FRAME, messages, prompt, maxChars)
  {
    hide Pack;
    r := PackInto(FRAME, messages, prompt, maxChars);
  }

  // ----- What packing guarantees.

  /** The final loop never drops a block: what the first loop took fits, or nothing was taken. */
  lemma ShrinkNeverDrops(frame: Frame, blocks: seq<string>, prompt: string, budget: nat)
    ensures var k := Greedy(frame, blocks, prompt, budget, 0);
            Shrink(frame, blocks, prompt, budget, k) ==
            if Fits(frame, blocks, prompt, budget, k) then Included(frame, blocks, prompt, budget, k)
            else GivenUp(blocks, prompt, budget)
    ensures !Fits(frame, blocks, prompt, budget, Greedy(frame, blocks, prompt, budget, 0)) ==> Greedy(frame, blocks, prompt, budget, 0) == 0
  {
    hide Fits;
    GreedyStopsAtFirstMisfit(frame, blocks, prompt, budget, 0);
  }

  lemma PromptWithin(frame: Frame, body: string, prompt: string)
    ensures |prompt| < |WithPrompt(frame, body, prompt)|
  {}

  /** The text is within the budget; every message is included or omitted; the included ones are the
      last of the conversation, in order, and one more would not have fitted; the result is marked
      truncated exactly when a message or part of the prompt is missing. */
  lemma PackedWithinBudget(frame: Frame, messages: seq<Message>, prompt: string, maxChars: Option<real>)
    ensures var r, budget, blocks := Pack(frame, messages, prompt, maxChars), Budget(maxChars), Blocks(messages);
            && |r.text| <= budget
            && r.includedCount + r.omittedCount == |messages|
            && (r.includedCount > 0 ==> r.text == WithPrompt(frame, Body(blocks, r.includedCount), prompt))
            && (r.includedCount < |messages| ==> !Fits(frame, blocks, prompt, budget, r.includedCount + 1))
            && (r.truncated <==> r.omittedCount > 0 || |prompt| > budget)
            && (|prompt| > budget ==> r.text == prompt[..budget])
  {
    hide WithPrompt, Body;
    var budget, blocks := Budget(maxChars), Blocks(messages);
    if messages != [] {
      ShrinkNeverDrops(frame, blocks, prompt, budget);
      GreedyStopsAtFirstMisfit(frame, blocks, prompt, budget, 0);
      PromptWithin(frame, Body(blocks, Greedy(frame, blocks, prompt, budget, 0)), prompt);
    }
  }

  // ----- How far from the best the greedy choice can be.

  lemma {:induction false} OneMoreDigit(n: nat)
    ensures |NatText(n)| <= |NatText(n + 1)| <= |NatText(n)| + 1
  {
    if n >= 10 {
      if (n + 1) / 10 != n / 10 { OneMoreDigit(n / 10); }
    }
  }

  lemma BlockIsLong(message: Message)
    ensures |MessageBlock(message)| >= 6
  {}

  lemma SummaryLength(count: nat)
    ensures |OmittedSummary(count)| == |NatText(count)| + 58
  {
    assert |" earlier message(s) omitted to stay within input limits.]"| == 57;
  }

  /** Until the whole transcript is in, one more block makes the text longer. */
  lemma BodyGrows(blocks: seq<string>, k: nat)
    requires k + 1 < |blocks| && |blocks[|blocks| - k - 1]| >= 6
    ensures |Body(blocks, k)| < |Body(blocks, k + 1)|
  {
    var omitted := |blocks| - k;
    OneMoreDigit(omitted - 1);
    SummaryLength(omitted);
    SummaryLength(omitted - 1);
    assert blocks[omitted - 1..] == [blocks[omitted - 1]] + blocks[omitted..];
    assert blocks[omitted - 1..][1..] == blocks[omitted..];
  }

  lemma LongerBody(frame: Frame, a: string, b: string, prompt: string, budget: nat)
    requires |a| < |b| && Finalize(frame, b, prompt, budget).Some?
    ensures Finalize(frame, a, prompt, budget).Some?
  {}

  /** A longer part of the transcript that fits makes every shorter part fit. */
  lemma {:induction false} ShorterFits(frame: Frame, blocks: seq<string>, prompt: string, budget: nat, k: nat, j: nat)
    requires k <= j < |blocks| && forall i :: 0 <= i < |blocks| ==> |blocks[i]| >= 6
    requires Fits(frame, blocks, prompt, budget, j)
    ensures Fits(frame, blocks, prompt, budget, k)
    decreases j
  {
    if k < j {
      BodyGrows(blocks, j - 1);
      LongerBody(frame, Body(blocks, j - 1), Body(blocks, j), prompt, budget);
      ShorterFits(frame, blocks, prompt, budget, k, j - 1);
    }
  }

  /** No longer end of the conversation fits, except that the whole of it may: it needs no note about
      omitted messages. The choice is the longest that fits exactly when the whole does not fit, or is
      a single message, or all of it but the oldest message fits too. */
  lemma GreedyIsLongestIff(frame: Frame, messages: seq<Message>, prompt: string, maxChars: Option<real>)
    requires messages != []
    ensures var blocks, budget := Blocks(messages), Budget(maxChars);
            var chosen := Pack(frame, messages, prompt, maxChars).includedCount;
            && (forall j :: chosen < j < |messages| ==> !Fits(frame, blocks, prompt, budget, j))
            && ((forall j :: chosen < j <= |messages| ==> !Fits(frame, blocks, prompt, budget, j)) <==>
                || !Fits(frame, blocks, prompt, budget, |messages|)
                || |messages| == 1
                || Fits(frame, blocks, prompt, budget, |messages| - 1))
  {
    hide WithPrompt, Body, Finalize;
    var blocks, budget := Blocks(messages), Budget(maxChars);
    ShrinkNeverDrops(frame, blocks, prompt, budget);
    GreedyStopsAtFirstMisfit(frame, blocks, prompt, budget, 0);
    var chosen := Pack(frame, messages, prompt, maxChars).includedCount;
    forall i | 0 <= i < |blocks| ensures |blocks[i]| >= 6 { BlockIsLong(messages[i]); }
    forall j | chosen < j < |messages| ensures !Fits(frame, blocks, prompt, budget, j) {
      if Fits(frame, blocks, prompt, budget, j) { ShorterFits(frame, blocks, prompt, budget, chosen + 1, j); }
    }
    assert chosen == Greedy(frame, blocks, prompt, budget, 0);
    if chosen == |messages| > 1 { assert Fits(frame, blocks, prompt, budget, |messages| - 1); }
  }

  /** Two short messages and a budget of exactly the whole transcript: nothing at all is included. */
  lemma GreedyMissesTheWhole(frame: Frame, prompt: string)
    ensures var messages := [Message(false, "a", []), Message(false, "b", [])];
            var blocks := Blocks(messages);
            var budget := |WithPrompt(frame, Body(blocks, 2), prompt)|;
            && Fits(frame, blocks, prompt, budget, 2)
            && Pack(frame, messages, prompt, Some(budget as real)).includedCount == 0
  {
    var messages := [Message(false, "a", []), Message(false, "b", [])];
    var blocks := Blocks(messages);
    var budget := |WithPrompt(frame, Body(blocks, 2), prompt)|;
    TwoShortBlocks(messages[0], messages[1]);
    FirstDoesNotFit(frame, blocks, prompt, budget);
    assert Budget(Some(budget as real)) == budget;
  }

  lemma TwoShortBlocks(a: Message, b: Message)
    requires a == Message(false, "a", []) && b == Message(false, "b", [])
    ensures MessageBlock(a) == "USER:\na" && MessageBlock(b) == "USER:\nb"
  {}

  lemma FirstDoesNotFit(frame: Frame, blocks: seq<string>, prompt: string, budget: nat)
    requires blocks == ["USER:\na", "USER:\nb"]
    requires budget == |WithPrompt(frame, Body(blocks, 2), prompt)|
    ensures !Fits(frame, blocks, prompt, budget, 1)
    ensures Greedy(frame, blocks, prompt, budget, 0) == 0
    ensures Shrink(frame, blocks, prompt, budget, 0).includedCount == 0
  {
    hide OmittedSummary;
    assert blocks[0..] == blocks && blocks[1..] == ["USER:\nb"];
    SummaryLength(1);
    assert Join(["USER:\nb"], "\n\n") == "USER:\nb";
    assert |Join(blocks, "\n\n")| == 16;
    assert |Body(blocks, 1)| > 16;
  }
}
