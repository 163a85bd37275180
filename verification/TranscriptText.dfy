/** What a packed transcript reads like: its parts in order, and the block of one message. */
module TranscriptText {
  import opened Text
  import opened Decimal
  import opened Transcript

  // ----- One message.

  /** The names of the images among the attachments, in order. */
  ghost predicate NamesImages(attachments: seq<Attachment>, names: seq<string>) {
    if attachments == [] then names == []
    else
      var n := |attachments| - 1;
      if attachments[n].isImage then
        names != [] && names[|names| - 1] == attachments[n].name && NamesImages(attachments[..n], names[..|names| - 1])
      else NamesImages(attachments[..n], names)
  }

  lemma {:induction false} ImagesAppend(xs: seq<Attachment>, last: Attachment)
    ensures ImageNames(xs + [last]) == ImageNames(xs) + if last.isImage then [last.name] else []
  {
    if xs == [] {
      assert ([] + [last])[1..] == [];
    } else {
      assert (xs + [last])[1..] == xs[1..] + [last] && (xs + [last])[0] == xs[0];
      ImagesAppend(xs[1..], last);
    }
  }

  lemma {:induction false} ImageNamesAreTheImages(attachments: seq<Attachment>)
    ensures NamesImages(attachments, ImageNames(attachments))
  {
    if attachments != [] {
      var n := |attachments| - 1;
      ImageNamesAreTheImages(attachments[..n]);
      assert attachments == attachments[..n] + [attachments[n]];
      ImagesAppend(attachments[..n], attachments[n]);
      var names := ImageNames(attachments);
      if attachments[n].isImage {
        assert names[..|names| - 1] == ImageNames(attachments[..n]);
      } else {
        assert names == ImageNames(attachments[..n]);
      }
    }
  }

  /** Up to three images are named, the others counted. */
  function ImageLine(names: seq<string>): string
    requires names != []
  {
    if |names| == 1 then "[Attached image: " + names[0] + "]"
    else if |names| == 2 then "[Attached images: " + names[0] + ", " + names[1] + "]"
    else if |names| == 3 then "[Attached images: " + names[0] + ", " + names[1] + ", " + names[2] + "]"
    else "[Attached images: " + names[0] + ", " + names[1] + ", " + names[2] + " (+" + NatText(|names| - 3) + " more)]"
  }

  lemma JoinShort(names: seq<string>)
    requires 1 <= |names| <= 3
    ensures Join(names, ", ") ==
            if |names| == 1 then names[0]
            else if |names| == 2 then names[0] + ", " + names[1]
            else names[0] + ", " + (names[1] + ", " + names[2])
  {
    if |names| == 2 {
      assert names[1..] == [names[1]];
    } else if |names| == 3 {
      assert names[1..] == [names[1], names[2]] && [names[1], names[2]][1..] == [names[2]];
      assert Join([names[1], names[2]], ", ") == names[1] + ", " + names[2];
    }
  }

  lemma Regroup(open: string, a: string, b: string, c: string, sep: string, left: string, n: string, right: string, close: string)
    ensures open + a + sep + b + sep + c + left + n + (right + close)
         == open + (a + sep + (b + sep + c)) + (left + n + right) + close
  {
    assert open + a + sep + b + sep + c == open + (a + sep + (b + sep + c));
  }

  lemma ManyNames(names: seq<string>, shown: string)
    requires |names| > 3 && shown == names[0] + ", " + (names[1] + ", " + names[2])
    ensures ImageLine(names) == "[Attached image" + "s" + ": " + shown + (" (+" + NatText(|names| - 3) + " more)") + "]"
  {
    hide NatText;
    assert "[Attached image" + "s" + ": " == "[Attached images: ";
    assert " more)" + "]" == " more)]";
    Regroup("[Attached images: ", names[0], names[1], names[2], ", ", " (+", NatText(|names| - 3), " more)", "]");
  }

  lemma FewNames(names: seq<string>, shown: string)
    requires 1 <= |names| <= 3
    requires shown == if |names| == 1 then names[0]
                      else if |names| == 2 then names[0] + ", " + names[1]
                      else names[0] + ", " + (names[1] + ", " + names[2])
    ensures ImageLine(names) == "[Attached image" + (if |names| == 1 then "" else "s") + ": " + shown + "" + "]"
  {
    hide NatText;
    assert "[Attached image" + "" + ": " == "[Attached image: " && "[Attached image" + "s" + ": " == "[Attached images: ";
  }

  lemma ImageLineIs(names: seq<string>)
    requires names != []
    ensures var shown := if |names| > 3 then names[..3] else names;
            var extra := if |names| > 3 then " (+" + NatText(|names| - 3) + " more)" else "";
            ImageLine(names) == "[Attached image" + (if |names| == 1 then "" else "s") + ": " + Join(shown, ", ") + extra + "]"
  {
    hide Join, NatText, ImageLine;
    if |names| > 3 {
      JoinShort(names[..3]);
      ManyNames(names, Join(names[..3], ", "));
    } else {
      JoinShort(names);
      FewNames(names, Join(names, ", "));
    }
  }

  lemma SummaryReads(message: Message)
    ensures var names := ImageNames(message.attachments);
            AttachmentSummary(message) == if names == [] then None else Some(ImageLine(names))
  {
    hide Join, ImageLine;
    if ImageNames(message.attachments) != [] { ImageLineIs(ImageNames(message.attachments)); }
  }

  /** A block says who wrote the message, then its text, then its images, or that it is empty. */
  lemma BlockReads(message: Message)
    ensures NamesImages(message.attachments, ImageNames(message.attachments))
    ensures var names, who := ImageNames(message.attachments), if message.fromAssistant then "ASSISTANT:\n" else "USER:\n";
            MessageBlock(message) ==
            who + (if message.text == "" && names == [] then "(empty message)"
                   else if names == [] then message.text
                   else if message.text == "" then ImageLine(names)
                   else message.text + "\n" + ImageLine(names))
  {
    hide ImageLine, AttachmentSummary;
    ImageNamesAreTheImages(message.attachments);
    SummaryReads(message);
    assert "ASSISTANT" + ":\n" == "ASSISTANT:\n" && "USER" + ":\n" == "USER:\n";
  }

  // ----- The whole text.

  /** The note about what was left out. */
  function Note(omitted: nat): string {
    "[" + NatText(omitted) + " earlier message(s) omitted to stay within input limits.]"
  }

  /** The texts of the last `k` messages, a blank line between them. */
  function Tail(messages: seq<Message>, k: nat): string
    requires k <= |messages|
  {
    if k == 0 then ""
    else if k == 1 then MessageBlock(messages[|messages| - 1])
    else MessageBlock(messages[|messages| - k]) + "\n\n" + Tail(messages, k - 1)
  }

  lemma {:induction false} JoinsTail(messages: seq<Message>, k: nat)
    requires k <= |messages|
    ensures Join(Blocks(messages)[|messages| - k..], "\n\n") == Tail(messages, k)
  {
    hide MessageBlock;
    var last := Blocks(messages)[|messages| - k..];
    if k > 1 {
      JoinsTail(messages, k - 1);
      assert last[1..] == Blocks(messages)[|messages| - (k - 1)..];
    }
  }

  /** The budget is the whole part of the limit, and at least one character. */
  lemma BudgetIsWhole(maxChars: Option<real>)
    ensures maxChars.None? ==> Budget(maxChars) == 1
    ensures maxChars.Some? && maxChars.value < 1.0 ==> Budget(maxChars) == 1
    ensures maxChars.Some? && maxChars.value >= 1.0 ==>
              Budget(maxChars) as real <= maxChars.value < Budget(maxChars) as real + 1.0
  {}

  /** With k messages: the preamble, the note if any are left out, the last k in order, the request. */
  lemma BodyReads(frame: Frame, messages: seq<Message>, k: nat, prompt: string)
    requires k <= |messages|
    ensures var left := |messages| - k;
            WithPrompt(frame, Body(Blocks(messages), k), prompt) ==
            frame.preamble + "\n\n" + frame.transcriptHeader + "\n"
            + (if left == 0 then Tail(messages, k) else if k == 0 then Note(left) else Note(left) + "\n\n" + Tail(messages, k))
            + "\n\n" + frame.promptHeader + "\n" + prompt
  {
    hide MessageBlock, Join;
    JoinsTail(messages, k);
  }

  lemma PackReads(frame: Frame, messages: seq<Message>, prompt: string, maxChars: Option<real>)
    ensures var r, budget := Pack(frame, messages, prompt, maxChars), Budget(maxChars);
            var cut := if |prompt| <= budget then prompt else prompt[..budget];
            && r.includedCount <= |messages| && r.omittedCount == |messages| - r.includedCount
            && (messages == [] ==> r == Packed(cut, 0, 0, |prompt| > budget))
            && (messages != [] && r.text != WithPrompt(frame, Body(Blocks(messages), r.includedCount), prompt) ==>
                  && r == Packed(cut, 0, |messages|, true)
                  && !Fits(frame, Blocks(messages), prompt, budget, 0) && !Fits(frame, Blocks(messages), prompt, budget, 1))
  {
    hide WithPrompt, Body, MessageBlock;
    var budget, blocks := Budget(maxChars), Blocks(messages);
    PackedWithinBudget(frame, messages, prompt, maxChars);
    if messages != [] {
      ShrinkNeverDrops(frame, blocks, prompt, budget);
      GreedyStopsAtFirstMisfit(frame, blocks, prompt, budget, 0);
    }
  }

  /** The packed text is the frame around the last messages that are included, with a note about the
      others, or just the request, cut to the budget, when not even that fits. */
  lemma PackedReads(frame: Frame, messages: seq<Message>, prompt: string, maxChars: Option<real>)
    ensures var r, budget := Pack(frame, messages, prompt, maxChars), Budget(maxChars);
            var k, left := r.includedCount, |messages| - r.includedCount;
            var cut := if |prompt| <= budget then prompt else prompt[..budget];
            && k <= |messages| && r.omittedCount == left
            && (r.text == cut ||
                (messages != [] && r.text ==
                 frame.preamble + "\n\n" + frame.transcriptHeader + "\n"
                 + (if left == 0 then Tail(messages, k) else if k == 0 then Note(left) else Note(left) + "\n\n" + Tail(messages, k))
                 + "\n\n" + frame.promptHeader + "\n" + prompt))
  {
    hide Pack, WithPrompt, Body, Tail, MessageBlock;
    PackReads(frame, messages, prompt, maxChars);
    BodyReads(frame, messages, Pack(frame, messages, prompt, maxChars).includedCount, prompt);
  }
}
