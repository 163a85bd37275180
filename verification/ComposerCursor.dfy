/** Cursor positions in the composer (apps/web/src/composer-logic.ts): collapsed positions count an
    inline token as one character, expanded positions index the prompt. */
module ComposerCursor {
  import opened Text
  import opened ComposerSegments

  /** A cursor argument: any number, or one that is not finite. */
  datatype CursorInput = Finite(value: real) | NonFinite

  function Clamp(limit: nat, cursor: CursorInput): (r: nat)
    ensures r <= limit
  {
    match cursor
    case NonFinite => limit
    case Finite(value) =>
      var floor := value.Floor;
      if floor < 0 then 0 else if floor > limit then limit else floor
  }

  function ExpandedLength(segment: Segment): nat {
    match segment
    case TextSegment(text) => |text|
    case Mention(path) => |path| + 1
    case TerminalContext(_) => 1
  }

  function CollapsedLength(segment: Segment): nat {
    match segment
    case TextSegment(text) => |text|
    case _ => 1
  }

  function TotalExpanded(segments: seq<Segment>): nat {
    if segments == [] then 0 else ExpandedLength(segments[0]) + TotalExpanded(segments[1..])
  }

  function TotalCollapsed(segments: seq<Segment>): nat {
    if segments == [] then 0 else CollapsedLength(segments[0]) + TotalCollapsed(segments[1..])
  }

  function ExpandOver(segments: seq<Segment>, remaining: nat): nat {
    if segments == [] then 0
    else match segments[0]
      case Mention(path) =>
        if remaining <= 1 then (if remaining == 0 then 0 else |path| + 1)
        else |path| + 1 + ExpandOver(segments[1..], remaining - 1)
      case TerminalContext(_) =>
        if remaining <= 1 then remaining else 1 + ExpandOver(segments[1..], remaining - 1)
      case TextSegment(text) =>
        if remaining <= |text| then remaining else |text| + ExpandOver(segments[1..], remaining - |text|)
  }

  function CollapseOver(segments: seq<Segment>, remaining: nat): nat {
    if segments == [] then 0
    else match segments[0]
      case Mention(path) =>
        if remaining == 0 then 0
        else if remaining <= |path| + 1 then 1
        else 1 + CollapseOver(segments[1..], remaining - (|path| + 1))
      case TerminalContext(_) =>
        if remaining <= 1 then remaining else 1 + CollapseOver(segments[1..], remaining - 1)
      case TextSegment(text) =>
        if remaining <= |text| then remaining else |text| + CollapseOver(segments[1..], remaining - |text|)
  }

  function Expand(prompt: string, cursor: CursorInput): nat {
    ExpandOver(SplitPrompt(prompt, []), Clamp(|prompt|, cursor))
  }

  function Collapse(prompt: string, cursor: CursorInput): nat {
    CollapseOver(SplitPrompt(prompt, []), Clamp(|prompt|, cursor))
  }

  method ExpandCollapsedComposerCursor(text: string, cursorInput: CursorInput) returns (expanded: nat)
    ensures expanded == Expand(text, cursorInput)
  {
    var collapsedCursor := Clamp(|text|, cursorInput);
    var segments := SplitPromptIntoComposerSegments(text, []);
    if |segments| == 0 {
      SegmentationIsLossless(text, []);
      return collapsedCursor;
    }
    var remaining, expandedCursor := collapsedCursor, 0;
    for i := 0 to |segments|
      invariant Expand(text, cursorInput) == expandedCursor + ExpandOver(segments[i..], remaining)
    {
      assert segments[i..][1..] == segments[i + 1..];
      match segments[i] {
        case Mention(path) =>
          var expandedLength := |path| + 1;
          if remaining <= 1 { return expandedCursor + if remaining == 0 then 0 else expandedLength; }
          remaining := remaining - 1;
          expandedCursor := expandedCursor + expandedLength;
        case TerminalContext(_) =>
          if remaining <= 1 { return expandedCursor + remaining; }
          remaining := remaining - 1;
          expandedCursor := expandedCursor + 1;
        case TextSegment(part) =>
          if remaining <= |part| { return expandedCursor + remaining; }
          remaining := remaining - |part|;
          expandedCursor := expandedCursor + |part|;
      }
    }
    return expandedCursor;
  }

  method CollapseExpandedComposerCursor(text: string, cursorInput: CursorInput) returns (collapsed: nat)
    ensures collapsed == Collapse(text, cursorInput)
  {
    var expandedCursor := Clamp(|text|, cursorInput);
    var segments := SplitPromptIntoComposerSegments(text, []);
    if |segments| == 0 {
      SegmentationIsLossless(text, []);
      return expandedCursor;
    }
    var remaining, collapsedCursor := expandedCursor, 0;
    for i := 0 to |segments|
      invariant Collapse(text, cursorInput) == collapsedCursor + CollapseOver(segments[i..], remaining)
    {
      assert segments[i..][1..] == segments[i + 1..];
      match segments[i] {
        case Mention(path) =>
          var expandedLength := |path| + 1;
          if remaining == 0 { return collapsedCursor; }
          if remaining <= expandedLength { return collapsedCursor + 1; }
          remaining := remaining - expandedLength;
          collapsedCursor := collapsedCursor + 1;
        case TerminalContext(_) =>
          if remaining <= 1 { return collapsedCursor + remaining; }
          remaining := remaining - 1;
          collapsedCursor := collapsedCursor + 1;
        case TextSegment(part) =>
          if remaining <= |part| { return collapsedCursor + remaining; }
          remaining := remaining - |part|;
          collapsedCursor := collapsedCursor + |part|;
      }
    }
    return collapsedCursor;
  }

  /** `clampCollapsedComposerCursor`. */
  method ClampCollapsedComposerCursor(text: string, cursorInput: CursorInput) returns (r: nat)
    ensures r == Clamp(TotalCollapsed(SplitPrompt(text, [])), cursorInput)
  {
    var segments := SplitPromptIntoComposerSegments(text, []);
    var collapsedLength := 0;
    for i := 0 to |segments|
      invariant collapsedLength + TotalCollapsed(segments[i..]) == TotalCollapsed(segments)
    {
      assert segments[i..][1..] == segments[i + 1..];
      collapsedLength := collapsedLength + CollapsedLength(segments[i]);
    }
    r := Clamp(collapsedLength, cursorInput);
  }

  // ----- The two maps are adjoint.

  lemma {:induction false} AdjointOver(segments: seq<Segment>, c: nat, e: nat)
    requires e <= TotalExpanded(segments)
    ensures CollapseOver(segments, e) <= c <==> e <= ExpandOver(segments, c)
  {
    if segments != [] {
      var rest := segments[1..];
      var m, n := CollapsedLength(segments[0]), ExpandedLength(segments[0]);
      if c >= m && e >= n {
        AdjointOver(rest, c - m, e - n);
      } else if e > n {
        CollapsePositive(rest, e - n);
      }
    }
  }

  lemma CollapsePositive(segments: seq<Segment>, e: nat)
    requires 0 < e <= TotalExpanded(segments)
    ensures CollapseOver(segments, e) > 0
  {}

  lemma RenderedLength(segments: seq<Segment>)
    ensures TotalExpanded(segments) == |Render(segments)|
  {}

  lemma PromptLength(prompt: string)
    ensures TotalExpanded(SplitPrompt(prompt, [])) == |prompt|
  {
    SegmentationIsLossless(prompt, []);
    RenderedLength(SplitPrompt(prompt, []));
  }

  function At(position: int): CursorInput { Finite(position as real) }

  /** A Galois connection: for every collapsed position `c` and expanded position `e` of the prompt,
      `collapse(e) <= c` exactly when `e <= expand(c)`. */
  lemma CursorMapsAreAdjoint(prompt: string, c: nat, e: nat)
    requires e <= |prompt|
    ensures Collapse(prompt, At(e)) <= c <==> e <= Expand(prompt, At(c))
  {
    var segments := SplitPrompt(prompt, []);
    PromptLength(prompt);
    assert (e as real).Floor == e && (c as real).Floor == c;
    CollapsedIsShorter(segments);
    CollapseInRange(segments, e);
    if c <= |prompt| {
      AdjointOver(segments, c, e);
    } else {
      AdjointOver(segments, |prompt|, e);
    }
  }

  lemma CollapsedIsShorter(segments: seq<Segment>)
    ensures TotalCollapsed(segments) <= TotalExpanded(segments)
  {}

  lemma CollapseInRange(segments: seq<Segment>, e: nat)
    requires e <= TotalExpanded(segments)
    ensures CollapseOver(segments, e) <= TotalCollapsed(segments)
  {}

  lemma {:induction false} CollapseAfterExpandOver(segments: seq<Segment>, c: nat)
    requires c <= TotalCollapsed(segments)
    ensures CollapseOver(segments, ExpandOver(segments, c)) == c
  {
    if segments != [] {
      var m := CollapsedLength(segments[0]);
      if c > m {
        CollapseAfterExpandOver(segments[1..], c - m);
        if ExpandOver(segments[1..], c - m) == 0 { CollapseZero(segments[1..]); }
      }
    }
  }

  lemma CollapseZero(segments: seq<Segment>)
    ensures CollapseOver(segments, 0) == 0
  {}

  /** Every collapsed position survives expansion and collapse. */
  lemma CollapseUndoesExpand(prompt: string, c: nat)
    requires c <= TotalCollapsed(SplitPrompt(prompt, []))
    ensures Collapse(prompt, At(Expand(prompt, At(c)))) == c
  {
    var segments := SplitPrompt(prompt, []);
    PromptLength(prompt);
    CollapsedIsShorter(segments);
    ExpandInRange(segments, c);
    CollapseAfterExpandOver(segments, c);
    assert (c as real).Floor == c;
    assert (ExpandOver(segments, c) as real).Floor == ExpandOver(segments, c);
  }

  lemma CursorMapsAreMonotone(prompt: string, a: nat, b: nat)
    requires a <= b <= |prompt|
    ensures Expand(prompt, At(a)) <= Expand(prompt, At(b))
    ensures Collapse(prompt, At(a)) <= Collapse(prompt, At(b))
  {
    var ea := Expand(prompt, At(a));
    ExpandInRange(SplitPrompt(prompt, []), a);
    PromptLength(prompt);
    assert (a as real).Floor == a;
    CursorMapsAreAdjoint(prompt, a, ea);
    CursorMapsAreAdjoint(prompt, b, ea);
    CursorMapsAreAdjoint(prompt, Collapse(prompt, At(b)), b);
    CursorMapsAreAdjoint(prompt, Collapse(prompt, At(b)), a);
  }

  lemma ExpandInRange(segments: seq<Segment>, c: nat)
    ensures ExpandOver(segments, c) <= TotalExpanded(segments)
  {}

  /** Strictly inside a mention segment. */
  ghost predicate InsideMention(segments: seq<Segment>, e: int) {
    exists p, q :: HasMention(segments, p, q) && p < e < q
  }

  lemma {:induction false} ExpandAfterCollapseOver(segments: seq<Segment>, e: nat)
    requires e <= TotalExpanded(segments)
    ensures ExpandOver(segments, CollapseOver(segments, e)) >= e
    ensures ExpandOver(segments, CollapseOver(segments, e)) == e <==> !InsideMention(segments, e)
  {
    if segments != [] {
      var rest := segments[1..];
      var m, n := CollapsedLength(segments[0]), ExpandedLength(segments[0]);
      assert n == |RenderOne(segments[0])|;
      InsideFirstOrRest(segments, e);
      if e > n {
        ExpandAfterCollapseOver(rest, e - n);
        CollapsePositive(rest, e - n);
      } else {
        NothingBeforeZero(rest, e - n);
      }
    }
  }

  lemma NothingBeforeZero(segments: seq<Segment>, e: int)
    requires e <= 0
    ensures !InsideMention(segments, e)
  {
    forall p, q | HasMention(segments, p, q) ensures !(p < e < q) {
      HasMentionInside(segments, p, q);
    }
  }

  lemma InsideFirstOrRest(segments: seq<Segment>, e: int)
    requires segments != []
    ensures var n := |RenderOne(segments[0])|;
            InsideMention(segments, e) <==>
            (segments[0].Mention? && 0 < e < n) || InsideMention(segments[1..], e - n)
  {
    var n := |RenderOne(segments[0])|;
    if InsideMention(segments, e) {
      var p, q :| HasMention(segments, p, q) && p < e < q;
      if !(segments[0].Mention? && p == 0 && q == n) {
        assert HasMention(segments[1..], p - n, q - n);
      }
    }
    if segments[0].Mention? && 0 < e < n {
      assert HasMention(segments, 0, n);
    }
    if InsideMention(segments[1..], e - n) {
      var p, q :| HasMention(segments[1..], p, q) && p < e - n < q;
      assert HasMention(segments, p + n, q + n);
    }
  }

  /** Expanding what was collapsed never moves left, and moves at all exactly when the position was
      strictly inside a mention of the prompt. */
  lemma ExpandAfterCollapse(prompt: string, e: nat)
    requires e <= |prompt|
    ensures Expand(prompt, At(Collapse(prompt, At(e)))) >= e
    ensures Expand(prompt, At(Collapse(prompt, At(e)))) == e <==>
            forall p, q :: MentionSpan(prompt, p, q) ==> !(p < e < q)
  {
    var segments := SplitPrompt(prompt, []);
    PromptLength(prompt);
    var c := CollapseOver(segments, e);
    CollapsedIsShorter(segments);
    CollapseInRange(segments, e);
    assert (e as real).Floor == e && (c as real).Floor == c;
    ExpandAfterCollapseOver(segments, e);
    forall p, q ensures HasMention(segments, p, q) <==> MentionSpan(prompt, p, q) {
      SegmentsAreExactlyTheMentions(prompt, [], p, q);
    }
  }

  // ----- Cursors out of range, fractions, and no number.

  /** What is no number is the end, what is negative the start, what is too large the end, and a fraction
      counts as the whole number below it. */
  lemma ClampReads(limit: nat, cursor: CursorInput)
    ensures cursor.NonFinite? ==> Clamp(limit, cursor) == limit
    ensures cursor.Finite? && cursor.value < 0.0 ==> Clamp(limit, cursor) == 0
    ensures cursor.Finite? && cursor.value >= limit as real ==> Clamp(limit, cursor) == limit
    ensures cursor.Finite? && 0.0 <= cursor.value <= limit as real ==>
              Clamp(limit, cursor) as real <= cursor.value < Clamp(limit, cursor) as real + 1.0
  {}

  /** So both maps treat such a cursor like the position in range that it stands for. */
  lemma OutOfRangeCursors(prompt: string, cursor: CursorInput)
    ensures Expand(prompt, cursor) == Expand(prompt, At(Clamp(|prompt|, cursor)))
    ensures Collapse(prompt, cursor) == Collapse(prompt, At(Clamp(|prompt|, cursor)))
  {
    ClampReads(|prompt|, cursor);
  }
}
