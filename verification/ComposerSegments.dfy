/** Splitting a composer prompt into text, mentions and terminal contexts
    (apps/web/src/composer-editor-mentions.ts). */
module ComposerSegments {
  import opened Text

  /** `INLINE_TERMINAL_CONTEXT_PLACEHOLDER`. */
  const PLACEHOLDER: char := '\U{FFFC}'

  datatype Segment =
    | TextSegment(text: string)
    | Mention(path: string)
    | TerminalContext(context: Option<string>)

  // ----- The mention pattern: `(^|\s)@([^\s@]+)(?=\s)`.

  predicate PathChar(c: char) { !IsSpace(c) && c != '@' }

  /** How far a path reaches from `i`. */
  function PathRun(text: string, i: nat): (n: nat)
    requires i <= |text|
    ensures i + n <= |text|
    ensures forall k :: i <= k < i + n ==> PathChar(text[k])
    ensures i + n < |text| ==> !PathChar(text[i + n])
    decreases |text| - i
  {
    if i < |text| && PathChar(text[i]) then 1 + PathRun(text, i + 1) else 0
  }

  /** The end of the mention whose `@` is at `p`, if the pattern matches there. */
  function MentionEnd(text: string, p: nat): (end: Option<nat>)
    requires p < |text|
    ensures end.Some? ==> p + 1 < end.value < |text|
  {
    if text[p] == '@' && (p == 0 || IsSpace(text[p - 1])) then
      var n := PathRun(text, p + 1);
      if n > 0 && p + 1 + n < |text| && IsSpace(text[p + 1 + n]) then Some(p + 1 + n) else None
    else None
  }

  function TextUnlessEmpty(text: string): seq<Segment> {
    if text == "" then [] else [TextSegment(text)]
  }

  /** A text, unless empty, and a token put in front of what follows. */
  function Before(text: string, token: Segment, rest: seq<Segment>): seq<Segment> {
    if text == "" then [token] + rest else [TextSegment(text)] + ([token] + rest)
  }

  /** The segments of `text[start..]` when no mention starts in `start..p`. */
  function SplitFrom(text: string, start: nat, p: nat): seq<Segment>
    requires start <= p <= |text|
    decreases |text| - p
  {
    if p == |text| then TextUnlessEmpty(text[start..])
    else match MentionEnd(text, p)
      case None => SplitFrom(text, start, p + 1)
      case Some(end) => Before(text[start..p], Mention(text[p + 1..end]), SplitFrom(text, end, end))
  }

  function SplitText(text: string): seq<Segment> { SplitFrom(text, 0, 0) }

  /** `pushTextSegment`: extends a trailing text segment instead of starting another. */
  function PushText(segments: seq<Segment>, text: string): seq<Segment> {
    if text == "" then segments
    else
      var n := |segments|;
      if n > 0 && segments[n - 1].TextSegment? then
        segments[n - 1 := TextSegment(segments[n - 1].text + text)]
      else segments + [TextSegment(text)]
  }

  /** The next match at or after `from`: where its `@` is and where it ends. */
  method NextMention(text: string, from: nat) returns (start: nat, end: Option<nat>)
    requires from <= |text|
    ensures from <= start <= |text|
    ensures end.None? ==> start == |text|
    ensures end.Some? ==> start < |text| && end == MentionEnd(text, start)
    ensures SplitFrom(text, from, from) == SplitFrom(text, from, start)
  {
    start := from;
    while start < |text|
      invariant from <= start <= |text|
      invariant SplitFrom(text, from, from) == SplitFrom(text, from, start)
    {
      end := MentionEnd(text, start);
      if end.Some? { return; }
      start := start + 1;
    }
    end := None;
  }

  /** The body of the matching loop: the text before the mention, then the mention. */
  method PushMention(segments: seq<Segment>, text: string, cursor: nat, start: nat, end: nat)
    returns (r: seq<Segment>)
    requires cursor <= start < end <= |text|
    requires segments == [] || segments[|segments| - 1].Mention?
    ensures r == segments + Before(text[cursor..start], Mention(text[start + 1..end]), [])
    ensures r[|r| - 1].Mention?
  {
    r := segments;
    if start > cursor {
      r := PushText(r, text[cursor..start]);
    }
    r := r + [Mention(text[start + 1..end])];
  }

  method SplitPromptTextIntoComposerSegments(text: string) returns (segments: seq<Segment>)
    ensures segments == SplitText(text)
  {
    segments := [];
    if text == "" { return; }
    var cursor := 0;
    var start, end := NextMention(text, 0);
    while end.Some?
      invariant cursor <= start <= |text|
      invariant end.None? ==> start == |text|
      invariant end.Some? ==> start < |text| && end == MentionEnd(text, start)
      invariant SplitText(text) == segments + SplitFrom(text, cursor, start)
      invariant segments == [] || segments[|segments| - 1].Mention?
      decreases |text| - cursor, end.Some?
    {
      StepPast(text, segments, cursor, start, end.value);
      segments := PushMention(segments, text, cursor, start, end.value);
      cursor := end.value;
      start, end := NextMention(text, cursor);
    }
    segments := PushRest(segments, text, cursor);
  }

  method PushRest(segments: seq<Segment>, text: string, cursor: nat) returns (r: seq<Segment>)
    requires cursor <= |text|
    requires segments == [] || segments[|segments| - 1].Mention?
    ensures r == segments + TextUnlessEmpty(text[cursor..])
  {
    r := segments;
    if cursor < |text| {
      r := PushText(segments, text[cursor..]);
    }
  }

  lemma StepPast(text: string, segments: seq<Segment>, cursor: nat, start: nat, end: nat)
    requires cursor <= start < |text| && MentionEnd(text, start) == Some(end)
    ensures segments + SplitFrom(text, cursor, start) ==
            segments + Before(text[cursor..start], Mention(text[start + 1..end]), []) + SplitFrom(text, end, end)
  {
    BeforeAppend(segments, text[cursor..start], Mention(text[start + 1..end]), SplitFrom(text, end, end));
  }

  lemma BeforeAppend(front: seq<Segment>, text: string, token: Segment, rest: seq<Segment>)
    ensures front + Before(text, token, rest) == front + Before(text, token, []) + rest
  {}

  lemma Associative(a: seq<Segment>, b: seq<Segment>, c: seq<Segment>, d: seq<Segment>)
    ensures a + (b + (c + d)) == a + b + c + d
  {}

  // ----- The whole prompt: placeholders first, mentions within the pieces.

  function ContextFor(contexts: seq<string>, k: nat): Option<string> {
    if k < |contexts| then Some(contexts[k]) else None
  }

  /** The segments of `prompt[start..]` when no placeholder lies in `start..index`. */
  function SplitPromptFrom(prompt: string, contexts: seq<string>, start: nat, index: nat, used: nat): seq<Segment>
    requires start <= index <= |prompt|
    decreases |prompt| - index
  {
    if index == |prompt| then SplitText(prompt[start..])
    else if prompt[index] != PLACEHOLDER then SplitPromptFrom(prompt, contexts, start, index + 1, used)
    else SplitText(prompt[start..index])
         + ([TerminalContext(ContextFor(contexts, used))]
            + SplitPromptFrom(prompt, contexts, index + 1, index + 1, used + 1))
  }

  function SplitPrompt(prompt: string, contexts: seq<string>): seq<Segment> {
    SplitPromptFrom(prompt, contexts, 0, 0, 0)
  }

  method SplitPromptIntoComposerSegments(prompt: string, terminalContexts: seq<string>)
    returns (segments: seq<Segment>)
    ensures segments == SplitPrompt(prompt, terminalContexts)
  {
    segments := [];
    if prompt == "" { return; }
    var textCursor, terminalContextIndex := 0, 0;
    for index := 0 to |prompt|
      invariant textCursor <= index
      invariant SplitPrompt(prompt, terminalContexts) ==
                segments + SplitPromptFrom(prompt, terminalContexts, textCursor, index, terminalContextIndex)
    {
      if prompt[index] != PLACEHOLDER { continue; }
      var context := if terminalContextIndex < |terminalContexts| then Some(terminalContexts[terminalContextIndex]) else None;
      Associative(segments, SplitText(prompt[textCursor..index]), [TerminalContext(context)],
                  SplitPromptFrom(prompt, terminalContexts, index + 1, index + 1, terminalContextIndex + 1));
      assert index == textCursor ==> segments + SplitText(prompt[textCursor..index]) == segments;
      if index > textCursor {
        var piece := SplitPromptTextIntoComposerSegments(prompt[textCursor..index]);
        segments := segments + piece;
      }
      segments := segments + [TerminalContext(context)];
      terminalContextIndex := terminalContextIndex + 1;
      textCursor := index + 1;
    }
    if textCursor < |prompt| {
      var piece := SplitPromptTextIntoComposerSegments(prompt[textCursor..]);
      segments := segments + piece;
    }
  }

  // ----- Lossless.

  function RenderOne(segment: Segment): string {
    match segment
    case TextSegment(text) => text
    case Mention(path) => "@" + path
    case TerminalContext(_) => [PLACEHOLDER]
  }

  function Render(segments: seq<Segment>): string {
    if segments == [] then "" else RenderOne(segments[0]) + Render(segments[1..])
  }

  lemma {:induction false} RenderAppend(a: seq<Segment>, b: seq<Segment>)
    ensures Render(a + b) == Render(a) + Render(b)
  {
    if a == [] {
      assert a + b == b;
    } else {
      assert (a + b)[1..] == a[1..] + b;
      RenderAppend(a[1..], b);
    }
  }

  lemma RenderTextUnlessEmpty(text: string)
    ensures Render(TextUnlessEmpty(text)) == text
  {
    if text != "" {
      assert Render([TextSegment(text)]) == text + Render([]);
    }
  }

  lemma RenderCons(segment: Segment, rest: seq<Segment>)
    ensures Render([segment] + rest) == RenderOne(segment) + Render(rest)
  {
    assert ([segment] + rest)[1..] == rest;
  }

  lemma RenderBefore(text: string, token: Segment, rest: seq<Segment>)
    ensures Render(Before(text, token, rest)) == text + (RenderOne(token) + Render(rest))
  {
    RenderCons(token, rest);
    RenderCons(TextSegment(text), [token] + rest);
  }

  lemma {:induction false} SplitFromIsLossless(text: string, start: nat, p: nat)
    requires start <= p <= |text|
    ensures Render(SplitFrom(text, start, p)) == text[start..]
    decreases |text| - p
  {
    if p == |text| {
      RenderTextUnlessEmpty(text[start..]);
    } else {
      match MentionEnd(text, p)
      case None => SplitFromIsLossless(text, start, p + 1);
      case Some(end) =>
        SplitFromIsLossless(text, end, end);
        RenderMentionThen(text, start, p, end, SplitFrom(text, end, end));
    }
  }

  lemma RenderMentionThen(text: string, start: nat, p: nat, end: nat, rest: seq<Segment>)
    requires start <= p < end <= |text| && text[p] == '@' && Render(rest) == text[end..]
    ensures Render(Before(text[start..p], Mention(text[p + 1..end]), rest)) == text[start..]
  {
    RenderBefore(text[start..p], Mention(text[p + 1..end]), rest);
    Reassemble(text, start, p, end, text[p + 1..end]);
  }

  /** A string cut in three, the middle part given by its first character and its tail. */
  lemma Reassemble(text: string, start: nat, p: nat, end: nat, tail: string)
    requires start <= p < end <= |text| && tail == text[p + 1..end]
    ensures text[start..] == text[start..p] + (([text[p]] + tail) + text[end..])
  {
    assert text[p..end] == [text[p]] + tail;
    assert text[p..] == text[p..end] + text[end..];
    assert text[start..] == text[start..p] + text[p..];
  }

  lemma RenderPieceThen(prompt: string, start: nat, index: nat, piece: seq<Segment>, context: Segment, rest: seq<Segment>)
    requires start <= index < |prompt| && prompt[index] == PLACEHOLDER && context.TerminalContext?
    requires Render(piece) == prompt[start..index] && Render(rest) == prompt[index + 1..]
    ensures Render(piece + ([context] + rest)) == prompt[start..]
  {
    RenderAround(piece, context, rest);
    Reassemble(prompt, start, index, index + 1, "");
  }

  lemma RenderAround(piece: seq<Segment>, context: Segment, rest: seq<Segment>)
    requires context.TerminalContext?
    ensures Render(piece + ([context] + rest)) == Render(piece) + (([PLACEHOLDER] + "") + Render(rest))
  {
    RenderCons(context, rest);
    RenderAppend(piece, [context] + rest);
  }

  lemma {:induction false} SplitPromptFromIsLossless(prompt: string, contexts: seq<string>, start: nat, index: nat, used: nat)
    requires start <= index <= |prompt|
    ensures Render(SplitPromptFrom(prompt, contexts, start, index, used)) == prompt[start..]
    decreases |prompt| - index
  {
    if index == |prompt| {
      SplitFromIsLossless(prompt[start..], 0, 0);
    } else if prompt[index] != PLACEHOLDER {
      SplitPromptFromIsLossless(prompt, contexts, start, index + 1, used);
    } else {
      SplitPromptFromIsLossless(prompt, contexts, index + 1, index + 1, used + 1);
      SplitFromIsLossless(prompt[start..index], 0, 0);
      RenderPieceThen(prompt, start, index, SplitText(prompt[start..index]), TerminalContext(ContextFor(contexts, used)),
                      SplitPromptFrom(prompt, contexts, index + 1, index + 1, used + 1));
    }
  }

  /** Rendering the segments of a prompt gives the prompt back. */
  lemma SegmentationIsLossless(prompt: string, contexts: seq<string>)
    ensures Render(SplitPrompt(prompt, contexts)) == prompt
  {
    SplitPromptFromIsLossless(prompt, contexts, 0, 0, 0);
  }

  // ----- Normal form: no empty segment, no two adjacent texts.

  ghost predicate NormalForm(segments: seq<Segment>) {
    && (forall i :: 0 <= i < |segments| ==> segments[i].TextSegment? ==> segments[i].text != "")
    && (forall i :: 0 <= i < |segments| ==> segments[i].Mention? ==> segments[i].path != "")
    && (forall i :: 0 <= i < |segments| - 1 ==> !(segments[i].TextSegment? && segments[i + 1].TextSegment?))
  }

  lemma NormalFormJoin(a: seq<Segment>, token: Segment, b: seq<Segment>)
    requires NormalForm(a) && NormalForm(b) && !token.TextSegment?
    requires token.Mention? ==> token.path != ""
    ensures NormalForm(a + ([token] + b))
  {}

  lemma {:induction false} SplitFromIsNormal(text: string, start: nat, p: nat)
    requires start <= p <= |text|
    ensures NormalForm(SplitFrom(text, start, p))
    decreases |text| - p
  {
    if p < |text| {
      match MentionEnd(text, p)
      case None => SplitFromIsNormal(text, start, p + 1);
      case Some(end) =>
        SplitFromIsNormal(text, end, end);
        NormalFormJoin(TextUnlessEmpty(text[start..p]), Mention(text[p + 1..end]), SplitFrom(text, end, end));
        BeforeIsJoin(text[start..p], Mention(text[p + 1..end]), SplitFrom(text, end, end));
    }
  }

  lemma BeforeIsJoin(text: string, token: Segment, rest: seq<Segment>)
    ensures Before(text, token, rest) == TextUnlessEmpty(text) + ([token] + rest)
  {}

  lemma {:induction false} SplitPromptFromIsNormal(prompt: string, contexts: seq<string>, start: nat, index: nat, used: nat)
    requires start <= index <= |prompt|
    ensures NormalForm(SplitPromptFrom(prompt, contexts, start, index, used))
    decreases |prompt| - index
  {
    if index == |prompt| {
      SplitFromIsNormal(prompt[start..], 0, 0);
    } else if prompt[index] != PLACEHOLDER {
      SplitPromptFromIsNormal(prompt, contexts, start, index + 1, used);
    } else {
      SplitFromIsNormal(prompt[start..index], 0, 0);
      SplitPromptFromIsNormal(prompt, contexts, index + 1, index + 1, used + 1);
      NormalFormJoin(SplitText(prompt[start..index]), TerminalContext(ContextFor(contexts, used)),
                     SplitPromptFrom(prompt, contexts, index + 1, index + 1, used + 1));
    }
  }

  /** No text segment is empty and no two are adjacent. */
  lemma SegmentationIsNormal(prompt: string, contexts: seq<string>)
    ensures NormalForm(SplitPrompt(prompt, contexts))
  {
    SplitPromptFromIsNormal(prompt, contexts, 0, 0, 0);
  }

  // ----- Exactly the mentions: a reference definition over the whole prompt.

  /** A mention spans `p .. e`: an `@` at the start of the prompt, after whitespace or after a
      placeholder; then at least one character that is neither whitespace, `@` nor placeholder;
      then whitespace. */
  ghost predicate MentionSpan(prompt: string, p: int, e: int) {
    && 0 <= p && p + 1 < e < |prompt|
    && prompt[p] == '@'
    && (p == 0 || IsSpace(prompt[p - 1]) || prompt[p - 1] == PLACEHOLDER)
    && (forall k :: p < k < e ==> PathChar(prompt[k]) && prompt[k] != PLACEHOLDER)
    && IsSpace(prompt[e])
  }

  /** Some mention segment covers the characters `p .. e` of the rendered prompt. */
  ghost predicate HasMention(segments: seq<Segment>, p: int, e: int)
    decreases |segments|
  {
    segments != [] &&
    (|| (segments[0].Mention? && p == 0 && e == |RenderOne(segments[0])|)
     || HasMention(segments[1..], p - |RenderOne(segments[0])|, e - |RenderOne(segments[0])|))
  }

  lemma {:induction false} HasMentionAppend(a: seq<Segment>, b: seq<Segment>, p: int, e: int)
    ensures HasMention(a + b, p, e) <==>
            HasMention(a, p, e) || HasMention(b, p - |Render(a)|, e - |Render(a)|)
    decreases |a|
  {
    if a == [] {
      assert a + b == b;
    } else {
      assert (a + b)[1..] == a[1..] + b;
      var n := |RenderOne(a[0])|;
      HasMentionAppend(a[1..], b, p - n, e - n);
    }
  }

  lemma {:induction false} HasMentionInside(segments: seq<Segment>, p: int, e: int)
    requires HasMention(segments, p, e)
    ensures 0 <= p < e <= |Render(segments)|
    decreases |segments|
  {
    if !(segments[0].Mention? && p == 0 && e == |RenderOne(segments[0])|) {
      var n := |RenderOne(segments[0])|;
      HasMentionInside(segments[1..], p - n, e - n);
    }
  }

  lemma TextHasNoMention(text: string, p: int, e: int)
    ensures !HasMention(TextUnlessEmpty(text), p, e)
  {
    if text != "" {
      assert [TextSegment(text)][1..] == [];
      assert !HasMention([], p - |text|, e - |text|);
    }
  }

  lemma ConsMentions(segment: Segment, rest: seq<Segment>, p: int, e: int)
    ensures var n := |RenderOne(segment)|;
            HasMention([segment] + rest, p, e) <==>
            (segment.Mention? && p == 0 && e == n) || HasMention(rest, p - n, e - n)
  {
    assert ([segment] + rest)[1..] == rest;
  }

  lemma BeforeMentions(text: string, token: Segment, rest: seq<Segment>, p: int, e: int)
    ensures var n := |RenderOne(token)|;
            HasMention(Before(text, token, rest), p, e) <==>
            (token.Mention? && p == |text| && e == |text| + n) || HasMention(rest, p - |text| - n, e - |text| - n)
  {
    ConsMentions(token, rest, p - |text|, e - |text|);
    ConsMentions(TextSegment(text), [token] + rest, p, e);
  }

  lemma {:induction false} PieceMentions(text: string, start: nat, at: nat, p: int, e: int)
    requires start <= at <= |text|
    ensures HasMention(SplitFrom(text, start, at), p - start, e - start) <==>
            at <= p < |text| && MentionEnd(text, p) == Some(e)
    decreases |text| - at
  {
    if at == |text| {
      TextHasNoMention(text[start..], p - start, e - start);
    } else {
      match MentionEnd(text, at)
      case None => PieceMentions(text, start, at + 1, p, e);
      case Some(end) =>
        PieceMentions(text, end, end, p, e);
        MentionThen(text[start..at], text[at + 1..end], SplitFrom(text, end, end), start, at, end, p, e);
        assert forall q :: at < q < end ==> text[q] != '@';
    }
  }

  lemma MentionThen(front: string, path: string, rest: seq<Segment>, start: nat, at: nat, end: nat, p: int, e: int)
    requires start <= at < end && |front| == at - start && |path| == end - at - 1
    ensures HasMention(Before(front, Mention(path), rest), p - start, e - start) <==>
            (p == at && e == end) || HasMention(rest, p - end, e - end)
  {
    var p', e' := p - start, e - start;
    BeforeMentions(front, Mention(path), rest, p', e');
    var n := |RenderOne(Mention(path))|;
    assert n == end - at;
    assert p' - |front| - n == p - end && e' - |front| - n == e - end;
  }

  /** Inside a piece between placeholders, the pattern sees what the prompt-wide definition says. */
  lemma PieceSpan(prompt: string, a: nat, b: nat, p: int, e: int)
    requires a <= p < b <= |prompt|
    requires a == 0 || prompt[a - 1] == PLACEHOLDER
    requires b == |prompt| || prompt[b] == PLACEHOLDER
    requires forall k :: a <= k < b ==> prompt[k] != PLACEHOLDER
    ensures MentionSpan(prompt, p, e) <==> e >= a && MentionEnd(prompt[a..b], p - a) == Some(e - a)
  {
    if MentionSpan(prompt, p, e) { SpanIsMatched(prompt, a, b, p, e); }
  }

  lemma SpanIsMatched(prompt: string, a: nat, b: nat, p: int, e: int)
    requires a <= p < b <= |prompt|
    requires a == 0 || prompt[a - 1] == PLACEHOLDER
    requires b == |prompt| || prompt[b] == PLACEHOLDER
    requires forall k :: a <= k < b ==> prompt[k] != PLACEHOLDER
    requires MentionSpan(prompt, p, e)
    ensures MentionEnd(prompt[a..b], p - a) == Some(e - a)
  {
    var text := prompt[a..b];
    assert !IsSpace(PLACEHOLDER);
    assert e < b;
    forall k | p - a < k < e - a ensures PathChar(text[k]) {
      assert text[k] == prompt[k + a];
    }
    assert text[e - a] == prompt[e];
    assert text[p - a] == prompt[p];
    assert p > a ==> text[p - a - 1] == prompt[p - 1] != PLACEHOLDER;
    RunIs(text, p - a + 1, e - p - 1);
  }

  lemma {:induction false} RunIs(text: string, i: nat, n: nat)
    requires i + n < |text|
    requires forall k :: i <= k < i + n ==> PathChar(text[k])
    requires !PathChar(text[i + n])
    ensures PathRun(text, i) == n
    decreases n
  {
    if n > 0 { RunIs(text, i + 1, n - 1); }
  }

  lemma PieceOfPrompt(prompt: string, a: nat, b: nat, p: int, e: int)
    requires a <= b <= |prompt|
    requires a == 0 || prompt[a - 1] == PLACEHOLDER
    requires b == |prompt| || prompt[b] == PLACEHOLDER
    requires forall k :: a <= k < b ==> prompt[k] != PLACEHOLDER
    ensures HasMention(SplitText(prompt[a..b]), p - a, e - a) <==> a <= p < b && MentionSpan(prompt, p, e)
  {
    hide SplitText, HasMention, MentionEnd;
    WholePieceMentions(prompt[a..b], p - a, e - a);
    if a <= p < b { PieceSpan(prompt, a, b, p, e); }
  }

  lemma WholePieceMentions(text: string, p: int, e: int)
    ensures HasMention(SplitText(text), p, e) <==> 0 <= p < |text| && e >= 0 && MentionEnd(text, p) == Some(e)
  {
    PieceMentions(text, 0, 0, p, e);
    assert p - 0 == p && e - 0 == e;
  }

  lemma {:induction false} PromptMentions(prompt: string, contexts: seq<string>, start: nat, index: nat, used: nat, p: int, e: int)
    requires start <= index <= |prompt|
    requires start == 0 || prompt[start - 1] == PLACEHOLDER
    requires forall k :: start <= k < index ==> prompt[k] != PLACEHOLDER
    ensures HasMention(SplitPromptFrom(prompt, contexts, start, index, used), p - start, e - start) <==>
            start <= p && MentionSpan(prompt, p, e)
    decreases |prompt| - index
  {
    if index < |prompt| && prompt[index] != PLACEHOLDER {
      PromptMentions(prompt, contexts, start, index + 1, used, p, e);
    } else {
      if index == |prompt| {
        PieceOfPrompt(prompt, start, index, p, e);
        assert prompt[start..] == prompt[start..index];
      } else {
        PromptMentions(prompt, contexts, index + 1, index + 1, used + 1, p, e);
        PlaceholderThen(prompt, start, index, TerminalContext(ContextFor(contexts, used)),
                        SplitPromptFrom(prompt, contexts, index + 1, index + 1, used + 1), p, e);
      }
    }
  }

  lemma PlaceholderThen(prompt: string, start: nat, index: nat, context: Segment, rest: seq<Segment>, p: int, e: int)
    requires start <= index < |prompt| && prompt[index] == PLACEHOLDER && context.TerminalContext?
    requires start == 0 || prompt[start - 1] == PLACEHOLDER
    requires forall k :: start <= k < index ==> prompt[k] != PLACEHOLDER
    requires HasMention(rest, p - (index + 1), e - (index + 1)) <==> index + 1 <= p && MentionSpan(prompt, p, e)
    ensures HasMention(SplitText(prompt[start..index]) + ([context] + rest), p - start, e - start) <==>
            start <= p && MentionSpan(prompt, p, e)
  {
    var piece := SplitText(prompt[start..index]);
    PieceOfPrompt(prompt, start, index, p, e);
    SplitFromIsLossless(prompt[start..index], 0, 0);
    PromptStep(start, index, piece, context, rest, p, e, MentionSpan(prompt, p, e));
  }

  lemma PromptStep(start: nat, index: nat, piece: seq<Segment>, context: Segment, rest: seq<Segment>,
                   p: int, e: int, span: bool)
    requires start <= index && context.TerminalContext? && |Render(piece)| == index - start
    requires HasMention(piece, p - start, e - start) <==> start <= p < index && span
    requires HasMention(rest, p - (index + 1), e - (index + 1)) <==> index + 1 <= p && span
    requires p == index ==> !span
    ensures HasMention(piece + ([context] + rest), p - start, e - start) <==> start <= p && span
  {
    var n, p', e' := index - start, p - start, e - start;
    ConsMentions(context, rest, p' - n, e' - n);
    HasMentionAppend(piece, [context] + rest, p', e');
    assert p' - n - 1 == p - (index + 1) && e' - n - 1 == e - (index + 1);
  }

  /** The mention segments of a prompt are exactly its mentions, each at its place with its path. */
  lemma SegmentsAreExactlyTheMentions(prompt: string, contexts: seq<string>, p: int, e: int)
    ensures HasMention(SplitPrompt(prompt, contexts), p, e) <==> MentionSpan(prompt, p, e)
  {
    PromptMentions(prompt, contexts, 0, 0, 0, p, e);
  }

  // ----- Terminal contexts are handed out in order, one per placeholder.

  function ContextOf(segment: Segment): seq<Option<string>> {
    if segment.TerminalContext? then [segment.context] else []
  }

  function ContextsOf(segments: seq<Segment>): seq<Option<string>> {
    if segments == [] then [] else ContextOf(segments[0]) + ContextsOf(segments[1..])
  }

  function Placeholders(s: string): nat {
    if s == "" then 0 else (if s[0] == PLACEHOLDER then 1 else 0) + Placeholders(s[1..])
  }

  lemma {:induction false} ContextsAppend(a: seq<Segment>, b: seq<Segment>)
    ensures ContextsOf(a + b) == ContextsOf(a) + ContextsOf(b)
  {
    if a == [] {
      assert a + b == b;
    } else {
      assert (a + b)[1..] == a[1..] + b;
      ContextsAppend(a[1..], b);
      assert ContextsOf(a + b) == ContextOf(a[0]) + (ContextsOf(a[1..]) + ContextsOf(b));
    }
  }

  lemma ContextsCons(segment: Segment, rest: seq<Segment>)
    ensures ContextsOf([segment] + rest) == ContextOf(segment) + ContextsOf(rest)
  {
    assert ([segment] + rest)[1..] == rest;
  }

  lemma {:induction false} TextHasNoContexts(text: string, start: nat, p: nat)
    requires start <= p <= |text|
    ensures ContextsOf(SplitFrom(text, start, p)) == []
    decreases |text| - p
  {
    if p < |text| {
      match MentionEnd(text, p)
      case None => TextHasNoContexts(text, start, p + 1);
      case Some(end) =>
        TextHasNoContexts(text, end, end);
        ContextsCons(Mention(text[p + 1..end]), SplitFrom(text, end, end));
        ContextsCons(TextSegment(text[start..p]), [Mention(text[p + 1..end])] + SplitFrom(text, end, end));
    }
  }

  /** The contexts from number `used` on, for `n` placeholders. */
  function Numbered(contexts: seq<string>, used: nat, n: nat): seq<Option<string>>
    decreases n
  {
    if n == 0 then [] else [ContextFor(contexts, used)] + Numbered(contexts, used + 1, n - 1)
  }

  lemma {:induction false} ContextsFrom(prompt: string, contexts: seq<string>, start: nat, index: nat, used: nat)
    requires start <= index <= |prompt|
    ensures ContextsOf(SplitPromptFrom(prompt, contexts, start, index, used)) ==
            Numbered(contexts, used, Placeholders(prompt[index..]))
    decreases |prompt| - index
  {
    if index == |prompt| {
      TextHasNoContexts(prompt[start..], 0, 0);
    } else {
      assert prompt[index..][1..] == prompt[index + 1..];
      if prompt[index] != PLACEHOLDER {
        ContextsFrom(prompt, contexts, start, index + 1, used);
      } else {
        var context := TerminalContext(ContextFor(contexts, used));
        var rest := SplitPromptFrom(prompt, contexts, index + 1, index + 1, used + 1);
        TextHasNoContexts(prompt[start..index], 0, 0);
        ContextsFrom(prompt, contexts, index + 1, index + 1, used + 1);
        ContextsCons(context, rest);
        ContextsAppend(SplitText(prompt[start..index]), [context] + rest);
      }
    }
  }

  lemma {:induction false} NumberedAt(contexts: seq<string>, used: nat, n: nat, k: nat)
    ensures |Numbered(contexts, used, n)| == n
    ensures k < n ==> Numbered(contexts, used, n)[k] == if used + k < |contexts| then Some(contexts[used + k]) else None
    decreases n
  {
    if n > 0 { NumberedAt(contexts, used + 1, n - 1, if k > 0 then k - 1 else 0); }
  }

  /** There are as many contexts as placeholders; the k-th placeholder gets the k-th context, and none once
      they run out. */
  lemma ContextsInOrder(prompt: string, contexts: seq<string>)
    ensures var given := ContextsOf(SplitPrompt(prompt, contexts));
            && |given| == Placeholders(prompt)
            && forall k :: 0 <= k < |given| ==> given[k] == if k < |contexts| then Some(contexts[k]) else None
  {
    ContextsFrom(prompt, contexts, 0, 0, 0);
    assert prompt[0..] == prompt;
    NumberedAt(contexts, 0, Placeholders(prompt), 0);
    forall k | 0 <= k < Placeholders(prompt)
      ensures Numbered(contexts, 0, Placeholders(prompt))[k] == if k < |contexts| then Some(contexts[k]) else None
    {
      NumberedAt(contexts, 0, Placeholders(prompt), k);
    }
  }
}
