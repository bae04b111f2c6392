/** Sequential story-text generation (`StoryGenerator.generate_story_text`,
    src/utils.py:71-104).

    The text service is an oracle: a function from the request it is sent to
    the outcome of the awaited call. Each story-part prompt is sent with the
    parts accepted so far as context, and the reply is accepted or dropped by a
    prefix test. */
module TextGeneration {
  import opened Wrappers
  import opened Models
  import opened Strings

  /** The line that opens the context block, and the line that closes it. */
  const HeaderLine := "Previous parts of the story:"
  const FooterLine := "Continue the story with:"
  const ContextHeader := HeaderLine + "\n"
  const ContextFooter := "\n" + FooterLine
  /** A part starting with either prefix is dropped. */
  const ErrorPrefix := "Error"
  const TimeoutPrefix := "Story generation timed out"
  /** What a timed-out call turns into: "Story generation timed out. Please try again." */
  const TimeoutMarker := TimeoutPrefix + ". Please try again."
  /** What any other exception turns into. */
  const ErrorMarker := "An error occurred during story generation."
  const StoryTitle := "Story"
  const Temperature: real := 0.8

  /** The request sent to the text service. */
  datatype TextRequest = TextRequest(messages: seq<Message>, model: Option<string>, temperature: real)

  /** How one awaited text call ends: a reply whose content is a string, a reply
      whose content is not a string, a timeout, or any other exception. */
  datatype TextOutcome = Replied(content: string) | NonTextReply | TimedOut | Raised

  /** The context block built from the parts accepted so far; empty when there are none. */
  function Context(previous: seq<string>): (context: string)
    ensures context == "" <==> previous == []
  {
    if previous == [] then "" else ContextHeader + JoinLines(previous) + ContextFooter
  }

  /** The text of the single user message sent for `prompt`. */
  function FullPrompt(prompt: string, previous: seq<string>): (r: string)
    ensures previous == [] ==> r == prompt
    ensures previous != [] ==> r == ContextHeader + JoinLines(previous) + ContextFooter + "\n" + prompt
  {
    // The code tests the context string; by `Context`'s contract it is empty
    // exactly when `previous` is.
    if previous == [] then prompt else Context(previous) + "\n" + prompt
  }

  /** Read line by line, the request is the framing line, the accepted parts in
      order, the continuation line and the prompt (or the prompt alone when
      nothing has been accepted yet), as long as none of them spans lines. */
  lemma RequestLines(prompt: string, previous: seq<string>)
    requires NoNewline(prompt)
    requires forall k :: 0 <= k < |previous| ==> NoNewline(previous[k])
    ensures Lines(FullPrompt(prompt, previous)) ==
      if previous == [] then [prompt]
      else [HeaderLine] + previous + [FooterLine, prompt]
  {
    if previous == [] {
      LinesOfLine(prompt);
    } else {
      LinesOfFramedBlock(HeaderLine, previous, FooterLine, prompt);
    }
  }

  /** The request for `prompt`: one user message carrying the full prompt (the
      context of the accepted parts, then `prompt`), the configured text model and
      the fixed temperature. */
  function Request(textModel: Option<string>, prompt: string, previous: seq<string>): (r: TextRequest)
    ensures |r.messages| == 1 && r.messages[0].role == "user"
    ensures r.messages[0].content == FullPrompt(prompt, previous)
    ensures r.model == textModel && r.temperature == Temperature
    ensures var content := r.messages[0].content;
            |prompt| <= |content| && content[|content| - |prompt|..] == prompt
  {
    var content := FullPrompt(prompt, previous);
    assert content[|content| - |prompt|..] == prompt;
    TextRequest([Message("user", content)], textModel, Temperature)
  }

  /** `process_prompt`: the value produced for one prompt; `None` stands for a
      reply whose content is not a string. */
  function ProcessPrompt(textModel: Option<string>, service: TextRequest -> TextOutcome,
                         prompt: string, previous: seq<string>): (part: Option<string>)
    ensures var outcome := service(Request(textModel, prompt, previous));
            && (outcome.Replied? ==> part == Some(outcome.content))
            && (outcome.NonTextReply? ==> !Accepts(part))
            && (outcome.TimedOut? ==> part == Some(TimeoutMarker) && !Accepts(part))
            && (outcome.Raised? ==> part == Some(ErrorMarker) && Accepts(part))
  {
    match service(Request(textModel, prompt, previous))
    case Replied(content) => Some(content)
    case NonTextReply => None
    case TimedOut => Some(TimeoutMarker)
    case Raised => Some(ErrorMarker)
  }

  /** The acceptance test: a string that starts neither with "Error" nor with
      "Story generation timed out". */
  predicate Accepts(part: Option<string>)
    ensures part == Some(TimeoutMarker) ==> !Accepts(part)
    ensures part == Some(ErrorMarker) ==> Accepts(part)
  {
    StartsWithConcat(TimeoutPrefix, ". Please try again.");
    assert ErrorMarker[0] != ErrorPrefix[0] && ErrorMarker[0] != TimeoutPrefix[0];
    part.Some? && !StartsWith(part.value, ErrorPrefix) && !StartsWith(part.value, TimeoutPrefix)
  }

  /** The parts accepted after processing `prompts` in order, each with the
      parts accepted before it as context. */
  function StoryParts(textModel: Option<string>, service: TextRequest -> TextOutcome,
                      prompts: seq<string>): (parts: seq<string>)
    ensures |parts| <= |prompts|
    decreases |prompts|
  {
    if prompts == [] then []
    else
      var previous := StoryParts(textModel, service, prompts[..|prompts| - 1]);
      var part := ProcessPrompt(textModel, service, prompts[|prompts| - 1], previous);
      if Accepts(part) then previous + [part.value] else previous
  }

  /** Processing one more prompt appends its value exactly when it is accepted. */
  lemma StoryPartsStep(textModel: Option<string>, service: TextRequest -> TextOutcome,
                       prompts: seq<string>, i: nat)
    requires i < |prompts|
    ensures var previous := StoryParts(textModel, service, prompts[..i]);
            var part := ProcessPrompt(textModel, service, prompts[i], previous);
            StoryParts(textModel, service, prompts[..i + 1])
              == if Accepts(part) then previous + [part.value] else previous
  {
    assert prompts[..i + 1][..i] == prompts[..i];
    assert prompts[..i + 1][i] == prompts[i];
  }

  /** The value produced for each prompt, in order, each built from the parts
      accepted from the prompts before it. */
  function Results(textModel: Option<string>, service: TextRequest -> TextOutcome,
                   prompts: seq<string>): (results: seq<Option<string>>)
    ensures |results| == |prompts|
  {
    seq(|prompts|, i requires 0 <= i < |prompts| =>
      ProcessPrompt(textModel, service, prompts[i], StoryParts(textModel, service, prompts[..i])))
  }

  /** The accepted values of `results`, in their original order. */
  function Kept(results: seq<Option<string>>): (kept: seq<string>)
    decreases |results|
  {
    if results == [] then []
    else
      var previous := Kept(results[..|results| - 1]);
      var last := results[|results| - 1];
      if Accepts(last) then previous + [last.value] else previous
  }

  /** Keeping is a filter: it distributes over concatenation, so it keeps the
      relative order of the results. */
  lemma {:induction false} KeptAppend(a: seq<Option<string>>, b: seq<Option<string>>)
    ensures Kept(a + b) == Kept(a) + Kept(b)
    decreases |b|
  {
    if b == [] {
      assert a + b == a;
    } else {
      var init := b[..|b| - 1];
      assert (a + b)[..|a + b| - 1] == a + init;
      assert (a + b)[|a + b| - 1] == b[|b| - 1];
      KeptAppend(a, init);
    }
  }

  /** A string is kept exactly when it is one of the results and passes the test. */
  lemma {:induction false} KeptMembers(results: seq<Option<string>>, s: string)
    ensures s in Kept(results) <==> Some(s) in results && Accepts(Some(s))
    decreases |results|
  {
    if results != [] {
      var init := results[..|results| - 1];
      KeptMembers(init, s);
      assert results == init + [results[|results| - 1]];
    }
  }

  /** The values produced for a prefix of the prompts are a prefix of the values
      produced for all of them: later prompts do not change earlier requests. */
  lemma ResultsPrefix(textModel: Option<string>, service: TextRequest -> TextOutcome,
                      prompts: seq<string>, i: nat)
    requires i <= |prompts|
    ensures Results(textModel, service, prompts[..i]) == Results(textModel, service, prompts)[..i]
  {
    var front := prompts[..i];
    var short, long := Results(textModel, service, front), Results(textModel, service, prompts);
    forall k | 0 <= k < i
      ensures short[k] == long[k]
    {
      assert front[k] == prompts[k];
      assert front[..k] == prompts[..k];
    }
    assert short == long[..i];
  }

  /** The story points are exactly the accepted per-prompt values, in prompt order. */
  lemma {:induction false} StoryPartsAreKeptResults(textModel: Option<string>,
                                                    service: TextRequest -> TextOutcome,
                                                    prompts: seq<string>)
    ensures StoryParts(textModel, service, prompts) == Kept(Results(textModel, service, prompts))
    decreases |prompts|
  {
    if prompts != [] {
      var n := |prompts| - 1;
      var results := Results(textModel, service, prompts);
      StoryPartsAreKeptResults(textModel, service, prompts[..n]);
      ResultsPrefix(textModel, service, prompts, n);
      assert results[..|results| - 1] == results[..n];
    }
  }

  /** The request for prompt `i` carries exactly the values accepted from the
      prompts before it, in their order. */
  lemma ContextIsEarlierAcceptedParts(textModel: Option<string>, service: TextRequest -> TextOutcome,
                                      prompts: seq<string>, i: nat)
    requires i < |prompts|
    ensures var results := Results(textModel, service, prompts);
            results[i] == ProcessPrompt(textModel, service, prompts[i], Kept(results[..i]))
  {
    StoryPartsAreKeptResults(textModel, service, prompts[..i]);
    ResultsPrefix(textModel, service, prompts, i);
  }

  /** What is accepted from the first `i` prompts is a prefix of the story
      points: later prompts only append. */
  lemma {:induction false} EarlierPartsArePrefix(textModel: Option<string>,
                                                 service: TextRequest -> TextOutcome,
                                                 prompts: seq<string>, i: nat)
    requires i <= |prompts|
    ensures StoryParts(textModel, service, prompts[..i]) <= StoryParts(textModel, service, prompts)
    decreases |prompts|
  {
    if i == |prompts| {
      assert prompts[..i] == prompts;
    } else {
      var n := |prompts| - 1;
      var front := prompts[..n];
      EarlierPartsArePrefix(textModel, service, front, i);
      assert front[..i] == prompts[..i];
      LastStepExtends(textModel, service, prompts);
      PrefixTransitive(StoryParts(textModel, service, prompts[..i]),
                       StoryParts(textModel, service, front),
                       StoryParts(textModel, service, prompts));
    }
  }

  /** The last prompt can only append to what the earlier prompts accepted. */
  lemma LastStepExtends(textModel: Option<string>, service: TextRequest -> TextOutcome,
                        prompts: seq<string>)
    requires prompts != []
    ensures StoryParts(textModel, service, prompts[..|prompts| - 1]) <= StoryParts(textModel, service, prompts)
  {
  }

  lemma PrefixTransitive(a: seq<string>, b: seq<string>, c: seq<string>)
    requires a <= b && b <= c
    ensures a <= c
  {
    assert forall k :: 0 <= k < |a| ==> a[k] == b[k] == c[k];
  }

  /** No story point starts with "Error" or "Story generation timed out"; in
      particular the timeout marker never becomes a story point. */
  lemma {:induction false} NoFailurePrefixKept(textModel: Option<string>,
                                               service: TextRequest -> TextOutcome,
                                               prompts: seq<string>)
    ensures forall s :: s in StoryParts(textModel, service, prompts) ==>
              !StartsWith(s, ErrorPrefix) && !StartsWith(s, TimeoutPrefix)
    ensures TimeoutMarker !in StoryParts(textModel, service, prompts)
    decreases |prompts|
  {
    if prompts != [] {
      var n := |prompts| - 1;
      NoFailurePrefixKept(textModel, service, prompts[..n]);
      StoryPartsStep(textModel, service, prompts, n);
      assert prompts[..n + 1] == prompts;
    }
    StartsWithConcat(TimeoutPrefix, ". Please try again.");
  }

  /** A call that times out adds nothing to the story or to later context. */
  lemma TimedOutCallIsDropped(textModel: Option<string>, service: TextRequest -> TextOutcome,
                              prompts: seq<string>, i: nat)
    requires i < |prompts|
    requires service(Request(textModel, prompts[i], StoryParts(textModel, service, prompts[..i]))) == TimedOut
    ensures StoryParts(textModel, service, prompts[..i + 1]) == StoryParts(textModel, service, prompts[..i])
  {
    StoryPartsStep(textModel, service, prompts, i);
    StartsWithConcat(TimeoutPrefix, ". Please try again.");
  }

  /** A call that raises yields the error marker, which starts with neither
      rejected prefix: it is appended and carried as context for later prompts. */
  lemma RaisedCallIsKept(textModel: Option<string>, service: TextRequest -> TextOutcome,
                         prompts: seq<string>, i: nat)
    requires i < |prompts|
    requires service(Request(textModel, prompts[i], StoryParts(textModel, service, prompts[..i]))) == Raised
    ensures StoryParts(textModel, service, prompts[..i + 1])
         == StoryParts(textModel, service, prompts[..i]) + [ErrorMarker]
  {
    StoryPartsStep(textModel, service, prompts, i);
    assert ErrorMarker[0] != ErrorPrefix[0];
    assert ErrorMarker[0] != TimeoutPrefix[0];
  }

  /** A reply whose content is a string is appended exactly when it starts with
      neither "Error" nor "Story generation timed out". */
  lemma ReplyKeptIffNoFailurePrefix(textModel: Option<string>, service: TextRequest -> TextOutcome,
                                    prompts: seq<string>, i: nat, content: string)
    requires i < |prompts|
    requires service(Request(textModel, prompts[i], StoryParts(textModel, service, prompts[..i])))
          == Replied(content)
    ensures StoryParts(textModel, service, prompts[..i + 1])
         == StoryParts(textModel, service, prompts[..i]) + [content]
        <==> !StartsWith(content, ErrorPrefix) && !StartsWith(content, TimeoutPrefix)
    ensures !(!StartsWith(content, ErrorPrefix) && !StartsWith(content, TimeoutPrefix)) ==>
            StoryParts(textModel, service, prompts[..i + 1]) == StoryParts(textModel, service, prompts[..i])
  {
    StoryPartsStep(textModel, service, prompts, i);
  }

  /** A reply whose content is not a string adds nothing. */
  lemma NonTextReplyIsDropped(textModel: Option<string>, service: TextRequest -> TextOutcome,
                              prompts: seq<string>, i: nat)
    requires i < |prompts|
    requires service(Request(textModel, prompts[i], StoryParts(textModel, service, prompts[..i]))) == NonTextReply
    ensures StoryParts(textModel, service, prompts[..i + 1]) == StoryParts(textModel, service, prompts[..i])
  {
    StoryPartsStep(textModel, service, prompts, i);
  }

  /** When every call raises, every prompt contributes the error marker. */
  lemma {:induction false} AlwaysRaisingService(textModel: Option<string>, service: TextRequest -> TextOutcome,
                                                prompts: seq<string>)
    requires forall request :: service(request) == Raised
    ensures StoryParts(textModel, service, prompts) == seq(|prompts|, _ => ErrorMarker)
    decreases |prompts|
  {
    if prompts != [] {
      var n := |prompts| - 1;
      AlwaysRaisingService(textModel, service, prompts[..n]);
      assert prompts[..n + 1] == prompts;
      RaisedCallIsKept(textModel, service, prompts, n);
    }
  }

  /** When every call times out, the story has no points. */
  lemma {:induction false} AlwaysTimingOutService(textModel: Option<string>, service: TextRequest -> TextOutcome,
                                                  prompts: seq<string>)
    requires forall request :: service(request) == TimedOut
    ensures StoryParts(textModel, service, prompts) == []
    decreases |prompts|
  {
    if prompts != [] {
      var n := |prompts| - 1;
      AlwaysTimingOutService(textModel, service, prompts[..n]);
      assert prompts[..n + 1] == prompts;
      TimedOutCallIsDropped(textModel, service, prompts, n);
    }
  }

  /** `generate_story_text`: the loop that appends accepted parts in place. */
  method GenerateStoryText(textModel: Option<string>, service: TextRequest -> TextOutcome,
                           storyPartPrompts: StoryPartPrompts) returns (text: StoryText)
    ensures text.title == StoryTitle
    ensures text.storyPoints == StoryParts(textModel, service, storyPartPrompts.storyPartPrompts)
  {
    var prompts := storyPartPrompts.storyPartPrompts;
    var storyParts: seq<string> := [];
    var i := 0;
    while i < |prompts|
      invariant 0 <= i <= |prompts|
      invariant storyParts == StoryParts(textModel, service, prompts[..i])
    {
      var part := ProcessPrompt(textModel, service, prompts[i], storyParts);
      StoryPartsStep(textModel, service, prompts, i);
      if Accepts(part) {
        storyParts := storyParts + [part.value];
      }
      i := i + 1;
    }
    assert prompts[..|prompts|] == prompts;
    text := StoryText(StoryTitle, storyParts);
  }
}
