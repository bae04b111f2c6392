# Story generator bookkeeping, modelled in Dafny

This project models the orchestration core of a children's story generator.
One topic prompt is expanded into story-part prompts and image prompts. Story
text is then generated part by part, each part seeing the parts accepted before
it. Images are generated one per image prompt, and failed images are dropped.
The two results are assembled into a story board.

The external services are oracles passed in as function parameters:
- the text service maps a request to `Replied(content) | NonTextReply | TimedOut | Raised`;
- the image service maps a request to `Generated(bytes) | ImageTimedOut | ImageFailed`;
- the two structured-output language-model calls map their input to `Success(value) | Failure(error)`.

The random choice of image model is an arbitrary `pick: nat -> ModelIndex`, an
index in [0, 3] into the fixed list of four models, one per prompt position.

Files:
- `wrappers.dfy`: `Option` and `Result`.
- `models.dfy`: the record types of `src/models.py`.
- `strings.dfy`: Python's `startswith`, `"\n".join` and `split("\n")`, with the lemmas that splitting undoes joining.
- `text_generation.dfy`: `generate_story_text`. `GenerateStoryText` is the loop, proved against the specification function `StoryParts`.
- `image_generation.dfy`: request building, the per-prompt results, the `None` filter and the success count of `generate_story_images`.
- `orchestrator.dfy`: `generate_story` and `generate_story_board`.

One might expect a failed text call never to reach the story or later context.
The code does not guarantee that. Only strings starting with "Error" or "Story
generation timed out" are rejected. The marker produced for a non-timeout
exception, "An error occurred during story generation.", starts with neither.
So it becomes a story point and is sent as context for later prompts
(`RaisedCallIsKept`, `AlwaysRaisingService`). A genuine reply that happens to
start with "Error" is dropped (`ReplyKeptIffNoFailurePrefix`).

## Model

| member | source | states |
|---|---|---|
| `TextGeneration.Context` | src/utils.py:77-79 | the context block is empty exactly when no part has been accepted yet |
| `TextGeneration.FullPrompt` | src/utils.py:77-81 | with no accepted parts the request text is the prompt; otherwise it is the header, the accepted parts joined by line breaks, the continuation line, a line break and the prompt |
| `TextGeneration.RequestLines` | src/utils.py:77-84 | read line by line, the request is the prompt alone, or "Previous parts of the story:", each accepted part in order, "Continue the story with:" and the prompt (when no piece spans lines) |
| `Strings.SplitJoinRoundTrip` | src/utils.py:79 | joining single-line parts with line breaks loses nothing: splitting gives the parts back |
| `Strings.StartsWithIffConcat` | src/utils.py:101 | `startswith` holds exactly when the string is the prefix followed by something |
| `Strings.JoinLines` | src/utils.py:79 | joining two or more parts puts a line break in the result; joining at most one single-line part does not |
| `TextGeneration.Request` | src/utils.py:81-84 | the request is one "user" message whose text is the full prompt built from the accepted parts and the prompt (`FullPrompt`, read line by line by `RequestLines`), with the configured text model and temperature 0.8; the text always ends with the prompt |
| `TextGeneration.ProcessPrompt` | src/utils.py:75-96 | a string reply gives its content; a non-string reply is never accepted; a timeout gives the timeout marker, which is rejected; any other exception gives the error marker, which is accepted |
| `TextGeneration.Accepts` | src/utils.py:101 | the timeout marker fails the acceptance test and the error marker passes it |
| `TextGeneration.StoryParts` | src/utils.py:98-102 | processing prompts in order accepts at most one part per prompt |
| `TextGeneration.StoryPartsStep` | src/utils.py:99-102 | one more prompt appends its value to the accepted parts exactly when the value passes the prefix test, and otherwise leaves them unchanged |
| `TextGeneration.GenerateStoryText` | src/utils.py:71-104 | the loop's title is always "Story" and its story points are exactly the parts `StoryParts` accepts from the prompts in order |
| `TextGeneration.StoryPartsAreKeptResults` | src/utils.py:98-102 | the story points are the per-prompt values that pass the test, in prompt order: an in-order subsequence of the results |
| `TextGeneration.KeptAppend` | src/utils.py:101-102 | keeping accepted values distributes over concatenation, so relative order is preserved |
| `TextGeneration.KeptMembers` | src/utils.py:101-102 | a string is a story point exactly when it is one of the per-prompt values and passes the prefix test |
| `TextGeneration.ResultsPrefix` | src/utils.py:98-100 | the values produced for the first i prompts do not depend on the later prompts |
| `TextGeneration.ContextIsEarlierAcceptedParts` | src/utils.py:75-102 | the request for prompt i is built from exactly the values accepted from prompts 0..i-1, in their order |
| `TextGeneration.EarlierPartsArePrefix` | src/utils.py:99-102 | the parts accepted from the first i prompts are a prefix of the final story points: later prompts only append |
| `TextGeneration.NoFailurePrefixKept` | src/utils.py:91-102 | no story point starts with "Error" or "Story generation timed out", so the timeout marker is never a story point |
| `TextGeneration.TimedOutCallIsDropped` | src/utils.py:91-102 | a call that times out adds nothing to the story points or to later context |
| `TextGeneration.RaisedCallIsKept` | src/utils.py:94-102 | a call that raises appends "An error occurred during story generation." to the story points, and so to later context |
| `TextGeneration.ReplyKeptIffNoFailurePrefix` | src/utils.py:90-102 | a string reply is appended if and only if it starts neither with "Error" nor with "Story generation timed out"; otherwise nothing changes |
| `TextGeneration.NonTextReplyIsDropped` | src/utils.py:101-102 | a reply whose content is not a string fails the `isinstance` test and adds nothing |
| `TextGeneration.AlwaysRaisingService` | src/utils.py:94-102 | when every text call raises, every prompt contributes the error marker |
| `TextGeneration.AlwaysTimingOutService` | src/utils.py:91-102 | when every text call times out, the story has no points |
| `ImageGeneration.ImageRequestFor` | src/utils.py:110-120 | the request carries the prompt, the model at the drawn index of the four-model list, 512 by 512, safe off, nologo, private and enhance on |
| `ImageGeneration.ProcessImage` | src/utils.py:108-137 | an image is produced exactly when the service generates one for the request, and it is the generated bytes; a timeout or any other exception gives nothing |
| `ImageGeneration.BatchSendsFixedRequests` | src/utils.py:110-141 | entry i of the gathered results is the outcome of the request for prompt i, which has the fixed settings and one of the four models |
| `ImageGeneration.ReturnedImagesAreGenerated` | src/utils.py:139-148 | an image is returned exactly when the request for some image prompt generated it |
| `ImageGeneration.ImageResults` | src/utils.py:140-141 | the gathered results hold one entry per image prompt, in prompt order |
| `ImageGeneration.SuccessfulImages` | src/utils.py:148 | removing the `None` entries never lengthens the list |
| `ImageGeneration.SuccessfulImagesAppend` | src/utils.py:148 | the filter distributes over concatenation: surviving images keep the relative order of their prompts and failed positions are skipped |
| `ImageGeneration.SuccessfulImagesMembers` | src/utils.py:148 | an image is returned exactly when it is one of the non-`None` results |
| `ImageGeneration.NothingMissingKeepsAll` | src/utils.py:148 | when no result is `None`, every result is returned, in order |
| `ImageGeneration.CountSuccessful` | src/utils.py:144 | the success count is at most the number of results; it is zero exactly when every result is missing and full exactly when none is |
| `ImageGeneration.SuccessCountIsImageCount` | src/utils.py:144-148 | the logged success count equals the number of returned images |
| `ImageGeneration.GenerateStoryImages` | src/utils.py:139-148 | at most one image is returned per image prompt |
| `ImageGeneration.AllImageCallsFail` | src/utils.py:127-148 | when every image call times out or raises, the returned list is empty |
| `Orchestrator.GenerateStoryBoard` | src/utils.py:150-151 | the board holds the given text and images unchanged |
| `Orchestrator.GenerateStory` | src/utils.py:153-167 | a failure of prompt expansion or image-prompt derivation is re-raised unchanged; otherwise the board's text is the text generator's output on the expanded prompts, its images are the image generator's output on the derived prompts, and neither exceeds its prompt count |

## Left out

- The two structured-output language-model calls and their instructions (src/utils.py:19-54), and the methods that await them (src/utils.py:63-69): foreign services, modelled as the oracles `expand` and `derive`.
- The text and image clients' network calls: foreign services, modelled as oracles from request to outcome.
- Concurrency: `asyncio.gather` and the `wait_for` timeouts, including the timeout durations. Only the per-call outcomes and their order are modelled.
- The `tenacity` retry decorator (src/utils.py:107): `process_image` catches every `Exception` and returns `None`, so the decorator never sees a failure to retry.
- Variation between calls: each service is a function of the request, so two identical requests in one run get the same outcome. The real text service samples at temperature 0.8 and network timeouts vary, so identical requests may get different outcomes. No lemma relies on two calls sharing an outcome.
- `random.randint` (src/utils.py:112): modelled as an arbitrary index in [0, 3] per prompt position.
- An exception that is not an `Exception` (task cancellation) escaping `process_image`: `gather(..., return_exceptions=True)` would put the exception object in the results, where it is not `None` and would be kept. Cancellation belongs to the concurrency that is not modelled.
- Text timeouts are modelled as Python 3.11 and later handles them, where `asyncio.wait_for` raises the built-in `TimeoutError`. Under older versions the text timeout would reach the generic handler and produce the error marker instead.
- The constructor (src/utils.py:57-61): it stores the topic's model identifiers and creates the clients. The text model is passed to the text requests as `topic.textModel`. The topic's image model is never read by `process_image`, so the image requests do not depend on it.
- Credential and environment setup and Streamlit secrets (src/utils.py:14-17), `print` logging, and `list_text_models` / `list_image_models` (src/utils.py:169-173): configuration, output and thin wrappers.
- The Streamlit page (app.py), including its `zip` pairing, which truncates to the shorter list: presentation.
- src/models.py: record classes without behaviour, mirrored as datatypes in `models.dfy`.
