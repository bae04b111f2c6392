/** Image generation (`StoryGenerator.generate_story_images`, src/utils.py:106-148).

    The image service is an oracle from the request to the outcome of the
    awaited call, and the random model choice is an arbitrary index into the
    fixed list of four models, given per prompt position. The calls run
    concurrently in the source; only their results, collected in prompt order,
    are modelled. */
module ImageGeneration {
  import opened Wrappers
  import opened Models

  /** The image models the generator chooses from. */
  datatype ImageModel = Flux | Flux3D | FluxPro | Turbo

  const ImageModels: seq<ImageModel> := [Flux, Flux3D, FluxPro, Turbo]

  /** A value `random.randint(0, len(models) - 1)` can return: both ends included. */
  type ModelIndex = i: int | 0 <= i <= 3

  const ImageSize := 512

  /** The request sent to the image service. */
  datatype ImageRequest = ImageRequest(model: ImageModel, prompt: string, safe: bool, nologo: bool,
                                       isPrivate: bool, enhance: bool, width: int, height: int)

  /** How one awaited image call ends: the image bytes, a timeout, or any other
      exception (with or without an HTTP status, which only changes what is logged). */
  datatype ImageOutcome = Generated(imageBytes: Bytes) | ImageTimedOut | ImageFailed

  /** The fixed part of every image request: a 512 by 512 image, safety filter
      off, no logo, private, prompt enhancement on. */
  predicate FixedSettings(request: ImageRequest) {
    && request.width == ImageSize && request.height == ImageSize
    && !request.safe && request.nologo && request.isPrivate && request.enhance
  }

  /** The request `process_image` builds for `prompt` with model choice `choice`. */
  function ImageRequestFor(prompt: string, choice: ModelIndex): (request: ImageRequest)
    ensures request.prompt == prompt
    ensures request.model in ImageModels && request.model == ImageModels[choice]
    ensures FixedSettings(request)
  {
    ImageRequest(ImageModels[choice], prompt, false, true, true, true, ImageSize, ImageSize)
  }

  /** `process_image`: the bytes on success, nothing on a timeout or an exception. */
  function ProcessImage(prompt: string, choice: ModelIndex,
                        service: ImageRequest -> ImageOutcome): (image: Option<Bytes>)
    ensures image.Some? <==> service(ImageRequestFor(prompt, choice)).Generated?
    ensures image.Some? ==> image.value == service(ImageRequestFor(prompt, choice)).imageBytes
  {
    match service(ImageRequestFor(prompt, choice))
    case Generated(imageBytes) => Some(imageBytes)
    case ImageTimedOut => None
    case ImageFailed => None
  }

  /** The gathered results, one per prompt and in prompt order; `pick(i)` is the
      model index drawn for the prompt at position `i`. */
  function ImageResults(prompts: seq<string>, pick: nat -> ModelIndex,
                        service: ImageRequest -> ImageOutcome): (results: seq<Option<Bytes>>)
    ensures |results| == |prompts|
  {
    seq(|prompts|, i requires 0 <= i < |prompts| => ProcessImage(prompts[i], pick(i), service))
  }

  /** `[img for img in images if img is not None]`. */
  function SuccessfulImages(results: seq<Option<Bytes>>): (images: seq<Bytes>)
    ensures |images| <= |results|
  {
    if results == [] then []
    else (if results[0].Some? then [results[0].value] else []) + SuccessfulImages(results[1..])
  }

  /** `sum(1 for img in images if img is not None)`: the logged success count. */
  function CountSuccessful(results: seq<Option<Bytes>>): (count: nat)
    ensures count <= |results|
    ensures count == 0 <==> forall k :: 0 <= k < |results| ==> results[k].None?
    ensures count == |results| <==> forall k :: 0 <= k < |results| ==> results[k].Some?
  {
    if results == [] then 0
    else (if results[0].Some? then 1 else 0) + CountSuccessful(results[1..])
  }

  /** `generate_story_images`: the successful images, in prompt order. */
  function GenerateStoryImages(storyImagePrompts: StoryImagePrompts, pick: nat -> ModelIndex,
                               service: ImageRequest -> ImageOutcome): (images: seq<Bytes>)
    ensures |images| <= |storyImagePrompts.imagePrompts|
  {
    SuccessfulImages(ImageResults(storyImagePrompts.imagePrompts, pick, service))
  }

  /** Filtering distributes over concatenation: the surviving images keep the
      relative order of their prompts, and a failed prompt's position is skipped. */
  lemma {:induction false} SuccessfulImagesAppend(a: seq<Option<Bytes>>, b: seq<Option<Bytes>>)
    ensures SuccessfulImages(a + b) == SuccessfulImages(a) + SuccessfulImages(b)
    decreases |a|
  {
    if a == [] {
      assert a + b == b;
    } else {
      var head := if a[0].Some? then [a[0].value] else [];
      assert (a + b)[0] == a[0];
      assert (a + b)[1..] == a[1..] + b;
      calc {
        SuccessfulImages(a + b);
        head + SuccessfulImages(a[1..] + b);
        { SuccessfulImagesAppend(a[1..], b); }
        head + (SuccessfulImages(a[1..]) + SuccessfulImages(b));
        (head + SuccessfulImages(a[1..])) + SuccessfulImages(b);
      }
    }
  }

  /** An image is returned exactly when it is one of the successful results. */
  lemma {:induction false} SuccessfulImagesMembers(results: seq<Option<Bytes>>, image: Bytes)
    ensures image in SuccessfulImages(results) <==> Some(image) in results
    decreases |results|
  {
    if results != [] {
      SuccessfulImagesMembers(results[1..], image);
      assert results == [results[0]] + results[1..];
    }
  }

  /** Exactly the missing entries are removed: nothing is lost when every call succeeds. */
  lemma {:induction false} NothingMissingKeepsAll(results: seq<Option<Bytes>>)
    requires forall k :: 0 <= k < |results| ==> results[k].Some?
    ensures |SuccessfulImages(results)| == |results|
    ensures forall k :: 0 <= k < |results| ==> SuccessfulImages(results)[k] == results[k].value
    decreases |results|
  {
    if results != [] {
      NothingMissingKeepsAll(results[1..]);
    }
  }

  /** The logged success count is the number of returned images. */
  lemma {:induction false} SuccessCountIsImageCount(results: seq<Option<Bytes>>)
    ensures CountSuccessful(results) == |SuccessfulImages(results)|
    decreases |results|
  {
    if results != [] {
      SuccessCountIsImageCount(results[1..]);
    }
  }

  /** Entry `i` of the gathered results is the outcome of the request built for
      prompt `i` with its own model choice; that request is for prompt `i`, uses
      one of the four models and carries the fixed settings. */
  lemma BatchSendsFixedRequests(prompts: seq<string>, pick: nat -> ModelIndex,
                                service: ImageRequest -> ImageOutcome, i: nat)
    requires i < |prompts|
    ensures var request := ImageRequestFor(prompts[i], pick(i));
            && request.prompt == prompts[i] && request.model in ImageModels && FixedSettings(request)
            && ImageResults(prompts, pick, service)[i]
               == (if service(request).Generated? then Some(service(request).imageBytes) else None)
  {
    var request := ImageRequestFor(prompts[i], pick(i));
    assert ImageResults(prompts, pick, service)[i] == ProcessImage(prompts[i], pick(i), service);
    match service(request)
    case Generated(_) =>
    case ImageTimedOut =>
    case ImageFailed =>
  }

  /** End to end: an image is returned exactly when the request for some image
      prompt produced it. */
  lemma ReturnedImagesAreGenerated(storyImagePrompts: StoryImagePrompts, pick: nat -> ModelIndex,
                                   service: ImageRequest -> ImageOutcome, image: Bytes)
    ensures var prompts := storyImagePrompts.imagePrompts;
            image in GenerateStoryImages(storyImagePrompts, pick, service)
            <==> exists i :: 0 <= i < |prompts| && service(ImageRequestFor(prompts[i], pick(i))) == Generated(image)
  {
    var prompts := storyImagePrompts.imagePrompts;
    var results := ImageResults(prompts, pick, service);
    SuccessfulImagesMembers(results, image);
    if Some(image) in results {
      var i :| 0 <= i < |results| && results[i] == Some(image);
      BatchSendsFixedRequests(prompts, pick, service, i);
    }
    if exists i :: 0 <= i < |prompts| && service(ImageRequestFor(prompts[i], pick(i))) == Generated(image) {
      var i :| 0 <= i < |prompts| && service(ImageRequestFor(prompts[i], pick(i))) == Generated(image);
      BatchSendsFixedRequests(prompts, pick, service, i);
      assert results[i] == Some(image);
    }
  }

  /** When every call fails or times out, no image is returned. */
  lemma AllImageCallsFail(storyImagePrompts: StoryImagePrompts, pick: nat -> ModelIndex,
                          service: ImageRequest -> ImageOutcome)
    requires forall request :: !service(request).Generated?
    ensures GenerateStoryImages(storyImagePrompts, pick, service) == []
  {
    var prompts := storyImagePrompts.imagePrompts;
    var results := ImageResults(prompts, pick, service);
    forall k | 0 <= k < |results| ensures results[k].None? {
      assert !service(ImageRequestFor(prompts[k], pick(k))).Generated?;
    }
    SuccessCountIsImageCount(results);
  }
}
