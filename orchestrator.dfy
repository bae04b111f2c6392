/** The end-to-end pipeline (`StoryGenerator.generate_story` and
    `generate_story_board`, src/utils.py:150-167).

    The two structured-output calls (prompt expansion and image-prompt
    derivation) are oracles that either return their parsed result or raise.
    The concurrent `gather` of text and image generation is modelled as two
    independent computations whose results are paired. */
module Orchestrator {
  import opened Wrappers
  import opened Models
  import opened TextGeneration
  import opened ImageGeneration

  /** `generate_story_board`: the board holds the given text and images unchanged. */
  function GenerateStoryBoard(storyText: StoryText, storyImages: seq<Bytes>): (board: StoryBoard)
    ensures board.storyText == storyText && board.storyImages == storyImages
  {
    StoryBoard(storyText, storyImages)
  }

  /** `generate_story`: expand the topic, derive the image prompts, generate text
      and images, and assemble the board. A failure of either structured call is
      re-raised unchanged; text and image generation contain their own failures. */
  method GenerateStory(topic: StoryTopic, prompt: string,
                       expand: string -> Result<StoryPartPrompts>,
                       derive: StoryPartPrompts -> Result<StoryImagePrompts>,
                       textService: TextRequest -> TextOutcome,
                       pick: nat -> ModelIndex,
                       imageService: ImageRequest -> ImageOutcome)
    returns (r: Result<StoryBoard>)
    ensures expand(prompt).Failure? ==> r == Failure(expand(prompt).error)
    ensures expand(prompt).Success? && derive(expand(prompt).value).Failure? ==>
              r == Failure(derive(expand(prompt).value).error)
    ensures r.Success? <==> expand(prompt).Success? && derive(expand(prompt).value).Success?
    ensures r.Success? ==>
              var partPrompts := expand(prompt).value;
              var imagePrompts := derive(partPrompts).value;
              && r.value.storyText == StoryText(StoryTitle, StoryParts(topic.textModel, textService, partPrompts.storyPartPrompts))
              && r.value.storyImages == GenerateStoryImages(imagePrompts, pick, imageService)
              && |r.value.storyText.storyPoints| <= |partPrompts.storyPartPrompts|
              && |r.value.storyImages| <= |imagePrompts.imagePrompts|
  {
    var expanded := expand(prompt);
    if expanded.Failure? {
      return Failure(expanded.error);
    }
    var storyPartPrompts := expanded.value;
    var derived := derive(storyPartPrompts);
    if derived.Failure? {
      return Failure(derived.error);
    }
    var storyImagePrompts := derived.value;
    var storyText := GenerateStoryText(topic.textModel, textService, storyPartPrompts);
    var storyImages := GenerateStoryImages(storyImagePrompts, pick, imageService);
    return Success(GenerateStoryBoard(storyText, storyImages));
  }
}
