/** The record types of the story generator (src/models.py). They carry no behaviour. */
module Models {
  import opened Wrappers

  /** One byte of an image payload. */
  newtype byte = x: int | 0 <= x < 256

  /** A binary image payload. */
  type Bytes = seq<byte>

  /** What the user asked for: the topic and the configured model identifiers. */
  datatype StoryTopic = StoryTopic(prompt: string, textModel: Option<string>, imageModel: Option<string>)

  /** The ordered prompts, one per story part. */
  datatype StoryPartPrompts = StoryPartPrompts(storyPartPrompts: seq<string>)

  /** The ordered image prompts (the source spells the class `StroyImagePrompts`). */
  datatype StoryImagePrompts = StoryImagePrompts(imagePrompts: seq<string>)

  /** The generated text: a title and the accepted story parts, in order. */
  datatype StoryText = StoryText(title: string, storyPoints: seq<string>)

  /** The finished artifact: the text and the successfully generated images. */
  datatype StoryBoard = StoryBoard(storyText: StoryText, storyImages: seq<Bytes>)

  /** One chat message sent to the text service. */
  datatype Message = Message(role: string, content: string)
}
