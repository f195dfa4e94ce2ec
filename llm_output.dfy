/** What the services do with a reply from the language model before
    parsing it as JSON: taking the text out of a Markdown code fence. */
module LlmOutput {
  import opened Text

  /** The outcome of asking the model. `NoClient`: no API key was set at
      start-up, so the `llm` attribute was never assigned; `Failed`: the
      completion call raised; `Reply`: the text `str(response)`. */
  datatype Completion = NoClient | Failed | Reply(text: string)

  const JsonFence := "```json"
  const Fence := "```"

  /** The text a reply is cut down to: what follows the first "```json" up
      to the next "```"; failing that, what lies between the first two
      "```"; failing that, the whole reply. */
  function FenceBody(content: string): (r: string)
    ensures !Contains(content, Fence) ==> r == content
  {
    if Contains(content, JsonFence) then
      SplitPieces(content, JsonFence);
      ContainsPrefix(content, JsonFence, Fence);
      var inner := Split(content, JsonFence)[1];
      Split(inner, Fence)[0]
    else if Contains(content, Fence) then
      SplitPieces(content, Fence);
      var inner := Split(content, Fence)[1];
      Split(inner, Fence)[0]
    else
      content
  }

  /** Which part of the reply is kept. After a "```json" the text runs to
      the next "```json" and is then cut at its first "```"; between plain
      fences it runs from the first "```" to the second. */
  lemma FenceBodyBetween(content: string)
    ensures Contains(content, JsonFence) ==>
      FenceBody(content) == Before(Before(After(content, JsonFence), JsonFence), Fence)
    ensures !Contains(content, JsonFence) && Contains(content, Fence) ==>
      FenceBody(content) == Before(After(content, Fence), Fence)
  {
    if Contains(content, JsonFence) {
      SplitPieces(content, JsonFence);
      SplitPieces(Split(content, JsonFence)[1], Fence);
    } else if Contains(content, Fence) {
      SplitPieces(content, Fence);
      SplitPieces(Split(content, Fence)[1], Fence);
      BeforeFree(After(content, Fence), Fence);
    }
  }

  /** After a "```json", the kept text is everything up to the next "```",
      unless that "```" begins one or two characters before a second
      "```json" and overlaps it (as in "x````json"): then the cut falls at
      that second "```json" instead. */
  lemma FenceBodyJson(content: string)
    requires Contains(content, JsonFence)
    requires var t := After(content, JsonFence);
      Contains(t, JsonFence) ==>
        Find(t, Fence) + |Fence| <= Find(t, JsonFence) || Find(t, Fence) == Find(t, JsonFence)
    ensures FenceBody(content) == Before(After(content, JsonFence), Fence)
  {
    FenceBodyBetween(content);
    BeforeBefore(After(content, JsonFence), JsonFence, Fence);
  }

  /** The kept text never contains a fence. */
  lemma FenceBodyFree(content: string)
    ensures !Contains(FenceBody(content), Fence)
  {
    FenceBodyBetween(content);
    if Contains(content, JsonFence) {
      BeforeFree(Before(After(content, JsonFence), JsonFence), Fence);
    } else if Contains(content, Fence) {
      BeforeFree(After(content, Fence), Fence);
    }
  }

  /** Text without a fence is kept whole, so cutting twice is cutting once. */
  lemma FenceBodyIdempotent(content: string)
    ensures FenceBody(FenceBody(content)) == FenceBody(content)
  {
    FenceBodyFree(content);
  }
}
