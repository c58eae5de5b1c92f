/**
 * The review automation (src/automation/review.rs): fetch the page, build a
 * prompt from its text, generate, and append what was generated to the
 * same page.
 */
module Review {
  import opened Wrappers
  import opened NotionTypes
  import opened GeminiTypes
  import opened Store

  /**
   * `gen_review_prompt`: one user turn holding one part per block that has
   * text, in block order; the instruction (the review prompt file) as
   * a one-part user turn; the default generation config.
   */
  function GenReviewPrompt(page_detail: NotionPageDetail, instruction: string): (p: ChatPrompt)
    ensures p.system_instruction == Some(PromptContent(Some(User), [Part(instruction)]))
    ensures |p.contents| == 1 && p.contents[0].role == Some(User)
    ensures Texts(p.contents[0].parts) == ExtractParts(page_detail.body.results)
    ensures |p.contents[0].parts| == |TextIndices(page_detail.body.results)|
    ensures p.generation_config == Some(DefaultConfig())
  {
    ExtractPartsCount(page_detail.body.results);
    var system_instruction := UserTurn([Part(instruction)]);
    var page_contents := PartsOf(ExtractParts(page_detail.body.results));
    ChatPrompt([UserTurn(page_contents)], Some(system_instruction), Some(DefaultConfig()))
  }

  /** The unit test: a paragraph and a code block give two parts, in that order. */
  lemma GenReviewPromptExample(page_ref: NotionPageRef, instruction: string)
    ensures var p := GenReviewPrompt(NotionPageDetail(page_ref, NotionBlockList(
                       [ParagraphBlock("I learned about Rust tests."), CodeBlock("fn test() {}", "rust")])), instruction);
            |p.contents| == 1 && Texts(p.contents[0].parts) == ["I learned about Rust tests.", "fn test() {}"]
            && p.system_instruction.Some?
  {
    var a, b := ParagraphBlock("I learned about Rust tests."), CodeBlock("fn test() {}", "rust");
    assert [a, b] == [a] + [b];
    ExtractPartsAppend([a], [b]);
    ExtractPartsSingle(a);
    ExtractPartsSingle(b);
  }

  /**
   * `review_automation_process`: fetch, prompt, generate with the Pro
   * model, append to the fetched page; the first failing step ends the run
   * with its error.
   */
  method ReviewAutomationProcess(s: Services, payload: NotionWebhookPayload, instruction: string)
    returns (r: Result<(), ApiError>)
    modifies s`events
    ensures var id := payload.data.id;
            id !in s.pages ==> r == Err(FetchFailed(id)) && s.events == old(s.events) + [FetchCall(id)]
    ensures var id := payload.data.id;
            id in s.pages ==>
              var prompt := GenReviewPrompt(NotionPageDetail(NotionPageRef(id), NotionBlockList(s.pages[id])), instruction);
              if s.generation.None? then
                r == Err(GenerationFailed)
                && s.events == old(s.events) + [FetchCall(id), GenerateCall(prompt, Gemini3Pro)]
              else
                r == (if s.appendFails then Err(AppendFailed(id)) else Ok(()))
                && s.events == old(s.events) + [FetchCall(id), GenerateCall(prompt, Gemini3Pro),
                                                AppendCall(id, s.generation.value)]
  {
    var page_id := payload.data.id;
    var fetched := s.FetchPage(page_id);
    if fetched.Err? {
      return Err(fetched.error);
    }
    var prompt := GenReviewPrompt(fetched.value, instruction);
    var generated := s.Generate(prompt, Gemini3Pro);
    if generated.Err? {
      return Err(generated.error);
    }
    r := s.AppendBlocks(page_id, generated.value);
  }
}
