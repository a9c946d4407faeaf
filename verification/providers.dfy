/** What the two provider wrappers of `src/ask-openai.ts` and
    `src/ask-gemini.ts` compute around the model calls: the pair of texts
    sent to a model, and the post-processing of the text that comes back.
    The calls themselves are not modelled; a reply is a parameter. */
module Providers {
  import opened Wrappers
  import TextUtils
  import Prompts
  import Instructions

  /** The two texts handed to a model: the system instruction and the user
      prompt. */
  datatype ModelRequest = ModelRequest(instruction: string, prompt: string)

  /** The request both providers send for a CV. */
  function CVRequest(jobDescription: string, position: string, language: string,
                     cvEn: string, cvFr: string): (q: ModelRequest)
    ensures q.instruction == "" <==> !Prompts.IsSupportedLanguage(language)
    ensures q.prompt == "" <==> !Prompts.IsSupportedLanguage(language)
  {
    ModelRequest(Instructions.GetSystemInstructionCV(jobDescription, language, cvEn, cvFr),
                 Prompts.GetPromptCV(language, jobDescription, position))
  }

  /** The request both providers send for a cover letter. */
  function CoverLetterRequest(company: string, position: string, job: string, language: string,
                              words: string, searchCompanyInfo: bool,
                              cvEn: string, cvFr: string): (q: ModelRequest)
    ensures q.instruction == "" <==> !Prompts.IsSupportedLanguage(language)
    ensures q.prompt == "" <==> !Prompts.IsSupportedLanguage(language)
  {
    ModelRequest(
      Instructions.GetSystemInstructionCoverLetter(company, job, words, language, searchCompanyInfo, cvEn, cvFr),
      Prompts.GetPromptCoverLetter(language, company, position, words))
  }

  /** The OpenAI cover letter: a missing reply reads as empty, then every
      line ending becomes `<br>`. */
  function OpenAICoverLetterText(content: Option<string>): (r: string)
    ensures !TextUtils.HasLineBreak(r)
    ensures content.None? ==> r == ""
  {
    TextUtils.Nl2Br(TextUtils.NullToEmptyString(content))
  }

  /** The OpenAI CV: a missing reply reads as empty, then code fences go. */
  function OpenAICVText(content: Option<string>): (r: string)
    ensures !TextUtils.HasFence(r)
    ensures content.None? ==> r == ""
  {
    TextUtils.RemoveMarkdownCodeBlocks(TextUtils.NullToEmptyString(content))
  }

  /** The Gemini cover letter: every line ending becomes `<br>`. */
  function GeminiCoverLetterText(text: string): (r: string)
    ensures !TextUtils.HasLineBreak(r)
  {
    TextUtils.Nl2Br(text)
  }

  /** The Gemini CV: code fences go. */
  function GeminiCVText(text: string): (r: string)
    ensures !TextUtils.HasFence(r)
  {
    TextUtils.RemoveMarkdownCodeBlocks(text)
  }

  /** Given the same reply text, both providers show the same cover letter
      and the same CV. */
  lemma ProvidersAgreeOnSameReply(text: string)
    ensures OpenAICoverLetterText(Some(text)) == GeminiCoverLetterText(text)
    ensures OpenAICVText(Some(text)) == GeminiCVText(text)
  {
  }

  /** Post-processing a shown text again changes nothing. */
  lemma PostProcessingIsStable(text: string)
    ensures GeminiCoverLetterText(GeminiCoverLetterText(text)) == GeminiCoverLetterText(text)
    ensures GeminiCVText(GeminiCVText(text)) == GeminiCVText(text)
  {
    TextUtils.Nl2BrIdempotent(text);
    TextUtils.RemoveMarkdownCodeBlocksIdempotent(text);
  }

  /** A reply with nothing to rewrite is shown as it came. */
  lemma PostProcessingKeepsPlainText(text: string)
    ensures !TextUtils.HasLineBreak(text) ==> GeminiCoverLetterText(text) == text
    ensures !TextUtils.HasFence(text) ==> GeminiCVText(text) == text
  {
    if !TextUtils.HasLineBreak(text) {
      TextUtils.Nl2BrUnchanged(text);
    }
    if !TextUtils.HasFence(text) {
      TextUtils.RemoveMarkdownCodeBlocksUnchanged(text);
    }
  }
}
