/** The decision logic of the form handler in `src/index.ts`: the result
    records shown on the page, the mapping of one settled provider call to a
    result, the four validation steps of a submission, and the assembly of
    the four results. The web framework, the rendering and the concurrent
    provider calls are not modelled; the settled outcomes are parameters. */
module Handler {
  import opened Wrappers
  import opened Strings
  import TextUtils
  import Prompts
  import Instructions
  import Providers

  /* ---------------------------------------------------------------------
     Result records
     --------------------------------------------------------------------- */

  datatype Status = Idle | Success | Error

  /** What one slot of the page shows. */
  datatype GenerationResult = GenerationResult(status: Status, content: string)

  /** The four slots of the page. */
  datatype TemplateResults = TemplateResults(geminiCV: GenerationResult, openAICV: GenerationResult,
                                             geminiCoverLetter: GenerationResult,
                                             openAICoverLetter: GenerationResult)

  /** Names for the four slots. */
  datatype Slot = GeminiCV | OpenAICV | GeminiCoverLetter | OpenAICoverLetter

  /** The result a slot holds. */
  function Get(results: TemplateResults, slot: Slot): GenerationResult {
    match slot
    case GeminiCV => results.geminiCV
    case OpenAICV => results.openAICV
    case GeminiCoverLetter => results.geminiCoverLetter
    case OpenAICoverLetter => results.openAICoverLetter
  }

  /** The results with one slot replaced. */
  function Put(results: TemplateResults, slot: Slot, g: GenerationResult): TemplateResults {
    match slot
    case GeminiCV => results.(geminiCV := g)
    case OpenAICV => results.(openAICV := g)
    case GeminiCoverLetter => results.(geminiCoverLetter := g)
    case OpenAICoverLetter => results.(openAICoverLetter := g)
  }

  predicate IsCVSlot(slot: Slot) {
    slot == GeminiCV || slot == OpenAICV
  }

  const WaitingForCV := "Waiting for your job description for CV generation"
  const WaitingForCoverLetter := "Waiting for your question for Cover Letter"

  /** The results of a page that has not been submitted yet. */
  function CreateInitialResults(): (r: TemplateResults)
    ensures forall slot :: Get(r, slot).status == Idle
    ensures forall slot :: IsCVSlot(slot) ==> Get(r, slot).content == WaitingForCV
    ensures forall slot :: !IsCVSlot(slot) ==> Get(r, slot).content == WaitingForCoverLetter
  {
    var cv := GenerationResult(Idle, WaitingForCV);
    var letter := GenerationResult(Idle, WaitingForCoverLetter);
    TemplateResults(cv, cv, letter, letter)
  }

  /** Every slot holds the same result. */
  predicate IsUniform(results: TemplateResults, status: Status, content: string) {
    forall slot :: Get(results, slot) == GenerationResult(status, content)
  }

  /** The results with every slot set to the same status and content. */
  function CreateUniformResults(status: Status, content: string): (r: TemplateResults)
    ensures IsUniform(r, status, content)
  {
    var g := GenerationResult(status, content);
    TemplateResults(g, g, g, g)
  }

  /** The uniform results are the only ones with every slot equal to the given
      result, and two of them are equal only when made from the same status
      and content. */
  lemma UniformResultsUnique(results: TemplateResults, status: Status, content: string,
                             status2: Status, content2: string)
    ensures IsUniform(results, status, content) <==> results == CreateUniformResults(status, content)
    ensures CreateUniformResults(status, content) == CreateUniformResults(status2, content2)
            <==> status == status2 && content == content2
  {
    if IsUniform(results, status, content) {
      assert Get(results, GeminiCV) == GenerationResult(status, content);
      assert Get(results, OpenAICV) == GenerationResult(status, content);
      assert Get(results, GeminiCoverLetter) == GenerationResult(status, content);
      assert Get(results, OpenAICoverLetter) == GenerationResult(status, content);
    }
  }

  /** The initial page is not uniform: its CV slots and cover-letter slots
      wait for different things. */
  lemma InitialResultsNotUniform(status: Status, content: string)
    ensures !IsUniform(CreateInitialResults(), status, content)
  {
    var r := CreateInitialResults();
    assert Get(r, GeminiCV).content == WaitingForCV;
    assert Get(r, GeminiCoverLetter).content == WaitingForCoverLetter;
  }

  /* ---------------------------------------------------------------------
     Settled provider calls
     --------------------------------------------------------------------- */

  /** How one provider call ended: with its text, or with a rejection whose
      reason carries a message when it is an `Error` and none otherwise. */
  datatype Settled = Fulfilled(value: string) | Rejected(message: Option<string>)

  const UnknownError := "Unknown error occurred"

  /** The message shown for a rejection. */
  function ErrorMessage(message: Option<string>): string {
    message.GetOr(UnknownError)
  }

  /** A settled call as a slot result: the text on success, otherwise the
      slot's prefix, a colon and the message. */
  function MapSettledResult(outcome: Settled, prefix: string): (g: GenerationResult)
    ensures g.status == Success <==> outcome.Fulfilled?
    ensures g.status != Idle
    ensures outcome.Fulfilled? ==> g.content == outcome.value
    ensures outcome.Rejected? ==> StartsWith(g.content, prefix + ": ")
  {
    match outcome
    case Fulfilled(value) => GenerationResult(Success, value)
    case Rejected(message) => GenerationResult(Error, prefix + ": " + ErrorMessage(message))
  }

  /** The shown result loses only one thing: whether a rejection carried no
      message or carried exactly the placeholder message. In particular the
      message of a rejection can be read back after the prefix. */
  lemma MapSettledResultRecovers(o1: Settled, o2: Settled, prefix: string)
    ensures o1.Rejected? ==> MapSettledResult(o1, prefix).content[|prefix| + 2..] == ErrorMessage(o1.message)
    ensures MapSettledResult(o1, prefix) == MapSettledResult(o2, prefix)
            <==> o1 == o2 || (o1.Rejected? && o2.Rejected? && ErrorMessage(o1.message) == ErrorMessage(o2.message))
  {
  }

  /** A rejection without an `Error` and one whose message is the
      placeholder look the same on the page. */
  lemma UnknownErrorIndistinguishable(prefix: string)
    ensures MapSettledResult(Rejected(None), prefix) == MapSettledResult(Rejected(Some(UnknownError)), prefix)
  {
  }

  /* ---------------------------------------------------------------------
     Validation of a submission
     --------------------------------------------------------------------- */

  /** The submitted form fields; None is a field that was not sent. */
  datatype Request = Request(job: Option<string>, language: Option<string>, position: Option<string>,
                             words: Option<string>, token: Option<string>,
                             company: Option<string>, searchCompany: Option<string>)

  /** A field JavaScript treats as false: absent or empty. */
  predicate Falsy(v: Option<string>) {
    v.None? || v.value == ""
  }

  /** The first check: a text field is missing when falsy, the token only
      when absent. */
  predicate MissingRequired(req: Request) {
    Falsy(req.job) || Falsy(req.language) || Falsy(req.position) || Falsy(req.words) || req.token.None?
  }

  /** The company-information box counts as ticked only for exactly "true". */
  predicate SearchCompanyInfo(req: Request) {
    req.searchCompany == Some("true")
  }

  /** The second check: a ticked box needs a company. */
  predicate CompanyMissing(req: Request) {
    SearchCompanyInfo(req) && Falsy(req.company)
  }

  /** What a submission that passes all checks goes on with. */
  datatype Submission = Submission(job: string, language: string, position: string, words: string,
                                   company: string, searchCompanyInfo: bool)

  /** The outcome of the checks: the form error with the results to show, or
      the submission to process. */
  datatype Verdict = Refused(formError: string, results: TemplateResults) | Accepted(submission: Submission)

  const MissingFieldsError := "Missing required fields: job, language, position, words, or token."
  const MissingFieldsResult := "Missing required fields."
  const CompanyRequiredError := "Company name is required when 'Attempt to use specific information' is checked."
  const CompanyRequiredResult := "Company name required."
  const TokenNotConfiguredError := "Security Alert: Application AUTH_TOKEN is not configured. Submission rejected."
  const TokenNotConfiguredResult := "AUTH_TOKEN not configured."
  const InvalidTokenError := "Invalid token."
  const InvalidTokenResult := "Invalid token."

  /** A refusal shows its result text in every slot. */
  function Refuse(formError: string, resultText: string): Verdict {
    Refused(formError, CreateUniformResults(Error, resultText))
  }

  /** The company the cover letters are written for: the submitted one when
      the box is ticked (the second check has made sure there is one),
      otherwise "Unknown". */
  function ResolveCompany(req: Request): (company: string)
    requires !CompanyMissing(req)
    ensures SearchCompanyInfo(req) ==> Some(company) == req.company && company != ""
    ensures !SearchCompanyInfo(req) ==> company == Instructions.Unknown
  {
    if SearchCompanyInfo(req) then req.company.value else Instructions.Unknown
  }

  /** All four checks pass, stated as one condition rather than a chain. */
  predicate Admissible(req: Request, configuredToken: Option<string>) {
    && req.job.Some? && req.job.value != ""
    && req.language.Some? && req.language.value != ""
    && req.position.Some? && req.position.value != ""
    && req.words.Some? && req.words.value != ""
    && (req.searchCompany == Some("true") ==> req.company.Some? && req.company.value != "")
    && configuredToken.Some? && configuredToken.value != ""
    && req.token == configuredToken
  }

  /** The four checks in their fixed order; the first that fails decides. */
  function Validate(req: Request, configuredToken: Option<string>): (v: Verdict)
    ensures v.Accepted? <==> Admissible(req, configuredToken)
    ensures v.Refused? ==> IsUniform(v.results, Error, v.results.geminiCV.content)
  {
    if MissingRequired(req) then Refuse(MissingFieldsError, MissingFieldsResult)
    else if CompanyMissing(req) then Refuse(CompanyRequiredError, CompanyRequiredResult)
    else if Falsy(configuredToken) then Refuse(TokenNotConfiguredError, TokenNotConfiguredResult)
    else if req.token != configuredToken then Refuse(InvalidTokenError, InvalidTokenResult)
    else
      Accepted(Submission(req.job.value, req.language.value, req.position.value, req.words.value,
                          ResolveCompany(req), SearchCompanyInfo(req)))
  }

  /** Which refusal a submission gets, each exactly characterised: a check
      decides only when every earlier one has passed. */
  lemma ValidateRefusals(req: Request, configuredToken: Option<string>)
    ensures Validate(req, configuredToken) == Refuse(MissingFieldsError, MissingFieldsResult)
            <==> MissingRequired(req)
    ensures Validate(req, configuredToken) == Refuse(CompanyRequiredError, CompanyRequiredResult)
            <==> !MissingRequired(req) && CompanyMissing(req)
    ensures Validate(req, configuredToken) == Refuse(TokenNotConfiguredError, TokenNotConfiguredResult)
            <==> !MissingRequired(req) && !CompanyMissing(req) && Falsy(configuredToken)
    ensures Validate(req, configuredToken) == Refuse(InvalidTokenError, InvalidTokenResult)
            <==> !MissingRequired(req) && !CompanyMissing(req) && !Falsy(configuredToken)
                 && req.token != configuredToken
  {
    UniformResultsUnique(CreateUniformResults(Error, ""), Error, MissingFieldsResult, Error, CompanyRequiredResult);
    UniformResultsUnique(CreateUniformResults(Error, ""), Error, MissingFieldsResult, Error, TokenNotConfiguredResult);
    UniformResultsUnique(CreateUniformResults(Error, ""), Error, CompanyRequiredResult, Error, TokenNotConfiguredResult);
  }

  /** A request that lacks a field is refused the same way whatever the
      company fields and the server's token. */
  lemma MissingFieldsWin(req: Request, configuredToken: Option<string>,
                         company: Option<string>, searchCompany: Option<string>, otherToken: Option<string>)
    requires MissingRequired(req)
    ensures Validate(req, configuredToken)
            == Validate(req.(company := company, searchCompany := searchCompany), otherToken)
  {
  }

  /** Without a configured token nothing is accepted. */
  lemma UnconfiguredTokenAcceptsNothing(req: Request, env: Option<string>)
    requires Falsy(TextUtils.GetAuthToken(env))
    ensures !Validate(req, TextUtils.GetAuthToken(env)).Accepted?
  {
  }

  /** An empty submitted token is never accepted: a configured token is never
      empty, and a request that gets as far as the token comparison is told
      the token is invalid. */
  lemma EmptyTokenNeverAccepted(req: Request, env: Option<string>)
    requires req.token == Some("")
    ensures !Validate(req, TextUtils.GetAuthToken(env)).Accepted?
    ensures !MissingRequired(req) && !CompanyMissing(req) && !Falsy(TextUtils.GetAuthToken(env))
            ==> Validate(req, TextUtils.GetAuthToken(env)).formError == InvalidTokenError
  {
  }

  /** An accepted submission carries the submitted fields unchanged, and its
      company is the submitted one exactly when the box was ticked with
      "true". */
  lemma AcceptedSubmission(req: Request, configuredToken: Option<string>)
    requires Validate(req, configuredToken).Accepted?
    ensures var s := Validate(req, configuredToken).submission;
      && Some(s.job) == req.job && Some(s.language) == req.language
      && Some(s.position) == req.position && Some(s.words) == req.words
      && s.job != "" && s.language != "" && s.position != "" && s.words != ""
      && (s.searchCompanyInfo <==> req.searchCompany == Some("true"))
      && (s.searchCompanyInfo ==> Some(s.company) == req.company)
      && (!s.searchCompanyInfo ==> s.company == "Unknown")
      && req.token == configuredToken
  {
  }

  /** Any tick value other than exactly "true" leaves the company out. */
  lemma OnlyExactTrueTicks(req: Request, configuredToken: Option<string>)
    requires req.searchCompany != Some("true")
    requires Validate(req, configuredToken).Accepted?
    ensures Validate(req, configuredToken).submission.company == Instructions.Unknown
    ensures !Instructions.IncludesCompanyClause(Validate(req, configuredToken).submission.company,
                                                Validate(req, configuredToken).submission.searchCompanyInfo)
  {
  }

  /* ---------------------------------------------------------------------
     The four provider requests
     --------------------------------------------------------------------- */

  /** The texts handed to the four provider calls, one per slot. */
  datatype Requests = Requests(geminiCV: Providers.ModelRequest, openAICV: Providers.ModelRequest,
                               geminiCoverLetter: Providers.ModelRequest,
                               openAICoverLetter: Providers.ModelRequest)

  /** The requests for an accepted submission: both CV calls get the job
      description, position and language; both cover-letter calls also get
      the resolved company, the word count and the tick. The CV texts are
      the two files the instructions embed. */
  function SubmissionRequests(s: Submission, cvEn: string, cvFr: string): (q: Requests)
    ensures q.geminiCV == q.openAICV && q.geminiCoverLetter == q.openAICoverLetter
    ensures q.geminiCV.prompt == "" <==> !Prompts.IsSupportedLanguage(s.language)
    ensures q.geminiCoverLetter.prompt == "" <==> !Prompts.IsSupportedLanguage(s.language)
  {
    var cv := Providers.CVRequest(s.job, s.position, s.language, cvEn, cvFr);
    var letter := Providers.CoverLetterRequest(s.company, s.position, s.job, s.language,
                                               s.words, s.searchCompanyInfo, cvEn, cvFr);
    Requests(cv, cv, letter, letter)
  }

  /** The requests a submission leads to: none when it is refused, the
      requests of its accepted submission otherwise. */
  function Dispatch(req: Request, configuredToken: Option<string>, cvEn: string, cvFr: string): (r: Option<Requests>)
    ensures r.Some? <==> Admissible(req, configuredToken)
  {
    match Validate(req, configuredToken)
    case Refused(_, _) => None
    case Accepted(s) => Some(SubmissionRequests(s, cvEn, cvFr))
  }

  /** The prompts of an accepted submission in a supported language carry
      what the user typed: the CV prompt the quoted position and job
      description, the cover-letter prompt the word count, the quoted
      position, and the quoted company when the box was ticked with "true"
      or the quoted `Unknown` otherwise. A ticked company other than
      `Unknown` is named in the cover-letter instruction as well. */
  lemma DispatchedPromptsMention(req: Request, configuredToken: Option<string>,
                                 cvEn: string, cvFr: string)
    requires Admissible(req, configuredToken)
    requires Prompts.IsSupportedLanguage(req.language.value)
    ensures var q := Dispatch(req, configuredToken, cvEn, cvFr).value;
      && Contains(q.geminiCV.prompt, Quote(req.position.value))
      && Contains(q.geminiCV.prompt, Quote(req.job.value))
      && Contains(q.geminiCoverLetter.prompt, req.words.value)
      && Contains(q.geminiCoverLetter.prompt, Quote(req.position.value))
      && (req.searchCompany == Some("true") ==> Contains(q.geminiCoverLetter.prompt, Quote(req.company.value)))
      && (req.searchCompany != Some("true") ==> Contains(q.geminiCoverLetter.prompt, Quote(Instructions.Unknown)))
      && (req.searchCompany == Some("true") && req.company.value != Instructions.Unknown ==>
            Contains(q.geminiCoverLetter.instruction, Quote(req.company.value)))
  {
    AcceptedSubmission(req, configuredToken);
    var s := Validate(req, configuredToken).submission;
    Prompts.CVPromptMentions(s.language, s.job, s.position);
    Prompts.CoverLetterPromptMentions(s.language, s.company, s.position, s.words);
    if Instructions.IncludesCompanyClause(s.company, s.searchCompanyInfo) {
      Instructions.CoverLetterInstructionNamesCompany(s.company, s.job, s.words, s.language,
                                                      s.searchCompanyInfo, cvEn, cvFr);
    }
  }

  /** With the box not ticked with "true", the company typed in the form
      reaches no request: the cover-letter texts are those for `Unknown`. */
  lemma UntickedCompanyIgnored(req: Request, configuredToken: Option<string>, company: Option<string>,
                               cvEn: string, cvFr: string)
    requires Admissible(req, configuredToken)
    requires req.searchCompany != Some("true")
    ensures Dispatch(req.(company := company), configuredToken, cvEn, cvFr)
            == Dispatch(req, configuredToken, cvEn, cvFr)
  {
  }

  /* ---------------------------------------------------------------------
     Assembly of the four results
     --------------------------------------------------------------------- */

  /** How the four provider calls ended. */
  datatype Outcomes = Outcomes(geminiCV: Settled, openAICV: Settled,
                               geminiCoverLetter: Settled, openAICoverLetter: Settled)

  /** The outcome of one slot's call. */
  function Outcome(outcomes: Outcomes, slot: Slot): Settled {
    match slot
    case GeminiCV => outcomes.geminiCV
    case OpenAICV => outcomes.openAICV
    case GeminiCoverLetter => outcomes.geminiCoverLetter
    case OpenAICoverLetter => outcomes.openAICoverLetter
  }

  /** The outcomes with one slot's outcome replaced. */
  function WithOutcome(outcomes: Outcomes, slot: Slot, o: Settled): Outcomes {
    match slot
    case GeminiCV => outcomes.(geminiCV := o)
    case OpenAICV => outcomes.(openAICV := o)
    case GeminiCoverLetter => outcomes.(geminiCoverLetter := o)
    case OpenAICoverLetter => outcomes.(openAICoverLetter := o)
  }

  const GeminiCVPrefix := "Error generating CV with Gemini"
  const OpenAICVPrefix := "Error generating CV with OpenAI"
  const GeminiCoverLetterPrefix := "Error generating Cover Letter with Gemini"
  const OpenAICoverLetterPrefix := "Error generating Cover Letter with OpenAI"

  /** The text each slot puts before an error message. */
  function Prefix(slot: Slot): string {
    match slot
    case GeminiCV => GeminiCVPrefix
    case OpenAICV => OpenAICVPrefix
    case GeminiCoverLetter => GeminiCoverLetterPrefix
    case OpenAICoverLetter => OpenAICoverLetterPrefix
  }

  /** Every slot has its own prefix, so an error names its provider and
      document. */
  lemma PrefixesDistinct(a: Slot, b: Slot)
    ensures Prefix(a) == Prefix(b) <==> a == b
  {
  }

  /** The four slot results, each mapped from its own outcome. */
  function AssembleResults(outcomes: Outcomes): (r: TemplateResults)
    ensures forall slot :: Get(r, slot) == MapSettledResult(Outcome(outcomes, slot), Prefix(slot))
  {
    TemplateResults(
      MapSettledResult(outcomes.geminiCV, GeminiCVPrefix),
      MapSettledResult(outcomes.openAICV, OpenAICVPrefix),
      MapSettledResult(outcomes.geminiCoverLetter, GeminiCoverLetterPrefix),
      MapSettledResult(outcomes.openAICoverLetter, OpenAICoverLetterPrefix))
  }

  /** One call's outcome changes only its own slot: replacing it replaces
      that slot's result and leaves the other three as they were. */
  lemma FailureIsolation(outcomes: Outcomes, slot: Slot, o: Settled)
    ensures AssembleResults(WithOutcome(outcomes, slot, o))
            == Put(AssembleResults(outcomes), slot, MapSettledResult(o, Prefix(slot)))
    ensures forall other :: other != slot ==>
              Get(AssembleResults(WithOutcome(outcomes, slot, o)), other) == Get(AssembleResults(outcomes), other)
  {
  }

  /** The page after a submission: the slot results and the form error. */
  datatype Page = Page(results: TemplateResults, formError: Option<string>)

  /** The handling of a submission. `outcomes` stands for the four provider
      calls, which are made only for an accepted submission. */
  function HandleSubmission(req: Request, configuredToken: Option<string>, outcomes: Outcomes): (page: Page)
    ensures page.formError.None? <==> Admissible(req, configuredToken)
    ensures page.formError.Some? ==> IsUniform(page.results, Error, page.results.geminiCV.content)
    ensures page.formError.None? ==> forall slot :: Get(page.results, slot).status != Idle
    ensures Admissible(req, configuredToken) ==> page.results == AssembleResults(outcomes)
    ensures !Admissible(req, configuredToken) ==>
              page == Page(Validate(req, configuredToken).results, Some(Validate(req, configuredToken).formError))
  {
    match Validate(req, configuredToken)
    case Refused(formError, results) => Page(results, Some(formError))
    case Accepted(_) => Page(AssembleResults(outcomes), None)
  }

  /** On the page of an accepted submission, one call's outcome changes only
      that call's slot. */
  lemma PageFailureIsolation(req: Request, configuredToken: Option<string>,
                             outcomes: Outcomes, slot: Slot, o: Settled)
    requires Admissible(req, configuredToken)
    ensures var page := HandleSubmission(req, configuredToken, WithOutcome(outcomes, slot, o));
      && Get(page.results, slot) == MapSettledResult(o, Prefix(slot))
      && forall other :: other != slot ==>
           Get(page.results, other) == Get(HandleSubmission(req, configuredToken, outcomes).results, other)
  {
    FailureIsolation(outcomes, slot, o);
  }

  /** A refused submission does not depend on what the providers would have
      returned. */
  lemma RefusedIgnoresOutcomes(req: Request, configuredToken: Option<string>, o1: Outcomes, o2: Outcomes)
    requires !Admissible(req, configuredToken)
    ensures HandleSubmission(req, configuredToken, o1) == HandleSubmission(req, configuredToken, o2)
  {
  }

  /** The outcomes of an accepted submission when both providers answer: the
      cover letters go through `Nl2Br`, the CVs through
      `RemoveMarkdownCodeBlocks`. */
  function AnsweredOutcomes(geminiCV: string, openAICV: Option<string>,
                            geminiCoverLetter: string, openAICoverLetter: Option<string>): Outcomes {
    Outcomes(Fulfilled(Providers.GeminiCVText(geminiCV)), Fulfilled(Providers.OpenAICVText(openAICV)),
             Fulfilled(Providers.GeminiCoverLetterText(geminiCoverLetter)),
             Fulfilled(Providers.OpenAICoverLetterText(openAICoverLetter)))
  }

  /** When every call succeeds, an accepted submission shows four successes:
      CVs without code fences and cover letters without raw line endings. */
  lemma AllAnsweredShowsText(req: Request, configuredToken: Option<string>,
                             geminiCV: string, openAICV: Option<string>,
                             geminiCoverLetter: string, openAICoverLetter: Option<string>)
    requires Admissible(req, configuredToken)
    ensures var page := HandleSubmission(req, configuredToken,
                                         AnsweredOutcomes(geminiCV, openAICV, geminiCoverLetter, openAICoverLetter));
      && page.formError.None?
      && (forall slot :: Get(page.results, slot).status == Success)
      && (forall slot :: IsCVSlot(slot) ==> !TextUtils.HasFence(Get(page.results, slot).content))
      && (forall slot :: !IsCVSlot(slot) ==> !TextUtils.HasLineBreak(Get(page.results, slot).content))
  {
  }
}
