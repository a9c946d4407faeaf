# CV and cover-letter generator: a Dafny model of its core logic

The modelled application is a small web form. A job seeker submits:

- a job description,
- a language ("French" or "English"),
- a position,
- a word count,
- an access token,
- optionally a company name, with a box that asks the models to use what they know about that company.

After checking the submission, the server asks two language-model providers, OpenAI and Gemini, for a tailored CV and a cover letter each. The page then shows four result slots.

This project models the deterministic part of that flow:

- `text_utils.dfy` (module `TextUtils`, `src/utils.ts`) covers the text post-processing:
  - `nl2br`;
  - `removeMarkdownCodeBlocks`;
  - `nullToEmptyString`;
  - the token normalisation `getAuthToken`.

  The two regular-expression replacements become explicit left-to-right scans over `seq<char>`, the way a global `replace` consumes its input. The environment value is a parameter.
- `prompts.dfy` (module `Prompts`, `src/prompt.ts`) covers the user prompts, chosen by an exact language name.
- `instructions.dfy` (module `Instructions`, `src/system-instruction.ts`) covers the system instructions:
  - with the optional company clause;
  - with the two base CV documents passed in as `cvEn` and `cvFr`.

  The original reads those documents from disk on every call.
- `providers.dfy` (module `Providers`, `src/ask-openai.ts` and `src/ask-gemini.ts`) covers two things:
  - which instruction and prompt each provider receives;
  - how the text that comes back is post-processed.

  The model replies are parameters.
- `handler.dfy` (module `Handler`, `src/index.ts`) covers:
  - the four-slot result records;
  - the mapping of one settled provider call to a slot;
  - the four-step validation chain, with the company falling back to `"Unknown"`;
  - the four provider requests of an accepted submission;
  - the assembly of the four slots.
- `strings.dfy` and `wrappers.dfy` are vocabulary: occurrence, prefix, quoting, concatenation of parts, and `Option`.

Conventions:

- `undefined` and `null` are `None`.
- A form field that JavaScript treats as false is `None` or `""`.
- A settled provider call is `Fulfilled(text)` or `Rejected(message)`. The message is `None` when the rejection reason is not an `Error`.

Two details of the code that its own messages and comments do not spell out:

- **The token check.** The form error at `src/index.ts:120` lists the token among the required fields. The check before it (`src/index.ts:117`), however, treats the submitted token as missing only when it is absent (`=== undefined`). An empty token therefore passes the first check. Once the company check passes and a server token is configured, it is refused with "Invalid token.". Because `getAuthToken` never yields an empty configured token, an empty token is never accepted (`Handler.EmptyTokenNeverAccepted`).
- **The opening-fence tag.** The comment at `src/utils.ts:34` says that the language name of an opening code fence is removed. The pattern on line 39 removes it only when the tag is made of ASCII letters and is followed directly by a line feed. With `\r\n` after the tag, only the triple backtick goes and the tag stays in the text (`TextUtils.CrLfFenceKeepsTag`).

One detail of `nl2br` follows from the order of its alternatives (`src/utils.ts:7`): a `\r` ending, an empty line and a `\n` ending together read as a single `\r\n`, so that empty line disappears. Lines joined by any mix of endings come out joined by `<br>` everywhere else (`TextUtils.Nl2BrInterleave`, `TextUtils.Nl2BrSwallowsEmptyLine`).

Some properties hold by construction:

- The prompts and instructions are functions of their arguments alone.
- The cover-letter prompt has no job-description parameter.

## Model

| member | source | states |
|---|---|---|
| TextUtils.NullToEmptyString | src/utils.ts:1-4 | `null` gives the empty text; any text is returned as it is |
| TextUtils.GetAuthToken | src/utils.ts:23-30 | No token exactly when the variable is unset or empty; otherwise the value verbatim, so the configured token is never empty |
| TextUtils.Nl2Br | src/utils.ts:6-8 | The result contains no `\r` and no `\n` |
| TextUtils.Nl2BrUnchanged | src/utils.ts:7 | Text without `\r` or `\n` comes back unchanged |
| TextUtils.Nl2BrFixedPoint | src/utils.ts:7 | A text is left unchanged exactly when it has no line ending |
| TextUtils.Nl2BrIdempotent | src/utils.ts:7 | Applying it twice is the same as once |
| TextUtils.Nl2BrCrLf | src/utils.ts:7 | A `\r\n` pair becomes a single `<br>`, because `\r\n` is tried before `\r` and `\n` |
| TextUtils.Nl2BrSingle | src/utils.ts:7 | A lone `\r` or `\n` becomes one `<br>` |
| TextUtils.Nl2BrPlain | src/utils.ts:7 | Any other character is copied |
| TextUtils.Nl2BrConcat | src/utils.ts:7 | The rewrite works piece by piece, unless a `\r` at the end of one piece meets a `\n` at the start of the next |
| TextUtils.Nl2BrJoinLines | src/utils.ts:7 | Lines separated by any one line-ending convention come out separated by `<br>` |
| TextUtils.Nl2BrInterleave | src/utils.ts:7 | Lines separated by any mix of `\r\n`, `\r` and `\n` come out separated by `<br>`, unless a `\r` ending is followed by an empty line and a `\n` ending |
| TextUtils.Nl2BrSwallowsEmptyLine | src/utils.ts:7 | In that excluded case the empty line is lost: `a`, `\r`, an empty line, `\n`, `b` gives `a<br>b`, not the joined lines |
| TextUtils.OpeningFenceLength | src/utils.ts:39 | The match of three backticks, ASCII letters and a line feed at the start of a text: a result is a match, it is the only match, and no result means there is none |
| TextUtils.RemoveMarkdownCodeBlocks | src/utils.ts:37-43 | No triple backtick remains after the two passes. The passes are `StripOpeningFences` (line 39) and `StripFences` (line 41), whose behaviour the rows below state |
| TextUtils.StripOpeningFencesUnchanged | src/utils.ts:39 | Without a triple backtick the first pass deletes nothing |
| TextUtils.StripFencesUnchanged | src/utils.ts:41 | Without a triple backtick the second pass deletes nothing |
| TextUtils.StripFencesLeavesNoFence | src/utils.ts:41 | No triple backtick survives the second pass, whatever the input |
| TextUtils.RemoveMarkdownCodeBlocksUnchanged | src/utils.ts:37-43 | Text without a triple backtick is returned unchanged |
| TextUtils.RemoveMarkdownCodeBlocksIdempotent | src/utils.ts:37-43 | Applying it twice is the same as once |
| TextUtils.StripFencesBacktickRun | src/utils.ts:41 | A run of n backticks shrinks to n mod 3 backticks |
| TextUtils.StripOpeningFencesPlain | src/utils.ts:39 | A prefix without backticks passes through the first pass untouched |
| TextUtils.StripFencesPlain | src/utils.ts:41 | A prefix without backticks passes through the second pass untouched |
| TextUtils.RemoveFencedBlock | src/utils.ts:37-43 | A block of three backticks, ASCII-letter tag, line feed, backtick-free body and three backticks yields exactly the body |
| TextUtils.CrLfFenceKeepsTag | src/utils.ts:39-41 | With `\r\n` after the tag, the opening fence is not matched: only the backticks go and the tag stays |
| Prompts.GetPromptCoverLetter | src/prompt.ts:1-9 | Empty exactly when the language is neither "French" nor "English" |
| Prompts.GetPromptCV | src/prompt.ts:12-20 | Empty exactly when the language is neither "French" nor "English" |
| Prompts.LanguageIsCaseSensitive | src/prompt.ts:2-8 | Other spellings of the language names, such as lower case, give empty prompts |
| Prompts.EnglishCoverLetterPromptText | src/prompt.ts:6 | The English cover-letter prompt is the exact concatenation of the fixed wording with the word count, the quoted position and the quoted company |
| Prompts.FrenchCoverLetterPromptText | src/prompt.ts:3 | The same for the French cover-letter prompt |
| Prompts.CoverLetterPromptMentions | src/prompt.ts:3-6 | The cover-letter prompt contains the word count, and the position and the company each in double quotes |
| Prompts.CoverLetterPromptDeterminesArguments | src/prompt.ts:1-9 | Equal prompts from equal-length word counts and positions come from equal arguments |
| Prompts.CVPromptMentions | src/prompt.ts:14-17 | The CV prompt contains the position and the job description, each in double quotes |
| Prompts.CVPromptDeterminesArguments | src/prompt.ts:12-20 | Equal CV prompts from equal-length positions come from equal arguments |
| Instructions.GetSystemInstructionCoverLetter | src/system-instruction.ts:39-45 | Empty exactly when the language is neither "French" nor "English" |
| Instructions.GetSystemInstructionCV | src/system-instruction.ts:77-83 | Empty exactly when the language is neither "French" nor "English" |
| Instructions.CoverLetterInstructionMentions | src/system-instruction.ts:20-36 | The cover-letter instruction starts with its language's heading and contains the word count, the quoted job description and the quoted base CV of its own language |
| Instructions.CoverLetterInstructionNamesCompany | src/system-instruction.ts:12-18 | When the clause is included, the instruction contains the company in double quotes |
| Instructions.CoverLetterInstructionClauseIff | src/system-instruction.ts:11-18 | Ticking the company box changes the instruction exactly when the company is not "Unknown". This covers the clause builders `CompanyClauseFr` (line 13) and `CompanyClauseEn` (line 17) |
| Instructions.CoverLetterInstructionIgnoresCompany | src/system-instruction.ts:12-36 | Without the clause the instruction is the same for every company value |
| Instructions.CoverLetterInstructionOwnCVOnly | src/system-instruction.ts:26-35 | Each language's cover-letter instruction ignores the other language's base CV |
| Instructions.CVInstructionMentions | src/system-instruction.ts:53-74 | The CV instruction starts with its language's heading and contains the quoted job description and the quoted base CV of its own language |
| Instructions.CVInstructionOwnCVOnly | src/system-instruction.ts:60-72 | Each language's CV instruction ignores the other language's base CV |
| Providers.CVRequest | src/ask-openai.ts:19-28 | Both texts sent for a CV are empty exactly when the language is unsupported |
| Providers.CoverLetterRequest | src/ask-openai.ts:8-17 | Both texts sent for a cover letter are empty exactly when the language is unsupported |
| Providers.OpenAICoverLetterText | src/ask-openai.ts:16 | The shown cover letter has no raw line ending; a missing reply shows as empty |
| Providers.OpenAICVText | src/ask-openai.ts:27 | The shown CV has no triple backtick; a missing reply shows as empty |
| Providers.GeminiCoverLetterText | src/ask-gemini.ts:18 | The shown cover letter has no raw line ending |
| Providers.GeminiCVText | src/ask-gemini.ts:31 | The shown CV has no triple backtick |
| Providers.ProvidersAgreeOnSameReply | src/ask-openai.ts:16-27 | For the same reply text, both providers show the same cover letter and the same CV |
| Providers.PostProcessingIsStable | src/ask-gemini.ts:18-31 | Post-processing a shown text again changes nothing |
| Providers.PostProcessingKeepsPlainText | src/ask-gemini.ts:18-31 | A reply with no line ending, or with no triple backtick, is shown as it came |
| Handler.CreateInitialResults | src/index.ts:24-41 | All four slots are idle; the CV slots wait for a job description and the cover-letter slots for a question |
| Handler.CreateUniformResults | src/index.ts:43-48 | All four slots hold the given status and content |
| Handler.UniformResultsUnique | src/index.ts:43-48 | The uniform record is the only one with every slot equal to the given result, and different arguments give different records |
| Handler.InitialResultsNotUniform | src/index.ts:24-41 | The initial record is not uniform |
| Handler.MapSettledResult | src/index.ts:50-66 | Success exactly for a fulfilled call, with the text unchanged; a rejection gives an error whose content starts with the prefix and a colon |
| Handler.MapSettledResultRecovers | src/index.ts:54-65 | The message of a rejection can be read back after the prefix. Two outcomes give the same result exactly when they are equal, or are rejections that show the same message |
| Handler.UnknownErrorIndistinguishable | src/index.ts:59 | A reason that is not an `Error` looks the same as one whose message is "Unknown error occurred" |
| Handler.ResolveCompany | src/index.ts:133 | The submitted, non-empty company when the box is ticked, "Unknown" otherwise |
| Handler.Validate | src/index.ts:106-149 | Accepts exactly the admissible submissions: the four text fields are non-empty, a company is given if the box is ticked, and a non-empty configured token equals the submitted one. A refusal shows one result in every slot |
| Handler.ValidateRefusals | src/index.ts:117-149 | Each refusal happens exactly when its check fails and all earlier checks pass |
| Handler.MissingFieldsWin | src/index.ts:117-123 | A submission missing a field is refused the same way, whatever the company fields and the configured token |
| Handler.UnconfiguredTokenAcceptsNothing | src/index.ts:135-141 | Without a configured token no submission is accepted |
| Handler.EmptyTokenNeverAccepted | src/index.ts:117-149 | An empty submitted token is never accepted; once it reaches the comparison it gets "Invalid token." |
| Handler.AcceptedSubmission | src/index.ts:106-149 | An accepted submission carries the submitted fields unchanged. Its company is the submitted one exactly when the box was ticked with "true", and "Unknown" otherwise |
| Handler.OnlyExactTrueTicks | src/index.ts:108 | Any box value other than exactly "true" resolves the company to "Unknown" and leaves out the company clause |
| Handler.SubmissionRequests | src/index.ts:151-168 | Both CV calls receive the same request and both cover-letter calls the same request; each prompt is empty exactly when the language is unsupported |
| Handler.Dispatch | src/index.ts:117-168 | The provider requests are built exactly for admissible submissions |
| Handler.DispatchedPromptsMention | src/index.ts:133-168 | For a supported language the CV prompt carries the quoted position and job description, and the cover-letter prompt the word count, the quoted position and the quoted company, which is "Unknown" unless the box was ticked with "true". A ticked company other than "Unknown" is also named in the instruction |
| Handler.UntickedCompanyIgnored | src/index.ts:133-168 | Without the box ticked with "true", the typed company does not change any request |
| Handler.PrefixesDistinct | src/index.ts:178-195 | The four error prefixes are pairwise different |
| Handler.AssembleResults | src/index.ts:178-195 | Each slot is the mapping of its own outcome with its own prefix |
| Handler.FailureIsolation | src/index.ts:178-195 | Changing one call's outcome changes only that call's slot |
| Handler.HandleSubmission | src/index.ts:104-203 | A refused submission shows exactly the form error and the uniform results that `Validate` gives it. An admissible one shows no form error and the four assembled outcomes, none of them idle |
| Handler.PageFailureIsolation | src/index.ts:151-202 | On the page of an accepted submission, one call's outcome decides its own slot and leaves the other three as they were |
| Handler.RefusedIgnoresOutcomes | src/index.ts:117-149 | A refused submission's page does not depend on the provider outcomes |
| Handler.AllAnsweredShowsText | src/index.ts:151-202 | When every call succeeds, an accepted submission shows four successes: CVs without triple backticks and cover letters without raw line endings |

## Left out

- The Express wiring is not modelled:
  - body parsing;
  - cookie and CSRF middleware;
  - the 403 handler;
  - the GET route and `res.render`.

  This is framework plumbing. The page is modelled only as its results and form error.
- A `Request` field is an optional string. Arrays or objects that an extended URL-encoded body can produce are not modelled.
- `Promise.allSettled` and the concurrency of the four provider calls are not modelled. The four settled outcomes are parameters.
- The OpenAI and Google SDK calls are not modelled. Their replies are parameters, and `getAPIKey` is not modelled.
- Reading the base CV files with `fs.readFileSync` is replaced by the parameters `cvEn` and `cvFr`.
- The startup environment checks and their warnings are not modelled. They read `GOOGLEAI_API_KEY`, while `getAPIKey` reads `GEMINI_API_KEY`.
- All `console.warn` and `console.error` logging is left out.
- The default result text "An error occurred or input was missing." is left out. Every refusal overrides it before the page is rendered, so it never reaches a page.
- The regular-expression engine itself is not modelled. The two patterns are written out as scans. For the opening fence, `OpeningFenceLength` proves that the match at a position is unique, so backtracking cannot choose differently.
- Providers: the model names and the request format are not modelled, only the two texts each provider receives.
- Strings: JavaScript strings are sequences of UTF-16 code units, while a Dafny `string` is a sequence of Unicode scalar values. Lengths and positions of text outside the Basic Multilingual Plane therefore differ. No property here depends on this, because every pattern the scans look for is ASCII and the fixed wording, accented French included, is only ever handled as whole literals.
