/** The system instructions of `src/system-instruction.ts`. The two base CV
    documents, which the original reads from disk on every call, are passed
    in as `cvEn` and `cvFr`. */
module Instructions {
  import opened Strings
  import Prompts

  /** The company value that stands for "no company given". */
  const Unknown := "Unknown"

  /** The cover-letter instruction names the company only when one was given
      and the requester asked for company-specific information. */
  predicate IncludesCompanyClause(company: string, searchCompanyInfo: bool) {
    company != Unknown && searchCompanyInfo
  }

  /** The wording that introduces the company in the company clause. */
  const CompanyClauseOpenFr := "Prends ce que tu sais sur la société "
  const CompanyClauseOpenEn := "Grab what you have about the company "

  /** The French company clause, or nothing. */
  function CompanyClauseFr(company: string, searchCompanyInfo: bool): string {
    if IncludesCompanyClause(company, searchCompanyInfo)
    then CompanyClauseOpenFr + Quote(company) + ". "
    else ""
  }

  /** The English company clause, or nothing. */
  function CompanyClauseEn(company: string, searchCompanyInfo: bool): string {
    if IncludesCompanyClause(company, searchCompanyInfo)
    then CompanyClauseOpenEn + Quote(company) + ". "
    else ""
  }

  /* The fixed wording of the four instructions, fragment by fragment. */

  const CoverLetterHeadingFr := "# Instructions pour Lettre de Motivation\n\n"
  const CoverLetterRoleFr :=
    "Agis en tant que chercheur d'emploi qui veut rédiger une lettre de motivation qui sera utile pour obtenir un emploi. "
  const CoverLetterAskFr := "et écris une lettre de motivation de "
  const CoverLetterLengthFr := " mots avec des mots qui sont significatifs pour un responsable des ressources humaines.\n\n"
  const CoverLetterJobFr := "Voici la description du poste convoité:\n\n"
  const CoverLetterCVFr := "Le CV de base du candidat est le suivant:\n\n"
  const CoverLetterStyleFr :=
    "Parles à la première personne, tu es le candidat. Pour formatter ta réponse, n'utilises pas Markdown, utilises simplement du texte brut."

  const CoverLetterHeadingEn := "# Cover Letter Instructions\n\n"
  const CoverLetterRoleEn := "Act as a job seeker who needs to write a cover letter that will be valuable to get a job. "
  const CoverLetterAskEn := "and write a "
  const CoverLetterLengthEn := " words cover letter with words that are meaningful to human resource staff.\n\n"
  const CoverLetterJobEn := "This is the job description:\n\n"
  const CoverLetterCVEn := "The candidate's base CV is as follows:\n\n"
  const CoverLetterStyleEn :=
    "You will talk in the first person, as you are the candidate. For formatting your answer, do not use Markdown, just plain text."

  const CVHeadingFr := "# Instructions pour Génération de CV\n\n"
  const CVTaskFr :=
    " Tu es un expert en rédaction de CV. Ta tâche est de créer un CV sur mesure basé sur le CV de base fourni et la description de poste spécifique. \n"
  const CVHighlightFr :=
    " Le CV doit mettre en évidence les compétences et expériences pertinentes du CV de base qui correspondent aux exigences du poste. \n"
  const CVReorganiseFr := " Réorganise et reformule les sections du CV de base pour les aligner étroitement avec la description de poste. \n"
  const CVCompleteFr := " Assure-toi que le résultat est un CV complet, professionnel et optimisé pour le poste.\n\n"
  const CVJobFr := " Voici la description du poste pour lequel adapter le CV:\n\n"
  const CVBaseFr := " Voici le CV de base du candidat:\n\n"
  const CVFormatFr :=
    " Le CV généré doit être formaté dans un fragment HTML sans la balise HTML, ni la balise HEAD, ni la balise  TITLE, ni la balise BODY, ni la balise BR ."
  const CVNoMarkdownFr := " Il ne faut mettre aucun élément Markdown dans la réponse: ne pas mettre de triple apostrophe inversées."

  const CVHeadingEn := "# CV Generation Instructions\n\n"
  const CVTaskEn :=
    " You are an expert CV writer. Your task is to create a tailored CV based on the provided base CV and the specific job description.\n"
  const CVHighlightEn := " The CV should highlight relevant skills and experiences from the base CV that match the job requirements.\n"
  const CVReorganiseEn := " Reorganize and rephrase sections of the base CV to align closely with the job description.\n"
  const CVCompleteEn := " Ensure the output is a complete, professional CV optimized for the position.\n\n"
  const CVJobEn := " This is the job description to tailor the CV for:\n\n"
  const CVBaseEn := " This is the candidate's base CV:\n\n"
  const CVFormatEn :=
    " The generated CV should be formatted in an HTML fragment without the HTML tag , nor the HEAD tag , nor the TITLE tag , nor the BODY tag, nor the BR tag."
  const CVNoMarkdownEn := " Do not put any Markdown elements in the answer: do not put triple backticks."

  /** Position of the company clause among the parts of a cover-letter
      instruction. */
  const ClauseIndex := 2

  /** The parts of the French cover-letter instruction, in order. */
  function CoverLetterPartsFr(clause: string, words: string, job: string, cvFr: string): seq<string> {
    [ CoverLetterHeadingFr, CoverLetterRoleFr, clause, CoverLetterAskFr, words, CoverLetterLengthFr,
      CoverLetterJobFr, Quote(job), ".\n", CoverLetterCVFr, Quote(cvFr), ".\n", CoverLetterStyleFr ]
  }

  /** The parts of the English cover-letter instruction, in order. */
  function CoverLetterPartsEn(clause: string, words: string, job: string, cvEn: string): seq<string> {
    [ CoverLetterHeadingEn, CoverLetterRoleEn, clause, CoverLetterAskEn, words, CoverLetterLengthEn,
      CoverLetterJobEn, Quote(job), ".\n", CoverLetterCVEn, Quote(cvEn), ".\n", CoverLetterStyleEn ]
  }

  /** The system instruction for a cover letter; empty for any language
      other than exactly "French" or "English". */
  function GetSystemInstructionCoverLetter(company: string, job: string, words: string, language: string,
                                           searchCompanyInfo: bool, cvEn: string, cvFr: string): (r: string)
    ensures !Prompts.IsSupportedLanguage(language) <==> r == ""
  {
    if language == "French" then
      Concat(CoverLetterPartsFr(CompanyClauseFr(company, searchCompanyInfo), words, job, cvFr))
    else if language == "English" then
      Concat(CoverLetterPartsEn(CompanyClauseEn(company, searchCompanyInfo), words, job, cvEn))
    else ""
  }

  /** The parts of the French CV instruction, in order. */
  function CVPartsFr(jobDescription: string, cvFr: string): seq<string> {
    [ CVHeadingFr, CVTaskFr, CVHighlightFr, CVReorganiseFr, CVCompleteFr,
      CVJobFr, Quote(jobDescription), ".\n\n", CVBaseFr, Quote(cvFr), ".\n\n", CVFormatFr, CVNoMarkdownFr ]
  }

  /** The parts of the English CV instruction, in order. */
  function CVPartsEn(jobDescription: string, cvEn: string): seq<string> {
    [ CVHeadingEn, CVTaskEn, CVHighlightEn, CVReorganiseEn, CVCompleteEn,
      CVJobEn, Quote(jobDescription), ".\n\n", CVBaseEn, Quote(cvEn), ".\n\n", CVFormatEn, CVNoMarkdownEn ]
  }

  /** The system instruction for a CV; empty for any language other than
      exactly "French" or "English". */
  function GetSystemInstructionCV(jobDescription: string, language: string, cvEn: string, cvFr: string): (r: string)
    ensures !Prompts.IsSupportedLanguage(language) <==> r == ""
  {
    if Prompts.IsSupportedLanguage(language) then
      var parts := if language == "French" then CVPartsFr(jobDescription, cvFr) else CVPartsEn(jobDescription, cvEn);
      ConcatStartsWithFirst(parts);
      Concat(parts)
    else ""
  }

  /** The base CV of the instruction's own language. */
  function BaseCV(language: string, cvEn: string, cvFr: string): string {
    if language == "French" then cvFr else cvEn
  }

  /** The heading of the cover-letter instruction in the given language. */
  function CoverLetterHeading(language: string): string {
    if language == "French" then CoverLetterHeadingFr else CoverLetterHeadingEn
  }

  /** The heading of the CV instruction in the given language. */
  function CVHeading(language: string): string {
    if language == "French" then CVHeadingFr else CVHeadingEn
  }

  /** The cover-letter instruction opens with its language's heading and
      carries the word count, the quoted job description and the quoted base
      CV of its own language verbatim. */
  lemma CoverLetterInstructionMentions(company: string, job: string, words: string, language: string,
                                       searchCompanyInfo: bool, cvEn: string, cvFr: string)
    requires Prompts.IsSupportedLanguage(language)
    ensures var r := GetSystemInstructionCoverLetter(company, job, words, language, searchCompanyInfo, cvEn, cvFr);
      && StartsWith(r, CoverLetterHeading(language))
      && Contains(r, words)
      && Contains(r, Quote(job))
      && Contains(r, Quote(BaseCV(language, cvEn, cvFr)))
  {
    var parts := if language == "French"
      then CoverLetterPartsFr(CompanyClauseFr(company, searchCompanyInfo), words, job, cvFr)
      else CoverLetterPartsEn(CompanyClauseEn(company, searchCompanyInfo), words, job, cvEn);
    ConcatStartsWithFirst(parts);
    ConcatContainsPart(parts, 4);
    ConcatContainsPart(parts, 7);
    ConcatContainsPart(parts, 10);
  }

  /** When the clause is in, the instruction names the company in quotes. */
  lemma CoverLetterInstructionNamesCompany(company: string, job: string, words: string, language: string,
                                           searchCompanyInfo: bool, cvEn: string, cvFr: string)
    requires Prompts.IsSupportedLanguage(language)
    requires IncludesCompanyClause(company, searchCompanyInfo)
    ensures Contains(GetSystemInstructionCoverLetter(company, job, words, language, searchCompanyInfo, cvEn, cvFr),
                     Quote(company))
  {
    if language == "French" {
      ConcatContainsInPart(CoverLetterPartsFr(CompanyClauseFr(company, searchCompanyInfo), words, job, cvFr),
                           ClauseIndex, CompanyClauseOpenFr, Quote(company), ". ");
    } else {
      ConcatContainsInPart(CoverLetterPartsEn(CompanyClauseEn(company, searchCompanyInfo), words, job, cvEn),
                           ClauseIndex, CompanyClauseOpenEn, Quote(company), ". ");
    }
  }

  /** Asking for company information changes the cover-letter instruction
      exactly when the company is not "Unknown". */
  lemma CoverLetterInstructionClauseIff(company: string, job: string, words: string, language: string,
                                        cvEn: string, cvFr: string)
    requires Prompts.IsSupportedLanguage(language)
    ensures GetSystemInstructionCoverLetter(company, job, words, language, true, cvEn, cvFr)
            == GetSystemInstructionCoverLetter(company, job, words, language, false, cvEn, cvFr)
            <==> !IncludesCompanyClause(company, true)
  {
    if language == "French" {
      CoverLetterClauseFrIff(company, job, words, cvFr);
    } else {
      CoverLetterClauseEnIff(company, job, words, cvEn);
    }
  }

  /** The French half of `CoverLetterInstructionClauseIff`. */
  lemma CoverLetterClauseFrIff(company: string, job: string, words: string, cvFr: string)
    ensures Concat(CoverLetterPartsFr(CompanyClauseFr(company, true), words, job, cvFr))
            == Concat(CoverLetterPartsFr(CompanyClauseFr(company, false), words, job, cvFr))
            <==> !IncludesCompanyClause(company, true)
  {
    var clause := CompanyClauseFr(company, true);
    var parts := CoverLetterPartsFr("", words, job, cvFr);
    assert parts[ClauseIndex := clause] == CoverLetterPartsFr(clause, words, job, cvFr);
    ConcatFillEmpty(parts, ClauseIndex, clause);
  }

  /** The English half of `CoverLetterInstructionClauseIff`. */
  lemma CoverLetterClauseEnIff(company: string, job: string, words: string, cvEn: string)
    ensures Concat(CoverLetterPartsEn(CompanyClauseEn(company, true), words, job, cvEn))
            == Concat(CoverLetterPartsEn(CompanyClauseEn(company, false), words, job, cvEn))
            <==> !IncludesCompanyClause(company, true)
  {
    var clause := CompanyClauseEn(company, true);
    var parts := CoverLetterPartsEn("", words, job, cvEn);
    assert parts[ClauseIndex := clause] == CoverLetterPartsEn(clause, words, job, cvEn);
    ConcatFillEmpty(parts, ClauseIndex, clause);
  }

  /** Without the clause the company has no influence: any two companies that
      are both left out give the same cover-letter instruction. */
  lemma CoverLetterInstructionIgnoresCompany(c1: string, s1: bool, c2: string, s2: bool,
                                             job: string, words: string, language: string,
                                             cvEn: string, cvFr: string)
    requires !IncludesCompanyClause(c1, s1) && !IncludesCompanyClause(c2, s2)
    ensures GetSystemInstructionCoverLetter(c1, job, words, language, s1, cvEn, cvFr)
            == GetSystemInstructionCoverLetter(c2, job, words, language, s2, cvEn, cvFr)
  {
  }

  /** Each cover-letter instruction ignores the other language's base CV. */
  lemma CoverLetterInstructionOwnCVOnly(company: string, job: string, words: string, searchCompanyInfo: bool,
                                        cvEn: string, cvFr: string, otherEn: string, otherFr: string)
    ensures GetSystemInstructionCoverLetter(company, job, words, "French", searchCompanyInfo, cvEn, cvFr)
            == GetSystemInstructionCoverLetter(company, job, words, "French", searchCompanyInfo, otherEn, cvFr)
    ensures GetSystemInstructionCoverLetter(company, job, words, "English", searchCompanyInfo, cvEn, cvFr)
            == GetSystemInstructionCoverLetter(company, job, words, "English", searchCompanyInfo, cvEn, otherFr)
  {
  }

  /** The CV instruction opens with its language's heading and carries the
      quoted job description and the quoted base CV of its own language
      verbatim. */
  lemma CVInstructionMentions(jobDescription: string, language: string, cvEn: string, cvFr: string)
    requires Prompts.IsSupportedLanguage(language)
    ensures var r := GetSystemInstructionCV(jobDescription, language, cvEn, cvFr);
      && StartsWith(r, CVHeading(language))
      && Contains(r, Quote(jobDescription))
      && Contains(r, Quote(BaseCV(language, cvEn, cvFr)))
  {
    var parts := if language == "French" then CVPartsFr(jobDescription, cvFr) else CVPartsEn(jobDescription, cvEn);
    ConcatStartsWithFirst(parts);
    ConcatContainsPart(parts, 6);
    ConcatContainsPart(parts, 9);
  }

  /** Each CV instruction ignores the other language's base CV. */
  lemma CVInstructionOwnCVOnly(jobDescription: string, cvEn: string, cvFr: string, otherEn: string, otherFr: string)
    ensures GetSystemInstructionCV(jobDescription, "French", cvEn, cvFr)
            == GetSystemInstructionCV(jobDescription, "French", otherEn, cvFr)
    ensures GetSystemInstructionCV(jobDescription, "English", cvEn, cvFr)
            == GetSystemInstructionCV(jobDescription, "English", cvEn, otherFr)
  {
  }
}
