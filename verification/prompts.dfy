/** The user prompts of `src/prompt.ts`: plain concatenations chosen by an
    exact, case-sensitive language name. */
module Prompts {
  import opened Strings

  /** The two language names the templates know. */
  predicate IsSupportedLanguage(language: string) {
    language == "French" || language == "English"
  }

  /** The fixed wording of the cover-letter prompts, between the arguments. */
  const CoverLetterOpenFr := "Écris une lettre de motivation de "
  const CoverLetterPositionFr := " mots pour postuler au poste "
  const CoverLetterCompanyFr := " dans la société "
  const CoverLetterOpenEn := "Write a "
  const CoverLetterPositionEn := " words cover letter to apply for the "
  const CoverLetterCompanyEn := " position at the "
  const CoverLetterCloseEn := " company."

  /** The fixed wording of the CV prompts, between the arguments. */
  const CVPromptOpenFr := "En te basant sur la description de poste suivante pour le rôle de "
  const CVPromptJobFr := ", génère un CV personnalisé. La description de poste est : "
  const CVPromptOpenEn := "Based on the following job description for the "
  const CVPromptJobEn := " role, generate a tailored CV. The job description is: "

  /** The cover-letter prompt; empty for any other language value. */
  function GetPromptCoverLetter(language: string, company: string, position: string, words: string): (r: string)
    ensures !IsSupportedLanguage(language) <==> r == ""
  {
    if language == "French" then
      CoverLetterOpenFr + words + CoverLetterPositionFr + Quote(position) + CoverLetterCompanyFr + Quote(company) + "."
    else if language == "English" then
      CoverLetterOpenEn + words + CoverLetterPositionEn + Quote(position) + CoverLetterCompanyEn + Quote(company)
      + CoverLetterCloseEn
    else ""
  }

  /** The CV prompt; empty for any other language value. */
  function GetPromptCV(language: string, jobDescription: string, position: string): (r: string)
    ensures !IsSupportedLanguage(language) <==> r == ""
  {
    if language == "French" then
      CVPromptOpenFr + Quote(position) + CVPromptJobFr + Quote(jobDescription) + "."
    else if language == "English" then
      CVPromptOpenEn + Quote(position) + CVPromptJobEn + Quote(jobDescription) + "."
    else ""
  }

  /** The language match is exact: other spellings, such as lower case, give
      an empty prompt. */
  lemma LanguageIsCaseSensitive(company: string, position: string, words: string, job: string)
    ensures GetPromptCoverLetter("english", company, position, words) == ""
    ensures GetPromptCoverLetter("FRENCH", company, position, words) == ""
    ensures GetPromptCV("english", job, position) == ""
    ensures GetPromptCV("French ", job, position) == ""
  {
  }

  /** The English cover-letter prompt, spelled out in one piece. */
  lemma EnglishCoverLetterPromptText(company: string, position: string, words: string)
    ensures GetPromptCoverLetter("English", company, position, words)
            == "Write a " + words + " words cover letter to apply for the " + ("\"" + position + "\"")
               + " position at the " + ("\"" + company + "\"") + " company."
  {
  }

  /** The French cover-letter prompt, spelled out in one piece. */
  lemma FrenchCoverLetterPromptText(company: string, position: string, words: string)
    ensures GetPromptCoverLetter("French", company, position, words)
            == "Écris une lettre de motivation de " + words + " mots pour postuler au poste " + ("\"" + position + "\"")
               + " dans la société " + ("\"" + company + "\"") + "."
  {
  }

  /** The cover-letter prompt names the word count, and the position and the
      company each in double quotes. */
  lemma CoverLetterPromptMentions(language: string, company: string, position: string, words: string)
    requires IsSupportedLanguage(language)
    ensures Contains(GetPromptCoverLetter(language, company, position, words), words)
    ensures Contains(GetPromptCoverLetter(language, company, position, words), Quote(position))
    ensures Contains(GetPromptCoverLetter(language, company, position, words), Quote(company))
  {
    var qp, qc := Quote(position), Quote(company);
    if language == "English" {
      var a, b, c, d := CoverLetterOpenEn, CoverLetterPositionEn, CoverLetterCompanyEn, CoverLetterCloseEn;
      ContainsEnd(a, words);
      ContainsAppend(a + words, words, b);
      ContainsAppend(a + words + b, words, qp);
      ContainsAppend(a + words + b + qp, words, c);
      ContainsAppend(a + words + b + qp + c, words, qc);
      ContainsAppend(a + words + b + qp + c + qc, words, d);
      ContainsEnd(a + words + b, qp);
      ContainsAppend(a + words + b + qp, qp, c);
      ContainsAppend(a + words + b + qp + c, qp, qc);
      ContainsAppend(a + words + b + qp + c + qc, qp, d);
      ContainsEnd(a + words + b + qp + c, qc);
      ContainsAppend(a + words + b + qp + c + qc, qc, d);
    } else {
      var a, b, c := CoverLetterOpenFr, CoverLetterPositionFr, CoverLetterCompanyFr;
      ContainsEnd(a, words);
      ContainsAppend(a + words, words, b);
      ContainsAppend(a + words + b, words, qp);
      ContainsAppend(a + words + b + qp, words, c);
      ContainsAppend(a + words + b + qp + c, words, qc);
      ContainsAppend(a + words + b + qp + c + qc, words, ".");
      ContainsEnd(a + words + b, qp);
      ContainsAppend(a + words + b + qp, qp, c);
      ContainsAppend(a + words + b + qp + c, qp, qc);
      ContainsAppend(a + words + b + qp + c + qc, qp, ".");
      ContainsEnd(a + words + b + qp + c, qc);
      ContainsAppend(a + words + b + qp + c + qc, qc, ".");
    }
  }

  /** The cover-letter prompt loses nothing: for a supported language, two
      calls whose word counts and positions have the same lengths give the
      same prompt only when all three arguments agree. */
  lemma CoverLetterPromptDeterminesArguments(language: string, c1: string, p1: string, w1: string,
                                             c2: string, p2: string, w2: string)
    requires IsSupportedLanguage(language)
    requires |w1| == |w2| && |p1| == |p2|
    requires GetPromptCoverLetter(language, c1, p1, w1) == GetPromptCoverLetter(language, c2, p2, w2)
    ensures w1 == w2 && p1 == p2 && c1 == c2
  {
    var qp1, qc1, qp2, qc2 := Quote(p1), Quote(c1), Quote(p2), Quote(c2);
    if language == "English" {
      var a, b, c, d := CoverLetterOpenEn, CoverLetterPositionEn, CoverLetterCompanyEn, CoverLetterCloseEn;
      SplitEqual(a + w1 + b + qp1 + c + qc1, d, a + w2 + b + qp2 + c + qc2, d);
      SplitEqual(a + w1 + b + qp1 + c, qc1, a + w2 + b + qp2 + c, qc2);
      SplitEqual(a + w1 + b + qp1, c, a + w2 + b + qp2, c);
      SplitEqual(a + w1 + b, qp1, a + w2 + b, qp2);
      SplitEqual(a + w1, b, a + w2, b);
      SplitEqual(a, w1, a, w2);
    } else {
      var a, b, c := CoverLetterOpenFr, CoverLetterPositionFr, CoverLetterCompanyFr;
      SplitEqual(a + w1 + b + qp1 + c + qc1, ".", a + w2 + b + qp2 + c + qc2, ".");
      SplitEqual(a + w1 + b + qp1 + c, qc1, a + w2 + b + qp2 + c, qc2);
      SplitEqual(a + w1 + b + qp1, c, a + w2 + b + qp2, c);
      SplitEqual(a + w1 + b, qp1, a + w2 + b, qp2);
      SplitEqual(a + w1, b, a + w2, b);
      SplitEqual(a, w1, a, w2);
    }
    QuoteInjective(p1, p2);
    QuoteInjective(c1, c2);
  }

  /** The CV prompt names the position and the job description, each in
      double quotes. */
  lemma CVPromptMentions(language: string, jobDescription: string, position: string)
    requires IsSupportedLanguage(language)
    ensures Contains(GetPromptCV(language, jobDescription, position), Quote(position))
    ensures Contains(GetPromptCV(language, jobDescription, position), Quote(jobDescription))
  {
    var qp, qj := Quote(position), Quote(jobDescription);
    var a := if language == "English" then CVPromptOpenEn else CVPromptOpenFr;
    var b := if language == "English" then CVPromptJobEn else CVPromptJobFr;
    ContainsEnd(a, qp);
    ContainsAppend(a + qp, qp, b);
    ContainsAppend(a + qp + b, qp, qj);
    ContainsAppend(a + qp + b + qj, qp, ".");
    ContainsEnd(a + qp + b, qj);
    ContainsAppend(a + qp + b + qj, qj, ".");
  }

  /** The CV prompt loses nothing: for a supported language, two calls with
      positions of the same length give the same prompt only when position
      and job description agree. */
  lemma CVPromptDeterminesArguments(language: string, j1: string, p1: string, j2: string, p2: string)
    requires IsSupportedLanguage(language)
    requires |p1| == |p2|
    requires GetPromptCV(language, j1, p1) == GetPromptCV(language, j2, p2)
    ensures p1 == p2 && j1 == j2
  {
    var qp1, qj1, qp2, qj2 := Quote(p1), Quote(j1), Quote(p2), Quote(j2);
    var a := if language == "English" then CVPromptOpenEn else CVPromptOpenFr;
    var b := if language == "English" then CVPromptJobEn else CVPromptJobFr;
    SplitEqual(a + qp1 + b + qj1, ".", a + qp2 + b + qj2, ".");
    SplitEqual(a + qp1 + b, qj1, a + qp2 + b, qj2);
    SplitEqual(a + qp1, b, a + qp2, b);
    SplitEqual(a, qp1, a, qp2);
    QuoteInjective(p1, p2);
    QuoteInjective(j1, j2);
  }
}
