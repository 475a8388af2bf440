# KP-HR-Doc-Formatter — a Dafny model of the extraction and formatting core

KP-HR-Doc-Formatter turns an uploaded résumé into a company-formatted CV.
The text of the document is read first. Structured data (`ExtractedData`:
contact details, summary, experience, education, skills, a confidence
score) is then extracted by one of three strategies:

- an LLM reply decoded from JSON and converted;
- rule-based extraction with regular expressions ("advanced");
- a crude line-based fallback ("basic").

A template engine then turns that data into a rendering context. For the
code-generated CV template, table rows are filled in by header lookup.

This project models that pipeline as pure Dafny functions over immutable
datatypes and proves what each step promises. The modules follow the
source files:

| module | file | models |
|---|---|---|
| `Wrappers` | wrappers.dfy | `Option`, `Result` and the Python errors that matter (`ValueError`, `IndexError`, `TypeError`) |
| `Text`, `Seqs` | text.dfy, seqs.dfy | `str.strip`, `lower`, `split`, `splitlines`, `join`, `find`, filtering, flattening and de-duplication, with their algebra |
| `Schemas` | schemas.dfy | the pydantic models of `app/models/schemas.py` |
| `Sections` | sections.dfy | `_extract_section` of the NLP extractor |
| `NlpExtractor` | nlp_extractor.dfy | `app/services/nlp_extractor.py` |
| `DocumentProcessor` | document_processor.dfy | strategy selection, basic extraction, summary and confidence of `app/services/document_processor.py` |
| `GeminiProcessor` | gemini_processor.dfy | reply cleaning and conversion of `app/services/gemini_processor.py` |
| `Enrichment` | enrichment.dfy | the enhanced LLM reply (`additional_data`) the template engine reads |
| `EnhancedGemini` | enhanced_gemini.dfy | `format_date` and the duration post-processing of `app/services/enhanced_gemini_processor.py` |
| `TemplateText` | template_text.dfy | the text helpers of the template engine: sentences, technologies, responsibilities, summary bullets |
| `TemplateContext`, `TemplateEngine` | template_context.dfy, template_engine.dfy | `_prepare_template_context` and `_collect_warnings` |
| `CvGenerator` | cv_generator.dfy | the table-row operations and `_rgb_hex` of the code-generated template |

Parts that cannot be modelled purely become parameters:

- Regular expressions whose language is more than a literal keyword are
  function-typed parameters. These include the email, URL, phone and date
  tokens, the company/position/date signal families, the experience
  splitters and the project-block finders.
- The LLM is a function from text to a result.
- JSON decoding is a function from text to an optional record.
- An exception raised inside rule-based extraction is a `raised` argument.

Keyword patterns are modelled exactly, as a case-insensitive substring
test. That covers the section headings, title keywords, stop words and
skill vocabulary.

## Model

| member | source | states |
|---|---|---|
| Schemas.ParseJobStatus | app/models/schemas.py:6-11 | exactly the four status strings parse, each back to the status that carries it; every other string is rejected |
| Schemas.ContactAttr | app/models/schemas.py:23-30 | the contact model declares exactly name, email, phone, address, linkedin and website; `title` is not a field |
| Schemas.SetContactAttr | app/models/schemas.py:23-30 | assigning a declared contact field stores the value; assigning any other name, `title` included, is a ValueError as pydantic raises |
| Schemas.DefaultExtractedData | app/models/schemas.py:51-60 | a fresh `ExtractedData` has an empty contact, no summary or raw text, empty lists and confidence 0.0 |
| Schemas.ValidateConfidence | app/models/schemas.py:60 | a confidence score is accepted exactly when it lies in [0, 1], and is then kept as given |
| Schemas.OrElse | app/services/template_engine.py:390-395 | Python's `x or fallback` on an optional string: the value when present and non-empty, else the fallback |
| Sections.FindHeading | app/services/nlp_extractor.py:416-426 | the first line at or after a position that mentions a heading pattern; None only when no later line does |
| Sections.EndFlags | app/services/nlp_extractor.py:435-441 | line j is flagged exactly when it ends a section: stripped, it opens with a section keyword, has at most three words and starts with a capital |
| Sections.FindEnd | app/services/nlp_extractor.py:435-441 | the first flagged line at or after a position, or the end of the text; no line in between is flagged |
| Sections.LocateSection | app/services/nlp_extractor.py:411-443 | the section starts at the first heading line and runs up to, not including, the first end line after it; None exactly when no line is a heading |
| Sections.SectionLines | app/services/nlp_extractor.py:411-443 | the section's lines open with a heading line and hold no end line after it; empty exactly when there is no heading |
| Sections.SectionLinesRoundTrip | app/services/nlp_extractor.py:443 | splitting the returned section text into lines gives back exactly the section's lines |
| Sections.SectionEmptyIff | app/services/nlp_extractor.py:411-443 | the section text is empty exactly when no line of the text mentions a heading pattern |
| Sections.SectionInText | app/services/nlp_extractor.py:411-443 | the section is a contiguous piece of the text: it occurs in the lower-cased text |
| NlpExtractor.CleanPhone | app/services/nlp_extractor.py:42 | `re.sub(r'[^\d+]', '', s)` keeps every digit and `+` of the input and nothing else |
| NlpExtractor.FirstPhoneBy | app/services/nlp_extractor.py:38-45 | the pattern loop yields a number of at least ten digit or `+` characters, and yields None exactly when no pattern's first match is accepted |
| NlpExtractor.PrefixNeverAccepted | app/services/nlp_extractor.py:38-45 | when the candidate is the optional prefix group (at most five characters), no pattern is ever accepted |
| NlpExtractor.FirstPhoneAsWritten | app/services/nlp_extractor.py:38-45 | the phone loop as written never stores a phone number |
| NlpExtractor.FirstPhone | app/services/nlp_extractor.py:38-45 | the intended loop: the cleaned whole match of the first pattern whose first match has at least ten characters; None exactly when no pattern gives one |
| NlpExtractor.FirstPhoneEarliest | app/services/nlp_extractor.py:38-45 | the earliest accepting pattern decides the number; later patterns are never consulted |
| NlpExtractor.PhonePrefixGroupLosesNumber | app/services/nlp_extractor.py:38-45 | for "5551234567" the written loop finds no phone, while the intended loop finds "5551234567" |
| NlpExtractor.StrictNameFlags | app/services/nlp_extractor.py:61-93 | line j is flagged exactly when, stripped, it passes the strict name test: no skip word in any case, two to four words, every longer word capitalised and alphabetic apart from `'` and `-`, and no job-title word |
| NlpExtractor.LenientNameFlags | app/services/nlp_extractor.py:95-105 | line j is flagged exactly when, stripped, it passes the lenient test: at least two words longer than one character, under 60 characters, and no `@`, `.com` or `http` |
| NlpExtractor.PickNameLine | app/services/nlp_extractor.py:61-105 | the first strict line among the first five, else the first lenient line among the first three; None exactly when neither exists |
| NlpExtractor.NameLineIndex | app/services/nlp_extractor.py:61-105 | the name line is one of the first five lines and passes the strict test, or is one of the first three and passes the lenient one; None exactly when no line qualifies |
| NlpExtractor.NameLineEarliest | app/services/nlp_extractor.py:61-105 | a strict name line is the earliest strict line; a lenient one is chosen only when no strict line exists and is the earliest lenient line |
| NlpExtractor.ExtractName | app/services/nlp_extractor.py:61-105 | the name is the chosen line stripped, and it passes the strict or the lenient test |
| NlpExtractor.FirstWebsite | app/services/nlp_extractor.py:53-59 | a match without `@` or "linkedin.com" with no such match before it; None exactly when every match has one |
| NlpExtractor.ExtractContactInfo | app/services/nlp_extractor.py:20-107 | email and LinkedIn are the first matches (`[0]`), present exactly when there is a match; the website is the first acceptable match (`FirstWebsite`); name per `ExtractName`; phone and address are never set |
| NlpExtractor.ExtractContactInfoCorrected | app/services/nlp_extractor.py:20-107 | the same contact with the intended phone rule; it differs from the written one only in the phone, which has at least ten characters when set |
| NlpExtractor.DescriptionOf | app/services/nlp_extractor.py:257 | the description parts joined, or "Project experience" when there are none |
| NlpExtractor.ParseSingleExperience | app/services/nlp_extractor.py:157-288 | an entry exists exactly when the signals parse and one is truthy; every field is filled, with "Position"/"Company" placeholders; current exactly when the end date mentions present or current |
| NlpExtractor.ParseChunk | app/services/nlp_extractor.py:466-472 | a chunk shorter than the minimum once stripped gives nothing; otherwise its stripped text is parsed |
| NlpExtractor.ParseChunks | app/services/nlp_extractor.py:466-475 | every entry comes from some chunk, and every chunk that parses contributes its entry |
| NlpExtractor.ParseChunksAppend | app/services/nlp_extractor.py:466-475 | parsing two lists of chunks one after the other gives the entries of the first, then those of the second |
| NlpExtractor.ParseChunksGives | app/services/nlp_extractor.py:466-475 | an entry is produced exactly when some chunk, stripped, is long enough and parses to it |
| NlpExtractor.ParsedChunksFilled | app/services/nlp_extractor.py:274-283 | every entry parsed from chunks has all its fields filled |
| NlpExtractor.SplitRoundsAppend | app/services/nlp_extractor.py:459-464 | the split loop treats each entry independently: splitting a concatenation splits each part |
| NlpExtractor.SplitRoundsKeep | app/services/nlp_extractor.py:459-464 | when no splitter finds a separator, the loop leaves the entries unchanged |
| NlpExtractor.ParseExperienceSection | app/services/nlp_extractor.py:445-475 | the section is split by each splitter in turn; an entry is produced exactly when some piece, stripped, has at least 20 characters and parses to it; every result is filled |
| NlpExtractor.ProjectExperience | app/services/nlp_extractor.py:136-155 | an entry is produced exactly when some found project block, stripped, has more than 50 characters and parses to it; every result is filled |
| NlpExtractor.ProjectFinderOrder | app/services/nlp_extractor.py:136-155 | the blocks of the first project pattern come first, followed by those of the remaining patterns |
| NlpExtractor.SectionExperience | app/services/nlp_extractor.py:125-128 | no section gives no entries; otherwise the parsed section entries |
| NlpExtractor.ExperienceFrom | app/services/nlp_extractor.py:125-134 | at most five filled entries: the first five of the section entries followed by the project entries |
| NlpExtractor.SectionEntriesFirst | app/services/nlp_extractor.py:125-134 | section entries open the result, and project entries only fill the places the section leaves free |
| NlpExtractor.ExtractExperience | app/services/nlp_extractor.py:109-134 | `extract_experience`: at most five filled entries, section entries before project entries, in order |
| NlpExtractor.StrippedNonBlankClean | app/services/nlp_extractor.py:477-500 | the stripped non-blank lines are stripped and non-empty |
| NlpExtractor.NonBlankLines | app/services/nlp_extractor.py:483-486 | every line kept is stripped and non-empty |
| NlpExtractor.GroupEntries | app/services/nlp_extractor.py:477-500 | the groups concatenate back to the lines; every later group opens on a title or company line and no line inside a group does |
| NlpExtractor.JobEntryGroups | app/services/nlp_extractor.py:477-500 | the groups of a text flatten to its non-blank stripped lines, split before each title or company line |
| NlpExtractor.SplitJobEntries | app/services/nlp_extractor.py:477-500 | one joined entry per line group |
| NlpExtractor.SplitJobEntriesLines | app/services/nlp_extractor.py:477-500 | each entry splits back into exactly its group's lines |
| NlpExtractor.ScanDates | app/services/nlp_extractor.py:534-546 | the first line with two date tokens gives start and end; current exactly when a single present/current token occurs before any such line; nothing changes without tokens |
| NlpExtractor.UndatedLines | app/services/nlp_extractor.py:548-555 | exactly the lines without a date token are kept, in order |
| NlpExtractor.TitleAndCompany | app/services/nlp_extractor.py:524-532 | a title-like first line is the title and the second line the company; otherwise the first line is the company, and the second is the title when it looks like one |
| NlpExtractor.ParseJobEntry | app/services/nlp_extractor.py:516-557 | None exactly when the entry has no non-blank line; title and company per `TitleAndCompany`; a description exactly when undated lines follow the first two |
| NlpExtractor.UndatedLinesJoin | app/services/nlp_extractor.py:548-555 | undated clean lines joined with newlines split back into themselves |
| NlpExtractor.JobEntryDescriptionLines | app/services/nlp_extractor.py:548-555 | the description's lines are exactly the undated lines after the first two |
| NlpExtractor.Years | app/services/nlp_extractor.py:335-339 | the four-digit runs of a line, left to right and non-overlapping, as found by a left-to-right scan; empty exactly when no four digits occur |
| NlpExtractor.YearStartsScan | app/services/nlp_extractor.py:335-339 | the scan's start positions are increasing, each starts four digits, and no four digits start between two of them |
| NlpExtractor.InstitutionOf | app/services/nlp_extractor.py:326-333 | a line of at least two words with at least two capitalised words longer than two letters names those words, space-joined |
| NlpExtractor.InstitutionFlags | app/services/nlp_extractor.py:326-333 | line j is flagged exactly when it names an institution |
| NlpExtractor.InstitutionFrom | app/services/nlp_extractor.py:326-333 | the institution comes from the first line that names one; None exactly when none does |
| NlpExtractor.GraduationYear | app/services/nlp_extractor.py:335-339 | the last four-digit run of the first line that has one; None exactly when no line has one |
| NlpExtractor.LastDegree | app/services/nlp_extractor.py:319-324 | the degree matched on the last line that matches; None exactly when no line matches |
| NlpExtractor.ExtractEducation | app/services/nlp_extractor.py:290-344 | at most one entry, present exactly when there is a section with a degree or an institution; its degree, institution and year follow the rules above; location, GPA and honours are unset |
| NlpExtractor.EducationReadsSectionLines | app/services/nlp_extractor.py:311-317 | education reads exactly the stripped non-blank lines of the section |
| NlpExtractor.SkillTokens | app/services/nlp_extractor.py:559-582 | every token of a skills section is stripped, non-empty and free of delimiters |
| NlpExtractor.ParseSkillsSection | app/services/nlp_extractor.py:559-582 | the kept tokens are exactly the tokens of 2 to 49 characters that are not a heading word, in order |
| NlpExtractor.SkillLabel | app/services/nlp_extractor.py:391-397 | a vocabulary term is reported as itself up to case |
| NlpExtractor.SkillLabelCase | app/services/nlp_extractor.py:391-397 | an all-lower-case term is reported title-cased (each letter upper-case exactly when it starts a run of letters); any other term is reported as written |
| NlpExtractor.ScanVocabulary | app/services/nlp_extractor.py:391-397 | the scan keeps the skills found so far as a prefix and adds no duplicate up to case |
| NlpExtractor.ScanVocabularySound | app/services/nlp_extractor.py:391-397 | every added skill is the label of a vocabulary term that occurs in the text |
| NlpExtractor.ScanVocabularyComplete | app/services/nlp_extractor.py:391-397 | every vocabulary term occurring in the text is present up to case afterwards |
| NlpExtractor.ScanVocabularyNoNew | app/services/nlp_extractor.py:399-407 | a scan in which every occurring term is already present adds nothing |
| NlpExtractor.SectionSkills | app/services/nlp_extractor.py:359-362 | every skill taken from the skills section passes the keep test |
| NlpExtractor.SummaryRescanAddsNothing | app/services/nlp_extractor.py:399-407 | rescanning the summary after the whole text adds no skill |
| NlpExtractor.ExtractSkillsWith | app/services/nlp_extractor.py:346-409 | at most twenty skills: the section's tokens followed by the vocabulary hits in the text |
| NlpExtractor.ExtractSkillsSound | app/services/nlp_extractor.py:346-409 | every reported skill is a section token or the label of a vocabulary term occurring in the text; that label is title-cased when the term is all lower case and is the term itself otherwise |
| DocumentProcessor.ConfidenceScore | app/services/document_processor.py:313-343 | the weighted completeness score: 0.15 name, 0.15 email, 0.10 phone, 0.20+0.10 experience, 0.15 education, 0.10+0.05 skills, within [0, 1] |
| DocumentProcessor.ConfidenceExtremes | app/services/document_processor.py:313-343 | nothing found scores 0.0; everything found scores exactly 1.0 |
| DocumentProcessor.ConfidenceMonotone | app/services/document_processor.py:313-343 | finding more never lowers the score |
| DocumentProcessor.ConfidenceTypicalResume | app/services/document_processor.py:313-343 | full contact, one job, one degree and four skills score 0.90, above the basic strategy's 0.5 |
| DocumentProcessor.BasicPhone | app/services/document_processor.py:149-153 | the four groups of the first match joined; None exactly when there is no match |
| DocumentProcessor.BasicName | app/services/document_processor.py:155-160 | the first non-blank line, unless it holds `@` or a digit |
| DocumentProcessor.TitleFlags | app/services/document_processor.py:162-181 | line i may give the title exactly when 1 <= i < 6 and it passes the title test |
| DocumentProcessor.TitleIndex | app/services/document_processor.py:162-181 | the first of lines 1 to 5 that passes the title test; None exactly when none does |
| DocumentProcessor.BasicTitle | app/services/document_processor.py:162-181 | the title is that line stripped of ` ()•-` and tabs, and holds no `@` or digit |
| DocumentProcessor.SkillHeadingIndex | app/services/document_processor.py:183-186 | the first line mentioning a skills keyword; None exactly when none does |
| DocumentProcessor.LineSkills | app/services/document_processor.py:191-192 | no skill read from a line contains a delimiter |
| DocumentProcessor.WindowSkills | app/services/document_processor.py:186-192 | the skills of the window's lines, none containing a delimiter |
| DocumentProcessor.BasicSkillList | app/services/document_processor.py:183-194 | no skills without a heading; otherwise the skills of the nine lines after the first heading |
| DocumentProcessor.BasicContact | app/services/document_processor.py:143-160 | the basic strategy fills email, phone and name only |
| DocumentProcessor.BasicData | app/services/document_processor.py:196-203 | the basic result has confidence 0.5, no experience, education, certifications or summary, at most ten skills, and the raw text |
| DocumentProcessor.BasicDataExtractionAsWritten | app/services/document_processor.py:133-203 | basic extraction as written fails with ValueError("title") exactly when a title line is found, because ContactInfo has no title field |
| DocumentProcessor.SoftwareEngineerIsTitleLine | app/services/document_processor.py:162-181 | "Software Engineer" passes the title test |
| DocumentProcessor.TitleOnSecondLine | app/services/document_processor.py:162-181 | a title line right after the name line is the title |
| DocumentProcessor.TitleFoundOnSecondLine | app/services/document_processor.py:169-181 | a name followed by "Software Engineer" makes basic extraction as written fail |
| DocumentProcessor.BasicDataExtraction | app/services/document_processor.py:133-203 | the intended basic extraction: always a result, equal to the written one whenever that succeeds, with the title returned beside the data; contact, skills (at most the cap), raw text, no summary and no certifications are fixed in every case |
| DocumentProcessor.SummaryStart | app/services/document_processor.py:259-311 | the first summary heading line under 80 characters; None exactly when none exists |
| DocumentProcessor.SummaryLinesPrefix | app/services/document_processor.py:290-305 | the summary keeps a prefix of the window's stripped non-blank lines |
| DocumentProcessor.SummaryLinesNoStop | app/services/document_processor.py:290-305 | no kept summary line is a stop line |
| DocumentProcessor.SummaryLinesStopAt | app/services/document_processor.py:290-305 | when lines are left over, the first of them is a stop line |
| DocumentProcessor.SummaryLinesBound | app/services/document_processor.py:290-305 | the summary reads at most the window's lines |
| DocumentProcessor.ExtractSummary | app/services/document_processor.py:259-311 | None without a heading; otherwise the kept lines of the fourteen after the heading, space-joined, or None when there are none |
| DocumentProcessor.AdvancedParse | app/services/document_processor.py:101-126 | the advanced result combines the extractors' outputs (contact, skills from the vocabulary, experience, education), the summary and the raw text, and scores them with `ConfidenceScore` |
| DocumentProcessor.AdvancedDataExtraction | app/services/document_processor.py:101-131 | without an exception the advanced result; after one, the basic result as written, so it fails exactly when basic extraction finds a title |
| DocumentProcessor.AdvancedNeverFallsBack | app/services/document_processor.py:101-126 | when nothing raises, the advanced strategy is used |
| DocumentProcessor.AdvancedDataExtractionCorrected | app/services/document_processor.py:101-131 | the intended ladder never fails: the advanced result, or after an exception the intended basic one at confidence 0.5 |
| DocumentProcessor.ProcessText | app/services/document_processor.py:205-246 | the LLM result exactly when it was requested, is configured and succeeds; otherwise the advanced ladder, which fails only after an exception |
| DocumentProcessor.ProcessTextCorrected | app/services/document_processor.py:205-246 | the same strategy choice over the intended ladder, which never fails |
| DocumentProcessor.LlmNotRequestedIgnored | app/services/document_processor.py:226-244 | without a request for the LLM its behaviour never matters |
| GeminiProcessor.Unfence | app/services/gemini_processor.py:126-135 | removing fences never lengthens the reply |
| GeminiProcessor.StripFences | app/services/gemini_processor.py:126-135 | the cleaned reply is never longer than the reply |
| GeminiProcessor.UnfenceJson | app/services/gemini_processor.py:128-129 | a body in a "```json" fence comes out unchanged |
| GeminiProcessor.JsonFenceRoundTrip | app/services/gemini_processor.py:126-135 | a reply in a "```json" fence decodes as its stripped body |
| GeminiProcessor.UnfenceBare | app/services/gemini_processor.py:130-131 | a body in a bare "```" fence comes out unchanged |
| GeminiProcessor.FenceRoundTrip | app/services/gemini_processor.py:126-135 | a reply in a bare "```" fence decodes as its stripped body |
| GeminiProcessor.UnfenceNothing | app/services/gemini_processor.py:126-135 | text without fences is left unchanged |
| GeminiProcessor.UnfencedReply | app/services/gemini_processor.py:126-135 | a reply without fences is only stripped |
| GeminiProcessor.ExtractResumeData | app/services/gemini_processor.py:113-146 | no model is the "not initialized" error; otherwise success exactly when the cleaned reply decodes, else the parse-failure error |
| GeminiProcessor.Bulleted | app/services/gemini_processor.py:163-164 | every item is prefixed with "• ", in order |
| GeminiProcessor.ProjectToExperience | app/services/gemini_processor.py:167-184 | title defaults to "Project"; a start date exactly when there is a duration, an end date exactly when it contains " - ", current exactly when it mentions "Present" |
| GeminiProcessor.ConvertEducation | app/services/gemini_processor.py:187-196 | qualification, institution, year, GPA and achievements map onto the education fields |
| GeminiProcessor.ConvertToExtractedData | app/services/gemini_processor.py:148-230 | one experience per project and one education per entry, in order; the first twenty skills of the categories; contact and certifications kept; confidence 0.95 |
| GeminiProcessor.ProcessResume | app/services/gemini_processor.py:232-235 | succeeds exactly when the reply decodes, with the converted data at confidence 0.95 |
| GeminiProcessor.CategorySkillsAppend | app/services/gemini_processor.py:198-206 | flattening the categories distributes over concatenation |
| GeminiProcessor.CategorySkillsMembers | app/services/gemini_processor.py:198-206 | a skill is in the flattened list exactly when some category lists it |
| GeminiProcessor.BulletLinesSingle | app/services/gemini_processor.py:163-164 | bulleting adds no line break |
| GeminiProcessor.HeadedLines | app/services/gemini_processor.py:212-216 | a heading, a blank line and newline-free lines split back into those lines |
| GeminiProcessor.HeadedJoin | app/services/gemini_processor.py:212-216 | the heading and blank line join in front of the joined lines |
| GeminiProcessor.BulletSummaryLines | app/services/gemini_processor.py:163-164 | the summary's lines are exactly the bulleted non-empty bullets |
| GeminiProcessor.SummaryLines | app/services/gemini_processor.py:163-216 | the summary's lines are the bulleted bullets, behind the bold title and a blank line when there is a title |
| GeminiProcessor.TitledLines | app/services/gemini_processor.py:212-216 | a titled summary opens with the bold title and a blank line |
| GeminiProcessor.SummaryWithoutBullets | app/services/gemini_processor.py:212-216 | without bullets the summary is the title alone; without a title it is the bullets alone |
| GeminiProcessor.DurationRoundTrip | app/services/gemini_processor.py:179-180 | a duration "start - end" gives back start and end as the dates |
| GeminiProcessor.DescriptionTechnologies | app/services/gemini_processor.py:170-173 | the description ends with the "Technologies:" line exactly when the project lists technologies; otherwise it is the bulleted achievements |
| EnhancedGemini.NameIndex | app/services/enhanced_gemini_processor.py:135-148 | the position of a full month name; None exactly when it is none of them |
| EnhancedGemini.MonthNumber | app/services/enhanced_gemini_processor.py:135-148 | a month key maps to a number from 1 to 12 |
| EnhancedGemini.MonthLookup | app/services/enhanced_gemini_processor.py:160-172 | a known month, looked up lower-case, becomes its three-letter abbreviation; anything else is kept as it is |
| EnhancedGemini.Search | app/services/enhanced_gemini_processor.py:158-160 | `re.search`: the leftmost match; None exactly when no position matches |
| EnhancedGemini.FirstDateMatch | app/services/enhanced_gemini_processor.py:151-174 | the first of the four patterns that matches anywhere; None exactly when none does |
| EnhancedGemini.MonthYear | app/services/enhanced_gemini_processor.py:161-172 | a first group above 12 is the year, so the second is the month; otherwise the first is the month |
| EnhancedGemini.FormatDate | app/services/enhanced_gemini_processor.py:129-176 | empty or "present" becomes "Present"; a date no pattern matches is returned unchanged |
| EnhancedGemini.FormatDuration | app/services/enhanced_gemini_processor.py:202-207 | a duration without exactly one dash is left unchanged |
| EnhancedGemini.RewriteExperience | app/services/enhanced_gemini_processor.py:198-207 | only the duration changes, and only when present |
| EnhancedGemini.RewriteProject | app/services/enhanced_gemini_processor.py:209-216 | only the duration changes, and only when present |
| EnhancedGemini.PostProcess | app/services/enhanced_gemini_processor.py:197-220 | every detailed experience and notable project is rewritten in place, in order; a missing `attempt_count` becomes 1 and a present one (even null) is kept; nothing else changes |
| EnhancedGemini.LowerDigits | app/services/enhanced_gemini_processor.py:160-172 | lower-casing leaves digits alone |
| EnhancedGemini.NumericMonthLookup | app/services/enhanced_gemini_processor.py:135-148 | a numeric month 1 to 12, with or without a leading zero, becomes its abbreviation |
| EnhancedGemini.SearchAtStart | app/services/enhanced_gemini_processor.py:158-160 | a match at the start is the one the search reports |
| EnhancedGemini.MonthSlashYear | app/services/enhanced_gemini_processor.py:129-176 | "MM/YYYY" and "MM-YYYY" become "Mon YYYY" |
| EnhancedGemini.YearFirstNotNumberFirst | app/services/enhanced_gemini_processor.py:151-156 | in "YYYY/MM" the month-first pattern finds no match |
| EnhancedGemini.YearSepMatch | app/services/enhanced_gemini_processor.py:151-156 | "YYYY/MM" is matched by the year-first pattern |
| EnhancedGemini.YearSlashMonth | app/services/enhanced_gemini_processor.py:129-176 | "YYYY/MM" and "YYYY-MM" become "Mon YYYY" |
| EnhancedGemini.NoDigitNoMatch | app/services/enhanced_gemini_processor.py:151-156 | no pattern matches text without digits |
| EnhancedGemini.NoDigitUnchanged | app/services/enhanced_gemini_processor.py:129-176 | a date without digits, other than empty or "present", is returned unchanged |
| EnhancedGemini.NoSepNoNumericMatch | app/services/enhanced_gemini_processor.py:151-156 | neither numeric pattern matches text without `/` or `-` |
| EnhancedGemini.MonthNamesDistinct | app/services/enhanced_gemini_processor.py:135-148 | each full month name maps to its own month |
| EnhancedGemini.WordYearMatch | app/services/enhanced_gemini_processor.py:151-156 | "Word YYYY" is matched as that word and year |
| EnhancedGemini.WordNotDigits | app/services/enhanced_gemini_processor.py:161-172 | a word of letters is not read as a year |
| EnhancedGemini.FullMonthYear | app/services/enhanced_gemini_processor.py:129-176 | "Month YYYY" with a full month name in any case becomes "Mon YYYY" |
| EnhancedGemini.AbbrevLookup | app/services/enhanced_gemini_processor.py:135-148 | an abbreviation looks up as itself |
| EnhancedGemini.AbbrevYearUnchanged | app/services/enhanced_gemini_processor.py:129-176 | a date already in "Mon YYYY" form is returned unchanged |
| EnhancedGemini.SplitDuration | app/services/enhanced_gemini_processor.py:203 | "a - b" with dash-free dates splits on `-` into two pieces |
| EnhancedGemini.DurationRewritten | app/services/enhanced_gemini_processor.py:202-207 | "start - end" is rewritten date by date |
| EnhancedGemini.DashedDateUntouched | app/services/enhanced_gemini_processor.py:202-207 | a duration with more than one dash is left untouched |
| EnhancedGemini.FormattedDurationStable | app/services/enhanced_gemini_processor.py:198-216 | rewriting a duration of two "Mon YYYY" dates changes nothing, so post-processing is idempotent on its output |
| Enrichment.AsList | app/services/template_engine.py:435-440 | a single string is wrapped as a one-item list; a truthy value gives a non-empty list |
| Enrichment.FirstList | app/services/template_engine.py:357-359 | `a or b or []`: the first truthy value as a list, else the empty list |
| TemplateContext.JoinNonBlank | app/services/template_engine.py:335 | a list whose entries are all blank joins to "" |
| TemplateText.BreakFrom | app/services/template_engine.py:500 | the first sentence break at or after a position, with no break before it; None when there is none |
| TemplateText.PrefixBreaks | app/services/template_engine.py:500 | a prefix keeps the sentence breaks inside it |
| TemplateText.SentenceSplit | app/services/template_engine.py:500 | the first piece is a prefix of the text holding no break, and it ends at a break or at the end |
| TemplateText.BreakFromAt | app/services/template_engine.py:500 | the break search finds the first break |
| TemplateText.SentenceSplitCons | app/services/template_engine.py:500 | a closed sentence, a space and more text split into that sentence and the rest's sentences |
| TemplateText.SentenceSplitJoin | app/services/template_engine.py:500 | clean closed sentences joined by spaces split back into themselves |
| TemplateText.LeadSentenceUnique | app/services/template_engine.py:494-504 | a text has at most one leading sentence |
| TemplateText.Ellipsized | app/services/template_engine.py:502-503 | a cut at the limit with "..." appended: a prefix of the text, at most the limit before the dots |
| TemplateText.LeadSentence | app/services/template_engine.py:500 | the first piece of the sentence split is a prefix with no break inside that ends at a break or at the end of the text |
| TemplateText.FirstSentence | app/services/template_engine.py:494-504 | empty exactly when the text is blank; at most the limit plus three; the leading sentence when it fits |
| TemplateText.FirstSentencePicksLead | app/services/template_engine.py:494-504 | a leading sentence within the limit is what `first_sentence` returns |
| TemplateText.FirstWord | app/services/template_engine.py:521 | the leading run of word characters, ended by a non-word character |
| TemplateText.DescribeFlags | app/services/template_engine.py:517-523 | sentence k is flagged exactly when it describes the project: over 20 characters and not opening with an action verb |
| TemplateText.FirstDescribingIndex | app/services/template_engine.py:517-523 | the first describing sentence; None exactly when none describes |
| TemplateText.DescribingOrFirst | app/services/template_engine.py:512-525 | the first describing sentence stripped, else the first sentence; non-empty for non-blank text |
| TemplateText.ProjectLevelSummary | app/services/template_engine.py:506-525 | empty exactly when the text without bullet marks is blank; otherwise the first describing sentence, else the first sentence |
| TemplateText.ProjectSentenceIsFirst | app/services/template_engine.py:517-523 | the first describing sentence is the one picked |
| TemplateText.TechPrefix | app/services/template_engine.py:547 | the leading run of token characters |
| TemplateText.TechTokens | app/services/template_engine.py:547 | every token of `[A-Za-z0-9+.#-]+` is non-empty |
| TemplateText.TechCandidate | app/services/template_engine.py:549-557 | a token's label is its lower-case form and never a stop word; every known technology or skill is a label |
| TemplateText.Candidates | app/services/template_engine.py:549-557 | the labels are exactly those of the tokens, lower-case and no stop word |
| TemplateText.DedupLabels | app/services/template_engine.py:559-566 | each label once, in the order of the labels, every one standing where its label first occurs |
| TemplateText.ExtractTechnologies | app/services/template_engine.py:527-568 | the technologies are exactly the tokens' labels, each once, lower-case and no stop word, in token order with each at its first occurrence |
| TemplateText.ResponsibilityBreak | app/services/template_engine.py:574 | a separator at a position stays inside the text |
| TemplateText.ResponsibilityBreakFrom | app/services/template_engine.py:574 | the first separator at or after a position |
| TemplateText.ResponsibilitySplit | app/services/template_engine.py:574 | the split gives at least one piece |
| TemplateText.BulletizeResponsibilities | app/services/template_engine.py:569-586 | no items from empty text; exactly the stripped pieces that are non-empty and hold fewer than three commas, in order |
| TemplateText.BulletizeResponsibilitiesCount | app/services/template_engine.py:576-585 | a kept piece appears as often as it occurs among the stripped pieces; a dropped piece never appears |
| TemplateText.RemoveChar | app/services/template_engine.py:790 | `replace('\r', '')` removes every carriage return and nothing is added |
| TemplateText.LineBullets | app/services/template_engine.py:793-801 | every bullet of a line has at least two characters |
| TemplateText.SummaryParts | app/services/template_engine.py:792-801 | every candidate of the summary's lines has at least two characters |
| TemplateText.SummaryCandidates | app/services/template_engine.py:782-801 | every candidate bullet of the summary has at least two characters |
| TemplateText.DistinctCapped | app/services/template_engine.py:802-810 | at most ten candidates, in order, no two equal ignoring case |
| TemplateText.DistinctCappedFirsts | app/services/template_engine.py:802-810 | each kept candidate is the first of its case-insensitive group; as many are kept as there are groups, up to ten; they are the first ten such candidates |
| TemplateText.BulletizeSummary | app/services/template_engine.py:782-810 | none for a blank summary; at most ten bullets of at least two characters, the first candidates distinct ignoring case |
| TemplateText.BulletizeSummaryFirsts | app/services/template_engine.py:782-810 | for a non-blank summary, each bullet is the first candidate of its case-insensitive group, one per group up to ten, in order |
| TemplateText.RemoveCharAbsent | app/services/template_engine.py:790 | removing an absent character changes nothing |
| TemplateText.LineBulletsClean | app/services/template_engine.py:792-801 | a clean line is its own only bullet |
| TemplateText.CleanLinesText | app/services/template_engine.py:784-792 | bullets written one per line need no trimming and hold no carriage return |
| TemplateText.SummaryCandidatesLines | app/services/template_engine.py:782-801 | clean bullets written one per line are the candidates of the text |
| TemplateText.DistinctCappedKeeps | app/services/template_engine.py:802-810 | up to ten candidates already distinct ignoring case all stay |
| TemplateText.BulletizeSummaryLines | app/services/template_engine.py:782-810 | clean, distinct bullets written one per line bulletize back to themselves |
| TemplateEngine.ContactBlock | app/services/template_engine.py:349-397 | name, email and phone are never empty, with "N/A" for a missing one; the title is stripped or "" |
| TemplateEngine.SummaryOf | app/services/template_engine.py:313-323 | LLM bullets, when any is non-blank, are used stripped and the text is their "; " join; otherwise the summary is bulletized and kept as the text |
| TemplateEngine.SkillsOf | app/services/template_engine.py:324-347 | one row per skill group with its non-blank items; without groups a single "Skills" row of the joined skills, or none when that is empty; the left and right lines join the headings and the item texts, one per line |
| TemplateEngine.TechList | app/services/template_engine.py:357-363 | every technology kept is non-empty and stripped |
| TemplateEngine.ProjectRowOf | app/services/template_engine.py:353-366 | the row's name is the project name, else the name, else "" |
| TemplateEngine.EducationRowOf | app/services/template_engine.py:368-377 | degree, institution and year each fall back through their alternative keys to "" |
| TemplateEngine.CertRows | app/services/template_engine.py:379-386 | one row per certification, numbered from 1, with issuer, else authority, else name, else "" |
| TemplateEngine.DurationPartsSplit | app/services/template_engine.py:428-434 | a duration with " - " splits at its first occurrence into stripped start and end; otherwise it is the start alone |
| TemplateEngine.SeparatorAfterStart | app/services/template_engine.py:431-432 | the first " - " of "start - end" is the one after a dash-free start |
| TemplateEngine.DurationPartsJoin | app/services/template_engine.py:428-434 | "start - end" gives back start and end |
| TemplateEngine.DatesOf | app/services/template_engine.py:428-455 | the start and end shown are never empty |
| TemplateEngine.EntryTitle | app/services/template_engine.py:446 | the title is never empty and prefers the project name |
| TemplateEngine.EntryText | app/services/template_engine.py:438-444 | the project description, else the description, else the first achievement |
| TemplateEngine.EnhancedRow | app/services/template_engine.py:445-456 | title and dates are never empty; description and project description agree; current follows the end date; technologies non-blank and responsibilities non-empty |
| TemplateEngine.DatesOfJoin | app/services/template_engine.py:428-455 | "start - end" shows start and end, current exactly when the end reads "present" |
| TemplateEngine.DatesOfMissing | app/services/template_engine.py:449-450 | no duration shows "—" to "Present" and is not current |
| TemplateEngine.OverflowRow | app/services/template_engine.py:463-472 | an overflow entry becomes a row with its duration or "", named after the project name |
| TemplateEngine.SkillsVocab | app/services/template_engine.py:480-491 | every non-blank skill, flat or grouped, is in the vocabulary stripped and lower-cased |
| TemplateEngine.Shortened | app/services/template_engine.py:602 | the description cut to 200 characters with "..." appended |
| TemplateEngine.LegacyProjectDescription | app/services/template_engine.py:602 | "—" for an empty description; otherwise the project-level summary, else the shortened description |
| TemplateEngine.LegacyRow | app/services/template_engine.py:587-607 | the placeholders "Position Title", "Company Name", "Start Date", "End Date"; the stripped description or its placeholder; technologies and responsibilities from the description |
| TemplateEngine.LegacyEducation | app/services/template_engine.py:609-619 | degree, institution and year are never empty, with placeholders for missing ones |
| TemplateEngine.ExperienceRows | app/services/template_engine.py:422-458 | with detailed experience, one enhanced row per entry, all of them; otherwise one legacy row per extracted entry |
| TemplateEngine.OverflowCount | app/services/template_engine.py:461 | the number of detailed entries beyond the fifth |
| TemplateEngine.ProjectRows | app/services/template_engine.py:353-366 | one row per notable project, in order |
| TemplateEngine.OverflowRows | app/services/template_engine.py:459-472 | one row per detailed entry beyond the fifth, in order |
| TemplateEngine.OtherProjectRows | app/services/template_engine.py:459-476 | the notable-project rows followed by the overflow rows; none is dropped |
| TemplateEngine.EducationRows | app/services/template_engine.py:368-377 | the enrichment rows, followed by the extracted education unless detailed experience was used |
| TemplateEngine.BuildContext | app/services/template_engine.py:311-621 | the context's parts as above; the summary is never empty, is the summary text when there is one, and the placeholder otherwise; the skills lines are those of `SkillsOf` |
| TemplateEngine.OverflowKept | app/services/template_engine.py:459-476 | every entry beyond the fifth appears among the other projects |
| TemplateEngine.DetailedEntriesKept | app/services/template_engine.py:422-476 | every detailed entry appears in the experience loop, and those beyond the fifth also among the other projects |
| TemplateEngine.CollectWarnings | app/services/template_engine.py:812-827 | each of the five warnings appears exactly when its condition holds, in their fixed order |
| TemplateEngine.Picked | app/services/template_engine.py:812-827 | the picked items keep their order |
| TemplateEngine.PickedMembers | app/services/template_engine.py:812-827 | a distinct item is picked exactly when its flag is set |
| TemplateEngine.PickedAvoids | app/services/template_engine.py:812-827 | nothing outside the items is picked |
| TemplateEngine.ContactWarnings | app/services/template_engine.py:815-819 | the name or email warning appears exactly when that field is missing or "N/A" |
| TemplateEngine.NoSummaryWarns | app/services/template_engine.py:820-823 | with no summary and no LLM bullets both summary warnings appear |
| TemplateEngine.PlaceholderReadsUnavailable | app/services/template_engine.py:399 | the placeholder summary reads "not available" once lower-cased |
| TemplateEngine.SkillsWarningIff | app/services/template_engine.py:824-825 | the skills warning appears exactly when no skills were extracted |
| CvGenerator.FindTableFrom | templates/ezest-code-gen/ezest_cv_generator.py:412-425 | the first table at or after a position whose header cells start with the headers; None when no later one does |
| CvGenerator.FindTableByHeaders | templates/ezest-code-gen/ezest_cv_generator.py:412-425 | the first table whose header cells start with the headers, ignoring case and spaces; None exactly when none does |
| CvGenerator.ClearDataRows | templates/ezest-code-gen/ezest_cv_generator.py:407-410 | only the first rows, up to the header count, remain, unchanged |
| CvGenerator.CloneRow | templates/ezest-code-gen/ezest_cv_generator.py:399-405 | a copy of the row is appended; an index past the table is an IndexError |
| CvGenerator.RemoveRow | templates/ezest-code-gen/ezest_cv_generator.py:427-438 | the row is dropped and the others keep their order; out of range nothing changes |
| CvGenerator.SetCells | templates/ezest-code-gen/ezest_cv_generator.py:450-451 | the first cells take the texts and the rest stay; too few cells is an IndexError |
| CvGenerator.BlankRow | templates/ezest-code-gen/ezest_cv_generator.py:467 | `add_row()` gives one empty cell per column |
| CvGenerator.TemplateRow | templates/ezest-code-gen/ezest_cv_generator.py:462-469 | the template is the second row, or a blank one when the method adds it |
| CvGenerator.FillRows | templates/ezest-code-gen/ezest_cv_generator.py:448-451 | one copy of the template row per item, in order, its first cells the item's texts; an IndexError when items need a missing or narrow template |
| CvGenerator.Populate | templates/ezest-code-gen/ezest_cv_generator.py:440-527 | no matching table is a ValueError; otherwise that table becomes its header followed by one row per item and no other table changes |
| CvGenerator.SkillCells | templates/ezest-code-gen/ezest_cv_generator.py:450-451 | the left and right texts, stripped |
| CvGenerator.PopulateSkills | templates/ezest-code-gen/ezest_cv_generator.py:440-454 | the "Category"/"Skills" table is filled from the skills rows without adding a template row |
| CvGenerator.TechsText | templates/ezest-code-gen/ezest_cv_generator.py:476-480 | a falsy value is empty; a text is itself |
| CvGenerator.TechsTextJoins | templates/ezest-code-gen/ezest_cv_generator.py:476-478 | a list without blank entries is joined with ", " |
| CvGenerator.TechsTextSkipsBlank | templates/ezest-code-gen/ezest_cv_generator.py:476-478 | blank entries never show in the technologies cell |
| CvGenerator.ProjectCells | templates/ezest-code-gen/ezest_cv_generator.py:474-481 | the stripped name and duration and the technologies text |
| CvGenerator.PopulateOtherProjects | templates/ezest-code-gen/ezest_cv_generator.py:456-484 | the three-column projects table is filled from the other-project rows |
| CvGenerator.EducationCells | templates/ezest-code-gen/ezest_cv_generator.py:501-503 | the stripped degree, institution and year |
| CvGenerator.PopulateEducation | templates/ezest-code-gen/ezest_cv_generator.py:486-506 | the three-column education table is filled from the education rows |
| CvGenerator.CertCells | templates/ezest-code-gen/ezest_cv_generator.py:523-524 | the number as decimal digits and the stripped authority |
| CvGenerator.TrimDigits | templates/ezest-code-gen/ezest_cv_generator.py:523 | a number's digits need no stripping |
| CvGenerator.PopulateCertifications | templates/ezest-code-gen/ezest_cv_generator.py:508-527 | the two-column certifications table is filled from the certification rows |
| CvGenerator.HexDigits | templates/ezest-code-gen/ezest_cv_generator.py:380 | `format(n, 'x')`: lower-case hex digits denoting n |
| CvGenerator.PadZeros | templates/ezest-code-gen/ezest_cv_generator.py:380 | zero padding keeps the value and reaches the width |
| CvGenerator.FormatHex | templates/ezest-code-gen/ezest_cv_generator.py:380 | `f"{n:0wx}"`: at least w hex digits denoting n |
| CvGenerator.FormatHexWidth | templates/ezest-code-gen/ezest_cv_generator.py:380 | a number below 16^w takes exactly w characters |
| CvGenerator.ChannelsHex | templates/ezest-code-gen/ezest_cv_generator.py:379-380 | six hex digits whose pairs denote the three channels |
| CvGenerator.RgbHex | templates/ezest-code-gen/ezest_cv_generator.py:376-396 | channels or three attribute bytes as RRGGBB; a number attribute as at least six digits; "000000" when nothing can be read |
| CvGenerator.DecodeRgb | templates/ezest-code-gen/ezest_cv_generator.py:376-396 | six hex digits read back into three channels below 256 |
| CvGenerator.RgbHexRoundTrip | templates/ezest-code-gen/ezest_cv_generator.py:376-380 | formatting a colour's channels and reading them back gives them again |
| CvGenerator.RgbHexNumber | templates/ezest-code-gen/ezest_cv_generator.py:390-391 | a number attribute below 16^6 gives exactly six digits denoting it |

## Left out

- Reading `.docx` and `.pdf` files, OCR, writing and rendering documents (`apply_template`, docxtpl) and all file I/O are left out. The model starts from the document's text and ends with the context and the table contents.
- The LLM calls, prompts, API keys and retries are left out. The LLM is a function from text to a result, and JSON decoding is a function from text to a record.
- Exceptions from code outside the model (regex engine, pydantic validation of extractor output, the NLP helpers) are one `raised` argument of `DocumentProcessor.AdvancedDataExtraction` and `DocumentProcessor.ProcessText`.
- Floating point is left out: the confidence score is an exact real in [0, 1].
- The passthrough context keys `detailed_experience`, `other_notable_projects`, `education_table`, `certifications` and the `skills_grouped` dictionary itself are left out. They are copied unchanged from the enrichment.
- TemplateEngine.BuildContext: the `try`/`except: continue` around each enrichment row is left out. Entries are well-formed records, so no row raises.
- TemplateEngine.SkillsOf: skill groups are a sequence of (heading, items) pairs. Unique dictionary keys are not enforced.
- TemplateEngine.BuildContext: the `additional_data`, `skills_grouped`, `tools_title` and contact `title` extras are an explicit `Extras` argument. `ExtractedData` declares none of them, so the application always passes `NoExtras`.
- CvGenerator.RemoveRow: the fallback that blanks the cells of a row that cannot be removed is left out. The row index is always in range where it is called.
- CvGenerator.RgbHex: which of the `.rgb` and `._rgb` attributes is read first is left out. The colour carries the one attribute found.
- GeminiProcessor.ConvertToExtractedData: a JSON null is read as a missing key. The prompt asks for null (gemini_processor.py:104), and the source then raises TypeError where it iterates None: `summary_bullets` (:164), `project_experience` (:168), `key_achievements` (:171) and `education` (:188). The model yields empty lists instead. A null `contact_info` makes `contact_data.get` raise AttributeError (gemini_processor.py:154), and a null `certifications` is rejected by pydantic, since `List[str]` is not optional (schemas.py:58). In the model the decoded reply always holds a contact record and a list of certifications, so neither failure occurs.
- GeminiProcessor.ProjectToExperience: a null `duration` makes `' - ' in None` raise TypeError (gemini_processor.py:180), but the model gives no end date. A null `project_name` gives title None (:176), but the model gives "Project".
- GeminiProcessor.ExtractResumeData: `decode` returns an object or nothing, so a reply that is valid JSON but not an object (a list, a string) is read as a decode failure. The source instead returns it, and `convert_to_extracted_data` then raises AttributeError at `.get` (gemini_processor.py:151). Invalid JSON is the ValueError of gemini_processor.py:139-142 in both.
- EnhancedGemini.PostProcess: a null `duration` with the key present raises AttributeError (enhanced_gemini_processor.py:203), but the model leaves the entry unchanged.
- Sections.ExtractSection: `\s+` in a heading pattern is read as one space. So "Employment\tHistory" or "Academic  Background" opens a section in the source but not in the model. The same holds for the headings of NlpExtractor.ExtractExperience (nlp_extractor.py:117), NlpExtractor.ExtractEducation (:297), NlpExtractor.SectionSkills (:353) and DocumentProcessor.ExtractSummary.
- Text.Trim: Python's `strip`, `split`, `lower`, `isupper`, `istitle` and the regex classes `\s`, `\w` and `\d` are Unicode-aware. The model uses ASCII: `Text.Whitespace` is the six ASCII blanks, so U+00A0 is stripped by Python but kept here. The same holds for Text.Lower, Text.Words and the character tests of NlpExtractor, TemplateText and EnhancedGemini.
- NlpExtractor.ExtractContactInfo: the email, phone, LinkedIn and website regexes are the function parameters of `ContactPatterns` (`emails`, `phones`, `linkedins`, `websites`).
- NlpExtractor.ParseSingleExperience: the company, position, date, responsibility and technology regex families are the `signals` parameter of `ExperiencePatterns`.
- NlpExtractor.ExtractExperience: the six split patterns and the two project-block patterns are the `splitters` and `projectFinders` parameters of `ExperiencePatterns`. Each is a total function, as `re.split` and `re.finditer` never fail.
- NlpExtractor.ParseJobEntry: the date-token regex is the `tokens` parameter, and so it is in NlpExtractor.ScanDates.
- NlpExtractor.ExtractEducation: the degree regexes are the `degree` parameter.
- DocumentProcessor.BasicContact: the email and phone regexes of the basic strategy are the `BasicPatterns` parameters.
- NlpExtractor.ExtractSkills: the fixed skill vocabulary is a constant, and its properties are stated on NlpExtractor.ExtractSkillsWith over any vocabulary.

## Findings

| source | as written | input that shows it | evidently intended | confidence | as-written member | corrected member |
|---|---|---|---|---|---|---|
| app/services/nlp_extractor.py:38-45 | each phone pattern has one capturing group, the optional country prefix. `re.findall` returns that group, so `phones[0]` holds at most five characters and can never reach the ten needed. No phone is ever stored | a résumé containing "5551234567" | clean the whole match and keep the first one of at least ten characters | not executed | NlpExtractor.FirstPhoneAsWritten, shown by NlpExtractor.PhonePrefixGroupLosesNumber | NlpExtractor.FirstPhone with NlpExtractor.FirstPhoneEarliest, used by NlpExtractor.ExtractContactInfoCorrected |
| app/services/document_processor.py:169-181 | a found title is assigned to `contact_info.title`. ContactInfo (schemas.py:23-30) declares no such field, so pydantic raises ValueError and basic extraction fails whenever lines 2 to 6 hold a title line. `advanced_data_extraction` falls back to it without a handler (:128-131) | non-blank lines "Jane Doe", "Software Engineer" | keep the title beside the extracted data | not executed | DocumentProcessor.BasicDataExtractionAsWritten, shown by DocumentProcessor.TitleFoundOnSecondLine | DocumentProcessor.BasicDataExtraction, used by DocumentProcessor.AdvancedDataExtractionCorrected and DocumentProcessor.ProcessTextCorrected |
