# Career orientation for students in Benin — a verified model of the core

This project models the core of a Streamlit application that advises
students in Benin on their careers. The application has four parts:

- **File parser** (`file_parser.py`) reads a class list from a Word document,
  either from tables or from free text. It checks the headers against six
  required columns (Nom, Prénom, Date de Naissance, Lieu de Naissance,
  Filière Actuelle, Carrière Envisagée), matching them by name or by
  accent-, case- and punctuation-free normalisation. It keeps the
  students that have a name and a programme ("filière"), and writes a
  validation report with one error per incomplete student and one warning
  per missing career.
- **Knowledge base manager** (`knowledge_base_manager.py`) keeps four
  tables of the labour market: occupations ("métiers"), sectors,
  skills and trainings. Each table is keyed by the lower-cased name. The
  manager answers queries on them:
  - three-tier name search: exact, partial, then word;
  - occupations by sector, high demand and growth;
  - similar occupations, ranked by a similarity score;
  - trainings for an occupation;
  - programme/occupation compatibility;
  - keyword search, ranked by score;
  - a summary and a validation report.
- **Recommendation engine** (`recommendation_engine.py`) analyses a student
  against the knowledge base and builds a prompt for a language model. It
  calls the model with up to three attempts, then splits the reply into four
  sections by their headings.
- **Personality test** (`personality_test.py`) turns the tallies of a
  four-dimension questionnaire into a four-letter type code. It looks up the
  code's description and the explanation of each of its letters.

The modules are:

| file | module | what |
|---|---|---|
| `common.dfy` | `Common` | `Option`/`Result`, Python's `[:n]` slice, filtering |
| `text.dfy` | `Text` | Python's `lower`, `upper`, `strip`, `find`, `split`, `join`, and Unicode NFD on the characters the application meets |
| `tables.dfy` | `Tables` | an insertion-ordered Python dictionary as a list of key/value pairs |
| `ranking.dfy` | `Ranking` | the stable descending sort used by both rankings |
| `knowledge_base.dfy` | `KnowledgeBase` | the records and every query as a function of the store |
| `kb_manager.dfy` | `KnowledgeBaseStore` | the manager as a class whose fields are the four tables, and its methods and loops |
| `file_parser.dfy` | `FileParser` | the parser and its loops |
| `recommendation.dfy` | `Recommendation` | the engine |
| `personality.dfy` | `Personality` | the questionnaire scoring and its tables |

How the inputs are modelled:

- A Word document is given as the texts of its table cells and its
  paragraphs.
- The spreadsheet reader's result is an `Option` input.
- The knowledge-base file is a parsed document or a failure.
- The language model is a function from the prompt and the attempt number
  to a reply or a connection error.
- The generation time is an integer parameter.
- The parser's label table, the validation messages and the required
  column names are parameters of generic definitions. Thin wrappers
  instantiate them with the application's constants.

## Model

| member | source | states |
|---|---|---|
| FileParser.NormalizeColumnName | file_parser.py:236-252 | the normalised name holds only alphanumeric characters, none of them upper-case, accented or a combining mark |
| FileParser.NormalizeAppend | file_parser.py:248-251 | normalisation works character by character: normalising a concatenation concatenates the normalised parts |
| FileParser.NormalizeIdempotent | file_parser.py:236-252 | normalising twice gives the same name as normalising once |
| FileParser.NormalizeIgnoresCase | file_parser.py:248 | lower-casing a name first does not change its normalised form |
| FileParser.PlainLetter | file_parser.py:248-251 | a plain lower-case letter is kept as it is |
| FileParser.AccentedChar | file_parser.py:248-249 | an accented letter, in either case, becomes its lower-case base letter |
| FileParser.NormalizeIgnoresAccent | file_parser.py:248-249 | replacing an accented letter by its base letter anywhere in a name keeps the normalised name |
| FileParser.SeparatorChar | file_parser.py:251 | a space, a punctuation mark or another non-alphanumeric character disappears |
| FileParser.NormalizeIgnoresSeparator | file_parser.py:251 | removing such a separator anywhere in a name keeps the normalised name |
| FileParser.MissingAmong | file_parser.py:222-234 | a name is reported missing exactly when it is required and no column equals it or normalises like it; at most the required names are reported |
| FileParser.MissingAmongOrdered | file_parser.py:223-232 | the missing names come in the order of the required list |
| FileParser.MissingColumnsSpec | file_parser.py:212-234 | for the six required columns: missing exactly when absent both verbatim and after normalisation, listed in their declared order |
| FileParser.VariantHeaderAccepted | file_parser.py:224-230 | a header that differs from a required name only in case, accents or separators satisfies that requirement |
| FileParser.HasNormalizedColumn | file_parser.py:226-230 | the search loop finds a match exactly when some column normalises like the required name |
| FileParser.MissingNames | file_parser.py:222-234 | the loop over required names returns exactly the missing ones, in order |
| FileParser.CheckRequiredColumns | file_parser.py:212-234 | the check returns the missing names among the six required columns |
| FileParser.CompleteIff | file_parser.py:254-265 | a student is complete exactly when Nom and Filière Actuelle are present and not blank after stripping |
| FileParser.KeptCellsKeys | file_parser.py:141-147 | every key of a row record is a wanted header, and its value is the stripped text of the last cell under that header (a later repeated header overwrites an earlier one) |
| FileParser.KeptCellsPresent | file_parser.py:143-147 | every cell under a wanted header, within the header row's width, is recorded |
| FileParser.RowRecordSpec | file_parser.py:141-147 | a data row keeps exactly the stripped cells under required headers, the last such cell when a header repeats; extra cells and other headers are dropped |
| FileParser.WithAllColumns | file_parser.py:152-155 | filling adds every required column, missing ones as "", and keeps every existing value |
| FileParser.RowStudent | file_parser.py:149-158 | a row yields a student exactly when its record is complete; that student has exactly the required keys, with "" under required columns absent from the headers |
| FileParser.RowsStudents | file_parser.py:141-158 | at most one student per data row, each complete and with exactly the required keys |
| FileParser.WordTablesSpec | file_parser.py:112-160 | every student read from tables is complete with exactly the required keys; a table with fewer than two rows, or with a missing column, yields none |
| FileParser.HeaderOnlyByNormalisation | file_parser.py:135-147 | a required column present only as a variant passes the header check, but its cells are never copied, so it reads "" for every student of that table |
| FileParser.ReadRow | file_parser.py:141-147 | the cell loop builds the row record |
| FileParser.FillMissing | file_parser.py:152-155 | the fill loop adds the missing required columns |
| FileParser.ReadRows | file_parser.py:141-158 | the row loop keeps the complete students, filled, in row order |
| FileParser.ReadTable | file_parser.py:124-158 | the students of one table, or none if it is too short or lacks a column |
| FileParser.ParseWordTables | file_parser.py:112-160 | the table loop concatenates the students of every table, in order |
| FileParser.FieldNamesRequired | file_parser.py:177-184 | the label table lists the six required fields, in the same order, Nom first and Prénom second |
| FileParser.FirstPattern | file_parser.py:198-204 | the first label of a field, in list order, that occurs in the text: it occurs and no earlier label does; none exactly when no label occurs |
| FileParser.FieldValueFollowsLabel | file_parser.py:199-202 | the corrected value is the stripped rest of the stripped paragraph after the first occurrence of the label, compared case-insensitively |
| FileParser.FieldValueAsWritten | file_parser.py:201-202 | the value as written: the original paragraph sliced at an offset found in its stripped, lower-cased text |
| FileParser.IndentedLabelCounterexample | file_parser.py:201-202 | for "  Nom: Jean" the code as written reads "m: Jean", the corrected reading gives "Jean" |
| FileParser.ReadingsAgreeUnindented | file_parser.py:199-202 | on a paragraph that does not start with white space, the value as written equals the corrected value |
| FileParser.FieldUpdate | file_parser.py:197-204 | a field is updated exactly when one of its labels occurs in the lower-cased, stripped paragraph |
| FileParser.FieldUpdateValue | file_parser.py:197-204 | when a field is updated, its value is the text as written after the first of its labels, in list order, that occurs; no earlier label occurs |
| FileParser.MatchFieldsLast | file_parser.py:197-204 | the fields are tried in table order; each sets its value when one of its labels occurs |
| FileParser.MatchedFieldsSet | file_parser.py:197-204 | after one paragraph, every field with a matching label holds the value as written after its first matching label |
| FileParser.OtherKeysKept | file_parser.py:197-204 | a paragraph leaves every key outside the label table unchanged |
| FileParser.UnmatchedFieldsKept | file_parser.py:197-204 | a field with no matching label keeps its earlier value, or stays absent |
| FileParser.FieldPatternsDistinct | file_parser.py:177-184 | the six fields of the label table are distinct |
| FileParser.NameLabelInsideFirstNameLabel | file_parser.py:178-179 | every text containing the label "prénom:" also contains the label "nom:" |
| FileParser.FirstNameLabels | file_parser.py:178-179 | in such a text the first label found is "nom:" for Nom and "prénom:" for Prénom |
| FileParser.FirstNameUpdates | file_parser.py:197-204 | such a paragraph updates both Nom and Prénom, each with the value as written after its own label |
| FileParser.FirstNameLabelAlsoSetsName | file_parser.py:197-204 | a "Prénom: …" paragraph also overwrites Nom, with the value as written after "nom:" inside "prénom:" |
| FileParser.MatchFieldsKeys | file_parser.py:197-204 | matching labels adds only fields of the label table |
| FileParser.TextStepOk | file_parser.py:186-204 | one paragraph keeps the scan invariant: saved students are complete and carry only label-table fields |
| FileParser.ScanParagraphsOk | file_parser.py:186-204 | the invariant holds after any sequence of paragraphs |
| FileParser.TextStudentsWithin | file_parser.py:162-210 | every student read from free text is complete and carries only fields of the label table |
| FileParser.WordTextSpec | file_parser.py:162-210 | with the application's labels, every free-text student is complete and carries only required columns |
| FileParser.BlankParagraph | file_parser.py:189-194 | a blank paragraph saves the current student and starts afresh when it is complete; otherwise it changes nothing, so partial fields carry over |
| FileParser.FindLabel | file_parser.py:198-204 | the label loop finds the first label of a field that occurs |
| FileParser.ReadField | file_parser.py:198-203 | the label loop and the slice of the unstripped paragraph give the field's update |
| FileParser.MatchParagraph | file_parser.py:197-204 | the field loop applies one paragraph to the current student |
| FileParser.IndentedParagraphRead | file_parser.py:197-204 | the scanner fills Nom with "m: Jean" from the paragraph "  Nom: Jean" |
| FileParser.ParseWordText | file_parser.py:162-210 | the paragraph loop, with the final complete student saved |
| FileParser.StudentBlanks | file_parser.py:288-297 | the blank flags of a student: complete exactly when Nom and Filière Actuelle are not blank; career flag exactly when Carrière Envisagée is blank |
| FileParser.ValidationCounts | file_parser.py:284-299 | over the first n students: valid = complete ones, errors = the others, warnings = complete ones without a career |
| FileParser.ValidationSpec | file_parser.py:267-301 | valid + errors = total = number of students; warnings ≤ valid; each count is the number of students with that property |
| FileParser.CheckOne | file_parser.py:285-299 | one student: an error for a missing name, else for a missing programme, else counted valid with a warning if the career is missing |
| FileParser.ValidateStudentData | file_parser.py:267-301 | the loop builds that report; valid + errors = total |
| FileParser.ExtensionAfterLastDot | file_parser.py:28 | the extension is the lower-cased text after the last dot |
| FileParser.ParsedFileSpec | file_parser.py:18-39 | an unsupported extension, or an unreadable spreadsheet, gives no students; a Word file gives only complete students carrying required columns |
| FileParser.ParseWord | file_parser.py:94-107 | tables first, then free text when the tables yield nobody |
| FileParser.ParseFile | file_parser.py:18-39 | dispatch on the extension |
| KnowledgeBaseStore.FirstPartialMatch | knowledge_base_manager.py:131-133 | the loop returns the first entry whose key contains the query or is contained in it |
| KnowledgeBaseStore.FirstWordMatch | knowledge_base_manager.py:136-139 | the loop returns the first entry whose key contains one of the query's words |
| KnowledgeBaseStore.AssignAll | knowledge_base_manager.py:77-98 | the load loop stores every record under its lower-cased name |
| KnowledgeBaseStore.LoadAll | knowledge_base_manager.py:76-100 | the four insertion loops and the loaded flag produce the loaded store |
| KnowledgeBaseStore.MetierWarningsOf | knowledge_base_manager.py:427-432 | the occupation loop emits the warnings of every occupation, in store order |
| KnowledgeBaseStore.AddSecteurWarnings | knowledge_base_manager.py:434-437 | the sector loop appends the warnings of every sector |
| KnowledgeBaseStore.ScoreAll | knowledge_base_manager.py:377-401 | the loop keeps every occupation with a positive keyword score, with its position and score |
| KnowledgeBaseStore.ScoreMetier | knowledge_base_manager.py:378-398 | 2 per keyword in the description plus 1 per (skill, keyword) hit |
| KnowledgeBaseStore.SkillScore | knowledge_base_manager.py:386-398 | the nested loop counts the (skill, keyword) pairs where the keyword occurs in the lower-cased skill |
| KnowledgeBaseStore.KnowledgeBaseManager.constructor | knowledge_base_manager.py:51-56 | four empty tables, not loaded |
| KnowledgeBaseStore.KnowledgeBaseManager.LoadKnowledgeBase | knowledge_base_manager.py:58-109 | succeeds exactly when the document was read; on failure nothing changes; on success records are added or overwritten and the store is marked loaded |
| KnowledgeBaseStore.KnowledgeBaseManager.FindMetier | knowledge_base_manager.py:111-141 | the three-tier occupation search |
| KnowledgeBaseStore.KnowledgeBaseManager.FindSecteur | knowledge_base_manager.py:143-167 | the two-tier sector search |
| KnowledgeBaseStore.KnowledgeBaseManager.GetMetiersBySecteur | knowledge_base_manager.py:169-189 | the sector's associated names resolved through the occupation search, unresolved ones dropped |
| KnowledgeBaseStore.KnowledgeBaseManager.GetMetiersHighDemand | knowledge_base_manager.py:191-199 | the occupations whose demand level lower-cases to "élevé", in store order |
| KnowledgeBaseStore.KnowledgeBaseManager.GetMetiersWithGrowth | knowledge_base_manager.py:201-209 | the occupations with growth prospects, in store order |
| KnowledgeBaseStore.KnowledgeBaseManager.FindSimilarMetiers | knowledge_base_manager.py:211-250 | the similarity ranking of the stored occupations, cut to the requested number |
| KnowledgeBaseStore.KnowledgeBaseManager.GetFormationsForMetier | knowledge_base_manager.py:252-269 | the trainings naming the occupation in one of their prepared occupations |
| KnowledgeBaseStore.KnowledgeBaseManager.AnalyzeFiliereMetierCompatibility | knowledge_base_manager.py:271-327 | the compatibility analysis of a programme and an occupation |
| KnowledgeBaseStore.KnowledgeBaseManager.GetSecteursPorteurs | knowledge_base_manager.py:329-336 | every stored sector, in store order |
| KnowledgeBaseStore.KnowledgeBaseManager.GetKnowledgeBaseSummary | knowledge_base_manager.py:338-359 | the summary of the current store |
| KnowledgeBaseStore.KnowledgeBaseManager.SearchMetiersByKeywords | knowledge_base_manager.py:361-406 | the keyword ranking of the current store |
| KnowledgeBaseStore.KnowledgeBaseManager.ValidateKnowledgeBase | knowledge_base_manager.py:408-439 | the validation report of the current store |
| KnowledgeBase.Loaded | knowledge_base_manager.py:76-100 | a successful load marks the store loaded |
| KnowledgeBase.LoadedWellFormed | knowledge_base_manager.py:76-98 | loading keeps every table keyed by lower-cased names, without duplicate keys; existing keys keep their positions |
| KnowledgeBase.LoadedFindsLastRecord | knowledge_base_manager.py:77-80 | after a load, an occupation's key holds the last record with that key in the document; an exact search finds that record |
| KnowledgeBase.FirstPartialFrom | knowledge_base_manager.py:131-133 | the first entry from a position on whose key contains the query or is contained in it; none when there is none |
| KnowledgeBase.FirstWordMatchFrom | knowledge_base_manager.py:136-139 | the first entry whose key contains a word of the query; none when there is none |
| KnowledgeBase.FindByName | knowledge_base_manager.py:111-167 | an empty query finds nothing; anything found is a stored record |
| KnowledgeBase.FindByNameExactTier | knowledge_base_manager.py:124-128 | a query whose lower-cased, stripped form is a key finds that key's record |
| KnowledgeBase.FindByNamePartialTier | knowledge_base_manager.py:130-133 | otherwise the first partial match, in store order, is found |
| KnowledgeBase.FindByNameWordTier | knowledge_base_manager.py:135-139 | otherwise, for occupations, the first key containing a word of the query is found |
| KnowledgeBase.FindByNameNone | knowledge_base_manager.py:121-141 | a non-empty query finds nothing exactly when all three tiers fail |
| KnowledgeBase.FindByExactName | knowledge_base_manager.py:124-128 | searching for a stored key finds its own record |
| KnowledgeBase.BlankQueryFindsFirst | knowledge_base_manager.py:121-133 | a query of spaces only is not empty, strips to "", and so finds the first stored record |
| KnowledgeBase.ResolveNames | knowledge_base_manager.py:183-189 | the resolved occupations are stored records, at most one per name; all names resolve exactly when the result is as long as the list |
| KnowledgeBase.ResolveNamesNext | knowledge_base_manager.py:184-187 | the names are resolved in list order: one more name appends its occupation when the search finds one, and nothing otherwise |
| KnowledgeBase.MetiersBySecteur | knowledge_base_manager.py:169-189 | an unknown sector gives nothing; otherwise at most one stored occupation per associated name |
| KnowledgeBase.SimilarCandidates | knowledge_base_manager.py:222-245 | the candidates are exactly the other occupations with a positive similarity score, in store order, each with its score |
| KnowledgeBase.SimilarRanking | knowledge_base_manager.py:247-250 | every ranked entry points into the store |
| KnowledgeBase.SimilarMetiersSpec | knowledge_base_manager.py:211-250 | at most the requested number; never the reference itself; positive, non-increasing scores; ties in store order; a candidate is left out only when the list is full of entries scoring at least as high |
| KnowledgeBase.FormationsForUpTo | knowledge_base_manager.py:262-269 | a training is listed exactly when the lower-cased occupation name occurs in one of its prepared occupations |
| KnowledgeBase.MatchingFormations | knowledge_base_manager.py:298-303 | a typical training matches exactly when it contains the programme or is contained in it, ignoring case |
| KnowledgeBase.CompatibilityOf | knowledge_base_manager.py:271-327 | the score is 0, 2, 5 or 8; "found" exactly when the occupation search succeeds, and the record is the one found |
| KnowledgeBase.CompatibilityNotFound | knowledge_base_manager.py:282-293 | an unknown occupation gives score 0 and empty lists |
| KnowledgeBase.CompatibilityFound | knowledge_base_manager.py:292-325 | 8 exactly when a training matches; 5 exactly when none matches and the occupation has transversal skills; gaps are the technical skills when nothing matches; one recommendation, chosen by the score |
| KnowledgeBase.EmptyFiliereMatchesAll | knowledge_base_manager.py:300-307 | an empty programme matches every typical training, so any occupation that lists one scores 8 |
| KnowledgeBase.KeywordCandidates | knowledge_base_manager.py:377-401 | the candidates are exactly the occupations with a positive keyword score, in store order |
| KnowledgeBase.KeywordRanking | knowledge_base_manager.py:403-404 | every ranked entry points into the store |
| KnowledgeBase.KeywordRankingSpec | knowledge_base_manager.py:371-404 | the ranking holds every occupation with a positive score, ordered by score and then store position |
| KnowledgeBase.KeywordSearchSpec | knowledge_base_manager.py:361-406 | no keywords give nothing; results have positive, non-increasing scores; ties keep store order; every occupation scoring positively is ranked |
| KnowledgeBase.Summary | knowledge_base_manager.py:338-359 | an error exactly when not loaded; otherwise the totals are the four table sizes, the high-demand and growth counts are the sizes of those selections and at most the total, and the sector list holds, in table order, the name of each sector |
| KnowledgeBase.MetierWarningsCount | knowledge_base_manager.py:427-432 | one warning per occupation without a description, plus one per occupation without technical skills |
| KnowledgeBase.SecteurWarningsCount | knowledge_base_manager.py:434-437 | one warning per sector without associated occupations |
| KnowledgeBase.ValidationSpec | knowledge_base_manager.py:408-439 | not loaded: invalid, with one error; loaded: valid, no errors, and as many warnings as the occupation and sector defects; the statistics are the summary |
| Ranking.SortDesc | knowledge_base_manager.py:248 | the sort keeps exactly the same entries, as a multiset |
| Ranking.SortDescOrdered | knowledge_base_manager.py:248 | the sort orders by score, highest first, and keeps the list order among equal scores |
| Ranking.SortDescSpec | knowledge_base_manager.py:404 | the sorted list is ordered and has the same members as its input |
| Ranking.PrefixKeepsBest | knowledge_base_manager.py:248-250 | the first n sorted entries come from the input; every entry left out ranks after every entry kept; something is left out only when n entries were kept |
| Tables.Put | knowledge_base_manager.py:80 | assigning a key stores the value and leaves other keys alone; an existing key keeps its position, a new key goes last |
| Tables.GetPutAll | knowledge_base_manager.py:77-98 | after storing a list of records, a key holds the last record with that key, or its earlier value when none has it |
| Tables.PutAllInvariant | knowledge_base_manager.py:77-98 | storing records keeps the keys unique and each key equal to its record's lower-cased name; existing keys keep their positions |
| Recommendation.Patterns | recommendation_engine.py:304-309 | three non-empty heading patterns per section |
| Recommendation.SectionOf | recommendation_engine.py:320-328 | a line opens the first section, in declared order, one of whose patterns occurs in the upper-cased line (`HeaderOf` upper-cases the line and asks `SectionOf`); no section exactly when no pattern occurs |
| Recommendation.SharpSHeader | recommendation_engine.py:322-324 | upper-casing turns "PARCOURß" into "PARCOURSS", so that line opens a section |
| Recommendation.FirstPatternIn | recommendation_engine.py:341-344 | the first pattern of the section, in list order, that occurs in the line: it occurs and no earlier pattern does; none exactly when none does |
| Recommendation.ContentAfterTitle | recommendation_engine.py:339-344 | the line itself or a strictly shorter text |
| Recommendation.ContentAfterTitleSpec | recommendation_engine.py:339-344 | the result is the line itself exactly when no pattern of the section occurs in the upper-cased line; otherwise the first pattern found occurs there, first at the position `find` reports |
| Recommendation.ContentAfterFirstTitle | recommendation_engine.py:339-344 | with `p` the first pattern found and `at` its first occurrence in the upper-cased line, the result is the stripped rest of the line from `at + len(p)` (empty when that is past the end) |
| Recommendation.TitleInLine | recommendation_engine.py:339-344 | on a line without a sharp s the occurrence lies within the line, the line's own text there upper-cases to the pattern, and the result is the stripped text after it |
| Recommendation.SetSection | recommendation_engine.py:333 | saving a section sets it and leaves the other three unchanged |
| Recommendation.ParseSections | recommendation_engine.py:286-361 | a non-empty reply never leaves all four sections empty |
| Recommendation.AnalyseHeaderWins | recommendation_engine.py:305 | any line containing "ANALYSE", in any case, opens the analysis section |
| Recommendation.PreambleDiscarded | recommendation_engine.py:348-351 | lines before the first heading are dropped |
| Recommendation.BlankLineDiscarded | recommendation_engine.py:316-318 | a blank line changes nothing |
| Recommendation.BodyAccumulates | recommendation_engine.py:348-351 | inside a section, body lines are collected stripped, in order |
| Recommendation.LaterBlockOverwrites | recommendation_engine.py:330-347 | a heading and its body set that section to the joined, stripped content, replacing an earlier block of the same section |
| Recommendation.FallbackOnlyWhenEmpty | recommendation_engine.py:357-359 | the whole reply goes into the analysis exactly when no section was filled; otherwise the scanned sections are kept |
| Recommendation.ScanLine | recommendation_engine.py:315-351 | one loop iteration is one step of the section scanner |
| Recommendation.ScanLines | recommendation_engine.py:311-351 | the line loop runs the scanner over every line |
| Recommendation.ParseAiSections | recommendation_engine.py:286-361 | the parser computes the sections of the reply |
| Recommendation.AnalyzeProfile | recommendation_engine.py:54-94 | programme and career are read from the student or ""; the occupation is found exactly when the career is non-empty and found; compatibility exactly when found; at most 3 alternatives, none when not found; the first min(3, n) sectors |
| Recommendation.PromptText | recommendation_engine.py:96-185 | the prompt opens with the student block, ends with the instructions and contains the occupation, compatibility, alternatives and sectors blocks |
| Recommendation.AlternativeLinesContain | recommendation_engine.py:147-148 | the alternatives block has a line for each alternative |
| Recommendation.SectorLinesContain | recommendation_engine.py:153-154 | the sectors block has a line for each sector |
| Recommendation.BlocksPresent | recommendation_engine.py:120-137 | the occupation block is non-empty exactly when an occupation was found; likewise the compatibility block |
| Recommendation.PromptAlternatives | recommendation_engine.py:144-148 | the prompt contains a line for every alternative, with at most 100 characters of its description |
| Recommendation.PromptSectors | recommendation_engine.py:150-154 | the prompt contains a line for every recommended sector, with at most 100 characters of its description |
| Recommendation.RetryFrom | recommendation_engine.py:221-250 | never more attempts than remain |
| Recommendation.RetryBounds | recommendation_engine.py:221-250 | with an attempt left: between 1 and the remaining attempts, one sleep fewer than attempts, never the "all attempts failed" message |
| Recommendation.RetrySuccess | recommendation_engine.py:221-248 | the call returns a content exactly when some attempt is the first to answer 200 with that content, after only retryable failures |
| Recommendation.EmptyChoicesNotRetried | recommendation_engine.py:232-235 | a 200 reply without choices fails at once with the invalid-reply message |
| Recommendation.TwoFailuresThenSuccess | recommendation_engine.py:221-248 | two retryable failures then a good reply: success after 3 attempts and 2 sleeps |
| Recommendation.ThreeFailures | recommendation_engine.py:236-248 | three retryable failures: the third one's message, after 3 attempts and 2 sleeps |
| Recommendation.Finish | recommendation_engine.py:252-284 | a failed call gives its error; otherwise the full reply, its parsed sections, the analysis and the timestamp |
| Recommendation.Structure | recommendation_engine.py:252-284 | a failed call gives its error; a reply is kept whole, with its parsed sections, the analysis and the timestamp |
| Recommendation.AppendAlternatives | recommendation_engine.py:144-148 | the loop appends the alternatives block |
| Recommendation.AppendSectors | recommendation_engine.py:150-154 | the loop appends the sectors block |
| Recommendation.RecommendationEngine.constructor | recommendation_engine.py:17-23 | 3 attempts, a 2-second delay, the given knowledge base |
| Recommendation.RecommendationEngine.AnalyzeStudentProfile | recommendation_engine.py:54-94 | the profile analysis of the current store |
| Recommendation.RecommendationEngine.BuildDeepseekPrompt | recommendation_engine.py:96-185 | the prompt, built piece by piece |
| Recommendation.RecommendationEngine.CallDeepseekApi | recommendation_engine.py:187-250 | the retry loop computes the call outcome with the engine's attempt count |
| Recommendation.RecommendationEngine.GenerateRecommendation | recommendation_engine.py:25-52 | analysis, prompt, call and structuring; an error when the call fails |
| Personality.Score | personality_test.py:215-231 | a letter's tally, 0 when the dimension or the letter is missing |
| Personality.Preference | personality_test.py:217 | the first letter exactly when its tally is strictly higher, so a tie gives the second |
| Personality.CalculateMbtiProfile | personality_test.py:204-234 | "----" exactly when there are no answers; otherwise four letters |
| Personality.ProfileLetters | personality_test.py:214-232 | each letter comes from its dimension, and is the first one exactly when its tally is strictly higher |
| Personality.TalliesGiveEnfj | personality_test.py:214-232 | E 6/I 4, S 3/N 7, T 5/F 5, J 8/P 2 give "ENFJ" |
| Personality.MissingTalliesGiveInfp | personality_test.py:214-232 | answers with an empty E/I entry and no other dimension give "INFP" |
| Personality.DescribedCodesAreTypeCodes | personality_test.py:110-191 | the description table has an entry for exactly the sixteen codes of one letter per dimension |
| Personality.DescriptionKnownCodes | personality_test.py:236-240 | a code has a description exactly when it is a type code |
| Personality.ProfileDescribed | personality_test.py:204-240 | every code computed from answers has a description |
| Personality.ExplainedLettersArePreferences | personality_test.py:193-202 | the explanation table has an entry for exactly the eight letters |
| Personality.ExplanationKnownLetters | personality_test.py:193-202 | a letter has an explanation exactly when it is one of the eight |
| Personality.ExplanationsFor | personality_test.py:242-255 | nothing unless the code has four characters; then exactly the four dimension keys |
| Personality.ExplanationsByDimension | personality_test.py:249-255 | each dimension key holds the explanation of the letter at its position |
| Personality.ProfileExplained | personality_test.py:204-255 | every letter of a computed code is explained |
| Personality.PlaceholderNotExplained | personality_test.py:211-255 | the placeholder "----" has four characters, so it gets the four keys, each without an explanation |

## Left out

- The spreadsheet reader (`_parse_excel`, file_parser.py:41-81) is built on a dataframe library. Its result is an input of `FileParser.ParsedFile`, `None` standing for a read error.
- Opening the Word file is left out. The document is given as its tables (cell texts, row by row) and its paragraph texts. A corrupt document is not modelled.
- Reading the JSON file and checking that it exists are left out: the manager receives the parsed document or a failure.
- KnowledgeBaseStore.KnowledgeBaseManager.LoadKnowledgeBase: a record with missing or extra fields makes the source raise part-way through the load. The model treats that as a failure of the whole document and leaves the store unchanged. The source keeps the records stored before the error, while the loaded flag stays false.
- The competence table is loaded and counted in the summary. No query reads it.
- Characters: `lower()` and `upper()` follow Python on ASCII and Latin-1, including the three letters whose upper case leaves Latin-1 ("ß" becomes "SS", "ÿ" becomes U+0178, "µ" becomes U+039C); every other character is caseless in the model. White space is Python's on ASCII and Latin-1. Unicode decomposition covers the Latin-1 letters with accents. Other scripts are outside the model.
- `FindSimilarMetiers`: scores are doubled (6, 2 and 1 instead of 3, 1 and 0.5) so that they stay integers. This keeps both the order and the positivity test unchanged.
- `generation_timestamp` is an integer parameter, not the float `time.time()`.
- `time.sleep` between attempts is counted (`sleeps`), not performed. The HTTP request headers and body and the 60-second timeout are not modelled. A reply is its status code, its choice contents and its text.
- Logging, `st.warning` and `st.error` are left out.
- The `_structure_recommendation` fallback that cuts the reply to 500 characters (recommendation_engine.py:279-282) only runs when `_parse_ai_sections` raises. That function cannot raise on a string, so the branch is not modelled.
- `test_api_connection` and `get_engine_stats` (recommendation_engine.py:363-400) are not modelled. They are a network probe and a constant report.
- `MBTI_QUESTIONS` and the questionnaire interface are not modelled. The tallies are the input of `CalculateMbtiProfile`.
- `Personality.DescriptionKnownCodes`: states which codes have a description. It does not state the wording of each description.
- `Personality.CalculateMbtiProfile`: answers are a map of maps of integers. Python values that are falsy but not dictionaries are not modelled.
- The application front end (`app.py`) and its configuration (`config.py`) are not part of this model.

## Findings

| source | as written | input that shows it | evidently intended | confidence | as-written member | corrected member |
|---|---|---|---|---|---|---|
| file_parser.py:201-202 | the offset of the value is found in the stripped, lower-cased paragraph, but it is applied to the original paragraph | the paragraph "  Nom: Jean" is read as Nom "m: Jean" | Nom "Jean": the value after the label, taken from the same stripped text | not executed | FileParser.FieldValueAsWritten, FileParser.IndentedLabelCounterexample, FileParser.IndentedParagraphRead | FileParser.FieldValue, FileParser.FieldValueFollowsLabel, FileParser.ReadingsAgreeUnindented |

The free-text scanner (`FieldUpdate`, `ReadField`, `MatchParagraph`,
`ParseWordText` and everything built on them) reads values as written, so
the model reproduces the behaviour above. `FieldValue` is the intended
reading. `ReadingsAgreeUnindented` shows that the two differ only on
paragraphs that start with white space.
