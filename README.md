# AlignAI relevance and keyword-gap engine, in Dafny

AlignAI matches a résumé against a job description. It parses the
candidate's projects (from LaTeX `\resumeProjectHeading` blocks, from
`Title | tech` PDF text, or from a portfolio), scores every project against
the job, ranks them, lists the job keywords no project covers, and blends
the project scores with the résumé score. Around that engine sit small
parsers and post-processors: the résumé section splitter, the file cache
with its refresh counters, the filtering and de-duplication of
vector-store matches, the batched upserts, and the code-fence stripping in
front of every JSON decode of a language-model reply.

This project models that engine and proves what it promises. One module
per source file:

- `LatexScan` and `LatexParser` model `src/latex_parser.py`: the block, header, item and command regexes as scanners; loops as methods proved against functions.
- `Utils` models `src/utils.py`: score formatting, truncation, file-type check, project-name cleaning, the keyword merge and the frequency fallback.
- `LlmPipeline` models `src/llm_pipeline.py`: the frequency keyword extractor and the fence and brace handling of `JSONOutputParser.parse`.
- `Analyzer` models `src/analyzer.py`: steps 3 to 5 of `analyze_resume_latex_only`; the résumé analysis is a class whose `overall_score` is filled in place.
- `Dashboard` models `app.py`: ranking, tiers, set-difference gap list and the 60/40 score of `analyze_resume_with_projects`.
- `PdfParser` models `backend/app/services/pdf_parser.py`: the line loop as a state machine over classified lines.
- `DocumentProcessor` models `src/document_processor.py`: section positions and slices, the portfolio split, chunk metadata.
- `DataManager` models `src/data_manager.py`: a `Manager` class over the two caches: scans with their counters, listings, selection, statistics.
- `VectorStore` and `Batching` model `src/vector_store.py`: match filtering, case-insensitive de-duplication keeping the best score, ranking, metadata cleanup, batches of 100.
- `RagService` models `backend/app/services/rag_service.py`: résumé chunks, vector ids, the search query, distinct project titles.
- `BackendAnalyzer` models `backend/app/services/analyzer.py`: relevance lookup and stable sort, the recommendation merge, enhancement selection, ATS keywords.
- `LlmService` models `backend/app/services/llm_service.py`: provider selection and dispatch, `_extract_json`'s payload, the `keywords` default.

Shared modules: `Wrappers` (`Option`), `Text` (Python's `str` operations on
ASCII text), `Seqs` (filter, map, de-duplication, sums), `Sorting` (the
stable sort behind `list.sort` and `sorted`) and `Counting`
(`Counter.most_common`).

Scores are `real`, so the ratios are exact. `int()` is truncation toward
zero (`Utils.TruncateToInt`). Where Python goes through a `set` the order is
unspecified, and the model takes any listing that holds each element once
(`Seqs.Enumerates`). Language-model replies, vector-store matches, embeddings,
file hashes and toolkit results are parameters.

## Model

| member | source | states |
|---|---|---|
| LatexParser.FullDescriptionConcat | src/latex_parser.py:34-36 | the full description is the points in order, with one space between neighbours |
| LatexParser.CleanLatexText | src/latex_parser.py:213-239 | empty text cleans to empty, and every cleaned text is single-spaced with no edge whitespace |
| LatexParser.ApplyRulesPlain | src/latex_parser.py:218-234 | the six substitutions leave text without `\` or `$` untouched |
| LatexParser.CleanPlainText | src/latex_parser.py:213-239 | text without commands or math is only re-spaced, and already-normalised plain text comes back unchanged |
| LatexParser.TechItems | src/latex_parser.py:151-154 | the tech list has no more entries than comma pieces, and each entry is normalised |
| LatexParser.TechList | src/latex_parser.py:145-154 | every tech-stack entry is normalised |
| LatexParser.ParseHeader | src/latex_parser.py:125-167 | the link is the first `\href` url of the header; the name has no edge whitespace; every tech entry is normalised |
| LatexParser.CleanedPoints | src/latex_parser.py:199-208 | at most one point per item, each non-empty and normalised |
| LatexParser.CleanedPointsSnoc | src/latex_parser.py:199-208 | one more item adds its cleaned text at the end exactly when that text is non-empty |
| LatexParser.ParseItems | src/latex_parser.py:169-211 | the loop over item matches yields the cleaned, non-empty item texts in order |
| LatexParser.ProjectOf | src/latex_parser.py:102-111 | a block yields a project only with a non-empty name and points, carrying the block's raw text and stripped date |
| LatexParser.ProjectsOf | src/latex_parser.py:79-123 | at most one project per block, each with a name and points |
| LatexParser.ProjectsOfFromBlocks | src/latex_parser.py:79-123 | every parsed project is the project of one of the blocks and carries that block's raw text |
| LatexParser.ParseProjectsFromLatex | src/latex_parser.py:49-123 | the loop yields the projects of the block matches, in order |
| LatexParser.ParseBlock | src/latex_parser.py:83-111 | one loop iteration gives the project its block defines |
| LatexParser.FirstAlt | src/latex_parser.py:253-266 | a match is one of the alternatives, occurs at the position, and ends at a word boundary |
| LatexParser.FindAllAlts | src/latex_parser.py:265 | every match found is one of the pattern's alternatives |
| LatexParser.TechPatternsNonEmpty | src/latex_parser.py:252-262 | no technical-term alternative is empty |
| LatexParser.ExtractKeywordsFromProject | src/latex_parser.py:241-268 | the result lists the project's keyword set: lower-cased tech entries plus the terms found in the description |
| LatexParser.KeywordsFacts | src/latex_parser.py:241-268 | the keywords are distinct and lower case, and include every tech-stack entry lower-cased |
| LatexParser.FindPatternKeywords | src/latex_parser.py:264-266 | the loop over the patterns collects the set of lower-cased matches |
| LatexParser.ListOfSet | src/latex_parser.py:268 | `list(set)` lists every element once |
| LatexParser.KeywordSetLower | src/latex_parser.py:246-266 | every keyword in the set is lower case |
| LatexParser.PatternKeywordsLower | src/latex_parser.py:264-266 | every term found by the patterns is lower case |
| LatexParser.PercentFacts | src/latex_parser.py:278-285 | the capped percentage lies in [0, 100]; it is 100 exactly when the part is the whole and the whole is non-empty, 0 exactly when the part is 0 |
| LatexParser.ScoreProjectForJob | src/latex_parser.py:270-297 | all three scores lie in [0, 100]; name and tech stack are copied from the project |
| LatexParser.KeywordScoreMeaning | src/latex_parser.py:277-295 | the keyword score is 100 exactly when every keyword occurs in the job text, 0 exactly when none does; the matched keywords are those found, in order |
| LatexParser.SimilarityMeaning | src/latex_parser.py:281-285 | the similarity is 100 exactly when the job has words and all occur in the project text, 0 exactly when none does |
| LatexParser.EmptyJobScoresZero | src/latex_parser.py:270-288 | an empty job description gives an overall score of 0 |
| LatexParser.Scores | src/latex_parser.py:303-305 | one score per project, in order, named after it and within [0, 100] |
| LatexParser.ScoresSnoc | src/latex_parser.py:303-305 | scoring one more project appends its score |
| LatexParser.RankProjectsForJob | src/latex_parser.py:299-310 | the ranking is the first `top_k` of the scores, stably sorted by overall score, highest first |
| LatexParser.RankingFacts | src/latex_parser.py:307-310 | the ranking holds min(top_k, n) scores from the input, in non-increasing order, and tied projects keep their input order |
| LatexScan.ItemList | src/latex_parser.py:43 | the item-list group ends where the first `\resumeItemListEnd` begins |
| LatexScan.BlockTail | src/latex_parser.py:43 | once group 1 ends, the match has this header and its raw text ends with the list-end command |
| LatexScan.MatchedBlock | src/latex_parser.py:43 | a matched block carries its header group and ends with the list-end command |
| LatexScan.BlockFrom | src/latex_parser.py:43 | the lazy header group finds a match ending within the text, with the list-end command last |
| LatexScan.BlockAt | src/latex_parser.py:43 | a block match at a position lies within the text and ends with the list-end command |
| LatexScan.Blocks | src/latex_parser.py:57 | every block match found ends with the list-end command |
| LatexScan.HrefAt | src/latex_parser.py:45 | an `\href` match starts at the backslash and ends inside the text |
| LatexScan.ItemGroups | src/latex_parser.py:176 | each item group stops at the first `}`, so it holds none |
| LatexScan.FallbackFindsNothing | src/latex_parser.py:179-195 | the fallback item pattern finds nothing when the primary pattern found nothing |
| LatexScan.BracedAt | src/latex_parser.py:219-228 | a braced-command match starts with the command and ends inside the text |
| LatexScan.CommandAt | src/latex_parser.py:231 | a generic-command match starts at a backslash and ends inside the text |
| LatexScan.MathAt | src/latex_parser.py:234 | a math match starts at `$` and ends inside the text |
| LatexScan.MatchAt | src/latex_parser.py:218-234 | each rule matches only at its trigger character and ends inside the text |
| LatexScan.SubUntriggered | src/latex_parser.py:218-234 | a substitution leaves text without its trigger character untouched |
| LlmPipeline.KeywordTokens | src/llm_pipeline.py:306-311 | every counted token is a word of the lower-cased text that passes the filter |
| LlmPipeline.KeywordFacts | src/llm_pipeline.py:300-314 | at most twenty distinct words, each a token longer than three characters and not a stop word, ordered by count, highest first |
| LlmPipeline.KeywordsAreTop | src/llm_pipeline.py:314 | once twenty keywords are listed, no word left out is more frequent than the twentieth |
| LlmPipeline.StripFences | src/llm_pipeline.py:34-40 | removing the fences never lengthens the text |
| LlmPipeline.DropPrefix | src/llm_pipeline.py:35-38 | the prefix is removed exactly when the text starts with it |
| LlmPipeline.DropSuffix | src/llm_pipeline.py:39-40 | the suffix is removed exactly when the text ends with it |
| LlmPipeline.JsonCandidate | src/llm_pipeline.py:34-55 | the decoded candidate is never longer than the reply |
| LlmPipeline.BraceSlice | src/llm_pipeline.py:43-52 | the candidate is never longer than the fence-free text |
| LlmPipeline.BraceSliceShape | src/llm_pipeline.py:43-52 | the candidate is either the stripped text or a slice that opens with `{` and closes with `}` |
| LlmPipeline.StripFencesJson | src/llm_pipeline.py:34-40 | "```json" + body + "```" loses exactly its two fences |
| LlmPipeline.StripFencesPlain | src/llm_pipeline.py:34-40 | a reply with no fence and no edge whitespace is untouched |
| LlmPipeline.NoJsonFence | src/llm_pipeline.py:35 | text not starting with "```" does not start with "```json" either |
| LlmPipeline.BraceSliceObject | src/llm_pipeline.py:43-49 | an object with no `{` before it and no `}` after it is exactly what gets decoded |
| LlmPipeline.BraceSliceNoObject | src/llm_pipeline.py:46-52 | without a `{` the candidate is the fence-free text, stripped |
| Utils.Clamp100 | src/utils.py:392 | the result lies in [0, 100] and a value already in range is kept |
| Utils.TruncateToInt | src/utils.py:392 | `int(x)` truncates toward zero: for x >= 0 the result is the floor, for x < 0 the ceiling |
| Utils.FirstDigitRun | src/utils.py:396-397 | no run exactly when the text has no ASCII digit; otherwise a non-empty all-digit run |
| Utils.FormatScore | src/utils.py:389-401 | every score becomes an int in [0, 100]; a value of another type, or text without a digit, gives 0 |
| Utils.FirstDigitRunOf | src/utils.py:396-397 | the first digit run of `p + d + q` is `d` when `p` has no digit and `q` does not continue it |
| Utils.FormatScoreText | src/utils.py:393-398 | text such as "Score: 85/100" reads as its first number, clamped to [0, 100] |
| Utils.FormatScoreNumber | src/utils.py:391-392 | a number in [0, 100] keeps exactly its whole part |
| Utils.TruncateText | src/utils.py:403-415 | text within the limit, or empty, comes back unchanged; longer text becomes a prefix of itself followed by "..." |
| Utils.TruncateAtSpace | src/utils.py:408-415 | the kept part has at most `max_length` characters; it is shorter exactly when it stops at the last space of `text[:max_length]` and that space lies beyond 0.8 * max_length |
| Utils.LastSegment | src/utils.py:460 | the last `.`-separated piece contains no dot |
| Utils.ValidateFileType | src/utils.py:455-458 | an empty file name is rejected |
| Utils.ValidateFileTypeOf | src/utils.py:455-461 | `stem.ext` is accepted exactly when ".ext", case-insensitively, is an allowed extension |
| Utils.ValidateFileTypeNoDot | src/utils.py:460-461 | a name without a dot is accepted exactly when "." followed by the whole name is allowed |
| Utils.SplitLastAfter | src/utils.py:460 | the last piece of `a + sep + b` split on `sep` is `b` when `b` has no `sep` |
| Utils.DigitCount | src/utils.py:325 | the number of digits never exceeds the length |
| Utils.StarterRejected | src/utils.py:304-314 | a name whose lower-cased, stripped form starts with a listed starter word and a space is invalid |
| Utils.DropTrailingPunct | src/utils.py:340 | the result is the longest prefix that does not end in one of `.,:;!?`, and every character removed is such a mark |
| Utils.DropEdgeQuotes | src/utils.py:343 | the result is a contiguous slice of the input that loses at most one character at each end |
| Utils.CleanProjectName | src/utils.py:336-343 | a cleaned name is single-spaced |
| Utils.CleanNameFixed | src/utils.py:336-343 | a single-spaced name without edge whitespace, quotes or trailing marks is already clean |
| Utils.CleanAndValidateProjectName | src/utils.py:330-348 | an empty name gives `None`; every name returned is valid and single-spaced |
| Utils.CleanKeepsCleanName | src/utils.py:330-348 | a valid name that is already clean comes back unchanged |
| Utils.CleanedNames | src/utils.py:195-200 | the cleaned names hold no duplicate |
| Utils.CleanedNamesFacts | src/utils.py:195-200 | every cleaned name is valid and single-spaced, and every candidate that cleans to a valid name contributes its cleaned form |
| Utils.ExtractProjectNames | src/utils.py:176-202 | empty text gives no names; otherwise the result is the first six distinct cleaned names, all valid and single-spaced |
| Utils.MergeScoredPrefix | src/utils.py:121-126 | the TF-IDF merge keeps the technical terms as its prefix and adds only new terms |
| Utils.MergeScoredAdds | src/utils.py:121-123 | every term the merge adds carries a positive TF-IDF score |
| Utils.MergeScoredComplete | src/utils.py:121-126 | a merge that stops below `max_keywords` holds every positively scored term |
| Utils.MergeFacts | src/utils.py:113-128 | the merged list is distinct and at most `max_keywords` long; the de-duplicated technical terms come first, in order, and every later term has a positive score |
| Utils.KeywordsForFacts | src/utils.py:54-133 | empty text gives no keywords; except on the fewer-than-five-tokens path, the keywords are distinct and at most `max_keywords` |
| Utils.ExtractKeywordsFromText | src/utils.py:113-128 | the two merge loops compute the keyword list its reference function defines |
| Utils.BlankPunctuation | src/utils.py:161 | replacing punctuation by spaces keeps the length |
| Utils.CandidateWords | src/utils.py:161-168 | every counted word is alphabetic and longer than two characters |
| Utils.SimpleKeywordFacts | src/utils.py:158-174 | at most `max_keywords` distinct candidate words from the text, ordered by frequency, highest first |
| Analyzer.BuildRecommendations | src/analyzer.py:235-243 | the loop builds the recommendations its reference function defines |
| Analyzer.RecommendationsAboveThreshold | src/analyzer.py:235-243 | every recommendation scores above 50, and there are no more of them than ranked projects |
| Analyzer.RecommendedIff | src/analyzer.py:235-243 | a ranked project is recommended exactly when it scores above 50, and every recommendation copies the name, score, matched keywords and tech stack of one ranked project |
| Analyzer.RecommendationsOrdered | src/analyzer.py:231-243 | a ranking sorted highest first gives recommendations sorted highest first |
| Analyzer.RankedRecommendations | src/analyzer.py:229-243 | with `top_k=8` there are at most eight recommendations, each scoring in (50, 100], highest first |
| Analyzer.RankedScoresBounded | src/analyzer.py:235-243 | no recommendation scores above 100 when no ranked score does |
| Analyzer.ProjectKeywords | src/analyzer.py:283-286 | a word is in the concatenated project keywords exactly when it is a keyword of some project |
| Analyzer.ProjectKeywordSetMeaning | src/analyzer.py:283-286 | a word is in the union exactly when one project's keyword set holds it |
| Analyzer.BuildMissingKeywords | src/analyzer.py:289-298 | the loops build the missing-keyword entries its reference function defines |
| Analyzer.MissingFacts | src/analyzer.py:289-298 | at most fifteen entries, each a job keyword no project lists, in job-keyword order, "Technical", and of high importance exactly when among the first five job keywords; below fifteen, no missing job keyword is left out |
| Analyzer.OverallScoreBounds | src/analyzer.py:303-306 | no recommendation gives the default 70; with recommendations in (50, 100] the truncated mean of the first three lies in [50, 100] |
| Analyzer.ResumeAnalysis.constructor | src/analyzer.py:204 | a new analysis holds the given `overall_score` |
| Analyzer.ResumeAnalysis.FillOverallScore | src/analyzer.py:309-310 | the score is written only when the analysis does not have one already |
| Analyzer.AnalyzeResumeLatexOnly | src/analyzer.py:217-310 | no LaTeX parses no project; the ranking is the top eight scores; recommendations, missing keywords, overall score and improved projects are those the reference functions give; the analysis keeps its own score if it had one |
| Analyzer.AnalysisScoreInRange | src/analyzer.py:229-306 | whatever the inputs, the overall score of an analysis lies in [50, 100] |
| Dashboard.TierMatchesBadge | app.py:405-410 | the mark and the colour use the same cut-offs: trophy and green exactly at 80 or more, idea and red exactly below 60 |
| Dashboard.BuildRecommendations | app.py:126-135 | the loop builds one recommendation per ranked project, as its reference function defines |
| Dashboard.EveryProjectRecommended | app.py:106-135 | ranked with `top_k = len(parsed_projects)`, every project gets exactly one recommendation, highest first |
| Dashboard.BuildMissingKeywords | app.py:138-151 | the result lists the first ten elements of some enumeration of the set difference |
| Dashboard.MissingFacts | app.py:143-151 | at most ten distinct entries, each a job keyword no project lists, "Technical", of high importance exactly when among the first five job keywords; when at most ten are missing, all are listed |
| Dashboard.ProjectAverageBounds | app.py:203-204 | the truncated mean of the top three scores lies in [0, 100] |
| Dashboard.OverallScoreFacts | app.py:202-218 | the overall score lies in [0, 100]; the 0.6/0.4 blend lies between the project average and the résumé score; without a résumé score it is the project average, or 70 |
| Dashboard.AnalyzeResumeWithProjects | app.py:99-227 | the result is `None` exactly when no project parsed or the phrasing step raised (its handler's undefined `logger` passes the failure to the outer handler); otherwise recommendations, missing keywords and overall score are those the reference functions give |
| Dashboard.RankingNeverEmpty | app.py:101-106 | once the parse found a project, the ranking is never empty |
| PdfParser.SplitAtSeparator | backend/app/services/pdf_parser.py:55-66 | a line holding `|` splits into at least two parts, so `parts[0]` exists |
| PdfParser.Technologies | backend/app/services/pdf_parser.py:69-74 | every technology is non-empty, comma-free and without edge whitespace |
| PdfParser.ExtractProjectsFromText | backend/app/services/pdf_parser.py:37-91 | the line loop computes the projects the line-by-line scan defines |
| PdfParser.ProcessLine | backend/app/services/pdf_parser.py:50-82 | one loop pass moves the state exactly as one scan step on the classified line does |
| PdfParser.KindsSnoc | backend/app/services/pdf_parser.py:49-82 | classifying and scanning one more line extends the scan by one step |
| PdfParser.FlushTitles | backend/app/services/pdf_parser.py:57-90 | the projects saved by the final flush carry exactly the titles seen |
| PdfParser.StepTitles | backend/app/services/pdf_parser.py:55-66 | a step adds a title exactly when the line is a title line with a non-empty title |
| PdfParser.ScanTitles | backend/app/services/pdf_parser.py:49-90 | the titles seen are those of the named title lines, in order |
| PdfParser.ProjectTitles | backend/app/services/pdf_parser.py:37-91 | one project per title line with a non-empty title, in order; a line such as "|Python" yields none, and its bullets are dropped |
| PdfParser.ClassifyWellFormed | backend/app/services/pdf_parser.py:50-82 | a classified title is stripped and free of `|` |
| PdfParser.StepShapes | backend/app/services/pdf_parser.py:55-82 | a scan step keeps every saved and open project well formed |
| PdfParser.ScanShapes | backend/app/services/pdf_parser.py:49-90 | the whole scan yields only well-formed projects |
| PdfParser.ProjectShapes | backend/app/services/pdf_parser.py:37-91 | every project has a non-empty title free of `|` and edge whitespace, and non-empty, comma-free technologies |
| PdfParser.BulletsExtendOpenProject | backend/app/services/pdf_parser.py:78-82 | bullet lines after an open project add their texts to its description, in order |
| PdfParser.BulletsSnoc | backend/app/services/pdf_parser.py:78-82 | one more bullet line adds one more text |
| PdfParser.BulletStep | backend/app/services/pdf_parser.py:78-82 | a single bullet line after an open project appends its text with the bullet removed |
| DocumentProcessor.SearchWord | src/document_processor.py:115-116 | the match found is the first whole-word occurrence at or after the position; `None` means there is none |
| DocumentProcessor.HeaderPosition | src/document_processor.py:113-119 | a header position lies within the text |
| DocumentProcessor.HeaderPositionMeaning | src/document_processor.py:113-119 | no position exactly when no header occurs; otherwise it is the first occurrence of the first header, in list order, that occurs at all |
| DocumentProcessor.Positions | src/document_processor.py:110-119 | every recorded key is a configured section key |
| DocumentProcessor.Slice | src/document_processor.py:133 | a slice is never longer than the text |
| DocumentProcessor.SectionBody | src/document_processor.py:133-140 | a section body has no edge whitespace |
| DocumentProcessor.DropHeaderLineMeaning | src/document_processor.py:136-140 | a single line is kept; otherwise everything after the first newline remains |
| DocumentProcessor.MapOfPairs | src/document_processor.py:125-140 | the dictionary's keys are exactly the pairs' keys |
| DocumentProcessor.MapOfPairsValue | src/document_processor.py:125-140 | with distinct keys, each key maps to its own pair's value |
| DocumentProcessor.SectionSpans | src/document_processor.py:125-133 | each sorted section runs from its start to the next section's start, or to the end of the text |
| DocumentProcessor.ParseResumeSections | src/document_processor.py:102-147 | the loops compute the sections its reference function defines |
| DocumentProcessor.CollectPositions | src/document_processor.py:110-119 | the outer loop records the positions its reference function defines |
| DocumentProcessor.AssignSections | src/document_processor.py:125-140 | the slicing loop builds the dictionary of section bodies over the spans |
| DocumentProcessor.FirstHeader | src/document_processor.py:113-119 | the inner loop stops at the first header that matches |
| DocumentProcessor.PositionsDistinct | src/document_processor.py:110-119 | each section key is recorded at most once |
| DocumentProcessor.PositionsKeys | src/document_processor.py:112-119 | a key is recorded exactly when one of its headers occurs as a whole word |
| DocumentProcessor.HasKeySnoc | src/document_processor.py:118 | after one more entry, a key is present exactly when it was before or is the new entry's |
| DocumentProcessor.HeaderFoundSnoc | src/document_processor.py:112-119 | a key's header is found in a longer configuration exactly when it was found before or the last key is that key with a header found |
| DocumentProcessor.SortedPositionsFacts | src/document_processor.py:122 | sorting keeps the entries and their distinct keys and puts them in document order |
| DocumentProcessor.PermutedKeys | src/document_processor.py:122 | reordering the entries keeps the set of keys |
| DocumentProcessor.SpansKeys | src/document_processor.py:125-133 | the spans carry exactly the keys of the sorted entries |
| DocumentProcessor.SectionsFromKeys | src/document_processor.py:122-145 | no positions give exactly `{'summary': text}`; otherwise the sections' keys are exactly the keys found |
| DocumentProcessor.ResumeSectionsKeys | src/document_processor.py:102-147 | without any header found the result is exactly `{'summary': text}`; otherwise its keys are exactly the configured keys whose header was found |
| DocumentProcessor.SectionsFromValue | src/document_processor.py:125-140 | each section holds the body of its own span of the text |
| DocumentProcessor.ResumeSectionValue | src/document_processor.py:102-147 | each section found holds the text from its header up to the next section's start in document order, or to the end, header line dropped |
| DocumentProcessor.SplitBeforeFrom | src/document_processor.py:162 | a split yields at least one piece |
| DocumentProcessor.SplitBeforeJoin | src/document_processor.py:162 | the pieces joined with the newlines the split consumed give the text back |
| DocumentProcessor.DigitRunLength | src/document_processor.py:155-178 | the digit run is maximal and made of digits |
| DocumentProcessor.PortfolioSections | src/document_processor.py:154-167 | the portfolio split yields at least one section |
| DocumentProcessor.PortfolioSectionsJoin | src/document_processor.py:154-167 | the sections joined by newlines give the text back |
| DocumentProcessor.BeforeDelimiter | src/document_processor.py:177 | the name is the longest prefix of the first line without a dash or colon |
| DocumentProcessor.DropNumbering | src/document_processor.py:178 | removing the numbering never lengthens the name |
| DocumentProcessor.ProjectName | src/document_processor.py:173-181 | every project name is non-empty |
| DocumentProcessor.Selected | src/document_processor.py:169-171 | every kept position is below the number of sections |
| DocumentProcessor.ProjectsAt | src/document_processor.py:183-187 | one project per kept position, carrying the section's name, stripped text and index |
| DocumentProcessor.ExtractProjectsFromPortfolio | src/document_processor.py:149-190 | the method computes the projects of the stripped sections |
| DocumentProcessor.CollectProjects | src/document_processor.py:169-187 | the loop over the sections yields the projects of the cleaned sections longer than 100 characters, in order |
| DocumentProcessor.CollectedProjects | src/document_processor.py:169-187 | the loop's running result equals the projects at the selected positions |
| DocumentProcessor.ProjectsAtSnoc | src/document_processor.py:183-187 | one more kept position appends its project |
| DocumentProcessor.SelectedFacts | src/document_processor.py:169-171 | the kept positions are exactly the sections longer than 100 characters, in increasing order |
| DocumentProcessor.ProjectsAtFacts | src/document_processor.py:169-187 | each project is a stripped section longer than 100 characters at its index, indexes increase, and no such section is missed |
| DocumentProcessor.PortfolioFacts | src/document_processor.py:169-187 | the portfolio's projects are exactly its stripped sections longer than 100 characters, in order, each with its index |
| DocumentProcessor.PortfolioNamed | src/document_processor.py:177-181 | every project has a non-empty name |
| DocumentProcessor.ChunkTextForEmbedding | src/document_processor.py:192-209 | one document per chunk, in order, holding the chunk and its metadata |
| DocumentProcessor.ChunkMetadataFacts | src/document_processor.py:198-202 | the caller's metadata entries are kept unchanged, and the chunk's index and size appear under keys the caller does not set |
| DataManager.StepFacts | src/data_manager.py:99-216 | each file moves exactly one counter: a cached file (same key, same hash) leaves the cache as it was; a processed file stores its data under its key with its new hash; a failed file leaves the cache as it was |
| DataManager.UnreadableFileMatchesEmptyHash | src/data_manager.py:73-79 | a file that cannot be read hashes to the empty string, and when its stem is cached with that hash it counts as cached |
| DataManager.ScanConserves | src/data_manager.py:95-216 | `processed + cached + errors == total` after every scan |
| DataManager.ScanKeepsEntries | src/data_manager.py:118-198 | entries are only added or replaced, never dropped, and keys of files the scan did not meet keep their entries |
| DataManager.ScanKeys | src/data_manager.py:118-198 | every key after a scan was cached before or is the key of a file the scan met |
| DataManager.ScanRecords | src/data_manager.py:104-208 | after a scan, each file processed or found cached is cached under its key with its hash |
| DataManager.RescanCached | src/data_manager.py:104-172 | scanning the same files again finds every file stored the first time cached |
| DataManager.EmptyProjectFileIsError | src/data_manager.py:181-212 | a project file that parses to no project counts as an error and stores nothing |
| DataManager.FileProjects | src/data_manager.py:245-254 | one summary per project of the file |
| DataManager.ResumeListingFacts | src/data_manager.py:225-239 | the résumé listing is sorted by file name and is a reordering of one summary per cached entry |
| DataManager.ResumeListingKeys | src/data_manager.py:228-235 | a key appears in the listing exactly when it is cached |
| DataManager.FlattenedCount | src/data_manager.py:244-299 | the flattened listing has one entry per project of every cached file |
| DataManager.ProjectListingFacts | src/data_manager.py:241-258 | the project listing is sorted by name, is a reordering of the per-file listings, and has `total_projects` entries |
| DataManager.SplitKey | src/data_manager.py:273-277 | the file key holds no `_`; a key with `_` is the file key, `_` and the name; a key without one is the file key alone |
| DataManager.FirstMatch | src/data_manager.py:281-284 | the match is a project of the file, named as asked when a name is given; none exactly when the file is empty without a name, or no project has the name |
| DataManager.SelectedFacts | src/data_manager.py:268-286 | at most one project per key, each a project of a cached file |
| DataManager.NamelessKeySelectsFirst | src/data_manager.py:273-284 | a key with no project name selects the first project of its file |
| DataManager.SelectOne | src/data_manager.py:272-284 | one pass of the key loop resolves the key as its reference function does |
| DataManager.UnderscoredFileKeyNotSelected | src/data_manager.py:273-274 | the key built for project "Chatbot" of `ml_projects.tex` selects nothing |
| DataManager.PairSelectionRoundTrip | src/data_manager.py:279-284 | with file key and name kept apart, every listed project with a name is selected back by them |
| DataManager.Manager.constructor | src/data_manager.py:22-33 | the manager starts with the two caches it was given |
| DataManager.Manager.ScanAndProcessResumes | src/data_manager.py:81-142 | a missing directory gives zero counts and changes nothing; otherwise the cache and the counts are those of the scan, and the cache is saved exactly when something was processed |
| DataManager.Manager.ScanAndProcessProjects | src/data_manager.py:144-223 | as for résumés, with an empty parse counted as an error; the résumé cache is untouched |
| DataManager.Manager.GetAvailableResumes | src/data_manager.py:225-239 | the listing is the one its reference function gives over the cache's entries |
| DataManager.Manager.GetAvailableProjects | src/data_manager.py:241-258 | the listing is the one its reference function gives over the cache's entries |
| DataManager.Manager.RefreshAllData | src/data_manager.py:288-300 | both caches are the results of their scans, each result's counts add up to its total, and the totals count cached résumés and cached projects |
| DataManager.Manager.GetSelectedProjects | src/data_manager.py:268-286 | the loop over the keys selects what its reference function defines |
| DataManager.Manager.GetSystemStats | src/data_manager.py:302-309 | the counts are the numbers of cached résumés, of cached project files and of projects in them |
| DataManager.ItemsOfEnumeration | src/data_manager.py:228-244 | pairing an enumeration of the keys with their values lists the cache's entries |
| DataManager.FlattenSnoc | src/data_manager.py:244-254 | the listing of one more file appends that file's summaries |
| Batching.BatchesCover | src/vector_store.py:118-127 | the batches, concatenated in order, give back the vectors |
| Batching.BatchAt | src/vector_store.py:123-124 | batch `k` is the slice `[k * 100, (k + 1) * 100)`, cut at the end |
| Batching.BatchStarts | src/vector_store.py:123 | there is a batch `k` exactly when `k * 100` is below the number of vectors |
| Batching.StoredByAll | src/vector_store.py:118-127 | when every call succeeds, every vector is stored, in order |
| Batching.StoredByLater | src/vector_store.py:118-127 | a failed call loses only its own batch; a later successful batch is stored after everything before it |
| Batching.UpsertInBatches | src/vector_store.py:118-127 | one call per batch, and exactly the batches whose call succeeded are stored, in order |
| DataManager.Manager.GetSelectedProjectsByPair | src/data_manager.py:268-286 | picks given as (file key, project name) select, in order, the first project of that name in each named cached file, skipping unknown files and names; together with `PairSelectionRoundTrip` every listed project is selected back |
| VectorStore.ResumeHitsFacts | src/vector_store.py:157-164 | every hit meets the similarity threshold, every match that does is kept, and the index's score order is preserved |
| VectorStore.SearchResumeContent | src/vector_store.py:157-167 | the result loop builds the hits its reference function defines |
| VectorStore.ResumeHitsSnoc | src/vector_store.py:158-164 | one more match adds its hit exactly when it meets the threshold |
| VectorStore.KeyIndex | src/vector_store.py:210 | the lookup finds the table entry of the key, and `None` means the key is absent |
| VectorStore.UniqueFacts | src/vector_store.py:207-211 | the de-duplication keeps, for each lower-cased name, the first candidate with that name's highest relevance |
| VectorStore.BestOfExtend | src/vector_store.py:210-211 | a kept candidate stays kept when a later one of another name, or of its name and no higher relevance, comes |
| VectorStore.BestOfLast | src/vector_store.py:210-211 | a new candidate is kept when every earlier candidate of its name scores strictly less |
| VectorStore.KeepFacts | src/vector_store.py:208-211 | one loop step keeps the table a correct de-duplication of the candidates seen |
| VectorStore.KeepCovers | src/vector_store.py:208-211 | after a step every name seen has an entry |
| VectorStore.KeepBest | src/vector_store.py:208-211 | after a step every entry holds the best candidate of its name |
| VectorStore.Values | src/vector_store.py:214 | `unique_projects.values()` lists the kept candidates in table order |
| VectorStore.RankOrder | src/vector_store.py:214 | at most `TOP_K_PROJECTS` results, sorted by relevance, highest first, with distinct names |
| VectorStore.RankBest | src/vector_store.py:207-214 | each result is the best candidate of its name |
| VectorStore.RankCutoff | src/vector_store.py:214 | a candidate whose name did not make the cut scores no higher than any result |
| VectorStore.KeyOfValue | src/vector_store.py:209-211 | each entry is stored under its own candidate's lower-cased name |
| VectorStore.DistinctValues | src/vector_store.py:214 | distinct names make distinct results |
| VectorStore.CandidateFacts | src/vector_store.py:188-204 | every candidate meets the threshold and is not, ignoring case, one of the résumé's projects |
| VectorStore.ProjectAlternativesRanked | src/vector_store.py:188-214 | at most `TOP_K_PROJECTS` alternatives, sorted highest first, with distinct lower-cased names, each the best candidate of its name; a candidate left out scores no higher than any alternative |
| VectorStore.ProjectAlternativesFiltered | src/vector_store.py:188-204 | no alternative is one of the résumé's projects, ignoring case, and each meets the threshold |
| VectorStore.SearchProjectAlternatives | src/vector_store.py:186-217 | filtering, de-duplication and ranking compute the alternatives its reference function defines |
| VectorStore.CollectCandidates | src/vector_store.py:190-204 | the first loop keeps, in order, the matches that are not current projects and meet the threshold |
| VectorStore.DedupByName | src/vector_store.py:207-211 | the `unique_projects` loop builds the de-duplication table its reference function defines |
| VectorStore.CleanMetadata | src/vector_store.py:103-109 | the content is cut to its first 1000 characters, no value is `None`, and every other key keeps its value exactly when it was not `None` |
| VectorStore.CleanMetadataIdempotent | src/vector_store.py:103-109 | preparing the metadata twice gives the same as once |
| VectorStore.StoreProjectChunks | src/vector_store.py:88-135 | nothing is stored when the embedder raises or a chunk has no `project_index`; otherwise one vector per chunk, in order, and exactly the batches whose call succeeded are stored |
| VectorStore.StoreProjectChunksAll | src/vector_store.py:117-127 | when every call succeeds the index holds every chunk's metadata, in chunk order |
| RagService.ProjectTextLines | backend/app/services/rag_service.py:70 | a project chunk's text splits back into the title, the description and the technologies line |
| RagService.JoinNoChar | backend/app/services/rag_service.py:70 | joining parts that avoid a character, with a separator that avoids it, avoids it |
| RagService.ChunkResume | backend/app/services/rag_service.py:58-77 | one chunk more than there are projects: the whole text first, then one project chunk per project, in order |
| RagService.VectorIdInjective | backend/app/services/rag_service.py:41 | different chunk positions get different ids |
| RagService.NamespaceOr | backend/app/services/rag_service.py:56-91 | the namespace is never empty, and a non-empty one given is used |
| RagService.Vectors | backend/app/services/rag_service.py:37-49 | one vector per chunk, in chunk order |
| RagService.VectorsFacts | backend/app/services/rag_service.py:37-49 | vector ids are pairwise distinct and every vector carries the résumé id |
| RagService.StoreResume | backend/app/services/rag_service.py:32-56 | the chunks are the résumé's; every vector is sent, in order, in one call per batch of 100, into the chosen namespace |
| RagService.SearchQuery | backend/app/services/rag_service.py:79-92 | the query filters on `resume_id` exactly when a non-empty user id is given; `top_k` and namespace are passed on |
| RagService.RelevantProjectsFacts | backend/app/services/rag_service.py:108-119 | at most `top_k` distinct titles, each from a project hit; when fewer are returned, every project hit's title is among them |
| RagService.FindRelevantProjects | backend/app/services/rag_service.py:104-119 | the search asks for twice `top_k` hits, and the loop keeps the distinct project titles in first-seen order, at most `top_k` |
| RagService.FoundSnoc | backend/app/services/rag_service.py:114-117 | one more hit adds its title exactly when it is a project hit with a new title |
| RagService.TitlesSnoc | backend/app/services/rag_service.py:109 | one more hit adds its title exactly when it is a project hit |
| LlmService.SelectProvider | backend/app/services/llm_service.py:11 | an empty provider results only from an environment variable set to "" |
| LlmService.Dispatch | backend/app/services/llm_service.py:21-26 | Groq is called exactly for "groq"; every other name goes to Ollama |
| LlmService.DispatchOfSelection | backend/app/services/llm_service.py:11-26 | Groq is used exactly when the argument is "groq", or when there is no usable argument and the environment names "groq" or is unset |
| LlmService.ExtractJsonPayload | backend/app/services/llm_service.py:60-70 | the payload handed to the decoder has no edge whitespace |
| LlmService.PayloadWithoutFence | backend/app/services/llm_service.py:62-70 | a reply with no fence is decoded as it is, stripped |
| LlmService.JsonFencedPayload | backend/app/services/llm_service.py:65-66 | the payload is the text after the first "```json" up to the next "```" |
| LlmService.BodyBeforeFence | backend/app/services/llm_service.py:66 | the piece after "```json" is cut at its first "```" |
| LlmService.PieceBeforeNextJsonFence | backend/app/services/llm_service.py:66 | a later "```json" does not change the text before the first "```" |
| LlmService.FencedPayload | backend/app/services/llm_service.py:67-68 | without "```json", the payload is the text between the first two "```" |
| LlmService.FencedParts | backend/app/services/llm_service.py:68 | the text between the first two fences is found by the two splits |
| LlmService.PlainFenceBranch | backend/app/services/llm_service.py:65-68 | without "```json" but with "```", the payload is the text between the first "```" and the next |
| LlmService.OpenFencePayload | backend/app/services/llm_service.py:67-68 | with a single "```", the payload is everything after it |
| LlmService.KeywordsField | backend/app/services/llm_service.py:169-170 | a reply without a `keywords` field gives [], otherwise that field |
| BackendAnalyzer.RelevanceOf | backend/app/services/analyzer.py:53-57 | a title no ranking entry carries gets 50.0; otherwise the relevance is that of the first entry with that title |
| BackendAnalyzer.RankedFacts | backend/app/services/analyzer.py:51-62 | the ranked projects are the scored input projects, reordered so that relevance never increases, with equal relevances in input order |
| BackendAnalyzer.RankedScores | backend/app/services/analyzer.py:52-59 | every ranked project is an input project carrying the relevance its title is ranked with |
| BackendAnalyzer.FirstRelevance | backend/app/services/analyzer.py:53-57 | the generator loop finds the relevance its reference function defines |
| BackendAnalyzer.RankProjects | backend/app/services/analyzer.py:51-62 | the scoring loop and the sort compute the ranking its reference function defines |
| BackendAnalyzer.RecommendationPool | backend/app/services/analyzer.py:45-47 | the pool holds at most three LLM titles and two retrieved titles |
| Seqs.NoDupSetSize | backend/app/services/analyzer.py:45 | a list without repeats has as many elements as its set |
| Seqs.SetSizeBound | backend/app/services/analyzer.py:45 | a list's set is no larger than the list |
| Seqs.DistinctBound | backend/app/services/analyzer.py:45-48 | a list without repeats, drawn from another list, is no longer than it |
| Seqs.SubsetSize | src/latex_parser.py:284-285 | a subset is no larger than its superset, so the common words never exceed the job words |
| BackendAnalyzer.MergeRecommendations | backend/app/services/analyzer.py:45-48 | at most five distinct titles, and a title is recommended exactly when it is in the pool |
| BackendAnalyzer.FindProject | backend/app/services/analyzer.py:68 | the project found has the title; `None` exactly when no project has it |
| BackendAnalyzer.AttemptFacts | backend/app/services/analyzer.py:68-81 | one title gives at most one entry, and one exactly when it names a project whose enhancement succeeds; the entry keeps that project's description as `original` |
| BackendAnalyzer.AttemptsFacts | backend/app/services/analyzer.py:67-81 | at most one entry per title; none exactly when no title succeeds; each entry belongs to one of the titles |
| BackendAnalyzer.EnhancedFacts | backend/app/services/analyzer.py:65-120 | the field is `None` exactly when no selection is given or none of the first three selected titles succeeds; otherwise it holds one to three entries, each for one of those titles |
| BackendAnalyzer.EnhanceSelected | backend/app/services/analyzer.py:65-81 | the enhancement loop over the first three selected titles skips failures and computes what its reference function defines |
| BackendAnalyzer.AtsKeywordsOf | backend/app/services/analyzer.py:107-111 | `missing` lists the keyword of each missing keyword, in order; `matched` defaults to [] |
| BackendAnalyzer.Analyze | backend/app/services/analyzer.py:17-125 | the response ranks the projects, recommends at most five distinct pooled titles, carries the enhancement result, the ATS keywords and the missing keywords, and defaults the overall score to 72 |
| Counting.TalliesFacts | src/llm_pipeline.py:314 | the counter holds each distinct word of the input once, with its positive count |
| Counting.SortedTalliesFacts | src/llm_pipeline.py:314 | the counter's items sorted by count are distinct words of the input with their counts, highest first |
| Counting.MostCommonFacts | src/llm_pipeline.py:314 | `most_common(n)` lists min(n, number of distinct words) distinct words of the input with their counts, highest first, and nothing for n <= 0 |
| Counting.MostCommonIsTop | src/llm_pipeline.py:314 | no word left out of `most_common(n)` occurs more often than the last word listed |
| Counting.MostCommonItemsFacts | src/llm_pipeline.py:314 | the words of `most_common(n)` are distinct words of the input, min(n, distinct) of them, by count, highest first |
| Counting.TiesKeepFirstOccurrence | src/llm_pipeline.py:314 | words with equal counts appear in the order of their first occurrence |
| Sorting.SortPermutes | src/latex_parser.py:308 | the sort is a permutation of its input |
| Sorting.SortSorted | src/latex_parser.py:308 | the sort's output is ordered |
| Sorting.SortStable | src/latex_parser.py:308 | elements that tie appear in the output in their input order |
| Sorting.SortByKeyDesc | src/latex_parser.py:308 | sorting by a key with `reverse=True` is a permutation with non-increasing keys |
| Sorting.SortByStrKey | src/data_manager.py:238-257 | sorting by a string key is a permutation with keys in `str` order |
| Text.PyPrefix | src/latex_parser.py:310 | `s[:n]` is a prefix of `s`, of length min(n, len(s)) for n >= 0 |
| Text.NormalizeSpaces | src/latex_parser.py:237-239 | collapsing whitespace and stripping gives single-spaced text without edge whitespace |
| Text.NormalizeSpacesFixed | src/latex_parser.py:237-239 | single-spaced text without edge whitespace is left as it is |
| Text.JoinSplit | backend/app/services/pdf_parser.py:43 | joining the pieces of a split with the separator gives the text back |
| Text.SplitJoin | backend/app/services/pdf_parser.py:60-88 | splitting a join of separator-free parts gives the parts back |

## Left out

- Language-model traffic: the LangChain chains, `LLMService._call_groq` / `_call_ollama` and the prompts. Their replies (`improved_projects`, rankings, enhancements, analyses) are parameters, and an `Option` stands for a call that raised.
- JSON decoding itself: `LlmService.ExtractJsonPayload` and `LlmPipeline.JsonCandidate` give the text handed to `json.loads`, not the decoded value. The fallback of `JSONOutputParser.parse` (src/llm_pipeline.py:58-83) uses `re`, which that module never imports at top level, so it is not modelled.
- Pinecone and the sentence embedder: queries return a given match list, and upserts are modelled as the vectors sent. A failing upsert call is a parameter `succeeds(k)`, and a raising `generate_embeddings` the flag `embedded` of `VectorStore.StoreProjectChunks`.
- `store_project_chunks` vector ids embed `int(time.time())` (src/vector_store.py:100): the clock is not modelled, so those ids are left out and only the metadata is kept.
- `generate_embeddings`, `store_resume_chunks`, `find_similar_sections`, `get_resume_statistics`, `delete_resume`, `clear_all_projects` and `get_index_stats` in `src/vector_store.py` are vector-store I/O outside the post-processing modelled here.
- File and document I/O: PDF/DOCX text extraction, the JSON cache load and save, MD5/SHA-256 hashing and directory globbing. File hashes, file lists, parse outcomes and "directory exists" are parameters, and the cache save is a returned flag.
- `get_system_stats`' `cache_size_mb` reads file sizes from disk and is not modelled.
- Utils.ExtractProjectNames: the regex candidate finders `_find_project_sections`, `_extract_projects_from_section` and `_extract_projects_global_fallback` (src/utils.py:183-193) are not modelled; the candidate names they yield are a parameter.
- DataManager.Manager.GetAvailableProjects: the listing leaves out the `keywords` field (src/data_manager.py:253). The cached project data holds the parsed projects, whose keywords `LatexParser.ExtractKeywordsFromProject` gives.
- DataManager.ResumeSummary: `sectionsFound` is the set of section names; the source lists `sections.keys()` in the dictionary's order (src/data_manager.py:127), and that order is not modelled.
- `get_resume_content` and `get_project_content` are plain dictionary lookups and are not modelled.
- NLTK and scikit-learn: tokenising, lemmatising and TF-IDF are a parameter (`Utils.NlpOutcome`) that gives the filtered tokens, the technical terms and the scored terms. `calculate_similarity_score` is not modelled.
- The LangChain text splitter: `chunk_text_for_embedding` takes the chunk list as given.
- Unicode: `lower`, `isalpha`, `isupper`, `\w` and `\s` are modelled on ASCII characters.
- Regular expressions are hand-written scanners for the fixed patterns the core uses, not a general `re` engine.
- LatexParser.ScoreProjectForJob: scores are not rounded to one decimal (`round(x, 1)`, src/latex_parser.py:292-294). Ranking and the thresholds of `Analyzer` (> 50) and `Dashboard` (80/60) see the unrounded score, so a score within 0.05 of a cut-off can fall on the other side of it.
- Floating point: the 0.7/0.3, 0.6/0.4 and 0.8 products are exact reals, so float rounding in them is not modelled.
- Utils.FormatScore: reals have no infinity or NaN, so `int(x)` raising on them (src/utils.py:392) is not modelled.
- `src/analyzer.py`: steps 1 and 2 (the résumé lookup and the LLM analysis) are the `ResumeAnalysis` parameter. The outer exception handler (src/analyzer.py:338-351) is not modelled: no modelled step raises, since the LLM calls are parameters and the parser catches its own errors. Lines 352-504 are unreachable after the returns and are not modelled.
- `app.py`: the LaTeX rebuilt from the selected projects (lines 82-96) is a parameter of `Dashboard.AnalyzeResumeWithProjects`. The phrasing improvement (lines 153-199) is LLM traffic: the improved descriptions are not modelled, only whether the step raised (the `phrasingRaises` parameter). The résumé LLM analysis is the `resumeScore` parameter. The Streamlit and plotly UI is not modelled.
- `backend/app/services/analyzer.py`: `project.relevance_score = relevance` updates the caller's `Project` objects in place. The model works on values, so the aliasing between the input list and `ranked_projects` is not captured. Category scores and feedback defaults are dictionary lookups with constant defaults and are not modelled. `get_resume_id` and `store_resume` before the analysis are I/O.
- RagService.FindRelevantProjects: `top_k` is a `nat`, so a negative `top_k` (Python's slice from the end) is not modelled. Every caller passes 3.
- `semantic_search`: only the query it sends (filter, `top_k`, namespace) is modelled, as `RagService.SearchQuery`. The embedding and the Pinecone call are I/O.
- `backend/app/services/latex_parser.py` is not part of this model: every field it extracts goes through pylatexenc.
- The FastAPI endpoints, `config/prompts.py`, `config/settings.py` and `setup_pinecone.py` are not part of this model. `RESUME_SECTIONS` is a parameter, and `SIMILARITY_THRESHOLD = 0.75` and `TOP_K_PROJECTS = 5` are constants.
- Two files whose stems differ only in extension (`a.pdf` and `a.docx`) share one cache key. The model keys files as the source does and does not single this case out.

## Findings

| source | as written | input that shows it | evidently intended | confidence | as-written member | corrected member |
|---|---|---|---|---|---|---|
| app.py:323, src/data_manager.py:273-274 | the dashboard joins file key and project name with `_`, and `get_selected_projects` splits at the first `_` | `ml_projects.tex` holding project `Chatbot`: key `ml_projects_Chatbot` splits into file key `ml`, and nothing is selected | every listed project can be selected back by its file key and name | high (proved; not executed) | DataManager.UnderscoredFileKeyNotSelected | DataManager.PairSelectionRoundTrip |

