# News & Insights agent — a Dafny model of its enrichment core

The repository fetches news records (dictionaries with a title, a description
and more) and enriches each one in place with three keys: `summary`,
`sentiment` (one of POSITIVE, NEGATIVE, NEUTRAL) and `sentiment_confidence`.
It has three enrichment strategies:

- **Local models** (`text_processor.py`). The text is cleaned first. A
  summarisation pipeline and a sentiment classifier then run on it. The
  classifier's `LABEL_0/1/2` answers map to the three labels. There are
  fixed fallbacks: a cleaned text that is too short is returned as it is, and
  when a pipeline raises, the summary is the raw text, cut to its first 100
  characters plus `...` when it is longer than 100 characters, and the
  sentiment is NEUTRAL at 0.5.
- **A hosted generative model** (`text_processor_gemini.py`). The text is
  cleaned the same way and sent in two prompts. An over-long summary is cut
  back to whole `". "`-separated sentences, or hard-cut to `max_length - 3`
  characters plus `...` when it has no sentence break. The label answer is
  validated. Confidence is 0.8 for POSITIVE or NEGATIVE and 0.6 for NEUTRAL.
- **A keyword heuristic.** The label is decided by counting the list words
  that occur in the lower-cased text. The summary is the description, cut to
  its first 150 characters plus `...` when it is longer than 150
  characters. The heuristic appears twice, with different word lists and
  confidences: as the hosted-model agent's fallback (`news_agent_gemini.py`)
  and as the stand-alone page (`app_simple.py`).

Two agents (`news_agent.py`, `news_agent_gemini.py`) and the stand-alone page
loop over the fetched records:
- A record is skipped when it lacks content.
- Otherwise it is processed in place and appended to the result.
- Each loop handles a failure in its own way: the local agent drops the
  record; the hosted-model agent retries with the keyword fallback; the page
  lets the exception end the whole fetch.

Each agent and the page also offer a sentiment filter and per-label counts.

How the model represents things:
- A record is a `class Article` whose `fields` map string keys to a `Value`:
  a string, `None`, or a number in hundredths, so 0.7 is `Num(70)`. The loops
  update it in place.
- Model and pipeline answers are parameters. `None` stands for a call that
  raised.
- The fetch itself is a parameter: the list of fetched records.
- Cleaning, truncation, label validation and the heuristic are functions.
- The loops are methods with loop invariants. They are proved against
  specification functions: `Select` of the kept records, and `Outcome`, which
  gives each record's dictionary once visited.

Modules:
- `wrappers.dfy`: `Option`.
- `pytext.dfy`: the Python string operations used.
- `sequences.dfy`: order-preserving selection and flag counting.
- `articles.dfy`: records, values, labels and enrichment.
- `text_rules.dfy`: cleaning and truncation.
- `clean_example.dfy`: the cleaning of the sample text in `test_app.py`, worked out step by step.
- `keywords.dfy`: the keyword majority.
- `text_processor.dfy` and `text_processor_gemini.dfy`: the two processors.
- `insights.dfy`: the agents' filter and statistics.
- `news_agent.dfy` and `news_agent_gemini.dfy`: the two agent loops.
- `app_simple.dfy`: the stand-alone page.

The two keyword heuristics are not the same code, and the model keeps
each as written:
- The hosted-model agent's fallback writes 0.7 whatever the verdict
  (`news_agent_gemini.py:104`). The stand-alone page gives 0.5 on a tie and
  0.7 otherwise (`app_simple.py:59-64`).
- The fallback's word lists are not the page's. The fallback has 10
  positive and 9 negative words; the page has 11 of each, adding
  `increase`, `decrease` and `issue`.
- The hosted-model agent's `except` branch (`news_agent_gemini.py:70-75`)
  retries a failed record with the fallback, but the fallback itself raises
  when the description is not a string (`news_agent_gemini.py:99-100`), and
  nothing catches that second exception: it ends the whole call. A failed
  record is therefore enriched only when its description is a string: see
  `NewsAgentGemini.GetNewsInsights` and
  `NewsAgentGemini.TextDescriptionsNeverAbort`.
- The page processes a record only when it has both a title and a
  description (`app_simple.py:114`). The agents skip a record only when it
  has neither.

## Model

| member | source | states |
|---|---|---|
| PyText.Lower | app_simple.py:55 | `lower()` keeps the length and lower-cases each character |
| PyText.Upper | text_processor_gemini.py:101 | `upper()` keeps the length and upper-cases each character |
| PyText.LowerIdempotent | app_simple.py:55 | lower-casing twice is lower-casing once |
| PyText.TrimLeft | text_processor_gemini.py:46 | the result is a suffix that starts with a non-space; everything dropped is whitespace |
| PyText.TrimRight | text_processor_gemini.py:46 | the result is a prefix that ends with a non-space; everything dropped is whitespace |
| PyText.Strip | text_processor.py:112 | `strip()` gives the slice of its input that follows the leading whitespace, with only whitespace before and after that slice and none at either end of it; it adds no character, and a text without outer whitespace is kept whole |
| PyText.StripTrims | text_processor.py:112 | a left trim followed by a right trim gives exactly the stripped slice |
| PyText.ShortNeverContains | app_simple.py:56-57 | a text shorter than a word cannot contain it |
| PyText.PyPrefix | text_processor_gemini.py:64 | `s[:n]` is a prefix of `s`: of length `n` when `0 <= n <= len(s)`, of length `len(s)+n` when `-len(s) <= n < 0`, empty when `n < -len(s)`, and all of `s` when `n >= len(s)` |
| PyText.Split | text_processor_gemini.py:51 | a split never yields an empty list, its first piece is a prefix of the text, and no piece contains the separator |
| PyText.JoinSplit | text_processor_gemini.py:51-62 | `sep.join(s.split(sep)) == s` |
| PyText.SplitsIffContains | text_processor_gemini.py:51-52 | a split yields more than one piece exactly when the separator occurs |
| PyText.JoinAppend | text_processor_gemini.py:62 | joining the first `k` pieces and the rest, with a separator between them, gives the whole join |
| Sequences.CountTrue | app_simple.py:155-156 | a count is at most the length, and equals it exactly when every flag is set |
| Sequences.Select | news_agent.py:44-56 | the list built by appending kept elements: as long as the number of kept flags, a subsequence, holding exactly the kept elements |
| Sequences.FirstTrue | news_agent_gemini.py:70-75 | the position of the first set flag: no flag before it is set, and the flag there is set |
| Sequences.FirstTruePast | news_agent_gemini.py:70-75 | a clear flag before the first set one moves the first set flag past it |
| Sequences.FirstTrueAt | news_agent_gemini.py:70-75 | a set flag with none before it is the first set flag |
| Sequences.CountTrueOfUnion | news_agent.py:100-105 | counts of disjoint flag lists add up to the count of their union |
| Sequences.CountTrueOfThree | news_agent.py:100-105 | three pairwise-disjoint counts sum to at most the length, and to exactly the length iff every position is flagged |
| Articles.FullText | text_processor.py:125 | the analysed text is the title, one space, then the description: exactly `title + " " + description` when both are strings (a missing key counts as `""`); a single space when both are missing or empty |
| Articles.Truthy | news_agent.py:51 | a value is falsy exactly when it is the empty string, `None` or zero |
| Articles.Lacking | news_agent.py:51 | a record lacks content iff its title and description are each missing or falsy; with neither key it always lacks content |
| Articles.Display | text_processor.py:125 | an f-string shows a string as itself, `None` as `None`, and a number with a leading `-` exactly when it is negative |
| Articles.DisplayConfidences | app_simple.py:116 | a number 0.7 or 0.5 in a title or description shows as `0.7` or `0.5` in the analysed text |
| Articles.DisplayDecimals | text_processor.py:125 | a number 1.0 or 0.05 shows as `1.0` or `0.05`: one decimal at least, two at most |
| Articles.DisplayNegative | text_processor.py:125 | a number -0.25 shows as `-0.25` |
| Articles.ParseLabel | config.py:24-28 | a text names a label exactly when it equals one of the three names |
| Articles.LabelOf | news_agent.py:103-105 | a record carries a label exactly when its `sentiment` value is one of the three names |
| Articles.Enriched | text_processor.py:133-136 | writing the three keys adds exactly them, leaves every other key's value unchanged, and stores the summary, the label and the confidence |
| Articles.Outcomes | news_agent.py:46-63 | the dictionaries a loop leaves: entry `k` is record `k`'s dictionary after the per-record outcome, one entry per record |
| TextRules.CloseIndex | text_processor.py:104 | the first `>` at or after a position, or the end |
| TextRules.StripTags | text_processor.py:104 | removing tags never lengthens the text, and a text without `<` is unchanged; what it keeps and drops is stated by the lemmas below |
| TextRules.StripTagsKeepsPlainText | text_processor.py:104 | text before the first `<` is kept as it is |
| TextRules.StripTagsDropsTag | text_processor.py:104 | a tag `<t>` with non-empty `t` and no `>` inside is removed whole |
| TextRules.StripTagsKeepsUnclosed | text_processor.py:104 | a `<` never followed by `>` is kept |
| TextRules.StripTagsKeepsFirst | text_processor.py:104 | a first character that does not open a tag (`<` followed by at least one non-`>` and then `>`) is kept |
| TextRules.EmptyTagOpening | text_processor.py:104 | the `<` of an empty tag `<>` opens no tag |
| TextRules.StripTagsKeepsEmptyTag | text_processor.py:104 | the empty tag `<>` is kept, since `[^>]+` needs at least one character |
| TextRules.StripTagsDropsClosing | text_processor.py:104 | plain text followed by a closing tag `</t>` keeps the text and drops the tag |
| TextRules.StripTagsDropsPair | text_processor.py:104 | a tag pair `<t>m</t>` after plain text is removed, and the text between the tags is kept |
| TextRules.CollapseSpaces | text_processor.py:107 | every whitespace left is a plain space, no two whitespace characters are adjacent, the result is empty iff the input is, starts with whitespace iff the input does, and keeps the input's non-whitespace characters in order (`Visible`) |
| TextRules.Visible | text_processor.py:107 | the non-whitespace characters of a text, in order, are characters of that text |
| TextRules.VisibleTrimLeft | text_processor.py:107 | dropping leading whitespace keeps the non-whitespace characters |
| TextRules.TrimLeftAppend | text_processor.py:107 | leading whitespace is found within the first part when that part ends with a non-space |
| TextRules.TrimLeftSpaces | text_processor.py:107 | a whitespace run followed by a non-space is dropped whole |
| TextRules.CollapseAppend | text_processor.py:107 | collapsing distributes over a split made right after a non-space |
| TextRules.CollapseSpaceRun | text_processor.py:107 | a whitespace run before a non-space becomes one space |
| TextRules.CollapseBetween | text_processor.py:107 | two pieces with a whitespace run between them collapse around exactly one space |
| TextRules.CollapseIdempotent | text_processor.py:107 | collapsing twice is collapsing once |
| TextRules.KeepAllowed | text_processor.py:110 | only allowed characters of the input remain, every allowed character of the input remains, and an all-allowed text is unchanged |
| TextRules.KeepAllowedAppend | text_processor.py:110 | filtering distributes over concatenation |
| TextRules.KeepAllowedOne | text_processor.py:110 | one character is kept iff it is allowed |
| TextRules.KeepAllowedSnoc | text_processor.py:110 | filtering a text is filtering all but its last character, then the last character iff allowed |
| TextRules.AllowedFlags | text_processor.py:110 | flag `k` is set iff character `k` is allowed |
| TextRules.KeepAllowedSelects | text_processor.py:110 | filtering keeps exactly the allowed characters, in order: it is the selection of the text by its allowed flags |
| TextRules.Clean | text_processor.py:98-112 | the cleaned text has only allowed characters, only plain spaces and no whitespace at either end; it is no longer than the input, and an empty input gives an empty result |
| TextRules.CollapseKeepsSingleSpaces | text_processor.py:107 | a text with only single plain spaces is its own collapse |
| TextRules.CleanFixesCleanText | text_processor_gemini.py:119-133 | cleaning an already clean text without double spaces changes nothing |
| TextRules.NoTagsInCleanText | text_processor.py:104 | a clean text has no tag to remove |
| TextRules.SpacesOfCleanText | text_processor.py:107 | in a clean text without double spaces every whitespace is a plain space and none are adjacent |
| CleanExample.Untagged | test_app.py:91-92 | removing tags from the sample text drops `<b>` and `</b>` and keeps `test` |
| CleanExample.Collapsed | test_app.py:91-92 | collapsing the untagged sample turns each run of three spaces into one |
| CleanExample.CleanOfExample | test_app.py:91-93 | `_clean_text("This is a <b>test</b> text with   extra   spaces.")` is `"This is a test text with extra spaces."` |
| TextRules.CleanedPrefix | text_processor_gemini.py:30-32 | the text sent to a model is the cleaned text cut to the limit |
| TextRules.Ellipsize | text_processor.py:57 | `text[:n] + "..."` when longer than `n`: exactly `n+3` characters, the first `n` of the text, then `...`; a text within `n` is unchanged |
| Keywords.Hits | app_simple.py:56-57 | the hit count is at most the number of words, 0 iff no word occurs, full iff every word occurs |
| Keywords.Verdict | app_simple.py:59-64 | POSITIVE iff more positive hits, NEGATIVE iff more negative hits, NEUTRAL iff a tie, on the lower-cased text |
| Keywords.VerdictIgnoresCase | news_agent_gemini.py:87 | texts equal up to case get the same verdict |
| Keywords.VerdictOfLowered | news_agent_gemini.py:87-96 | lower-casing before the verdict changes nothing |
| TextProcessor.Summarize | text_processor.py:24-57 | a short cleaned text is returned as it is; otherwise the summariser's answer, or, when it raised, the raw input, cut to its first 100 characters plus `...` (103 characters) when longer than 100 |
| TextProcessor.MapLabel | text_processor.py:80-86 | LABEL_0 is NEGATIVE, LABEL_2 is POSITIVE, and every other name is NEUTRAL |
| TextProcessor.AnalyzeSentiment | text_processor.py:59-96 | NEUTRAL/0.5 for a cleaned text under 10 characters or a failed call; otherwise POSITIVE iff LABEL_2 and NEGATIVE iff LABEL_0, with the classifier's score |
| TextProcessor.ArticleInsight | text_processor.py:124-131 | the derived insight: a short cleaned text is its own summary; NEUTRAL at 0.5 for a short text or a failed classifier; POSITIVE iff LABEL_2 and NEGATIVE iff LABEL_0 otherwise |
| TextProcessor.ProcessArticle | text_processor.py:114-138 | the record gains exactly the summary, label and confidence derived from its title and description |
| TextProcessorGemini.FittingSentencesFit | text_processor_gemini.py:54-61 | the kept sentences are a prefix of the sentences that fits the limit, and the first sentence left out would not have fitted |
| TextProcessorGemini.FittingSentences | text_processor_gemini.py:54-61 | the kept sentences are never more than the sentences; which ones and why is stated by `FittingSentencesFit` |
| TextProcessorGemini.FittingStep | text_processor_gemini.py:57-61 | one loop turn keeps the sentence iff it still fits the remaining budget, and otherwise stops |
| TextProcessorGemini.KeepWholeSentences | text_processor_gemini.py:54-61 | the loop with its running length keeps exactly the fitting leading sentences |
| TextProcessorGemini.JoinedLength | text_processor_gemini.py:57-62 | the joined sentences are two characters shorter than their accumulated cost |
| TextProcessorGemini.ShortenSummary | text_processor_gemini.py:49-64 | a summary within the limit is returned unchanged; an over-long one always ends with `.`; the lemmas below state its two cuts |
| TextProcessorGemini.CutAtSentenceBreak | text_processor_gemini.py:49-62 | an over-long summary with sentence breaks becomes its leading whole sentences plus `.`; the kept text is a prefix of the summary, at most `max_length - 1` long; when not even the first sentence fits, the result is a lone `.` |
| TextProcessorGemini.SomeSentenceLeftOut | text_processor_gemini.py:54-61 | an over-long summary never keeps all of its sentences |
| TextProcessorGemini.JoinedPrefix | text_processor_gemini.py:62 | the first `k` sentences joined with `". "` are the summary up to its `k`-th sentence break, and the summary goes on with `". "` there |
| TextProcessorGemini.HardCut | text_processor_gemini.py:63-64 | with a limit of at least 3, an over-long summary without a sentence break becomes its first `max_length - 3` characters plus `...`, exactly `max_length` long |
| TextProcessorGemini.HardCutSmallLimit | text_processor_gemini.py:63-64 | below a limit of 3 the negative slice counts from the end: an over-long summary without a sentence break keeps all but its last `3 - max_length` characters, or none, before `...` |
| TextProcessorGemini.ShortenWithinLimit | text_processor_gemini.py:49-64 | with a limit of at least 3, the post-processed summary never exceeds the limit |
| TextProcessorGemini.Summary | text_processor_gemini.py:17-70 | a short cleaned text is returned without a call; otherwise the stripped answer, post-processed, or, when the call raised, the raw input, cut to its first 100 characters plus `...` when longer than 100 |
| TextProcessorGemini.SummaryWithinDefaultLimit | text_processor_gemini.py:17 | with the default limit of 200, a summary is at most 200 characters |
| TextProcessorGemini.Summarize | text_processor_gemini.py:28-66 | the step-by-step procedure computes exactly the summary specified by `Summary` |
| TextProcessorGemini.ValidatedLabel | text_processor_gemini.py:101-105 | the stripped, upper-cased answer is the label when it names POSITIVE or NEGATIVE, and anything else is NEUTRAL |
| TextProcessorGemini.AnalyzeSentiment | text_processor_gemini.py:72-117 | confidence is 0.5, 0.6 or 0.8: 0.8 iff POSITIVE or NEGATIVE, 0.5 iff the text is too short or the call failed; POSITIVE/NEGATIVE iff the validated answer says so |
| TextProcessorGemini.ArticleInsight | text_processor_gemini.py:135-159 | the derived insight: the summary is at most 200 characters, confidence 0.8 iff POSITIVE or NEGATIVE, and NEUTRAL at 0.5 for a short text or a failed call |
| TextProcessorGemini.ProcessArticle | text_processor_gemini.py:135-159 | the record gains exactly the summary (limit 200), label and confidence derived from its title and description |
| Insights.SentimentFlags | news_agent.py:87-88 | flag `k` is set iff record `k`'s sentiment is exactly the wanted text |
| Insights.MatchingSentiment | news_agent.py:87-88 | the filtered list is a subsequence holding exactly the records whose sentiment equals the wanted text, as many as the flags say |
| Insights.FilterBySentiment | news_agent.py:72-88 | a missing or empty filter returns the list itself; otherwise a subsequence holding exactly the records whose sentiment equals the filter, as many as the matching flags |
| Insights.CountedSentiment | news_agent.py:103 | the sentiment a record is counted under: its `sentiment` value, or `"NEUTRAL"` when the key is missing |
| Insights.TallyFlags | news_agent.py:103-105 | flag `k` is set iff record `k`'s sentiment, NEUTRAL when missing, is the wanted label |
| Insights.SentimentStats | news_agent.py:90-107 | the statistics have exactly the three label keys, each holding how many records count under that label |
| Insights.CountArticle | news_agent.py:103-105 | counting one more record keeps the three counters equal to the tallies |
| Insights.TallyStep | news_agent.py:102-105 | one more record adds one to its own label's tally and nothing to the others |
| Insights.StatsAccountForRecognised | news_agent.py:100-107 | the three counts sum to at most the number of records, and to exactly that number iff every record's sentiment is one of the labels |
| Insights.FilterAgreesWithStats | news_agent.py:84-107 | filtering by POSITIVE or NEGATIVE yields as many records as the statistics count; NEUTRAL matches plus records without a sentiment equal the NEUTRAL count |
| Insights.MissingSentiment | news_agent.py:103 | flag `k` is set iff record `k` has no `sentiment` key |
| NewsAgent.KeepFlags | news_agent.py:51-56 | a record is kept iff it has a title or a description and its processing did not raise |
| NewsAgent.Outcome | news_agent.py:51-63 | a kept record gains a label and loses no key; any other record is unchanged |
| NewsAgent.GetNewsInsights | news_agent.py:13-66 | the result is the kept records in fetch order; every record holds its outcome; a record is in the result iff kept; every result record is labelled |
| NewsAgent.VisitRecord | news_agent.py:46-63 | one turn of the loop extends the processed prefix and settles one more record |
| NewsAgent.ProcessRecord | news_agent.py:47-63 | a record is processed and kept iff it has content and did not raise, and its dictionary becomes its outcome |
| NewsAgent.KeptAreLabelled | news_agent.py:46-66 | once all records are settled, membership in the result is exactly the keep flag and every result record carries a label |
| NewsAgent.ContentFlags | news_agent.py:51 | flag `k` is set iff record `k` has a title or a description |
| NewsAgent.NoFailureKeepsAllWithContent | news_agent.py:46-63 | when no processing raises, the result is exactly the records with a title or a description, in fetch order, and as many as they |
| NewsAgentGemini.SimpleInsight | news_agent_gemini.py:80-106 | the fallback succeeds iff the description is text (a missing one counts as `""`); its label is the keyword verdict on title, space, description; confidence 0.7; the summary is the description when at most 150 characters, else its first 150 characters followed by `...` |
| NewsAgentGemini.SimpleProcessArticle | news_agent_gemini.py:80-106 | the fallback raises iff the description is not text, leaving the record unchanged; otherwise it writes exactly the three keys |
| NewsAgentGemini.RouteOf | news_agent_gemini.py:50-75 | skip iff no content; the model route iff a client exists and did not raise; abort iff the fallback is needed and the description is not text |
| NewsAgentGemini.Outcome | news_agent_gemini.py:55-75 | the model and fallback routes add a label and lose no key; skip and abort leave the record unchanged |
| NewsAgentGemini.Routes | news_agent_gemini.py:50 | one route per record |
| NewsAgentGemini.RouteAt | news_agent_gemini.py:50-75 | entry `k` of the routes is record `k`'s route |
| NewsAgentGemini.AbortFlags | news_agent_gemini.py:70-75 | flag `k` is set iff record `k` aborts the call |
| NewsAgentGemini.KeepFlags | news_agent_gemini.py:60-74 | flag `k` is set iff record `k` is appended (model or fallback route) |
| NewsAgentGemini.KeptRecordsAreLabelled | news_agent_gemini.py:59-75 | every appended record carries a label once visited |
| NewsAgentGemini.GetNewsInsights | news_agent_gemini.py:17-78 | the call raises iff some record aborts; records before the first abort hold their outcome and the rest are untouched; otherwise the result is the appended records in fetch order |
| NewsAgentGemini.VisitRecord | news_agent_gemini.py:50-75 | one turn of the loop aborts iff the record's route aborts, and otherwise extends the result and settles the record |
| NewsAgentGemini.ProcessRecord | news_agent_gemini.py:51-75 | the try/except body for one record: aborts iff the route aborts, appends iff model or fallback, and leaves the record holding its outcome |
| NewsAgentGemini.TextDescriptionsNeverAbort | news_agent_gemini.py:50-78 | when every description is text, the call never raises and keeps exactly the records with content |
| NewsAgentGemini.NoProcessorMeansFallback | news_agent_gemini.py:59-63 | without a client, every record with content and a text description takes the fallback: confidence 0.7 and the keyword verdict as label |
| AppSimple.SimpleSentimentAnalysis | app_simple.py:50-64 | POSITIVE iff more positive hits, NEGATIVE iff more negative hits; confidence 0.5 iff a tie, else 0.7 |
| AppSimple.Eligible | app_simple.py:114 | a record is processed only when it has both a title and a description, so it never lacks content |
| AppSimple.Raises | app_simple.py:120 | processing raises only for a non-zero numeric description, which `simple_summarize` cannot measure |
| AppSimple.Outcome | app_simple.py:114-126 | a record with title and description that does not raise gains exactly the three keys: the description, cut to its first 150 characters plus `...` when longer than 150 characters, the keyword verdict on title, space, description, and 0.5 for NEUTRAL or else 0.7; every other key keeps its value; any other record is unchanged |
| AppSimple.Outcomes | app_simple.py:112-126 | one outcome per record, entry `k` being record `k`'s outcome |
| AppSimple.RaiseFlags | app_simple.py:114-120 | flag `k` is set iff record `k` has a title and a numeric description |
| AppSimple.KeepFlags | app_simple.py:114 | flag `k` is set iff record `k` has both a title and a description |
| AppSimple.ProcessFetched | app_simple.py:111-128 | the fetch raises iff some processed record has a numeric description; records before the first such record hold their outcome and the rest are untouched; otherwise the result is the records with title and description, in order |
| AppSimple.VisitRecord | app_simple.py:113-126 | one turn raises iff the record raises, and otherwise extends the result and settles the record |
| AppSimple.ProcessRecord | app_simple.py:114-126 | the loop body raises iff the record raises, appends iff it has title and description and does not raise, and leaves the record holding its outcome |
| AppSimple.ProcessedAreLabelled | app_simple.py:112-126 | when the loop finishes, every processed record carries a label |
| AppSimple.Count | app_simple.py:154-167 | a per-label count never exceeds the number of records |
| AppSimple.Filter | app_simple.py:138-142 | "All" shows the whole list; any other choice a subsequence with exactly the records of that sentiment, as many as that label's count |
| AppSimple.CountsAddUp | app_simple.py:151-167 | the three counts sum to at most the total, and to exactly the total iff every record carries a label |
| AppSimple.LabelledIffNamed | app_simple.py:154-167 | a record carries a label iff its sentiment is one of the three names |

## Left out

- Fetching (`news_fetcher.py`), printing, `time.sleep`, the Streamlit UI and the prompt texts are not modelled. The fetched records and every model answer are parameters.
- The summarisation pipeline, the classifier and the generative model are not modelled. Their answers are `Option` parameters, and `None` means the call raised.
- `round(score, 2)` in `text_processor.py:91` is not modelled: scores are given already in hundredths, because floating point is not modelled.
- A `Value` is a string, `None` or a number. Nested dictionaries and lists, such as the fetched `source` dictionary, are not represented: a record whose keys hold them is modelled without those keys. No core function reads them, and `process_article` and the loops never change them.
- `Articles.Display`: a `Num` stands for a Python float, so a whole number shows as `5.0`. An `int` value, which an f-string shows as `5`, is not represented.
- `\w` and case mapping cover ASCII only. Python's Unicode word characters and case folding are not modelled. Whitespace is Python's full `isspace` set.
- The fetched records must be distinct objects (`Distinct`). A fetch returns fresh dictionaries, so the aliasing of one dictionary listed twice is not modelled.
- `NewsAgent.GetNewsInsights`: a processing call that raises is modelled as raising before it writes anything. A failure part-way through `process_article` is not modelled, because the local processor catches every failure of its pipelines itself.
- `NewsAgentGemini.GetNewsInsights`: the same holds for the hosted-model processor's `process_article`.
- `NewsAgentGemini.Outcome`, `NewsAgent.Outcome`: these state the label and the keys only. The full dictionary is stated by `Articles.Enriched` together with `ProcessArticle`'s contract.
- `TextRules.StripTags`: its own contract states only the length bound and the plain-text case. What it keeps and drops is stated by `StripTagsKeepsPlainText`, `StripTagsDropsTag`, `StripTagsKeepsUnclosed`, `StripTagsDropsPair` and `StripTagsKeepsEmptyTag`.
- `TextProcessorGemini.FittingSentences`: its own contract states only the length bound. Which sentences it keeps is stated by `FittingSentencesFit` and `FittingStep`.
- `TextProcessorGemini.ShortenSummary`: its own contract states the unchanged case and the final `.`. The two cuts are stated by `CutAtSentenceBreak` and `HardCut`, and the length bound by `ShortenWithinLimit`.
- `AppSimple.Count`: its own contract states only the bound. How the counts relate to each other and to the filter is stated by `AppSimple.CountsAddUp` and `AppSimple.Filter`.
- `app_simple.py` outside the fetch loop, filter and counts (charts, tables, layout) is not modelled.
- `app.py`, `app_gemini.py` and `setup.py` are not part of this model. Of `test_app.py`, only the cleaning example (`test_app.py:91-93`) is; its other checks import packages and call services.
