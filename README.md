# LinkedIn job scraper and reporter — a verified model

This project models the extraction and aggregation core of a LinkedIn job
scraper written in Python. The model has two front ends.

- **The single-posting scraper** (`job_page_scraper.py`). It classifies a job
  URL as a search page or a view page, which selects one of two selector
  catalogs. For each field it tries the field's CSS selectors in order and
  keeps the first element whose stripped text (or innerHTML) is non-empty.
  It gathers the job-criteria list and scans the insight spans for a job type
  and a seniority level. It refuses to build a record without a title, picks
  the first criterion that mentions a salary marker, and derives the JSON
  file name from the title's safe characters.
- **The search-results reporter** (`linkedin_job_reporter_ui.py`). It reads
  up to `max_jobs` job cards into flat listings. For each card it resolves the
  title (with the job link), the company, the location, the posting time and
  a description snippet. The company and location checks refuse text that
  looks like a job title or a posting age, and a field that is never found
  gets its "… not found" sentinel. It then folds the listings into
  `collections.Counter` tables: companies, locations, posting times and title
  keywords. Each table is reported as its ten most common entries, with equal
  counts kept in first-seen order, alongside the number of distinct companies
  and locations.

The browser is abstracted as a **document**: a map from CSS selector to the
elements it matches, in document order. A wait that times out, a
`find_element` that raises, and a selector that matches nothing all read as
no elements. `find_element` and a satisfied wait both return the first match.
A job card is a document of its own (its scope). Text operations follow
Python's `str` semantics on ASCII: `strip`, `lower`, `split`/`join`, `in`
and `isalnum`. Clock readings (`datetime.now()`) are parameters.

Modules:

| file | module | contents |
|---|---|---|
| `wrappers.dfy` | `Wrappers` | `Option` |
| `sequences.dfy` | `Sequences` | subsequences (order-preserving selection) |
| `text.dfy` | `Text` | `strip`, `lower`, `' '.join(s.split())`, substring test |
| `page.dfy` | `Page` | elements, documents, job cards |
| `classify.dfy` | `Classify` | keyword tables; salary, company and location checks |
| `resolve.dfy` | `Resolve` | the generic first-match field resolver and its loops |
| `scraper.dfy` | `Scraper` | page type, catalogs, class `JobScraper`, extras, `run`, file name |
| `counter.dfy` | `Counting` | `Counter` with insertion order, tallies, stable `most_common` |
| `reporter.dfy` | `Reporter` | card extraction, `extract_job_listings`, `analyze_job_data` |

Two behaviours of the code are easy to overlook:

- `_detect_page_type` never answers "unknown". A URL that is neither a search
  URL nor a view URL is classified as a search page.
- The title-keyword vocabulary of `analyze_job_data` includes "engineer" and
  "analyst". The titles "Senior ML Engineer", "ML Engineer" and "Junior Data
  Analyst" therefore count engineer 2, senior 1, analyst 1 and junior 1.

`Scraper.SelectorsFor` carries no contract of its own; the catalog it picks for
each page type is stated on `Scraper.JobScraper.constructor`.
`Scraper.CatalogsCoverRecordFields` checks that both constant catalogs list a
selector for every field the record extractor reads.

## Model

| member | source | states |
|---|---|---|
| Text.StripSpec | job_page_scraper.py:151 | `strip()` is empty exactly when the text is all whitespace; otherwise it neither starts nor ends with whitespace; it is a contiguous slice of the text, and nothing but the leading and trailing whitespace is dropped |
| Text.CollapseSpec | linkedin_job_reporter_ui.py:266-267 | `' '.join(text.strip().split())` is empty exactly when the text is all whitespace, starts with a non-space, and has only single spaces between words; it keeps the text's words in order, one space wherever the text had a whitespace run between two of them |
| Text.CollapseIsSpaceRuns | linkedin_job_reporter_ui.py:266-267 | `' '.join(text.strip().split())` equals the text with every whitespace run replaced by one space and the ends stripped |
| Text.ContainsSpec | linkedin_job_reporter_ui.py:462 | `pat in s` holds exactly when `pat` occurs at some position of `s` |
| Text.LowerSpec | linkedin_job_reporter_ui.py:457 | `lower()` maps each character to its lower case, position by position |
| Classify.SalaryOf | job_page_scraper.py:357-362 | the salary is one of the criteria, and one that mentions a salary marker |
| Classify.SalaryIsFirstMention | job_page_scraper.py:357-362 | the salary is the first criterion mentioning a marker; it is absent exactly when none does |
| Classify.CompanyRefusesTitle | linkedin_job_reporter_ui.py:310-314 | "Senior Engineer Team" fails the company-name check |
| Classify.CompanyAcceptsName | linkedin_job_reporter_ui.py:310-314 | "Acme Corp" passes the company-name check |
| Classify.LocationRefusesAge | linkedin_job_reporter_ui.py:340-342 | "3 days ago" fails the location check |
| Classify.LocationAcceptsPlace | linkedin_job_reporter_ui.py:340-342 | "Bengaluru, India" passes the location check |
| Resolve.Ellipsized | linkedin_job_reporter_ui.py:377 | a snippet is at most 203 characters: the text's first 200 characters (or all of it) followed by "..." |
| Resolve.FirstProbe | job_page_scraper.py:142-162 | a resolved value comes from one of the field's selectors, passes the field's acceptance check, and is what that selector yields |
| Resolve.FirstProbeIsFirstHit | job_page_scraper.py:142-162 | the value is that of the first selector whose element is present and acceptable; every earlier selector missed; nothing is found exactly when every selector misses |
| Resolve.SkipsEmptyElement | job_page_scraper.py:150-153 | with `.a` present but empty and `.b` reading "Acme", the resolver answers "Acme" from `.b` |
| Resolve.ResolveFirst | job_page_scraper.py:148-162 | the fallback loop returns exactly the first-hit answer |
| Resolve.NonEmptyTexts | job_page_scraper.py:196 | the kept texts are non-empty, and none are kept exactly when every element's text strips to nothing |
| Resolve.NonEmptyTextsOfOne | job_page_scraper.py:196 | one element contributes its stripped text exactly when that text is non-empty |
| Resolve.NonEmptyTextsAppend | job_page_scraper.py:196 | the texts of two runs of elements are those of the first run followed by those of the second, so every element's contribution is kept in element order |
| Resolve.FirstTextsIsFirstHit | job_page_scraper.py:186-205 | the texts all come from the first selector that yields any non-empty text; the list is empty exactly when no selector yields any |
| Resolve.ResolveAll | job_page_scraper.py:192-205 | the multi-element loop returns the first selector's non-empty texts, never mixing two selectors |
| Scraper.DetectPageType | job_page_scraper.py:130-140 | a URL containing "/jobs/search/" is a search page; a URL is a view page exactly when it lacks "/jobs/search/" and contains "/jobs/view/" |
| Scraper.CatalogsCoverRecordFields | job_page_scraper.py:25-105 | both catalogs list at least one selector for every field the record extractor reads |
| Scraper.JobScraper.constructor | job_page_scraper.py:111-116 | the scraper's page type is the URL's, and its catalog is the search catalog unless the page is a view page |
| Scraper.JobScraper.GetElementTextWithFallbacks | job_page_scraper.py:142-162 | the first non-empty stripped text among the key's selectors; when present it is non-empty and has no surrounding whitespace |
| Scraper.JobScraper.GetElementHtmlWithFallbacks | job_page_scraper.py:164-184 | the same for the stripped innerHTML |
| Scraper.JobScraper.GetMultipleElementsText | job_page_scraper.py:186-205 | the non-empty texts of the first of the key's selectors that has any |
| Scraper.FirstMentionIsFirst | job_page_scraper.py:273-277 | the job-type scan keeps the first element mentioning a keyword and finds nothing exactly when none does |
| Scraper.LastMentionIsLast | job_page_scraper.py:288-293 | the seniority scan keeps the last element mentioning a keyword, because its `break` leaves only the keyword loop, and finds nothing exactly when none does |
| Scraper.LastMentionAppend | job_page_scraper.py:288-293 | scanning one more element replaces the answer exactly when that element mentions a keyword |
| Scraper.JobTypeIsFirstMention | job_page_scraper.py:264-281 | the job type is the first mention over the selectors in order, with earlier selectors' elements mentioning nothing |
| Scraper.SeniorityIsLastMentionOfFirstSelector | job_page_scraper.py:283-297 | the seniority is the last mention within the first selector that has any mention; earlier selectors have none |
| Scraper.JobScraper.FindPostedDate | job_page_scraper.py:250-262 | the posting date is the stripped text of the first date selector that matches, even when empty |
| Scraper.JobScraper.FindJobType | job_page_scraper.py:264-281 | the nested job-type loops compute the job-type scan |
| Scraper.JobScraper.FindSeniority | job_page_scraper.py:283-297 | the triply nested seniority loops compute the seniority scan |
| Scraper.JobScraper.ExtractAdditionalInfo | job_page_scraper.py:245-299 | the extras are the posting date, the job type and the seniority as specified above |
| Scraper.JobScraper.Run | job_page_scraper.py:336-381 | there is no record exactly when the title cannot be resolved; otherwise every record field is its resolver's answer, and the salary is the first criterion that mentions a marker |
| Scraper.KeepSafe | job_page_scraper.py:389 | the kept characters are all alphanumeric, space, '-' or '_', in the title's order, and every such character of the title is kept |
| Scraper.SafeTitle | job_page_scraper.py:389 | the safe title uses only safe characters, is a subsequence of the title, does not end with a space, and is the kept characters minus trailing spaces only |
| Scraper.SaveFileName | job_page_scraper.py:383-390 | nothing is saved exactly when there is no record or its title is empty; otherwise the file is `job_<safe title>_<stamp>.json` |
| Counting.TallyCounts | linkedin_job_reporter_ui.py:426-430 | a tally counts each key once per occurrence, and holds exactly the keys that occur |
| Counting.TallyKeys | linkedin_job_reporter_ui.py:426-430 | a tally's keys are distinct, are exactly the keys that occur, and are in first-occurrence order |
| Counting.TallySize | linkedin_job_reporter_ui.py:433 | `len(counter)` is the number of distinct keys counted |
| Counting.TallyAppend | linkedin_job_reporter_ui.py:430 | counting one more key is one more increment |
| Counting.Sort | linkedin_job_reporter_ui.py:432 | the ranking is a permutation of the indices it sorts |
| Counting.SortRanked | linkedin_job_reporter_ui.py:432 | the ranking is by descending count, equal counts in insertion order (a stable sort) |
| Counting.InsertRanked | linkedin_job_reporter_ui.py:432 | inserting into a ranked list keeps it ranked |
| Counting.RankingIsRanked | linkedin_job_reporter_ui.py:432 | every key's index appears in the ranking, and the ranking is stable |
| Counting.MostCommon | linkedin_job_reporter_ui.py:432 | `most_common(n)` has `n` entries, or all keys when there are fewer |
| Counting.MostCommonCounts | linkedin_job_reporter_ui.py:432 | each entry is a counted key with its count |
| Counting.MostCommonOrdered | linkedin_job_reporter_ui.py:432 | entries are by descending count, equal counts in insertion order |
| Counting.MostCommonIsTop | linkedin_job_reporter_ui.py:432 | every key left out ranks after every key listed |
| Counting.MostCommonOfTallyEntries | linkedin_job_reporter_ui.py:432-433 | on a tally, `most_common(n)` holds `min(n, distinct keys)` entries, each a key with its number of occurrences |
| Counting.MostCommonOfTallyOrdered | linkedin_job_reporter_ui.py:432 | on a tally, equal counts come out in order of first occurrence in the stream |
| Counting.MostCommonOfTallyIsTop | linkedin_job_reporter_ui.py:432 | on a tally, a key left out has at most the count of every listed key, and comes later on a tie |
| Counting.RankingOfThree | linkedin_job_reporter_ui.py:432 | three distinct keys counted 3, 2 and 1 times rank in that order |
| Counting.SampleRanking | linkedin_job_reporter_ui.py:426-432 | companies [A, B, A, C, B, A] come out as [(A, 3), (B, 2), (C, 1)] |
| Reporter.FirstCardsIsFirstHit | linkedin_job_reporter_ui.py:232-244 | the cards come from the first card selector that matches any; there are none exactly when no selector matches |
| Reporter.FindJobCards | linkedin_job_reporter_ui.py:232-240 | the card-selector loop returns the cards of the first selector that matches any |
| Reporter.LinkFor | linkedin_job_reporter_ui.py:272-284 | the job link is the title element's `href` when it is an anchor, else the `href` of the first anchor inside it, else that of the card's job-view anchor, else none |
| Reporter.TitleOfCard | linkedin_job_reporter_ui.py:263-290 | a card's title is the single-spaced text of the first title selector that yields any, earlier selectors all missing, or else the sentinel with no link; it is never empty, and a link is present only when a title was found |
| Reporter.CompanyOfCard | linkedin_job_reporter_ui.py:304-321 | a card's company is the first candidate that passes the company-name check, earlier selectors all failing, or else the sentinel when every selector fails |
| Reporter.LocationOfCard | linkedin_job_reporter_ui.py:334-349 | a card's location is the first candidate that passes the location check, earlier selectors all failing, or else the sentinel when every selector fails |
| Reporter.SnippetsOfCard | linkedin_job_reporter_ui.py:359-380 | the description is absent exactly when no snippet selector matches, otherwise at most 203 characters ending in "..."; the posting time is absent exactly when no time selector matches |
| Reporter.SliceLength | linkedin_job_reporter_ui.py:248 | `len(cards[:max_jobs])`: `max_jobs` capped at the number of cards, or for a negative `max_jobs` that many cards fewer than there are, never below zero |
| Reporter.ExtractCard | linkedin_job_reporter_ui.py:249-385 | the per-card loops build exactly the card's listing |
| Reporter.ExtractJobListings | linkedin_job_reporter_ui.py:201-395 | one listing per card of the first matching card selector, in card order, for the first `max_jobs` cards under Python slice semantics, and never more than a non-negative `max_jobs` |
| Reporter.KeyOf | linkedin_job_reporter_ui.py:427-449 | a listing feeds a counter its field's value, "Unknown" when the key is missing, and nothing when the value is the field's excluded value (the not-found sentinel, or an empty posting time) |
| Reporter.Keys | linkedin_job_reporter_ui.py:427-449 | a counter is fed at most one key per listing, never the excluded value |
| Reporter.JobsWith | linkedin_job_reporter_ui.py:427-449 | the number of listings with a value is at most the number of listings |
| Reporter.KeysCountJobs | linkedin_job_reporter_ui.py:427-430 | a counter counts each value once per listing that has it |
| Reporter.KeysAreJobValues | linkedin_job_reporter_ui.py:427-430 | the keys counted are exactly the listings' values other than the excluded one ("Unknown" when the key is missing) |
| Reporter.UniqueCount | linkedin_job_reporter_ui.py:432-443 | the unique company and location counts are the number of distinct non-sentinel values among the listings |
| Reporter.VocabularyDistinct | linkedin_job_reporter_ui.py:460 | the title vocabulary lists each keyword once |
| Reporter.KeywordsIn | linkedin_job_reporter_ui.py:461-463 | the keywords found are vocabulary words contained in the title, in vocabulary order |
| Reporter.TitlesWith | linkedin_job_reporter_ui.py:456-463 | the number of scanned titles containing a keyword is at most the number of listings |
| Reporter.KeywordsInOnce | linkedin_job_reporter_ui.py:461-463 | a title yields each vocabulary keyword it contains exactly once |
| Reporter.KeywordCounts | linkedin_job_reporter_ui.py:455-463 | a keyword's count is the number of scanned titles containing it, empty and sentinel titles excluded; words outside the vocabulary are never counted |
| Reporter.KeysStep | linkedin_job_reporter_ui.py:428-430 | one more listing adds its key, if any, to the field's counter |
| Reporter.KeywordStreamStep | linkedin_job_reporter_ui.py:457-463 | one more listing adds its title's keywords, and nothing when its title is not scanned |
| Reporter.CountField | linkedin_job_reporter_ui.py:426-450 | each field's counting loop builds the tally of that field's keys |
| Reporter.ScanTitle | linkedin_job_reporter_ui.py:461-463 | the inner keyword loop adds exactly the title's keywords, in vocabulary order |
| Reporter.CountKeywords | linkedin_job_reporter_ui.py:455-463 | the keyword loops build the tally of the keyword stream |
| Reporter.AnalyzeJobData | linkedin_job_reporter_ui.py:401-467 | the result is empty exactly when there are no listings; otherwise it holds the listing count, the time of analysis and the four top-ten lists and two distinct counts of the analysis |
| Reporter.FieldTableEntries | linkedin_job_reporter_ui.py:425-452 | each field's top-ten list holds at most ten entries, each a non-excluded value with the number of listings that have it |
| Reporter.FieldTableOrdered | linkedin_job_reporter_ui.py:432-452 | each field's top-ten list is by descending count, ties in order of first appearance among the listings |
| Reporter.FieldTableIsTop | linkedin_job_reporter_ui.py:432-452 | a value left out of a top-ten list has at most the count of every listed value, and comes later on a tie |
| Reporter.KeywordTable | linkedin_job_reporter_ui.py:454-465 | each keyword entry is a vocabulary word whose count is the number of scanned titles containing it, at most the number of listings, ranked by descending count with first-seen ties |

## Left out

- Browser I/O is not modelled: driver start-up, navigation, explicit waits and their timeouts (10 seconds in the reporter, 15 in the single-posting scraper), scrolling, clicking the "show more" button, waiting for the search details pane, the debug dump of a card, and closing the driver. The rendered document is an input.
- Printing, and writing the JSON file, are left out; only the file name is modelled. Reading the clock is a parameter (`now`, `stamp`).
- `Reporter.ExtractJobListings`: every card is given the same extraction time, where the source reads the clock once per card.
- `Reporter.JobListing`: a `job_link` key set to `None` and a missing `job_link` key are both `None`.
- `Page.Element`: an `innerHTML` attribute that reads as `None` is modelled as the empty string. The source treats both the same way.
- Exceptions other than a missing element (a stale element, a failing driver) are not modelled. Neither are the outer `except` blocks that drop a card or return no listings.
- The `isinstance(selectors, str)` branch is left out. Every catalog entry is a list, so that branch is never taken.
- `Scraper.AdditionalInfo`: an extra the scan does not find is absent from the source's record (it is merged in with `**additional_info`); the model stores it as `None`, so a missing key and a `null` value are not told apart.
- Text semantics cover ASCII only: `strip`, `split`, `lower` and `isalnum` are not modelled on other Unicode characters.
- The HTML, JSON and text report generators, the Streamlit UI, the job-search automation and the summary script are not part of this model.
