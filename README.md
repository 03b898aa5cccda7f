# bizreach_scrape, modelled in Dafny

bizreach_scrape is a command-line tool. It opens a Chrome session, visits a
list of candidate pages on the BizReach recruiting site and extracts one
record per candidate: name, age, career history, skills, education, URL and
time of scraping. It writes the records to CSV (one flat row per candidate)
and to JSON. This project models the data-shaping core of that tool and
proves what the code promises about it. The browser, the clock and the file
system are treated as inputs.

Files:

- `wrappers.dfy`: `Option` and `Result`.
- `candidate.dfy` (module `Candidate`): the record `scrape_candidate_page`
  builds, over an abstract page.
  - The page says whether navigation succeeded and what each lookup returns.
  - A lookup can fail. So can each sub-lookup of a career, skill or
    education container.
  - A record is a Python dict: a field is `Some` exactly when its key is
    present.
- `pacing.dfy` (module `Pacing`): the pause `min + (i mod (max - min + 1))`
  between two URLs.
  - It uses Python's floor modulo.
  - It can raise `ZeroDivisionError` when `max == min - 1`.
  - `time.sleep` can refuse the length. It raises `OverflowError` when the
    length in nanoseconds does not fit a signed 64-bit integer, that is at
    9223372037 seconds or more in either direction. It raises `ValueError`
    for any other negative length.
  - Also here: the log of `time.sleep` calls, and how many URLs a run gets
    through before a pause raises.
- `flatten.dfy` (module `Flatten`): the per-candidate body of
  `save_data_to_csv`, which projects a nested record onto a flat column map.
- `scraper.dfy` (module `Scraper`): the class `BizreachScraper`.
  - Fields: `driver`, `candidateData`, and two ghost logs of `time.sleep`
    and `quit()` calls.
  - Methods: scraping one page, the batch run, the flattening loop and
    closing the browser.
- `utils.dfy` (modules `Utils` and `UtilsExamples`): `load_url_list` over
  abstract file contents, `validate_url` and `create_output_filename`.
  `UtilsExamples` states the cases the utility tests exercise.

Two behaviours of the code are worth stating up front:

- A pause that raises ends `scrape_multiple_candidates` early. The records
  scraped so far stay in `candidate_data`, and the exception propagates.
  `ScrapeMultipleCandidates` returns that outcome as `Failure`. With
  `0 <= min <= max < 9223372037`, every URL yields a record
  (`CompletedWhenRangeValid`).
- `load_url_list` returns any JSON list unchanged, and whatever value the
  `urls` key holds, strings or not. `LoadUrlList` does the same.

## Model

| member | source | states |
|---|---|---|
| Candidate.CollectAll | src/bizreach_scraper.py:134-143 | the loop over the containers equals `Collected`: one entry per container in order, or nothing once a sub-lookup raises |
| Candidate.ExtractList | src/bizreach_scraper.py:130-147 | one try block over a list field gives `ListField`: `[]` when `find_elements` raises or any element fails |
| Candidate.CollectedAllOrNothing | src/bizreach_scraper.py:130-147 | the collection succeeds iff every element's extraction does; it then holds exactly one value per element, in order |
| Candidate.CollectedPrefixFails | src/bizreach_scraper.py:134-147 | a failure within a prefix makes the whole collection fail |
| Candidate.NavigationFailureRecord | src/bizreach_scraper.py:106-107 | when there is no driver or `driver.get` raises, the record has exactly the keys url, error and scraped_at, with the exception message as error |
| Candidate.LoadedRecordKeys | src/bizreach_scraper.py:113-183 | a page that loads yields exactly name, age, career_history, skills, education, url and scraped_at, and no error |
| Candidate.RecordAlwaysStamped | src/bizreach_scraper.py:178-186 | every record, failed or not, carries its URL and its timestamp |
| Candidate.ScalarFallbacksAreIsolated | src/bizreach_scraper.py:115-127 | a failed name lookup gives "取得できませんでした" and a failed age lookup gives "不明"; every other field stays the same |
| Candidate.CareerHistoryAllOrNothing | src/bizreach_scraper.py:129-147 | career_history has one entry per container in document order when every sub-lookup succeeds, else `[]` |
| Candidate.SkillsAllOrNothing | src/bizreach_scraper.py:149-155 | skills is the text of every skill element in order, or `[]` when any read fails |
| Candidate.EducationAllOrNothing | src/bizreach_scraper.py:157-175 | education has one entry per container in order when every sub-lookup succeeds, else `[]` |
| Pacing.PyModIsRemainder | src/bizreach_scraper.py:209 | Python's `%` gives the remainder with the divisor's sign: in [0, b) for b > 0, in (b, 0] for b < 0, and a == b * (a // b) + a % b with `//` rounding toward minus infinity |
| Pacing.PauseWithinRange | src/bizreach_scraper.py:209 | for 0 <= min <= max < 9223372037 the pause after URL i never raises, equals min + i mod (max - min + 1), and lies in [min, max] |
| Pacing.FirstFailure | src/bizreach_scraper.py:202-210 | the first position whose pause raises lies in [i, n]; every pause before it succeeds, and the pause at it fails when it is below n |
| Pacing.CompletedIsFirstFailure | src/bizreach_scraper.py:202-210 | the number of URLs a run scrapes is the first 1-based position whose pause raises, or n when none does |
| Pacing.CompletedStopsAt | src/bizreach_scraper.py:208-210 | a run stops at the first pause that raises |
| Pacing.CompletedPassesSuccess | src/bizreach_scraper.py:208-210 | a pause that succeeds lets the run continue past it |
| Pacing.CompletedWhenRangeValid | src/bizreach_scraper.py:202-210 | with 0 <= min <= max < 9223372037 a run scrapes every URL |
| Pacing.CompletedWhenSleepOverflows | src/bizreach_scraper.py:209-210 | with 9223372037 <= min <= max every pause is 9223372037 seconds or more, so the first `time.sleep` raises OverflowError and a run of two or more URLs stops after the first |
| Pacing.CompletedWhenSpanIsZero | src/bizreach_scraper.py:209 | with max == min - 1 a run of two or more URLs stops after the first (division by zero) |
| Pacing.PacingSecondsAppend | src/bizreach_scraper.py:210 | the pacing delays of two consecutive stretches of sleeps are those of the first followed by those of the second |
| Pacing.PacingSecondsOfOne | src/bizreach_scraper.py:110 | a settle sleep adds no pacing delay; a pacing sleep adds its own length |
| Flatten.JoinLength | src/bizreach_scraper.py:244 | the length of the joined text is the skills' total length plus one separator per adjacent pair |
| Flatten.JoinPlacesParts | src/bizreach_scraper.py:244 | skill i sits in the joined text after the skills before it and one separator per skill before it, and a ", " follows it unless it is the last; with JoinLength this fixes the whole text |
| Flatten.JoinOffsetShift | src/bizreach_scraper.py:244 | the offset of skill i is that of skill i - 1 among the skills after the first, shifted by the first skill and one separator |
| Flatten.PlacedAfterPrefix | src/bizreach_scraper.py:244 | a part found at offset o of a text is found at offset o plus the length of a once a is put in front |
| Flatten.JoinSnoc | src/bizreach_scraper.py:244 | appending a skill appends ", " and the skill to the joined text |
| Flatten.NumberedKeyShape | src/bizreach_scraper.py:239-241 | company_k, period_k and position_k differ in length and end in the digit k |
| Flatten.NumberedKeysDistinct | src/bizreach_scraper.py:238-241 | the numbered career column names are pairwise distinct |
| Flatten.CareerKeysMembers | src/bizreach_scraper.py:238-241 | after k iterations exactly the numbered columns 1..k have been written |
| Flatten.CareerKeysInitial | src/bizreach_scraper.py:239-241 | every numbered career column name starts with "c" or "p", so none collides with a scalar column |
| Flatten.CareerColumnsKeys | src/bizreach_scraper.py:238-241 | the career loop adds exactly the numbered column names to the row's keys and leaves every other column as it was |
| Flatten.CareerColumnsValues | src/bizreach_scraper.py:238-241 | column company_j / period_j / position_j holds career entry j - 1 |
| Flatten.FlatRowKeys | src/bizreach_scraper.py:228-253 | a row's columns are the four scalars, skills, the numbered triples for min(3, n) career entries, and school/edu_period/degree iff education is non-empty |
| Flatten.NumberedKeysUnnamed | src/bizreach_scraper.py:228-251 | no numbered career column shares its name with a scalar, the skills column or an education column |
| Flatten.FlatRowOtherColumns | src/bizreach_scraper.py:228-251 | the skills and education writes leave every other column as the scalar and career writes left it |
| Flatten.FlatRowScalar | src/bizreach_scraper.py:229-234 | each of name, age, url and scraped_at is a column holding the record's value for that key |
| Flatten.FlatRowScalars | src/bizreach_scraper.py:229-234 | name, age, url and scraped_at are always columns, a missing key giving "" |
| Flatten.FlatRowSkills | src/bizreach_scraper.py:244 | skills is always a column, holding the ", "-join of the skill list ("" when there are none) |
| Flatten.FlatRowEducation | src/bizreach_scraper.py:247-251 | when education is non-empty, school, edu_period and degree are columns holding entry 0's school, period and degree |
| Flatten.FlatRowCareer | src/bizreach_scraper.py:236-241 | company_j/period_j/position_j are present iff j <= min(3, n), and then hold entry j - 1 |
| Flatten.FlattenCandidate | src/bizreach_scraper.py:229-253 | the loop body that writes the columns one at a time builds exactly `FlatRow` |
| Scraper.RunSleepsStep | src/bizreach_scraper.py:204-210 | scraping one more URL appends its settle sleep and its pacing sleep to the log |
| Scraper.SettleHasNoPacing | src/bizreach_scraper.py:110 | the 3-second settle sleep is not a pacing delay |
| Scraper.PauseSleepsSeconds | src/bizreach_scraper.py:208-210 | after position j of n, a pacing sleep of the computed length is issued iff j < n and the pause does not raise |
| Scraper.RunRecordsFollowInput | src/bizreach_scraper.py:199-212 | a run that scrapes k URLs holds k records in input order; record i has url == url_list[i] |
| Scraper.RunPacingStep | src/bizreach_scraper.py:208-210 | each scraped URL adds at most its own pacing delay: none after the last URL, none when its pause raises |
| Scraper.PacingExtends | src/bizreach_scraper.py:208-210 | if the delays of k - 1 scraped URLs are paced by the schedule (delay j is the pause for position j + 1, one per URL but the last), adding URL k's delay keeps them so |
| Scraper.RunPacingStepPaced | src/bizreach_scraper.py:208-210 | scraping URL k keeps the run's delays paced by the schedule |
| Scraper.RunPacing | src/bizreach_scraper.py:202-210 | the run's pacing delays, in order: delay j is the pause for 1-based position j + 1, and their number is one per scraped URL except the last |
| Scraper.RunPacingWithValidRange | src/bizreach_scraper.py:208-210 | for 0 <= min <= max < 9223372037, N URLs give N - 1 pacing delays (0 for N = 0), delay i being min + i mod (max - min + 1), within [min, max] |
| Scraper.TwoUrlsPaceOnce | tests/test_bizreach_scraper.py:141-165 | two URLs with the default range (3, 5) give exactly one pacing delay, of 4 seconds |
| Scraper.BizreachScraper.constructor | src/bizreach_scraper.py:36-38 | a new scraper holds no driver and no data |
| Scraper.BizreachScraper.StartBrowser | src/bizreach_scraper.py:40-53 | starting the browser leaves the new session held and returns true |
| Scraper.BizreachScraper.ScrapeCandidatePage | src/bizreach_scraper.py:96-186 | the returned record is `CandidateRecord`, and the only sleep is the settle, issued exactly when navigation succeeded and lasting 3 seconds |
| Scraper.BizreachScraper.ScrapeMultipleCandidates | src/bizreach_scraper.py:188-212 | candidate_data is cleared first and then holds exactly this run's records; the sleep log gains exactly the run's settle and pacing sleeps; the run succeeds iff no pause raises, returning candidate_data, and otherwise reports the exception at the first raising position |
| Scraper.BizreachScraper.ScrapeAll | src/bizreach_scraper.py:199-212 | the loop over a given pause schedule: records, sleeps and outcome as for ScrapeMultipleCandidates, the raising position's exception being the schedule's own |
| Scraper.BizreachScraper.ScrapeNext | src/bizreach_scraper.py:203-210 | one turn of the loop appends exactly urls[i]'s record, its settle sleep and (unless it is the last URL) its pause; it reports the exception iff that pause raises |
| Scraper.BizreachScraper.FlattenCandidateData | src/bizreach_scraper.py:226-253 | one flat row per record, in order, row i being `FlatRow(candidate_data[i])` |
| Scraper.BizreachScraper.CloseBrowser | src/bizreach_scraper.py:285-296 | returns true iff a driver was held; afterwards no driver is held; quit is called once on that driver and on nothing else |
| Scraper.CloseBrowserTwice | src/bizreach_scraper.py:292-296 | a second close returns false and changes nothing |
| Utils.StripStartFacts | src/utils.py:33 | stripping the leading whitespace gives a suffix that does not start with whitespace, and everything removed is whitespace |
| Utils.StripEndFacts | src/utils.py:33 | stripping the trailing whitespace gives a prefix that does not end with whitespace, and everything removed is whitespace |
| Utils.StripHasNoSpaceAtEitherEnd | src/utils.py:33 | `strip()` never returns a string that starts or ends with whitespace |
| Utils.AllSpaceStripsToEmpty | src/utils.py:30-33 | a line of whitespace only strips to "" and so is skipped |
| Utils.StripIsTrimmedMiddle | src/utils.py:33 | `strip()` returns a middle slice, with whitespace only on either side, that neither starts nor ends with whitespace |
| Utils.StripIdempotent | src/utils.py:33 | stripping twice is stripping once |
| Utils.Lower | src/utils.py:18 | the lower-cased extension has the same length and no upper-case letter; every other character is kept and each letter becomes its own lower-case form |
| Utils.LowerIdempotent | src/utils.py:18 | lower-casing twice is lower-casing once |
| Utils.UrlLinesAppend | src/utils.py:33 | the line filter keeps file order: the lines of a + b give the URLs of a followed by those of b |
| Utils.UrlLinesWellFormed | src/utils.py:30-33 | every returned URL is non-empty, does not start with '#', and is already stripped |
| Utils.KeptAsTail | src/utils.py:33 | line k + 1 of a file is kept as u iff line k of the file without its first line is |
| Utils.UrlLinesMembers | src/utils.py:30-33 | a string is returned iff some line of the file is kept and strips to it |
| Utils.MissingFileFirst | src/utils.py:15-16 | a missing file raises not-found whatever its extension or contents |
| Utils.ExtensionDispatch | src/utils.py:18-36 | the lower-cased extension decides: .txt/.csv give the filtered lines; anything other than .json, .txt or .csv is a format error naming the extension; letter case does not matter |
| Utils.JsonDispatch | src/utils.py:20-28 | a list is returned unchanged and a dict with "urls" returns that value; loading succeeds iff the value is one of those; undecodable JSON is an error |
| Utils.Contains | src/utils.py:52 | `part in s` holds iff part occurs at some position of s |
| Utils.OccursAtTail | src/utils.py:52 | an occurrence at position i >= 1 is an occurrence at i - 1 of the string without its first character |
| Utils.OccursLater | src/utils.py:52 | with no occurrence at the front, part occurs in s iff it occurs in s without its first character |
| Utils.ValidateUrl | src/utils.py:50-53 | a URL is valid iff it starts with http:// or https:// and contains bizreach.jp |
| Utils.CreateOutputFilename | src/utils.py:68-74 | without a timestamp the name is base then extension; with one it is base, "_", the timestamp, then extension, each part recoverable |
| UtilsExamples.StripLineEnd | src/utils.py:33 | a URL line read back with its newline strips to the URL |
| UtilsExamples.OnePerLineRoundTrip | tests/test_utils.py:38-52 | writing URLs one per line and loading the file gives them back unchanged |
| UtilsExamples.CommentLineDropped | src/utils.py:33 | a line starting with '#' contributes no URL |
| UtilsExamples.EmptyLineDropped | src/utils.py:33 | an empty line contributes no URL |
| UtilsExamples.CommentAndEmptyLineContributeNothing | tests/test_utils.py:43-45 | a trailing comment line and empty line contribute no URL |
| UtilsExamples.CommentAndEmptyLineDropped | tests/test_utils.py:38-52 | URLs, then a comment line and an empty line, load as the URLs alone |
| UtilsExamples.JsonListAndDictionaryAgree | tests/test_utils.py:54-72 | a JSON list and a dict holding it under "urls" load the same value, for any two extensions that lower-case to .json (such as .json and .JSON) |
| UtilsExamples.MissingAndSpreadsheetRefused | tests/test_utils.py:74-86 | a missing file is not-found; an .xlsx file is a format error |
| UtilsExamples.OccursInMiddle | src/utils.py:52 | a string occurs in any concatenation that has it in the middle |
| UtilsExamples.BizreachUrlAccepted | tests/test_utils.py:88-92 | an http:// or https:// URL containing bizreach.jp is accepted |
| UtilsExamples.OtherSchemeRejected | tests/test_utils.py:94-97 | a URL whose first character is not 'h' (the test's ftp:// and www. cases) is refused |
| UtilsExamples.UrlWithoutBRejected | tests/test_utils.py:96 | a URL on another host that has no 'b' in it is refused |
| UtilsExamples.FilenameExamples | tests/test_utils.py:99-109 | "test" + ".json" without a timestamp is "test.json"; with a 15-character timestamp the name starts with "test_", ends with ".csv" and is longer than 10 characters |

## Left out

- Selenium is not modelled: the Chrome options, `ChromeDriverManager`, `login`, `maximize_window` and the 20-second `WebDriverWait`. Each lookup is modelled only by whether it succeeds and what text it returns, because the browser is an external library.
- StartBrowser: only its effect on the scraper's state is modelled (a session is held and true is returned). Launching Chrome is external, and a launch failure is not modelled.
- `time.sleep` and `datetime.now()` are not performed. Sleeps are recorded in the ghost `sleepLog`, and timestamps are parameters: one per URL for a run, and `now` for file names. The `strftime` formats themselves are not modelled.
- Pause lengths are integers. A float wait range (allowed in Python) is not modelled.
- A record is only as `scrape_candidate_page` builds it. Its career and education entries always carry all three sub-keys, so the `.get(..., "")` fallbacks on those entries during flattening are not modelled. Extra keys added to a dict outside the scraper are not modelled either.
- `save_data_to_csv` and `save_data_to_json` are not modelled beyond the rows built: pandas `DataFrame` construction, column order, the UTF-8 BOM, `json.dump`, and the success flags for I/O failures are library and file behaviour.
- `load_url_list` does not touch the file system. The file is given as whether it exists, its `os.path.splitext` extension, the lines text-mode iteration yields, and the result of `json.load` (or that it raised). Decoding and newline translation are therefore not modelled.
- Lower: only ASCII letters are lower-cased, not all Unicode letters as Python's `str.lower` does. This is exact for the comparison with .json, .txt and .csv, but the extension named in the format error can differ for non-ASCII extensions.
- `ensure_directory_exists` and `generate_mock_candidate_data` in src/utils.py are not modelled: the first has only file-system effects, and the second is a test fixture.
- src/main.py (argument parsing, orchestration, `sys.exit`, interrupt handling) and tests/run_tests.py are not part of this model.
- The aliasing of the returned list is not modelled: the list `scrape_multiple_candidates` returns is `self.candidate_data` itself, and later mutation through one name is visible through the other. The model returns a value equal to `candidateData`.
