# FMCSA carrier-data extractor: the client and scraper logic in Dafny

The repository is a web front end (plain JavaScript) plus a Selenium scraper
(Python) for carrier records of the US Federal Motor Carrier Safety
Administration. Users submit MC numbers one of three ways: by uploading a
list, by pointing at a file in a GitHub repository, or by typing a numeric
range. A server-side job then looks up each carrier, and the front end polls
the job's status. Nearly all of the code is DOM, network and browser
automation. This project models the small pieces of actual logic inside it
and proves what they promise:

- **`JobStatus`** (`static/app.js`; the progress rule and the download-block rule are the same in `static/main.js`):
  - the progress percentage, in exact integer arithmetic;
  - the terminal statuses;
  - what one status response does to the status panel and the download block;
  - how many requests the batch-status poller makes before it stops.
- **`AutoRefresh`**: the "Auto Refresh" button. It is a class holding the
  module-level interval handle and the host's table of live intervals. The
  invariant is that at most one poller ever exists.
- **`Accounts`**:
  - the premium and admin access checks;
  - the two versions of the account badge class: the `switch` in `static/main.js` and the table lookup in `static/app.js`.
- **`Upload`**: reading an uploaded list. The text is split at `\r?\n`, blank
  lines are dropped and the rest are trimmed.
- **`GithubForm`**: the defaults of the GitHub form.
- **`RangeForm`** (`static/range.js`):
  - validation of a numeric range;
  - the loop that generates the zero-padded MC numbers;
  - the live total and time estimate.
- **`StatusColor`**: the dashboard's case-insensitive status colour.
- **`CarrierRecord`** (`fmcsa_scraper_selenium.py`, `_parse_page`):
  - the default record;
  - the label-lookup fallback chains;
  - the two clean-up comprehensions;
  - the "found nothing" rejection.

  The page lookup `find_value_by_label` is a parameter.
- **Supporting modules:**
  - `Common`: `Option`, `Result` and JavaScript's `value || fallback`;
  - `Text`: `trim` and `strip`, each with its own language's whitespace set, plus ASCII lower-casing;
  - `Decimal`: `toString`, `padStart` and reading a decimal back.

Notes on modelling choices:

- **Progress:** modelled as `(200p + t) div (2t)` for `t > 0`. This is
  `floor(100p/t + 1/2)`, that is `Math.round(p / t * 100)` taken in exact
  arithmetic.
- **Auto-refresh.** `autoRefresh` (`static/app.js:324-347`,
  `static/main.js:300-317`) never clears its interval because a job reached
  a terminal status: the interval polls until the button is pressed again.
  Pressing the button while an interval is armed only clears it; it does not
  arm a new one.
- **The two range limits disagree.** For a range whose end is exactly
  100000 above its start:
  - the submit handler accepts it (`end - start > 100000` is false);
  - the live panel disables the submit button, because the range holds 100001 numbers.

  `RangeForm.LimitsDisagreeAtBoundary` states this and
  `RangeForm.LimitsAgreeElsewhere` shows that, among the ranges that update
  the live panel, it is the only disagreement. The submit model keeps the
  code's own check.
- **Batch polling.** `updateBatchStatus` (`static/app.js:401-419`) never
  looks at the HTTP status code. An error answer whose body has no `status`
  field is rescheduled like a job still running, so such answers keep the
  poller going for ever (`JobStatus.ErrorBodiesKeepPolling`). The poller
  stops without a terminal status only when the handler throws, and
  `BatchRejected` stands for every such case:
  - the request or the body read is rejected;
  - the body is JSON `null`, so reading `data.progress` or `data.status` throws
    (`static/app.js:409`, `413`);
  - the matched `[data-job-id]` element lacks a `.progress-fill` or `.status`
    child (`static/app.js:409-410`).

  The catch at `static/app.js:416-418` logs the error and schedules nothing.

## Model

| member | source | states |
|---|---|---|
| Common.OrDefault | static/main.js:169-171 | `v \|\| fallback` on an optional string: the value when it is a non-empty string, the fallback otherwise |
| Text.StripIsSlice | fmcsa_scraper_selenium.py:155 | stripping returns a contiguous slice of the input; everything cut off on either side is whitespace, and the result neither starts nor ends with whitespace |
| Text.StripStripped | static/app.js:287 | a string with no whitespace at either end strips to itself |
| Text.StripIdempotent | static/app.js:287 | trimming an already trimmed string changes nothing |
| Text.StripEmptyIff | static/app.js:286 | a line trims to the empty string exactly when it consists only of whitespace, which is what `filter(line => line.trim())` drops |
| Text.StripAppendWs | fmcsa_scraper_selenium.py:155 | whitespace appended to a string is stripped away again |
| Text.JsTrim | static/app.js:286-287 | `trim()` is stripping with JavaScript's whitespace set; its properties are the `Strip` lemmas above |
| Text.PyStrip | fmcsa_scraper_selenium.py:155 | `str.strip()` is stripping with Python's whitespace set; its properties are the `Strip` lemmas above |
| Text.Lower | static/dashboard.js:174 | lower-casing keeps the length and maps each character independently, ASCII capitals to small letters |
| Text.LowerIdempotent | static/dashboard.js:174 | lower-casing twice is lower-casing once |
| Decimal.ToDecimal | static/range.js:33 | `n.toString()` is a non-empty digit string with no leading zero unless `n` is 0 |
| Decimal.PadStart | static/range.js:33 | `padStart(width, '0')` leaves a string of at least `width` characters as is, and otherwise prepends exactly the missing zeros |
| Decimal.ParseDecimal | static/range.js:33 | the number a digit string denotes; `ParseToDecimal` and `ParsePadded` show it inverts `toString` and `padStart` |
| Decimal.ParseToDecimal | static/range.js:33 | reading the decimal text of `n` gives back `n` |
| Decimal.ParseLeadingZero | static/range.js:33 | one leading zero does not change the number a digit string denotes |
| Decimal.ParseLeadingZeros | static/range.js:33 | any number of leading zeros does not change the number a digit string denotes |
| Decimal.ParsePadded | static/range.js:33 | reading the zero-padded decimal text of `n` gives back `n` |
| Decimal.DecimalLengthBound | static/range.js:33 | a number has at most `k` digits exactly when it is below `10^k` |
| Decimal.DecimalLength | static/range.js:33 | numbers below a million have at most six digits, and numbers from 100000 up have at least six |
| RangeForm.ValidateRange | static/range.js:8-16 | submission passes exactly when `start < end` and `end - start <= 100000`; otherwise the first failing check's message is shown |
| RangeForm.McString | static/range.js:33 | `i.toString().padStart(6, '0')`; its shape and round trip are `McStringShape` and `McStringRoundTrip` |
| RangeForm.McStringShape | static/range.js:33 | every MC string is all digits and at least six long; exactly six below one million; unpadded from 100000 on |
| RangeForm.McStringRoundTrip | static/range.js:33 | parsing an MC string as a decimal gives back its number |
| RangeForm.McStringInjective | static/range.js:31-34 | different numbers give different MC strings, so the generated list has no duplicates |
| RangeForm.GenerateMcNumbers | static/range.js:31-34 | the loop yields `end - start + 1` entries (none for an empty range); entry `k` is the MC string of `start + k` and parses back to `start + k` |
| RangeForm.SubmitRange | static/range.js:8-42 | the submit handler fails with the validation message exactly when validation fails; otherwise it sends between 2 and 100001 MC strings, entry `k` for `start + k` |
| RangeForm.UpdateRangeInfo | static/range.js:85-107 | the panel and submit button are updated only when both numbers are non-zero and `end > start`, and otherwise left as they were; an update shows total `end - start + 1` and the total's seconds rounded up to whole minutes, and enables submit exactly when total is at most 100000 |
| RangeForm.MinutesIsTotalOverThirty | static/range.js:95 | the minutes estimate is the total divided by thirty, rounded up |
| RangeForm.LimitsDisagreeAtBoundary | static/range.js:100 | at `end = start + 100000` the submit check accepts, yet the live panel disables submit |
| RangeForm.LimitsAgreeElsewhere | static/range.js:85-107 | for every other range that updates the panel, the update enables submit exactly when submission would be accepted |
| JobStatus.ProgressRounds | static/app.js:480-482 | for a positive total the percentage is `100p/t` rounded to the nearest integer, halves up |
| JobStatus.Progress | static/main.js:335-337 | the guarded percentage, computed in integers; its meaning is `ProgressRounds`, `ProgressZeroTotal`, `ProgressBounded` and `ProgressMonotonic` (the same expression as `static/app.js:480-482`) |
| JobStatus.ProgressZeroTotal | static/app.js:480-482 | with a total of 0 or less the percentage is 0, whatever was processed |
| JobStatus.ProgressBounded | static/main.js:335-337 | for `0 <= processed <= total` the percentage lies in [0, 100]; it is 0 when nothing and 100 when everything was processed |
| JobStatus.ProgressMonotonic | static/app.js:480-482 | more processed work never shows a smaller percentage |
| JobStatus.ShowJobStatus | static/app.js:464-540 | a refused request with an object body shows `detail`, or 'Job not found' when that is absent or empty; an answer that makes the handler throw shows the error's message; neither touches the download block; a snapshot shows its progress, and its `error_message` and `completed_at` texts exactly when they are non-empty; it shows the download block tagged with the job id exactly when the status is 'completed', hiding it otherwise |
| JobStatus.ShowJobStatusActionsTerminal | static/app.js:526-531 | downloads are offered only for a job in a terminal status, and a refusal never shows an empty message |
| JobStatus.ExampleProgress | static/app.js:480-482 | 50 of 200 processed shows 25%, and 'processing' is not terminal |
| JobStatus.IsTerminal | static/app.js:413 | 'completed' and 'failed' are the terminal statuses; used by `Reschedules` and `ShowJobStatusActionsTerminal` |
| JobStatus.Reschedules | static/app.js:413-415 | a further poll is scheduled for a body whose status is not terminal, an absent status included, and not for a rejected request; `BatchPollsStopAtFirstTerminal` states its effect |
| JobStatus.BatchPolls | static/app.js:401-419 | the poller makes at most one request per answer, and at least one |
| JobStatus.BatchPollsStopAtFirstTerminal | static/app.js:413-415 | every answer before the last one polled rescheduled; the poller stops at the first body with status 'completed' or 'failed' or the first rejected request; it polls all answers while they keep rescheduling |
| JobStatus.BatchPollsProcessingThenCompleted | static/app.js:413-415 | 'processing' followed by 'completed' makes exactly two requests, whatever would follow |
| JobStatus.ErrorBodiesKeepPolling | static/app.js:401-419 | answers that are error bodies without a status never stop the poller: it polls every one of them |
| AutoRefresh.Refresher.constructor | static/app.js:324 | the handle starts out empty and no interval is live; the button's first label, 'Auto Refresh', is taken from the page markup, which is not part of this model |
| AutoRefresh.Refresher.Toggle | static/app.js:326-347 | there are three cases. An armed interval is cleared and the handle emptied. With none armed and an empty job id, the toast 'Please enter a Job ID first' is the only effect. Otherwise exactly one new interval is armed, polling the typed job id every 3000 ms. Afterwards at most one interval is live |
| AutoRefresh.Refresher.PollsPerTick | static/app.js:340-342 | each period re-reads exactly the job id of the one live interval, or nothing when none is armed |
| AutoRefresh.LiveIntervalsAtMostOne | static/main.js:300-317 | in every reachable state at most one interval of the toggle is live |
| AutoRefresh.PressTwice | static/main.js:302-317 | pressing twice with a job id arms a 3000 ms interval and then clears it; there is never a second interval on top of a live one |
| Accounts.AccessTiers | static/app.js:73-79 | premium access holds exactly for 'premium', 'enterprise' and 'admin'; admin access exactly for 'admin'; admin implies premium; 'basic' has neither |
| Accounts.HasPremiumAccess | static/app.js:73-75 | the list membership test; `AccessTiers` states which types pass |
| Accounts.HasAdminAccess | static/app.js:77-79 | equality with 'admin'; `AccessTiers` states it |
| Accounts.AccountTypeClass | static/main.js:79-92 | the `switch`; `AccountTypeClassDistinct` states its classes |
| Accounts.AccountTypeClassByTable | static/app.js:81-89 | the table lookup with its fallback; `AccountTypeClassAgree` shows it equals the `switch` |
| Accounts.AccountTypeClassDistinct | static/main.js:79-92 | 'basic', 'premium', 'enterprise' and 'admin' get their own class each, the four classes are pairwise distinct, and every other type gets the basic one |
| Accounts.AccountTypeClassAgree | static/app.js:81-89 | the table lookup with its `\|\| classes.basic` fallback gives every user type the same class as the `switch` |
| StatusColor.StatusColorIgnoresCase | static/dashboard.js:174 | statuses that lower-case alike get the same colour |
| StatusColor.GetStatusColor | static/dashboard.js:173-184 | the `switch` on the lower-cased status; `StatusColorCases` states its colours |
| StatusColor.StatusColorCases | static/dashboard.js:173-184 | green exactly for 'completed', blue for 'processing', red for 'failed' and gray for anything else, all compared after lower-casing; the colour is always one of the four |
| StatusColor.StatusColorUpperCase | static/dashboard.js:174-180 | 'COMPLETED' is green, 'Failed' is red, 'pending' gray |
| GithubForm.GithubRequestDefaults | static/main.js:169-171 | each field is the typed value when non-empty, and otherwise its default ('potlucy73-hue/csa', 'mc_list.txt', 'main'); no request parameter is empty |
| GithubForm.GithubRequestFor | static/main.js:169-171 | the three `formData.get(name) \|\| default` values; `GithubRequestDefaults` states them |
| GithubForm.BlankFormUsesDefaults | static/main.js:169-171 | an empty form asks for the project's own list on its main branch |
| Upload.SplitAtLf | static/app.js:286 | splitting at line feeds gives one more piece than there are line feeds, and no piece contains one |
| Upload.SplitAtLfJoin | static/app.js:286 | the pieces joined with line feeds give back the text |
| Upload.SplitLines | static/app.js:286 | splitting at `\r?\n` gives one line per line feed plus one, none containing a line feed; each line but the last is its piece between line feeds less the one `\r` of a `\r\n` separator, and the last line is the last piece |
| Upload.KeepNonBlank | static/app.js:286 | the filter keeps exactly the lines whose trimmed text is non-empty, each as often as it occurs (with `KeepNonBlankIsSubsequence`: in their order) |
| Upload.KeepNonBlankIsSubsequence | static/app.js:286 | the kept lines are in their original order |
| Upload.TrimAll | static/app.js:287 | the map keeps the count and trims each line in place |
| Upload.DropEmpty | static/app.js:286-287 | exactly the empty strings are removed: every other string is kept as often as it occurs |
| Upload.DropEmptyIsSubsequence | static/app.js:286-287 | dropping the empty strings keeps the rest in their order |
| Upload.FilterThenTrim | static/app.js:286-287 | filtering on the trimmed line and then trimming is trimming every line and dropping the empty results |
| Upload.StripWithin | static/app.js:287 | trimming adds no characters: a character absent from a line is absent from its trimmed form |
| Upload.TrimDropsCr | static/app.js:286-287 | trimming a line removes the `\r` a `\r\n` separator would have left, so dropping it first changes nothing |
| Upload.TrimAllSplitLines | static/app.js:286-287 | the trimmed lines of a `\r?\n` split are the trimmed pieces between line feeds |
| Upload.ParseUploadBySplit | static/app.js:286-287 | the MC numbers sent are the non-empty trimmed pieces of the text between line feeds, tying the parse to `SplitAtLfJoin` |
| Upload.ParseUploadSpec | static/app.js:286-287 | the MC numbers sent are non-empty, already trimmed, each within one line, no more than the lines of the file, in line order, and each non-blank line's trimmed text occurs as often as such lines do |
| Upload.ParseUpload | static/app.js:286-287 | split, filter, map; `ParseUploadSpec` and `ParseUploadBySplit` state what it sends |
| CarrierRecord.InitialRecord | fmcsa_scraper_selenium.py:94-109 | the default record holds the given MC number, zero violations and accidents, and `None` in every other field |
| CarrierRecord.KeyInjective | fmcsa_scraper_selenium.py:94-109 | the fourteen dict keys are distinct, so the record has one entry per field |
| CarrierRecord.FirstTruthySpec | fmcsa_scraper_selenium.py:135-142 | `a or b or ...` yields the first non-empty text, and the last candidate when there is none |
| CarrierRecord.FirstTruthy | fmcsa_scraper_selenium.py:135-150 | Python's `a or b or ...`; `FirstTruthySpec` states it |
| CarrierRecord.FirstOfTwo | fmcsa_scraper_selenium.py:135 | `a or b` is `a` when that is non-empty text and `b` otherwise |
| CarrierRecord.ChainFallbacks | fmcsa_scraper_selenium.py:135-142 | company name, DOT number, state and safety rating each take their first label's text when non-empty and the second lookup otherwise |
| CarrierRecord.FirstOfThree | fmcsa_scraper_selenium.py:148-150 | `a or b or c` is the first of the three that is non-empty text, and `c` when neither of the first two is |
| CarrierRecord.InsuranceChainTruthy | fmcsa_scraper_selenium.py:148-150 | the insurance date is the first of its three lookups that found text, and is text exactly when one of them found some |
| CarrierRecord.StripStrings | fmcsa_scraper_selenium.py:155 | every string value is replaced by its stripped form; `None` and the counts are kept |
| CarrierRecord.DropSentinels | fmcsa_scraper_selenium.py:156 | "", "None" and "N/A" become `None`; every other value is kept |
| CarrierRecord.Cleanup | fmcsa_scraper_selenium.py:155-156 | the clean-up treats every key alike: each value becomes its stripped-then-desentinelled form |
| CarrierRecord.StripValue | fmcsa_scraper_selenium.py:155 | `v.strip() if isinstance(v, str) else v`; `CleanValueSpec` gives its effect |
| CarrierRecord.DropSentinel | fmcsa_scraper_selenium.py:156 | `v if v not in ["", "None", "N/A"] else None`; `CleanValueSpec` gives its effect |
| CarrierRecord.CleanValue | fmcsa_scraper_selenium.py:155-156 | one value after both comprehensions; `CleanValueSpec`, `CleanValueFixed` and `CleanValueIdempotent` state it |
| CarrierRecord.CleanValueSpec | fmcsa_scraper_selenium.py:155-156 | after clean-up a string is stripped and is none of "", "None", "N/A"; non-strings are unchanged; a string becomes `None` exactly when its stripped form is a sentinel |
| CarrierRecord.CleanupIsClean | fmcsa_scraper_selenium.py:155-156 | every value of a cleaned record is stripped and no sentinel |
| CarrierRecord.CleanValueFixed | fmcsa_scraper_selenium.py:155-156 | a value that is already clean is left as it is |
| CarrierRecord.CleanValueIdempotent | fmcsa_scraper_selenium.py:155-156 | cleaning a value twice is cleaning it once |
| CarrierRecord.CleanupIdempotent | fmcsa_scraper_selenium.py:155-156 | cleaning a record twice gives the record cleaned once |
| CarrierRecord.CleanTruthyIffPresent | fmcsa_scraper_selenium.py:159 | on a cleaned string field, "not truthy" means exactly `None` |
| CarrierRecord.FilledRecordFields | fmcsa_scraper_selenium.py:94-152 | in the filled record each field has the text of its lookup or fallback chain. The insurance expiry is `None` unless one of its lookups found text, and then holds the text of the first of 'insurance expiry', 'policy expiration', 'expiration date' that did. The MC number, authority date and counts keep their defaults |
| CarrierRecord.CompanyNameChain | fmcsa_scraper_selenium.py:135 | `company name` or else `legal name`; `ChainFallbacks` states which lookup it takes |
| CarrierRecord.DotNumberChain | fmcsa_scraper_selenium.py:136 | `dot number` or else `usdot`; `ChainFallbacks` states which lookup it takes |
| CarrierRecord.StateChain | fmcsa_scraper_selenium.py:141 | `state` or else `principal place`; `ChainFallbacks` states which lookup it takes |
| CarrierRecord.SafetyRatingChain | fmcsa_scraper_selenium.py:142 | `rating` or else `safety rating`; `ChainFallbacks` states which lookup it takes |
| CarrierRecord.InsuranceExpiryChain | fmcsa_scraper_selenium.py:148-150 | the three insurance lookups in order; `InsuranceChainTruthy` states which one it takes |
| CarrierRecord.FilledRecord | fmcsa_scraper_selenium.py:94-152 | the record the assignments build; `FilledRecordFields` states its fields in terms of the lookups |
| CarrierRecord.FillRecord | fmcsa_scraper_selenium.py:135-152 | the field-by-field assignments starting from the default record produce exactly the filled record described by `FilledRecordFields` |
| CarrierRecord.ParsePage | fmcsa_scraper_selenium.py:154-163 | there is no record exactly when both company name and DOT number are `None` after clean-up. Otherwise the result is the cleaned filled record: fully clean, with company name or DOT number truthy |

## Left out

- DOM rendering is not modelled: HTML templates, class toggling, tab switching, toasts and charts. The model keeps only what a view decides: which panel, which message, whether the download block shows.
- `fetch`, the WebSocket alerts and `window.open` downloads are network I/O. Server answers are inputs: `StatusResponse` and `BatchResponse`.
- `setInterval`, `setTimeout` and the dashboard's periodic refresh are the host's timers. The model's timer table and `PollsPerTick` stand for them, and `BatchPolls` counts the poller's requests over a given sequence of answers.
- The button's CSS class swaps in `static/app.js:332-333` and `344-345` are display only. The button text is modelled.
- The user type in `localStorage`, login redirects and `logout` are browser storage. The user type is a parameter.
- Floating point is not modelled: `Math.round` at binary half-way points, `toLocaleString` and `Date` formatting. Progress is exact integer rounding.
- `parseInt` returning `NaN` and negative inputs in `static/range.js` are not modelled. Start and end are natural numbers already parsed.
- The request error texts are not modelled: `data.detail || 'Failed to start extraction'` in `static/range.js:71`, and the GitHub and upload handlers' like fallbacks in `static/main.js:200` and `static/main.js:284`. Each is the `value || fallback` rule of `Common.OrDefault`, and the requests themselves are network I/O.
- The copy of the GitHub form handler in `static/app.js:153` has no default for `repo`. `GithubForm` follows `static/main.js:169-171`. The `checkRepo` helper of `static/main.js:211-213` repeats those defaults. The one in `static/app.js:196-202` has no repo default and shows a toast when the repo is empty. Neither helper is modelled separately.
- JobStatus.ShowJobStatus: a success body is an object with a string `status`, and a failure body is an object. Any other answer makes the handler throw, and the model counts it as `Rejected`: the panel shows the error's message, and an earlier download block stays visible. There are three such answers:
  - a success body of `null`, which throws at `data.total_mc_numbers` (`static/app.js:480`);
  - a success body whose `status` is absent, `null` or not a string, which throws at `data.status.toUpperCase()` (`static/app.js:492`, `static/main.js:347`);
  - a failure body of `null`, which throws at `data.detail` (`static/app.js:477`), so the panel shows the error's text instead of 'Job not found'.
- The status panel of `static/main.js:319-375` renders neither the error message nor the completion time. `JobStatus.ShowJobStatus` follows `static/app.js:464-540`. Its progress and download-block clauses describe `static/main.js:335-337` and `365-370` as well.
- JavaScript numbers are doubles, but `RangeForm` uses unbounded naturals. The model describes `static/range.js` only for start and end below 2^53. Two effects of the double width are not captured:
  - RangeForm.GenerateMcNumbers: from 2^53 on, `i++` no longer changes `i`. A range such as 9007199254740992 to 9007199254740994 passes both checks, and then the loop of `static/range.js:32-34` never ends.
  - RangeForm.McStringShape: from 10^21 on, `toString()` gives exponent notation such as "1e+21". The all-digits shape and `McStringRoundTrip` then fail for the source.
- Selenium driver setup, page loading and the XPath lookups of `find_value_by_label` are browser automation. The lookup is a function parameter returning a text or `None`.
- The `try`/`except` around `_parse_page`, which returns `None` on any exception, is not modelled. The abstract lookup cannot raise.
- `test_scraper.py` runs a live scrape, and `import_check.py` is an import smoke test. Neither has logic to model.
- Text.Lower: lower-cases ASCII letters only, not the full Unicode mapping of `toLowerCase`. No other character lower-cases to a single character making 'completed', 'processing' or 'failed', so `GetStatusColor` classifies the same way.
- Accounts.AccountTypeClassAgree: holds for every user type except the built-in property names of JavaScript objects. `AccountTypeClassByTable` looks up only the four-entry table, but a JavaScript object also yields inherited properties, such as `classes['constructor']`.
