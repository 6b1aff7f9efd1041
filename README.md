# Course feedback store: a verified model

This project models the core of a small course-feedback application.

- **Backend.** An Express server keeps feedback records in an in-memory list (`feedbackDB`) and numbers them with a counter (`idCounter`). Its handlers:
  - create a record from a POST body after presence and range checks, with trimmed text, an upper-cased course code and a rounded overall rating;
  - find a record by id;
  - delete a record by id;
  - list the records latest first;
  - report statistics and health.
- **Feedback form.** The browser form keeps its field values and an error map. It blanks a field's error when that field is edited, validates on submit, and posts a trimmed payload with a rounded rating. After a successful post it resets; after a failed one it shows a submit error.
- **Dashboard.** The dashboard page recomputes four statistics from the listing. It draws each count as a gauge whose fill is capped at 100 percent, and the average as an uncapped gauge out of 5.

Modules, one per file:

- `Wrappers`: `Option` and `Result`.
- `Text`:
  - `trim`, with the ECMAScript white-space and line-terminator set;
  - `toUpperCase` on ASCII letters.
- `Rounding`:
  - `Math.round(num / den)` on integers;
  - the rounded mean of three scores.
- `Feedback`: the record, the POST body and the server's admission gate.
- `Listing`: the latest-first listing, modelled as a stable insertion sort.
- `Statistics`: `/api/stats`.
- `Store`: class `FeedbackStore`, which holds the record list and the counter. It has the create, find, delete, list, stats and health operations.
- `Dashboard`: `Dashboard.js`.
- `Form`: `FeedbackForm.js`.

Other representation choices:

- Timestamps are integer milliseconds. The current time is a parameter `now`.
- Averages are exact `real` numbers.
- The form's state changes are modelled as functions from the old state to the new one.

## Model

| member | source | states |
|---|---|---|
| Text.Trim | backend/server.js:97-99 | `s.trim()`: both runs of space characters removed; TrimIsSlice, TrimEmptyIff, TrimOfTrimmed and TrimIdempotent state what it returns |
| Text.TrimStartSpec | backend/server.js:97-99 | the text kept after leading spaces go is a suffix of the input that does not start with a space, and everything dropped is space |
| Text.TrimEndSpec | backend/server.js:97-99 | the text kept after trailing spaces go is a prefix of the input that does not end with a space, and everything dropped is space |
| Text.TrimIsSlice | backend/server.js:97-99 | `trim` returns a slice of its input that neither starts nor ends with a space, with only spaces on either side of it, and is no longer than the input |
| Text.TrimEmptyIff | frontend/src/components/FeedbackForm.js:50-66 | `x.trim()` is empty exactly when `x` is all spaces, so `!x.trim()` means "blank" |
| Text.TrimOfTrimmed | backend/server.js:97-99 | a string with no space at either end is unchanged by `trim` |
| Text.TrimIdempotent | backend/server.js:97-99 | trimming twice is the same as trimming once |
| Text.Utf16Length | frontend/src/components/FeedbackForm.js:52-64 | `x.length` counts UTF-16 code units: between one and two per character |
| Text.Utf16LengthIff | frontend/src/components/FeedbackForm.js:52-64 | the code-unit count equals the character count exactly when no character lies outside the Basic Multilingual Plane |
| Text.ToUpper | backend/server.js:98 | upper-casing keeps the length, leaves no lower-case ASCII letter, keeps every other character and moves each lower-case letter to its capital |
| Text.ToUpperNormalizes | backend/server.js:98 | an upper-cased trimmed code is still trimmed and has no lower-case letter, and upper-casing it again changes nothing |
| Text.TrimUpperCommute | backend/server.js:98 | `trim().toUpperCase()` equals `toUpperCase().trim()`, because upper-casing neither creates nor removes spaces |
| Rounding.JsRound | backend/server.js:93 | `Math.round(num/den)` is the integer r with 2rd-d <= 2num < 2rd+d: the nearest integer, with halves rounded up |
| Rounding.JsRoundUnique | backend/server.js:93 | any integer inside that bracket is the rounded value, so the bracket defines `Math.round` completely |
| Rounding.RoundedMean | backend/server.js:93 | the overall rating `Math.round((a+b+c)/3)`, which the form computes the same way; RoundedMeanClosedForm and RoundedMeanBetween state it |
| Rounding.RoundedMeanClosedForm | backend/server.js:93 | `Math.round((a+b+c)/3)` equals the integer division (a+b+c+1)/3 for every integer a, b, c |
| Rounding.RoundedMeanBetween | backend/server.js:82-93 | the rounded mean of three scores lies between the smallest and the largest bounds of the scores, so scores in [1,5] give a rating in [1,5] |
| Feedback.Admit | backend/server.js:66-105 | the POST handler's decision for a body; AdmitAcceptsIff, AdmitErrorOrder and AdmittedRecord state it |
| Feedback.NewRecord | backend/server.js:93-105 | the record built from an accepted body; AdmittedRecord states its fields and that it is well-formed |
| Feedback.AdmitAcceptsIff | backend/server.js:66-90 | a POST body is accepted exactly when the three texts are present and non-empty and the three scores are present and in [1,5] |
| Feedback.AdmitErrorOrder | backend/server.js:66-90 | missing text is reported first, then a missing or zero score, then a score out of range, and each error is reported exactly in its case |
| Feedback.AdmittedRecord | backend/server.js:93-105 | an accepted record has the given id and time and the submitted scores; its name and comments are trimmed, its code is trimmed and upper-cased, and its rating is the rounded mean (a+b+c+1)/3 in [1,5]; the record is well-formed |
| Feedback.BlankNameStoredEmpty | backend/server.js:66-97 | a non-empty name made only of spaces passes the presence check: with the other five fields acceptable the body is accepted, and the name is stored as the empty string |
| Feedback.CourseCodesCaseInsensitive | backend/server.js:98 | codes that upper-case to the same string are stored as the same code |
| Listing.Insert | backend/server.js:19-21 | inserting one record adds exactly that record to the multiset of records |
| Listing.InsertLatestFirst | backend/server.js:19-21 | inserting into a latest-first sequence keeps it latest-first |
| Listing.SortLatestFirst | backend/server.js:19-21 | the listing is a permutation of the store and is ordered by non-increasing creation time |
| Listing.InsertCreatedAt | backend/server.js:19-21 | inserting a record keeps the relative order of the records created at any given time and puts it ahead of them |
| Listing.ListingIsStable | backend/server.js:19-21 | the sort is stable: records with equal timestamps keep their stored order |
| Statistics.CourseCodes | backend/server.js:161 | a code is in the distinct-course set exactly when some record has it |
| Statistics.CourseCountBound | backend/server.js:161 | there are never more distinct courses than records |
| Statistics.CountAfter | backend/server.js:164-168 | the recent count is at most the total; it is 0 exactly when no record is newer than the cutoff, and it is the total exactly when every record is newer |
| Statistics.Summarize | backend/server.js:155-181 | the total is the store size, the course and recent counts never exceed it, and an empty store gives all zeros |
| Statistics.SumBounds | backend/server.js:157-159 | the sum of n values in [lo,hi] lies in [lo·n, hi·n] |
| Statistics.MeanBounds | backend/server.js:157-181 | the mean of a field over a non-empty store lies within the bounds of that field's values |
| Statistics.MeanOfBoundedSum | backend/server.js:157-159 | a sum in [lo·n, hi·n] divided by n > 0 lies in [lo, hi] |
| Statistics.SnapshotAveragesInRange | backend/server.js:155-181 | over well-formed records the overall and the three category averages all lie in [1,5] |
| Store.IndexOfId | backend/server.js:127 | `findIndex` gives -1 exactly when no record has the id; otherwise it gives the first position that has it |
| Store.CheckRatings | backend/server.js:82-90 | the range loop accepts exactly when every score is in [1,5] |
| Store.AppendKeepsValid | backend/server.js:95-107 | appending a well-formed record numbered with the counter, then moving the counter on, keeps ids unique, increasing and below the counter, and a lookup of the new id finds the new record |
| Store.RemoveKeepsValid | backend/server.js:126-136 | splicing out one record keeps the store invariant and leaves no record with that id |
| Store.FeedbackStore.constructor | backend/server.js:12-13 | the store starts empty, with counter 1 |
| Store.FeedbackStore.Create | backend/server.js:61-107 | the result is the admission gate's verdict with the current counter as the id; on success the record is appended and the counter moves on by one, and on rejection nothing changes; the invariant is kept |
| Store.FeedbackStore.FindIndex | backend/server.js:127 | the search loop returns the first position holding the id, or -1, and changes nothing |
| Store.FeedbackStore.Find | backend/server.js:40-50 | not found exactly when no record has the id; otherwise the first record with that id |
| Store.FeedbackStore.Delete | backend/server.js:126-136 | an unknown id changes nothing; a known id removes exactly its record and returns it, keeping the others in order; afterwards no record has the id, the counter is unchanged and the invariant holds |
| Store.FeedbackStore.List | backend/server.js:19-26 | the listing holds exactly the stored records, latest first |
| Store.FeedbackStore.Stats | backend/server.js:155-181 | the statistics total is the number of stored records, and an empty store gives all zeros |
| Store.FeedbackStore.Health | backend/server.js:213 | the health count equals the length of the listing |
| Dashboard.ComputeStats | frontend/src/components/Dashboard.js:19-38 | the dashboard total is the list length, the course and week counts never exceed it, and an empty list gives the initial zeros |
| Dashboard.SettleFetch | frontend/src/components/Dashboard.js:33-43 | settling the fetch always ends loading; a failure keeps the figures, and a received list sets the total to its length |
| Dashboard.FailedFetchShowsZeros | frontend/src/components/Dashboard.js:6-43 | if the first fetch fails, the page shows all zeros and stops loading |
| Dashboard.ListingKeepsAggregates | frontend/src/components/Dashboard.js:19-31 | sums, distinct codes and recent counts are the same over the latest-first listing as over the store |
| Dashboard.DashboardMatchesServer | frontend/src/components/Dashboard.js:19-31 | fed the server's listing, the dashboard shows the same total, mean rating, course count and week count as the server's own statistics at the same moment |
| Dashboard.GaugePercent | frontend/src/components/Dashboard.js:50-53 | `CircularStat`'s fill percentage per gauge; GaugeScales and GaugeInRange state it |
| Dashboard.GaugeScales | frontend/src/components/Dashboard.js:50-53 | the count gauges fill 2, 5 and 10 percent per item, capped at 100; the average gauge fills 20 percent per point, with no cap |
| Dashboard.GaugeInRange | frontend/src/components/Dashboard.js:50-53 | every gauge of a non-negative count, and of an average in [0,5], lies in [0,100]; a count gauge is full exactly when its count reaches 50, 20 or 10 |
| Form.ClearError | frontend/src/components/FeedbackForm.js:25-30 | `if (errors[f]) errors[f] = ''`, shared with lines 39-44; HandleChange and HandleRatingChange state its effect |
| Form.HandleChange | frontend/src/components/FeedbackForm.js:18-31 | editing a text field sets that value and blanks that field's message; every other value, every key and every other message stay |
| Form.HandleRatingChange | frontend/src/components/FeedbackForm.js:33-45 | choosing a rating sets that score and blanks that category's message; every other value, every key and every other message stay |
| Form.FieldError | frontend/src/components/FeedbackForm.js:50-78 | the message one field gets, if any; TextErrorCases and RatingErrorIff state it |
| Form.FormErrors | frontend/src/components/FeedbackForm.js:47-79 | the validator's error map; FormErrorsByField, ValidateForm and FormValidIff state it |
| Form.FormErrorsByField | frontend/src/components/FeedbackForm.js:47-78 | the validator's map has a key for a field exactly when that field has a message, and that message is its value; a failed submit never appears |
| Form.CheckText | frontend/src/components/FeedbackForm.js:50-66 | one text field's check adds exactly that field's message, if it has one |
| Form.CheckScore | frontend/src/components/FeedbackForm.js:68-78 | one category's check adds exactly that category's message, if it has one |
| Form.ValidateForm | frontend/src/components/FeedbackForm.js:47-82 | the six checks in order build exactly the validator's error map, and the form is valid exactly when that map is empty |
| Form.TextErrorCases | frontend/src/components/FeedbackForm.js:50-66 | "required" appears exactly for an all-space text; "too short" appears exactly for a non-blank text whose UTF-16 length, counted before trimming, is below its minimum; no message appears otherwise |
| Form.RatingErrorIff | frontend/src/components/FeedbackForm.js:68-78 | a category gets its "please rate" message exactly when its score is below 1 |
| Form.FormValidIff | frontend/src/components/FeedbackForm.js:47-82 | the form validates exactly when every text is non-blank and at least its minimum length and every score is at least 1 |
| Form.BuildPayload | frontend/src/components/FeedbackForm.js:95-105 | the posted payload; ValidPayload states it |
| Form.ValidPayload | frontend/src/components/FeedbackForm.js:95-105 | a valid form with star scores posts non-empty trimmed texts and a rating in [1,5] equal to (e+r+s+1)/3 |
| Form.ShortNameCanBePosted | frontend/src/components/FeedbackForm.js:50-54 | the length rule counts UTF-16 code units before trimming, so the name " a" validates and is posted as a one-character name |
| Form.HandleSubmit | frontend/src/components/FeedbackForm.js:84-128 | an invalid form posts nothing and shows the validator's messages; a valid form posts its payload; an accepted post resets the form, and a rejected post keeps the values and shows only the submit error, which is the server's message or, when that is empty, the default text |

## Left out

- HTTP layer: Express routing, status codes, response envelopes, CORS, the port and environment settings, and the root endpoint. The model returns the handlers' decisions as values.
- The `try/catch` blocks that turn an exception into a 500 response. The only throws in the handlers come from non-string input, which is left out next. On that path `idCounter++` (backend/server.js:96) has already run when `.trim()` throws (backend/server.js:97-99), so the counter moves on although nothing is stored. "A rejection changes nothing" in `Store.FeedbackStore.Create` applies only to the modelled rejections.
- `Feedback.Admit`: the body's texts are strings or absent, and its scores are integers or absent. Other JSON values are out of scope: a non-string text (whose `.trim()` throws), a fractional score, or a numeric string coerced by `Number()`.
- `Store.FeedbackStore.Find` and `Store.FeedbackStore.Delete`: path ids are integers. `Number(req.params.id)` (backend/server.js:40 and 126) on a non-numeric id gives NaN, which matches no record; the model's not-found result covers that outcome.
- `Statistics.Summarize`: averages are exact. The `toFixed(1)` rounding of the response is not modelled.
- `Statistics.CountAfter`: a week is a fixed 604800000 ms. The code uses `setDate(getDate() - 7)`, which differs across daylight-saving changes. Parsing the ISO `createdAt` string is not modelled.
- `Text.ToUpper`: handles ASCII letters only. Unicode case mapping is out of scope, including its length-changing cases.
- `Dashboard.GaugePercent`: takes the mean as a real number. The page passes the `toFixed(1)` string of the average, which `/` coerces back to a number; that one-decimal rounding is not modelled.
- Form UI state: `isSubmitting`, the success message and its 3-second timer, the `onFeedbackAdded` callback and the rendered markup. None of these changes the data or the error map.
- React batching: each handler is modelled as one step from the old state to the new one.
- Front end to back end, end to end:
  - The form posts its scores as `engagement`, `resources` and `satisfaction` (frontend/src/components/FeedbackForm.js:102-104). The server reads `teachingQuality`, `preparation` and `support` (backend/server.js:63).
  - The client paths come from `frontend/src/services/api.js`, which is not part of this model.
  - The two sides are therefore modelled separately. A post is modelled as accepted or rejected with a message.
- `frontend/src/App.js` and `frontend/src/components/FeedbackList.js` are not part of this model.
