# Top stories for a launcher: a Dafny model

The program lists the top-ranked story ids of the Hacker News API. It fetches
the first 30 stories concurrently. Then it shows them as the 30 items of the
JSON document a launcher (Alfred) reads. This project models the sequential
logic under that I/O and proves properties of it:

- **Ranked slot assembly** (`hndsimpl.topStories`). The method
  `TopStories.FetchTopStories` preallocates 30 zero stories in an array and
  launches one task per id, stopping at 30. Each task writes the story it
  fetched into the slot bound to it at launch.
  - The goroutines are modelled as running one after another in their
    completion order. That order is the parameter `order`, a permutation of the
    launched tasks. The contract shows that the result does not depend on it.
  - The listing (GET, read, JSON decode) is a parameter `list`. Each item's
    GET, read and decode is an abstract total function `fetch` from an id to a
    story or an error.
  - A failing item fetch panics in the program. The model ends with
    `Panicked(ErrorPanic(e))`, where `e` is the error of a failing launched task.
- **Presentation mapping** (`hnHotFetcher.run`). `HotFetcher.Run` maps the data
  service's stories index for index onto 30 items. It covers the error path and
  the slice-index panic for an answer longer than 30.
  `HotFetcher.HotFetcherRun` composes `run` with the program's own fetcher.
- **Relative time** (`timeago`). `TimeAgo.Bucket` computes the bucket and count
  from the current time `now`, which is passed in. `TimeAgo.Render` prints them.
  The code's nanosecond arithmetic and Go's truncating division are kept,
  including the minutes-branch defect (see Findings).
- **Comment count text**, the **discussion-page link**, and Go's `%v` printing
  of integers (`Decimal.IntToString`, with its inverse `Decimal.ParseInt`).

Facts about the program's behaviour that the model keeps:

- A story 30 minutes old is printed as "30000000000 minutes ago", not
  "30 minutes ago" (see Findings).
- A failing item fetch panics inside its task. No error reaches the caller,
  so the model ends in `Panicked`.
- The number of stories fetched and shown is fixed at 30.
- Slots past a short ranking still become valid items in `run`: an empty
  title, "0 points", and an `alt` link to discussion id 0. `HotFetcherRun`
  states this.

## Model

| member | source | states |
|---|---|---|
| `TopStories.Launched` | main.go:75-78 | the number of launched fetches is min(30, len(topIDs)): at most 30 and at most the number of ids |
| `TopStories.FetchTopStories` | main.go:36-85 | every return holds exactly 30 slots. A listing error returns 30 zero stories with that error and calls no fetch. It panics exactly when some launched fetch fails, and the panic carries one of the failing errors. Otherwise slot r holds the story fetched for topIDs[r] for r < min(30, len), and the zero story after that, whatever the completion order. Only ids of rank below 30 are fetched, and on success each launched id is fetched |
| `TopStories.SlotsDependOnLaunchedOnly` | main.go:75-82 | item sources that agree on the launched ids give the same verdict and the same slots; cutting the ranking to its first min(30, len) ids changes nothing |
| `HotFetcher.Run` | main.go:97-126 | returns exactly 30 items. On an error it returns 30 zero items and that error. Otherwise item idx is the shown form of story idx, with the time read from the clock when that item is formatted, and items past the last story keep the zero value. More than 30 stories panic with an index-out-of-range at index 30 |
| `HotFetcher.HotFetcherRun` | main.go:170-171 | `run` over the program's own fetcher. A listing error gives 30 zero items and the error. A failed fetch aborts. Otherwise item idx is exactly the shown form of the story fetched for rank idx, at the clock reading for that item. Items past a short ranking show the zero story |
| `Alfred.PresentShowsStory` | main.go:110-123 | a shown item has the story's title and URL and Valid = true. Its `alt` action is valid and opens the story's discussion page. It has no `cmd` action. Equal `alt` actions mean equal story ids |
| `Alfred.CommentsText` | main.go:104-109 | the comment text is the decimal count followed by " comment" for exactly one kid and " comments" otherwise, including zero |
| `Alfred.SingularOnlyForOne` | main.go:105-109 | the text "1 comment" is produced for a count of one and for no other count |
| `Alfred.CommentsTextExamples` | main.go:105-108 | 0, 1 and 5 kids print "0 comments", "1 comment" and "5 comments" |
| `Alfred.ItemUrlInjective` | main.go:118 | distinct story ids give distinct discussion-page URLs |
| `TimeAgo.GoQuo` | main.go:132 | Go's integer division truncates toward zero. The remainder has the dividend's sign and is smaller than the divisor |
| `TimeAgo.BucketBoundaries` | main.go:130-141 | with d = now - ts seconds: the minutes branch exactly when d < 3600 (future timestamps included). d/3600 hours (1 to 23) exactly when 3600 <= d < 86400. The singular day exactly when 86400 <= d < 172800. Otherwise d/86400 days, at least 2 |
| `TimeAgo.FutureTimestamp` | main.go:130-132 | a timestamp one second in the future takes the minutes branch with the count -16666666, truncated toward zero |
| `TimeAgo.HourExamples` | main.go:133-134 | exactly 3600 s prints "1 hours ago" and 7200 s prints "2 hours ago" |
| `TimeAgo.DayExamples` | main.go:135-141 | exactly 86400 s prints "1 day ago" and three days print "3 days ago" |
| `TimeAgo.RenderInjective` | main.go:131-141 | distinct buckets or counts print as distinct texts |
| `TimeAgo.MinutesAsWritten` | main.go:130-132 | for 0 < d < 3600 the printed minute count is d * 10^9 / 60, at least 16666666 |
| `TimeAgo.ThirtyMinutesAsWritten` | main.go:130-132 | a story 1800 s old is printed with 30000000000 minutes, not "30 minutes ago" |
| `TimeAgo.IntendedMinutes` | main.go:130-132 | dividing by a minute of nanoseconds prints d/60 truncated toward zero (0 to 59 for 0 <= d < 3600) and leaves the hour and day buckets unchanged |
| `Decimal.NatToString` | main.go:108 | `%v` of a count is a non-empty string of decimal digits with no leading zero: "0" for zero, and a first digit other than 0 otherwise |
| `Decimal.ParseIntToString` | main.go:112 | reading back the decimal text of any integer gives that integer |
| `Decimal.IntToStringInjective` | main.go:118 | distinct integers print as distinct texts |

## Left out

- HTTP GETs, reading and closing bodies, and JSON decoding (main.go:39-51, main.go:58-70) are parameters. Their failures are represented by which step failed, not by Go's error messages.
- The in-flight cap (`itemfetchsem`, sized by `runtime.NumCPU()`), `sync.WaitGroup` and interleaving (main.go:33, main.go:53-57, main.go:79-83, main.go:89) are not modelled. The tasks share only their own slots, so the model runs them one after another in a completion order given as a parameter. Whether at most NumCPU fetches are in flight is not stated.
- TopStories.FetchTopStories: when several fetches fail, the program panics in whichever goroutine fails first. The model panics with the first failure in the given completion order, and the other tasks' writes are not followed after the abort.
- HotFetcher.Run: the output slice is a local `seq` updated index by index rather than a heap array. Nothing else can reach the slice before `run` returns.
- HotFetcher.Run: `time.Now()`, read once per `timeago` call, is the parameter `clock`, where `clock(idx)` is the reading taken while item idx is formatted. No relation between readings (such as monotonicity) is assumed or stated.
- TimeAgo.Bucket: integers are unbounded, so the int64 overflow of `(now - ts) * time.Second` for deltas beyond about 292 years is not modelled. The current time is the parameter `now`.
- `main`, `emitalfredoutput`, `json.Marshal`, logging, and the final `panic` on an error (main.go:168-184) are process plumbing and are not modelled.
- `fmt.Sprintf` is modelled only for `%v` of integers and `%s` of strings (inserted verbatim). The int64 bound of printed numbers is not modelled.

## Findings

| source | as written | input that shows it | evidently intended | confidence | as-written member | corrected member |
|---|---|---|---|---|---|---|
| main.go:130-132 | the minutes branch divides the nanosecond delta by the plain number 60 | now - ts = 1800 prints "30000000000 minutes ago" | divide by `time.Minute`, printing "30 minutes ago" | high; not executed | `TimeAgo.ThirtyMinutesAsWritten` | `TimeAgo.IntendedMinutes` |

The corrected definition is `TimeAgo.IntendedBucket`. The subtitle in
`Alfred.Subtitle` keeps the as-written `TimeAgo.Bucket`, because the model
states what the program prints.
