# Paginated episode collector

This project models the episode collector of a small Go program (`main.go`). The program
fetches a podcast show's catalog from a web API and stores every episode in a key-value
table. The only part with decisions in it is the loop in `main` that pages through the
show's episodes:

- pass 0 fetches the show URL and decodes the body as the first-page record
  (`ProgramInfo`, whose items and next link sit under `episodes`);
- every later pass decodes the body as the flat later-page record (`ProgramInfoNext`);
- each pass appends the page's items to `items` and adds their number to `readItem`;
- pass 0 sets `totalItem` from the first page's `totalEpisodes`;
- the loop leaves when a page has an empty next link, or when `readItem == totalItem`
  after a page that had one; otherwise it fetches that next link;
- any transport error, any status other than 200 and any decode error ends the run with
  nothing collected.

Modules:

- `Catalog` (catalog.dfy): the page records, `Item`, and the `Page` union of the two shapes.
- `Transport` (transport.dfy): the request with its bearer header, the server's answer,
  the faults, and `GetProgramData`'s status handling.
- `Loop` (loop.dfy): the loop's variables as a `State`, one pass as `Step`, and the loop as
  `Run`, which is allowed a fixed number of fetches. The network and JSON decoding are the
  parameters in `Env`. The later-page decoder also receives the record it decodes into,
  because `pin` is declared outside the loop and reused on every pass.
- `Facts` (facts.dfy): a description of a finished run that does not mention the loop.
  The fetches form a chain from the show URL along next links. Each page is its response
  body, decoded by its position. No page before the last one stops the loop, and the last
  one does. The module proves that `Run` collects exactly that chain, and that the chain
  is unique.
- `Paginator` (paginator.dfy): the loop as the program runs it, a `while` loop over the
  same variables, proved equal to `Run`.
- `Scenarios` (scenarios.dfy): concrete runs against small servers.

The state also holds a `log` of the requests sent and the pages decoded. The program
keeps no such log; the model uses it to state facts about the run.

## Model

| member | source | states |
|---|---|---|
| `Transport.Authorization` | main.go:150 | every page request carries `Bearer ` followed by the access token, and nothing else |
| `Transport.GetProgramData` | main.go:144-169 | a body is delivered exactly when a response arrived with status 200 and a readable body; another status is an upstream-status fault carrying that code; no response or an unreadable body is a transport fault |
| `Paginator.CollectEpisodes` | main.go:301-350 | the imperative loop gives the same outcome as `Run`; when it finishes, its state is the unique chain that `Facts.Complete` describes; when its fetch allowance runs out, the state is a `Continuing` prefix with exactly that many fetches |
| `Facts.InitContinuing` | main.go:297-307 | the initial variables (URL is the show URL, counters zero, no items, zero `pin`) are the start of every run |
| `Facts.Absorbed` | main.go:320-323 | after a page is appended, `items` is the concatenation of all pages fetched so far, `readItem` is its length, `totalItem` is the first page's `totalEpisodes`, and the loop stops exactly on an empty next link or on `readItem == totalItem` |
| `Facts.StepFromContinuing` | main.go:309-349 | one pass appends exactly one fetch. If that fetch stops the loop, the pass breaks in a `Complete` state. Otherwise the next pass fetches that page's non-empty next link, and the count has not reached the total |
| `Facts.RunSound` | main.go:308-350 | from any mid-run state, a run that finishes is `Complete` after between 1 and fuel further fetches; a run still going is `Continuing` after exactly fuel fetches |
| `Facts.StepFollows` | main.go:309-345 | from a prefix of a finished chain, the next pass requests the chain's next URL with the token, gets the chain's next page, and does not fail |
| `Facts.CompleteDetermined` | main.go:320-349 | a finished state (URL, counter, `pin`, items, both counts) is fixed by its fetches |
| `Facts.RunReaches` | main.go:308-350 | from any prefix of a finished chain, with enough fetches left, the loop reaches exactly that chain's final state |
| `Facts.CollectedIsComplete` | main.go:297-350 | a run from the show URL that finishes is a `Complete` chain of at least one and at most fuel fetches |
| `Facts.CollectsExactlyTheChain` | main.go:297-350 | the loop collects state `t` if and only if `t` is a `Complete` chain from the show URL and the fetch allowance covers it |
| `Facts.CompleteUnique` | main.go:308-350 | the loop can finish in only one way: two `Complete` states of the same server, token and start are equal |
| `Facts.RunSplit` | main.go:308 | allowing more fetches continues a pending run and does not change a finished or aborted one |
| `Facts.AbortAtAnyFetch` | main.go:309-334 | a fault on fetch k (transport, status at main.go:159-161, or any decode, first-page or later) aborts the whole run, for every allowance beyond k, and the aborted outcome carries no items |
| `Facts.AbortedAtSomeFetch` | main.go:309-334 | conversely, for every fault (transport, status at main.go:159-161, or any decode), an aborted run was pending after some k fetches and failed on fetch k+1 with that fault |
| `Facts.FlattenItemsOnly` | main.go:323 | the collected items depend only on each page's item list, page after page, with no deduplication |
| `Facts.DecisionsIgnoreTotals` | main.go:68-76 | items and stop decisions depend only on each page's items and next link and on the first page's `totalEpisodes`; the first page's `episodes.total` and the later pages' `total` are never read |
| `Scenarios.TwoPagesCollected` | main.go:325-344 | a first page with A, B and a link, then a last page with C: two fetches, in link order, collect A, B, C |
| `Scenarios.FirstPageHoldsAll` | main.go:347-349 | a first page that already holds the total ends the run after one fetch, even though it has a next link, which is never requested |
| `Scenarios.ShortResult` | main.go:340-344 | an empty next link stops the loop even when fewer items than the total were read |
| `Scenarios.ServerErrorAborts` | main.go:159-161 | a 500 on the first request aborts the run with that status and no items |
| `Facts.FlattenPrefixGrows` | main.go:321-323 | the count of items read after a fetch is never smaller than after an earlier fetch |
| `Facts.OvershootOnlyEmptyNext` | main.go:340-349 | in any finished chain, if the count passed the first page's total after some fetch, the chain ended on a page with an empty next link: the equality test cannot fire again |
| `Facts.OvershootRunsOn` | main.go:347 | for every server: a run whose count passed the total after some fetch is collected only if its last page had no next link, so it keeps fetching while next links come |
| `Scenarios.EndlessFrom` | main.go:347 | for the one server `EndlessShow` (every page lists two items and links back, total 1): from any state with `readItem` above the total, no allowance of fetches finishes the run |
| `Scenarios.OvershootNeverStops` | main.go:347 | for the one server `EndlessShow`: its count overshoots the total on the first page and next links always come, so the run is never collected, however many fetches are allowed |

## Left out

- Paginator.CollectEpisodes: the program's loop has no bound. The model allows at most `maxFetches` fetches and returns `Unfinished` when they run out. `Facts.RunSplit` shows that a larger allowance only extends a pending run, so every run the program finishes is modelled.
- Token acquisition (`GetAccessToken`, main.go:105-142), an OAuth 2.0 client-credentials request as in section 4.4 of RFC 6749: its result appears only as the opaque `token` string.
- The HTTP exchange of `GetProgramData` (main.go:144-169) is the `server` parameter. The model has only its status and body handling.
- JSON decoding (`encoding/json`, main.go:315 and main.go:331) is the pair of decoder parameters. What a decoder does with fields the body omits or sets to null, and so with the stale `pin` it receives, is library behaviour and is not modelled.
- `pi` is decoded only on pass 0, while it still holds its zero value, so the first-page decoder gets no previous record.
- The table writer (`DeleteTable`, `CreateTable`, `PutItem`, main.go:171-274) and what DynamoDB does with a repeated `Name` key are not part of this model. The model ends with the collected `items`.
- Reading the configuration file (main.go:277-288), and the process exit that `log.Fatal` causes, are modelled as the `Aborted` outcome.
- The record fields the loop never reads (images, markets, URLs, flags, and so on) are not modelled. `Item.id` stands for an episode's identity.
- Go's `int` is 64 bits wide. `readItem` can only overflow after about 2^63 items, so counts are unbounded integers.

On the last page of a two-page show both stop conditions can hold at once. In the code the
empty-next `break` comes first, so the count test is not reached on that pass; the model
does the same.
