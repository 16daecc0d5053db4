# email-hunter: key rotation and paginated fetch, modelled in Dafny

`email_hunter.py` collects email addresses for a list of domains from the
hunter.io API. It holds several API keys. The account endpoint reports, for each key, how
many calls are `available` and how many are `used`.
For every domain it asks how many emails are known. It then fetches them page
by page. Before each page it picks the first key that still has calls left.
It asks for the emails still needed, but no more than that key's calls left
can pay for, at 10 emails per call. The
results go to a `;`-separated file with one row per (domain, email) pair.

This project models that logic:

- `wrappers.dfy` (module `Wrappers`): the `Option` type.
- `text.dfy` (module `Text`): Python's `str.strip()` and `str.split(sep)`, as
  used to read the key file, the domain list and the input file name.
- `selector.dfy` (module `KeySelector`): `get_api_key`, the first-fit key
  selector. Each key's account lookup is an input: an error payload, or the
  key's `available` and `used` call counters.
- `fetcher.dfy` (module `Fetcher`): `query_domain`, the paginated fetch loop.
  It is a method with a `while` loop, proved against a specification
  function (`Fetch`, built from `Round` and `Run`).
- `orchestrator.dfy` (module `Orchestrator`): the domain loop of `main`. It is
  a method proved against the specification function `Collect`.
- `results.dfy` (module `Results`): the output file name and the rows that
  `save_results` writes.
- `inputfiles.dfy` (module `InputFiles`): parsing the key file `api.txt`.
- `session.dfy` (module `Session`): one whole run of `main`, from the two
  files' lines to the saved rows.

The network is replaced by inputs:

- the email-count endpoint's answer for each domain;
- the account lookups of every key, one list per trip round the fetch loop
  (the source reads the quota afresh before each page);
- the domain-search endpoint, as a function from (domain, key, limit, offset)
  to the list of email values it returns.

The fetch loop in the source has no guard against an empty page. After one,
the loop's state is unchanged and it issues the same request again, so it can
run forever. The model runs on a finite list of rounds. When that list is used
up while emails are still left, the outcome is `OutOfRounds`. A domain loop
that meets it ends as `Hung` and saves nothing. `Hung` only says that the
supplied rounds were used up; more rounds might still have finished the run.
`EmptyPagesSpin` proves that when every round hands out a key and every page
is empty, no number of rounds finishes the fetch. `NonEmptyPagesFinish`
proves that when every round hands out a key and every page is non-empty,
the fetch returns within `emails_left` rounds. When a round finds no usable
key, the fetch ends as `KeysExhausted` instead.

Behaviour of the code worth knowing:

- A domain whose email count is 0 gets no entry in the results (line 159).
  The test is Python truthiness, so a negative count does get an entry:
  `query_domain` returns `[]` for it.
- The output file name is the text before the FIRST `.` of the input name,
  plus `_results.csv`. It does not replace the extension: `a.b.txt` gives
  `a_results.csv`.
- With no key configured, `get_api_key` calls `sys.exit(0)`. The process
  ends at the first domain that needs fetching, and nothing is saved.
  This is `NoApiKeys` in the selector and `ProcessExit` in the fetcher.
- When the keys run out mid-domain, the emails collected so far for that
  domain are dropped. The domain gets no entry, and the loop goes on with
  the next domain.

## Model

| member | source | states |
|---|---|---|
| `KeySelector.Grant` | email_hunter.py:62-65 | the grant is the smaller of the needed count and 10 times the calls left: never more than either, exactly the needed count iff the key's capacity covers it, and positive when the needed count is |
| `KeySelector.FirstFit` | email_hunter.py:50-66 | the scan over the keys in order: it fails iff no key's lookup succeeded with calls left; otherwise it picks the first such key, after skipping every error and every key with calls left <= 0, and grants `Grant` of that key's calls left |
| `KeySelector.GetApiKey` | email_hunter.py:45-66 | the process exits iff no key is configured; `NoValidApiKeyException` iff keys exist but none is usable; otherwise the first usable key in list order, with its grant |
| `KeySelector.IgnoresLaterKeys` | email_hunter.py:50-65 | the early return: the lookups of keys after the chosen one have no effect on the selection |
| `Fetcher.Round` | email_hunter.py:88-106 | one trip round the loop stops only with key exhaustion or the process exit; otherwise it appends a page to the emails and moves `offset` up and `emails_left` down by that page's length |
| `Fetcher.QueryDomain` | email_hunter.py:81-107 | the `while emails_left > 0` loop returns exactly what the specification `Fetch` gives; `[]` without asking for a key when `email_count <= 0`; a returned list holds at least `email_count` emails |
| `Fetcher.AfterInvariant` | email_hunter.py:83-106 | after every round `offset == len(emails)` and `emails_left == email_count - len(emails)`; each round requested the page at the current offset with the selected key and granted limit, and appended it to the earlier emails |
| `Fetcher.ExhaustionPropagates` | email_hunter.py:88-91 | when the selector finds no valid key at any round, the whole fetch raises and none of the emails collected so far is returned |
| `Fetcher.RunCovers` | email_hunter.py:86-107 | from any state, a successful fetch extends the emails already collected by at least `emails_left` more |
| `Fetcher.FetchCovers` | email_hunter.py:86-107 | a list returned by `query_domain` holds at least `email_count` emails |
| `Fetcher.EmptyPageNoProgress` | email_hunter.py:101-106 | an empty page leaves `emails`, `offset` and `emails_left` unchanged |
| `Fetcher.EmptyPagesSpin` | email_hunter.py:86-106 | when keys are always granted but every page is empty, no number of rounds ever finishes the fetch |
| `Fetcher.NonEmptyPagesFinish` | email_hunter.py:86-106 | when keys are always granted and every page is non-empty, the fetch returns within `emails_left` rounds |
| `Fetcher.TwoKeyRotation` | email_hunter.py:86-106 | with two keys worth 10 and 100 emails and 12 emails wanted, the first page takes 10 from the first key at offset 0, the next round skips the now used-up first key and takes the last 2 from the second key at offset 10 |
| `Orchestrator.ProcessDomains` | email_hunter.py:154-169 | the domain loop appending to `results` gives exactly the specification `Collect` |
| `Orchestrator.CollectSound` | email_hunter.py:159-169 | every result entry comes from a domain with a non-zero count whose fetch succeeded, with exactly that fetch's emails; so zero-count and exhausted domains leave no entry, and there are at most as many entries as domains |
| `Orchestrator.CollectComplete` | email_hunter.py:159-169 | every domain with a non-zero count whose fetch succeeded has its entry, with the emails of that fetch |
| `Orchestrator.CollectAppend` | email_hunter.py:154-169 | entries follow the order of the domains: the results for `d1 + d2` are those for `d1`, then those for `d2`; a loop that exits or hangs in `d1` never reaches `d2` |
| `Orchestrator.NoKeysExits` | email_hunter.py:47-49 | with no key configured, the first domain with a positive count (given at least one round) ends the process: the loop's outcome is `Exited`, so nothing is saved |
| `Session.TwoDomainScenario` | email_hunter.py:154-169 | for `a.com` with count 0 and `b.com` with count 15 and one key worth 20 emails, only `b.com` gets an entry, with 15 emails from a single request, and the file holds the header and 15 rows for `b.com` |
| `Results.OutputFilename` | email_hunter.py:120 | the output name is a prefix of the input name with no `.`, ending at the input's first `.` or its end, followed by `_results.csv` |
| `Results.RowsOf` | email_hunter.py:126-128 | the rows of one result pair its domain with each of its emails, in order; a row is among them iff it has that domain and one of those emails |
| `Results.Flatten` | email_hunter.py:125-128 | there is one row per (result, email) pair |
| `Results.FlattenMembers` | email_hunter.py:125-128 | a row is written iff some result has its domain and its email |
| `Results.CsvRowsAt` | email_hunter.py:122-128 | the file's first row is the `Domain;Email` header, and email `j` of result `k` is on row 1 + (emails of the results before `k`) + `j`, as (domain of `k`, email `j`) |
| `Results.CsvRowsMembers` | email_hunter.py:122-128 | after the header, a row is in the file iff some result has its domain and its email |
| `Results.FlattenAppend` | email_hunter.py:125-128 | the rows of `a + b` are the rows of `a` followed by the rows of `b` |
| `Results.FlattenAt` | email_hunter.py:125-128 | email `j` of result `k` is written at position (emails of the results before `k`) + `j`, as the row (domain of `k`, email `j`) |
| `InputFiles.ParseKeyLine` | email_hunter.py:146 | field 1 of `line.strip().split(':')` exists iff the stripped line has a `:`; it is the text after the first `:` up to the next `:` or the end |
| `InputFiles.KeyLineRoundTrip` | email_hunter.py:146 | a line written `label:key`, with no `:` in either part and no whitespace at the ends, gives back `key` |
| `InputFiles.LoadKeys` | email_hunter.py:145-146 | a loaded key list holds one key per line |
| `InputFiles.LoadKeysFails` | email_hunter.py:145-146 | loading fails iff some line has no key field |
| `InputFiles.LoadKeysFields` | email_hunter.py:145-146 | a loaded key list holds, in order, the key field parsed from each line |
| `Session.Hunt` | email_hunter.py:145-171 | a run fails at the key file iff some key line has no `:`; it is saved iff the keys load and the domain loop finishes, and exits early iff the keys load and the loop exits; a saved run writes to the derived file name, and its rows start with the header |
| `Session.HuntRowsComplete` | email_hunter.py:152-171 | when the keys load and the domain loop finishes, the run is saved, and every email fetched for a stripped domain line whose count was non-zero is saved as a row with that domain |
| `Session.HuntRowsSound` | email_hunter.py:152-171 | every data row saved pairs a stripped domain line whose count was non-zero with an email that domain's fetch returned |
| `Text.Strip` | email_hunter.py:146 | `strip()` gives the slice of the input after its leading whitespace; everything cut from either end is whitespace, and the result starts and ends with non-whitespace |
| `Text.StripTrimmed` | email_hunter.py:146 | `strip()` leaves a string without whitespace at its ends unchanged |
| `Text.Split` | email_hunter.py:146 | `split(sep)` always gives at least one field, the first being the text before the first `sep` |
| `Text.SplitFields` | email_hunter.py:146 | no field of `split(sep)` holds `sep`, and there is more than one field iff the input holds `sep` |
| `Text.JoinSplit` | email_hunter.py:146 | joining the fields of `split(sep)` with `sep` gives back the input |
| `Text.SplitJoin` | email_hunter.py:146 | splitting fields joined with `sep` gives back the fields, when none of them holds `sep` |

## Left out

- HTTP calls (`requests.request`, lines 28, 52, 96, 113) are replaced by the
  inputs described above. A failed request or a response without the
  expected fields raises in the source; the model does not cover that.
- `query_email_count` (lines 110-115) is only an HTTP call. Its answer for
  each domain is an input (`DomainInput.count`).
- `query_api_keys` (lines 22-42) only prints each key's quota status. It
  computes the same `available - used` as `KeySelector.Remaining`.
- `check_MX` (lines 69-78) queries DNS and is never called.
- Console output (`print`, `sys.stdout`, `termcolor`, `BOLD`/`ENDBOLD`),
  argument parsing, and the `--apikey` flag (lines 132-150) are left out.
- Opening and reading files is left out. The key file and the domain file
  are given as lists of lines.
- CSV quoting is left out. `Results.CsvRows` gives the rows as pairs of
  fields, not the quoted text the CSV writer produces.
- The domain file name is always given as a string. The source crashes when
  the positional argument is missing (`args.filename` is `None`).
- `if api_key is not None` (line 92) is always true, because `get_api_key`
  never returns `None`. The model has no such branch.
- `Fetcher.Round`: states the new state for some page, not which page. The
  page's exact origin (the selected key and limit at the current offset) is
  stated by `Fetcher.AfterInvariant`.
- Fetcher loop termination: the model runs on a finite list of rounds. It
  cannot show a run that goes on forever; `OutOfRounds` marks one that the
  given rounds did not finish.
