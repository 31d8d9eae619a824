# Steam Deck refurbished stock monitor — a Dafny model

This project models one run of the refurbished Steam Deck stock monitor, `main` in
`monitor_api.py`. A run loads the last-known availability of each Steam package and polls
the Steam inventory API once per package, in the fixed order of the package table. A failed
fetch carries the previous value forward. The run then saves the new state, works out which
models have just become available, and notifies by e-mail and by Discord webhook when
anything is new. It ends with a three-way summary and exit status 0.

The model works at two levels:

- `Detect` is the pure fold over the package table. Its inputs are the previous state
  (`map<string, bool>`) and one tri-state answer per package (`Option<bool>`). It produces
  the state to save, the in-stock names and the newly-available names. Its lemmas state
  carry-forward, overwrite, exact membership, table order, the subsequence relation and
  the absence of re-alerts.
- `RawCycle` is the same loop over the Python values the source really handles. These are
  whatever `json.loads` and `check_stock` return: JSON values read through Python
  truthiness, saved raw, with a previous state that need not be a dict.
  `RawCycle.RawPollRefines` proves that, when the previous state is a dict, this loop never
  raises and computes `Detect`'s fold under the truthiness abstraction.

The other modules are:

- `Fetch` reduces a reply body to the tri-state answer (`check_stock`).
- `StateStore` loads and saves the state file.
- `Notify` covers both notifiers and their gating.
- `Monitor` composes one whole run.
- `Scenarios` holds two worked runs over the shipped table.

Network calls, SMTP, the file system, environment variables and the clock are not modelled.
Each fetch is given as a `Fetch.Reply`. The loaded file is given as a `StateStore.StateFile`.
The configuration is an immutable `Notify.Config` record. A notifier yields the request it
would send, and the delivery outcome is a given flag.

Three details of the source shape the model:

- `raise_for_status` raises only for statuses 400–599, so any other status with a JSON
  body is read normally (`Fetch.RaisesForStatus`).
- `load_previous_state` returns any document that parses, dict or not (see Findings).
- `main` saves the raw value `check_stock` returned (for example `1` or `"yes"`), not a
  boolean. `RawCycle` keeps the raw value. `Detect` sees only its truthiness, which is all
  that later runs ever read.

## Model

| member | source | states |
|---|---|---|
| `Catalog.ProductsWellFormed` | monitor_api.py:35-41 | The package table has five entries, with distinct ids (so it is a proper dict) and distinct display names. |
| `Fetch.CheckStock` | monitor_api.py:46-57 | `check_stock` returns `None` whenever the request, the status check, the decoding or a `.get` on a non-dict raises. A decodable body that lacks `response` or `inventory_available` gives `False`. Otherwise it returns the flag value exactly as stored, whatever its JSON type. |
| `Fetch.Availability` | monitor_api.py:46-57 | A missing `response` or `inventory_available` key reads as unavailable, not unknown. Every caught exception reads as unknown: network failure, a 4xx/5xx status, an undecodable body, or `.get` on a non-dict. Unknown arises exactly from such an exception or from an explicit JSON `null` flag. A boolean flag passes through unchanged. |
| `Fetch.Exhaustive` | monitor_api.py:50-57 | Every reply either raised inside `check_stock`, lacks the flag, or carries some flag value. |
| `StateStore.LoadAsWritten` | monitor_api.py:113-121 | `load_previous_state` as written: a missing file, or one that fails to read or parse, gives `{}`. Any document that parses is returned unchanged, dict or not. |
| `StateStore.Load` | monitor_api.py:113-121 | Loading always yields a dict. A missing or unreadable file, or one holding anything but a JSON object, gives the empty state. Otherwise the stored object is returned (corrected load; as written, see Findings). |
| `StateStore.Save` | monitor_api.py:124-127 | The file is overwritten with the whole state, and the next load returns exactly that state. |
| `Detect.Poll` | monitor_api.py:137-165 | The new state has exactly one entry per package id of the table. Ids that were only in the previous state are dropped. At most as many names are new as are in stock, and at most one name is in stock per package. |
| `Detect.PollLoop` | monitor_api.py:138-162 | The imperative loop over the table computes the fold. Its state has one key per package, and its two lists are the in-stock and the newly-available selections in table order. |
| `Detect.PollValues` | monitor_api.py:147-151 | With distinct ids, each package is saved with the fetched value, or with `previous.get(id, False)` when the fetch was unknown. |
| `Detect.SavedValue` | monitor_api.py:147-151 | Carry-forward: on an unknown answer the saved value equals the previous value, and an absent entry becomes false. Overwrite: on a known answer the saved value is exactly the fetched boolean, whatever it was before. |
| `Detect.PollInStock` | monitor_api.py:152-154 | The in-stock list is the names of the packages fetched as available, selected in table order. |
| `Detect.PollNewly` | monitor_api.py:152-158 | The new list is the names of the packages fetched as available whose previous value was false or absent, selected in table order. |
| `Detect.InStockExactly` | monitor_api.py:144-154 | A name is in the in-stock list if and only if some package with that name was fetched as available. |
| `Detect.NewlyExactly` | monitor_api.py:144-158 | A name is in the new list if and only if some package with that name was fetched as available and its `previous.get(id, False)` is false. |
| `Detect.SomethingNew` | monitor_api.py:152-158 | The new list is non-empty exactly when some package is newly available. |
| `Detect.SomethingInStock` | monitor_api.py:152-154 | The in-stock list is non-empty exactly when some fetch answered available. |
| `Detect.FailedNeverNew` | monitor_api.py:147-149 | A package whose fetch was unknown never appears in the new list, whatever its previous value. |
| `Detect.NewlyWithinInStock` | monitor_api.py:152-158 | The new list is a subsequence of the in-stock list: the same names with some deleted, in the same order. |
| `Detect.NoReAlert` | monitor_api.py:144-158 | A re-run on the saved state with the same answers reports nothing new and keeps the same in-stock list. |
| `Detect.StableState` | monitor_api.py:144-151 | A re-run on the saved state with the same answers saves that same state. |
| `Detect.FirstRunAllNew` | monitor_api.py:152-158 | From an empty previous state, every in-stock model is new. |
| `Detect.SelectLength` | monitor_api.py:152-154 | A selection holds one name per set flag, so the in-stock count is the number of packages fetched as available. |
| `RawCycle.RawStep` | monitor_api.py:145-158 | One iteration raises exactly when the previous state is not a dict and the answer is `None` or truthy. Otherwise it writes the package's entry: `previous_state.get(id, False)` on `None`, else the raw answer. It appends the name to the in-stock list iff the answer is truthy, and to the new list iff, in addition, `previous_state.get(id, False)` is falsy. |
| `RawCycle.RawStepRefines` | monitor_api.py:145-158 | With a dict as previous state, one iteration over raw Python values never raises. Its truthiness view equals the abstract iteration. |
| `RawCycle.RawPoll` | monitor_api.py:144-162 | The loop as written never raises when the previous state is a dict. Whenever it completes, the state has exactly one key per package id, and at most as many names are new as are in stock, at most one per package. |
| `RawCycle.RawPollRefines` | monitor_api.py:144-162 | With a dict as previous state, the loop over raw values never raises. The truthiness of what it saves is the abstract state, and both name lists agree with the abstract fold. |
| `RawCycle.NonDictRaises` | monitor_api.py:147-158 | With a previous state that is not a dict, the loop raises exactly when some answer is unknown or truthy, since only those branches call `previous_state.get`. |
| `Notify.EmailRequest` | monitor_api.py:60-75 | A mail is composed if and only if sender, recipient and password are all non-empty. It goes from the configured sender to the configured recipient, with the given subject, and lists exactly the given models. |
| `Notify.SendEmail` | monitor_api.py:60-81 | `send_email` reports success if and only if it is configured and the SMTP session succeeded. |
| `Notify.Fields` | monitor_api.py:94-97 | The embed has exactly one field per model, in order. Each field is named after its model, reads "✅ EN STOCK" and is inline. |
| `Notify.DiscordRequest` | monitor_api.py:84-103 | A POST is made if and only if the webhook is non-empty. It goes to that webhook, with the given description, and its field names read back as exactly the given models. |
| `Notify.SendDiscord` | monitor_api.py:84-110 | `send_discord` reports success if and only if the webhook is configured and the POST succeeded. |
| `Notify.Dispatch` | monitor_api.py:168-201 | Nothing is sent unless the new list is non-empty. A mail is attempted if and only if something is new and all three credentials are set. A webhook POST is attempted if and only if something is new and the webhook is set. When both are attempted the mail comes first. Every attempt announces exactly the new models. |
| `Monitor.Summarize` | monitor_api.py:168-206 | The closing line reports new stock, with the new list, iff that list is non-empty. Otherwise it reports the in-stock count iff some model is in stock, and none available iff both lists are empty. |
| `Monitor.Run` | monitor_api.py:130-209 | Every run saves the state file and ends with status 0, whether or not anything was new or any fetch failed. The saved file holds exactly one entry per package of the table, whatever it held before (corrected load; as written, see Findings). |
| `Monitor.RunAsWritten` | monitor_api.py:130-209 | `main` as written returns 0 on every path that completes (`0 if not newly_available else 0`). The only other outcome is an uncaught exception from the loop. |
| `Monitor.RunIsPoll` | monitor_api.py:137-203 | A run saves the fold's state. It dispatches exactly the fold's new list, and its summary is built from the fold's two lists. |
| `Monitor.RunMatchesAsWritten` | monitor_api.py:113-121 | When the loaded state is a dict, or the file is missing or unreadable, the run as written and the corrected run agree. |
| `Monitor.NonDictStateRaises` | monitor_api.py:116-121 | With a state file holding `[]` and an unreachable API, the run as written raises. The corrected run completes with status 0. |
| `Monitor.RunSummary` | monitor_api.py:168-206 | The summary reports new stock if and only if some package was fetched as available after being unavailable or absent before. Otherwise it counts the packages fetched as available. It reports "none available" if and only if no fetch answered available. |
| `Monitor.PollSummary` | monitor_api.py:144-206 | For any package table, the summary of the fold reports new stock iff some package is fetched as available and was false or absent before. A count, when reported, is the number of packages fetched as available. "None available" is reported iff no fetch answered available. |
| `Monitor.RunNoReAlert` | monitor_api.py:137-168 | A second run on the file the first run saved, with the same answers, sends nothing. It does not report new stock and saves the same availability. |
| `Scenarios.OneNewPackage` | monitor_api.py:144-158 | Start from {64GB LCD: false, 256GB LCD: false} with only the 64GB LCD fetched as available. The summary announces just that model, which is saved as available while the 256GB LCD is saved as unavailable. |
| `Scenarios.FailedFetchCarriesForward` | monitor_api.py:147-149 | Start from {64GB LCD: true}, with that package's fetch failing and the rest unavailable. It stays saved as available, nothing is sent, and the summary is "none available". |

## Left out

- HTTP GET and POST (`requests`) and SMTP (`smtplib`) are foreign network calls. Each fetch is a given `Fetch.Reply`, and each send yields the request it would make plus a given delivery flag.
- Reading environment variables is left out. The configuration is an immutable `Notify.Config` passed in.
- File I/O and JSON text (de)serialisation in `load_previous_state` and `save_state` are left out. The file is given as what `json.loads` made of it, so JSON text round-tripping and key order in the written file are not modelled.
- JSON numbers are modelled as reals, so Python's distinction between `int` and `float` is not kept. Only truthiness is read from them.
- The timestamps (`datetime.now`, `datetime.utcnow`) are clock-dependent, so the embed's `timestamp` is not modelled.
- The HTML styling of the mail body is presentation. The mail carries the list of models and the country code it renders.
- Console output is not modelled. This covers the per-package status line ("Erreur" / "EN STOCK" / "Épuisé") and the banner. The `models_text` string built at line 173 is never used by the source.
- The country code only parametrises the request URL and the message texts. Replies are given per package, so the URL itself is not modelled.

## Findings

| source | as written | input that shows it | evidently intended | confidence | as-written member | corrected member |
|---|---|---|---|---|---|---|
| monitor_api.py:116-121 | `load_previous_state` returns any document that `json.loads` accepts, dict or not. Lines 149 and 157 then call `previous_state.get`, which raises `AttributeError` outside any `try`, so the run stops with a traceback and a non-zero status and saves nothing. | A state file holding `[]`, and a run in which at least one fetch is unknown or available | A state file that does not hold a dict is treated like a corrupt one: the state is empty and the run completes with status 0 | medium; not executed | `Monitor.NonDictStateRaises` | `StateStore.Load` |
