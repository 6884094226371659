# SPP impact-study alerts, in Dafny

A model of the `spp-impact-study-alerts` poller. The poller:

- reads the Southwest Power Pool OpsPortal listing of generator-interconnection impact studies;
- keeps a JSON store of the studies it has already alerted on, keyed by an identity string;
- sends an e-mail and SMS summary of the studies it has not seen before.

The model covers five parts:

- **`Studies`** (`studies.dfy`): the `Study` record, its identity `"{year_type_id}:{name}:{url}"`, and its dictionary form with the `from_dict` round trip.
- **`Scraper`** (`scraper.dfy`): `SPPScraper`. It models:
  - the page fetch, with retries and exponential back-off;
  - year-type discovery from the index page's links;
  - the two extraction strategies of a listing page: table rows under the last header row, and the fallback over `<a>` links;
  - the choice of categories (configured ids relabelled from discovery, or everything discovered);
  - the concatenation of all categories' studies.
- **`Storage`** (`storage.dfy`): `StudyStorage` as a class whose `data` field the methods update. The JSON file is a ghost field holding what a fresh load would read.
- **`Notifier`** (`notifier.dfy`): the plain-text summary, the HTML table, the e-mail notifier and the SMS notifier. The SMS notifier is a class with a lazily created client, message building and truncation to 1600 characters.
- **`Config`** (`config.dfy`): the defaults, the YAML overlay, the environment overrides and the comma-separated list parsing of `load_config`.
- **`Cli`** (`cli.dfy`): `cmd_check`, `cmd_discover`, `cmd_reset` and the dispatch in `main`. Each is a method over a fixed `World`, holding:
  - the portal's answers;
  - the clock reading;
  - how the SMTP exchange ends;
  - whether the Twilio package is installed;
  - which text messages are delivered.

  For `cmd_check`, `CheckExit` and `CheckedStore` state the exit code and the resulting store as functions of the inputs.

Helpers:

- `Wrappers`: `Option`, `Result`, and a `Completion` that is either a returned value or a raised Python exception.
- `Text`: the Python string operations the code relies on (`strip`, `split`, `join`, `in`, `str`, `int`).
- `Dicts`: an insertion-ordered dictionary with Python's update semantics.

Where the code does something other than one might expect, the model follows the code:

- A missing `twilio` package is re-raised by `SMSNotifier._get_client` (`spp_monitor/notifier.py:155-160`). The exception is uncaught in `cmd_check`, so the run ends with `ImportError` before `mark_seen`. One might expect a missing package to fail only the SMS channel. `Cli.CheckExit` raises `ImportError` in that case, and `Cli.CheckedStore` leaves the store untouched.
- E-mail connection errors are the subject of the finding below. `Cli.CmdCheck` covers both halves: the check as written (`Cli.CheckExitAsWritten`, `Cli.CheckedStoreAsWritten`) and the corrected check (`Cli.CheckExit`, `Cli.CheckedStore`). `Cli.CheckAsWrittenDiffers` states where they differ.

## Model

| member | source | states |
|---|---|---|
| Studies.IdentityIgnoresLabelAndDetails | spp-impact-study-alerts/spp_monitor/scraper.py:43-46 | a study's identity does not depend on its year-type label or its details |
| Studies.UniqueIdDeterminesCategory | spp-impact-study-alerts/spp_monitor/scraper.py:43-46 | two studies with the same identity belong to the same year type |
| Studies.UniqueIdDeterminesKeyFields | spp-impact-study-alerts/spp_monitor/scraper.py:43-46 | when neither name contains a colon, equal identities mean equal year type, name and URL |
| Studies.ColonInNameCollides | spp-impact-study-alerts/spp_monitor/scraper.py:43-46 | a colon in a name lets two different studies share one identity, so the previous lemma needs its requirement |
| Studies.DetailsRoundTrip | spp-impact-study-alerts/spp_monitor/scraper.py:54-64 | the details dictionary survives serialisation and reading back |
| Studies.FromDictToDict | spp-impact-study-alerts/spp_monitor/scraper.py:48-65 | reading back the dictionary form of any study gives that study |
| Studies.FromDictWithoutDetails | spp-impact-study-alerts/spp_monitor/scraper.py:64 | a stored study without a "details" key reads back with empty details |
| Dicts.Put | spp-impact-study-alerts/spp_monitor/scraper.py:134 | assigning `d[k] = v` makes the keys the old ones plus k and maps k to v; a new key is appended at the end, an existing one does not grow the dictionary, and keys stay distinct |
| Dicts.PutOther | spp-impact-study-alerts/spp_monitor/scraper.py:134 | assigning `d[k] = v` leaves the value of every other key as it was |
| Scraper.FirstSuccess | spp-impact-study-alerts/spp_monitor/scraper.py:91-95 | finds the first attempt that succeeds; every earlier attempt failed |
| Scraper.FetchResult | spp-impact-study-alerts/spp_monitor/scraper.py:89-109 | the fetch gives no page exactly when every one of the max_retries attempts fails (always when max_retries <= 0); otherwise it gives the text of the first attempt that succeeded, every earlier attempt having failed |
| Scraper.BackoffSchedule | spp-impact-study-alerts/spp_monitor/scraper.py:97-107 | the a-th wait lasts 2^(a+1) seconds |
| Scraper.BackoffTotal | spp-impact-study-alerts/spp_monitor/scraper.py:97-107 | k waits add up to 2^(k+1) - 2 seconds |
| Scraper.TotalFailureWaits | spp-impact-study-alerts/spp_monitor/scraper.py:104-109 | when every attempt fails there is no page and max_retries - 1 waits, with none after the last attempt |
| Scraper.FetchPage | spp-impact-study-alerts/spp_monitor/scraper.py:89-109 | the retry loop returns the fetch result and sleeps the back-off schedule for the attempts it made |
| Scraper.Collect | spp-impact-study-alerts/spp_monitor/scraper.py:124-136 | the year-type dictionary has each id once |
| Scraper.CollectAbsent | spp-impact-study-alerts/spp_monitor/scraper.py:124-136 | an id is missing from the dictionary exactly when no matching link names it |
| Scraper.CollectLastWins | spp-impact-study-alerts/spp_monitor/scraper.py:133-134 | the label kept for an id is that of the last link naming it |
| Scraper.YearTypesLastWins | spp-impact-study-alerts/spp_monitor/scraper.py:124-136 | over the index page's links: an id is absent iff no link names it, and otherwise it has the last link's label |
| Scraper.DiscoverYearTypes | spp-impact-study-alerts/spp_monitor/scraper.py:111-139 | the link loop builds the last-wins id-to-label dictionary of the index page, and sleeps only that fetch's back-off |
| Scraper.RowDetails | spp-impact-study-alerts/spp_monitor/scraper.py:176-184 | row_data has each key once |
| Scraper.RowDetailsKeys | spp-impact-study-alerts/spp_monitor/scraper.py:176-184 | a key is in row_data iff it is some cell's column key, or that key plus "_url" for a cell with a link |
| Scraper.UrlKeyAbsent | spp-impact-study-alerts/spp_monitor/scraper.py:180-184 | a "_url" key is absent from row_data when no column is named by it or by its stem |
| Scraper.RowDetailsText | spp-impact-study-alerts/spp_monitor/scraper.py:176-184 | with distinct column keys, each column's key holds its cell's text |
| Scraper.RowDetailsUrl | spp-impact-study-alerts/spp_monitor/scraper.py:180-182 | with distinct column keys, the "_url" entry of a column is the joined href of its link, and is absent when the cell has no link |
| Scraper.ScanRowStep | spp-impact-study-alerts/spp_monitor/scraper.py:166-206 | after one row, a study is in the list iff it was already there or the row has no th and yields it under the current headers |
| Scraper.ScanYield | spp-impact-study-alerts/spp_monitor/scraper.py:163-206 | the row scan's output holds exactly the studies that some non-header row yields under the headers before it |
| Scraper.ScanRowsYield | spp-impact-study-alerts/spp_monitor/scraper.py:163-206 | a table yields exactly the studies of rows without th that have cells and a non-empty name, each keyed by the last header row above it |
| Scraper.ScanRowsHeaders | spp-impact-study-alerts/spp_monitor/scraper.py:165-170 | the headers in force after some rows are the cell texts of the last row among them that holds a th, and empty when none does |
| Scraper.ScanRowsTagged | spp-impact-study-alerts/spp_monitor/scraper.py:197-206 | every study from a table carries the page's year-type id and label and a non-empty name |
| Scraper.TablesStudies | spp-impact-study-alerts/spp_monitor/scraper.py:163-206 | all tables of a page yield only studies tagged with the page's category |
| Scraper.LinkStudies | spp-impact-study-alerts/spp_monitor/scraper.py:208-228 | the link strategy yields tagged studies with empty details |
| Scraper.LinkStudiesAppend | spp-impact-study-alerts/spp_monitor/scraper.py:210-228 | the link strategy keeps document order |
| Scraper.LinkStudiesMembers | spp-impact-study-alerts/spp_monitor/scraper.py:210-228 | a study comes from the link strategy iff some non-empty link whose text mentions a study, "GEN-" or "DISIS", or whose href is a PDF or a documents path, produces it |
| Scraper.PageStudies | spp-impact-study-alerts/spp_monitor/scraper.py:208-228 | whichever strategy supplies a page's studies, each one carries the page's year-type id and label |
| Scraper.StudiesForYearType | spp-impact-study-alerts/spp_monitor/scraper.py:141-236 | a listing yields only studies of the requested id and label |
| Scraper.BuildRowData | spp-impact-study-alerts/spp_monitor/scraper.py:176-184 | the cell loop builds row_data as specified by RowDetails |
| Scraper.ScanTable | spp-impact-study-alerts/spp_monitor/scraper.py:163-206 | the row loop appends to the running list exactly the table's studies, in order |
| Scraper.ScanLinks | spp-impact-study-alerts/spp_monitor/scraper.py:210-228 | the link loop builds the link strategy's studies |
| Scraper.FetchStudiesForYearType | spp-impact-study-alerts/spp_monitor/scraper.py:141-236 | the method returns the listing's studies and sleeps only the listing fetch's back-off |
| Scraper.DefaultLabels | spp-impact-study-alerts/spp_monitor/scraper.py:248 | the default dictionary has exactly the configured ids, each once |
| Scraper.RelabelKeeps | spp-impact-study-alerts/spp_monitor/scraper.py:251-253 | relabelling keeps the key set, relabels only configured ids that were discovered, and leaves the others alone |
| Scraper.DefaultLabelOf | spp-impact-study-alerts/spp_monitor/scraper.py:248 | a configured id's default label is "YearType {id}" |
| Scraper.ConfiguredCategories | spp-impact-study-alerts/spp_monitor/scraper.py:246-253 | with ids configured, the categories are exactly those ids, each labelled with its discovered label or "YearType {id}" |
| Scraper.CategoriesStudies | spp-impact-study-alerts/spp_monitor/scraper.py:262-266 | every collected study carries the id and label of one of the categories |
| Scraper.AllCategoriesDistinct | spp-impact-study-alerts/spp_monitor/scraper.py:246-256 | the monitored categories have each id once |
| Scraper.AllStudiesLabelled | spp-impact-study-alerts/spp_monitor/scraper.py:238-269 | every study of fetch_all_studies carries the label its category has in the monitored dictionary |
| Scraper.MonitoredYearTypes | spp-impact-study-alerts/spp_monitor/scraper.py:246-256 | the method computes the monitored categories, sleeping only the index fetch's back-off |
| Scraper.FetchCategories | spp-impact-study-alerts/spp_monitor/scraper.py:262-266 | the category loop concatenates each category's studies in dictionary order |
| Scraper.FetchAllStudies | spp-impact-study-alerts/spp_monitor/scraper.py:238-269 | the method returns the studies of every monitored category, and sleeps the index fetch's back-off |
| Storage.Load | spp-impact-study-alerts/spp_monitor/storage.py:24-39 | a missing or unreadable file loads as the empty store |
| Storage.NewStudies | spp-impact-study-alerts/spp_monitor/storage.py:48-63 | a study is new iff it is in the list and its identity is not in the seen map |
| Storage.NewStudiesAppend | spp-impact-study-alerts/spp_monitor/storage.py:61 | the filter keeps the fetched order and distributes over concatenation |
| Storage.NewStudiesIdempotent | spp-impact-study-alerts/spp_monitor/storage.py:61 | filtering twice is filtering once |
| Storage.MarkAllKeys | spp-impact-study-alerts/spp_monitor/storage.py:72-76 | after marking, the seen identities are the old ones plus those of the list |
| Storage.MarkAllUntouched | spp-impact-study-alerts/spp_monitor/storage.py:72-76 | entries of identities outside the list keep their records |
| Storage.MarkAllRecord | spp-impact-study-alerts/spp_monitor/storage.py:72-76 | a marked identity gets this call's timestamp, even if it was seen before, and the last listed study's dictionary |
| Storage.MarkAllCount | spp-impact-study-alerts/spp_monitor/storage.py:72-76 | the seen count grows by the number of distinct identities not seen before |
| Storage.MarkedAreNotNew | spp-impact-study-alerts/spp_monitor/storage.py:48-76 | once marked, none of the marked studies is new |
| Storage.NoneNew | spp-impact-study-alerts/spp_monitor/storage.py:48-61 | a list whose identities are all seen has no new study |
| Storage.MarkNewCoversAll | spp-impact-study-alerts/spp_monitor/storage.py:61-76 | marking only the new studies of a list makes every study of the list seen |
| Storage.StudyStorage.constructor | spp-impact-study-alerts/spp_monitor/storage.py:19-39 | the store starts as the loaded file |
| Storage.StudyStorage.FindNewStudies | spp-impact-study-alerts/spp_monitor/storage.py:52-63 | find_new_studies returns exactly the listed studies that is_new accepts |
| Storage.StudyStorage.Save | spp-impact-study-alerts/spp_monitor/storage.py:41-46 | after saving, the file holds the state in memory |
| Storage.StudyStorage.MarkSeen | spp-impact-study-alerts/spp_monitor/storage.py:65-79 | upserts every study in list order, sets last_check and saves; afterwards none of them is new |
| Storage.StudyStorage.UpdateLastCheck | spp-impact-study-alerts/spp_monitor/storage.py:81-84 | only last_check changes, and the file is saved |
| Storage.StudyStorage.Clear | spp-impact-study-alerts/spp_monitor/storage.py:96-100 | clearing empties the store and saves it; afterwards every study is new |
| Notifier.ShownDetails | spp-impact-study-alerts/spp_monitor/notifier.py:21-24 | the summary shows exactly the details entries whose value is non-empty and whose key does not end in "_url" |
| Notifier.ShownDetailsAppend | spp-impact-study-alerts/spp_monitor/notifier.py:21-24 | the shown details keep dictionary order: the filter distributes over concatenation |
| Notifier.ShownDetailsOne | spp-impact-study-alerts/spp_monitor/notifier.py:21-24 | a single entry is kept exactly when its key is not a "_url" key and its value is non-empty |
| Notifier.DetailLines | spp-impact-study-alerts/spp_monitor/notifier.py:21-24 | one indented line per shown detail, in dictionary order |
| Notifier.NumberedAppend | spp-impact-study-alerts/spp_monitor/notifier.py:17 | numbering continues across concatenated lists |
| Notifier.StudyNumbered | spp-impact-study-alerts/spp_monitor/notifier.py:17-25 | the j-th study's block is numbered j + 1 and sits after the blocks of the studies before it |
| Notifier.SummaryFrame | spp-impact-study-alerts/spp_monitor/notifier.py:16-28 | the summary starts with the "N new impact study(ies)" header and ends with the OpsPortal footer |
| Notifier.DetailLinesOf | spp-impact-study-alerts/spp_monitor/notifier.py:21-24 | the details loop emits one line per shown detail, in dictionary order |
| Notifier.BuildStudySummary | spp-impact-study-alerts/spp_monitor/notifier.py:14-28 | the line-building loop produces the summary |
| Notifier.HtmlRows | spp-impact-study-alerts/spp_monitor/notifier.py:40-50 | one table row per study, in order |
| Notifier.BuildStudyHtml | spp-impact-study-alerts/spp_monitor/notifier.py:31-71 | the loops build each row around its accumulated detail fragments and join the rows inside the page, giving one row per study in order |
| Notifier.EmailNotifier.Message | spp-impact-study-alerts/spp_monitor/notifier.py:111-120 | the subject carries the number of new studies |
| Notifier.EmailNotifier.Send | spp-impact-study-alerts/spp_monitor/notifier.py:93-136 | corrected (see Findings): sending never raises, and reports success iff there are recipients and either there is nothing to send or the SMTP exchange completed |
| Notifier.EmailNotifier.SocketErrorEscapes | spp-impact-study-alerts/spp_monitor/notifier.py:122-136 | as written, a connection error escapes `send` as OSError, while the corrected notifier reports failure |
| Notifier.EmailNotifier.SendAgreesWhenNoSocketError | spp-impact-study-alerts/spp_monitor/notifier.py:93-136 | the code as written raises only on a connection error, and otherwise agrees with the corrected notifier |
| Notifier.Truncate | spp-impact-study-alerts/spp_monitor/notifier.py:197-199 | a message is at most 1600 characters: a short one is kept, and a long one keeps its first 1597 characters and ends with "..." |
| Notifier.SingleStudySms | spp-impact-study-alerts/spp_monitor/notifier.py:182-187 | a one-study text names the study, its year type and its URL |
| Notifier.SeveralStudiesSmsContent | spp-impact-study-alerts/spp_monitor/notifier.py:188-195 | a several-study text gives the count and the first (up to) three names; with n > 3 studies it carries " (+n-3 more)", and with two or three it is the count line, the names and the portal link alone |
| Notifier.MoreInSms | spp-impact-study-alerts/spp_monitor/notifier.py:189-194 | with n > 3 studies the text carries " (+n-3 more)" |
| Notifier.FiveStudiesSms | spp-impact-study-alerts/spp_monitor/notifier.py:188-195 | five studies list the first three names and say " (+2 more)" |
| Notifier.FewStudiesSms | spp-impact-study-alerts/spp_monitor/notifier.py:188-195 | two or three studies list every name and add no suffix, so the text is the count line, the names and the portal link |
| Notifier.SmsNotifier.constructor | spp-impact-study-alerts/spp_monitor/notifier.py:142-146 | keeps the credentials and starts without a client |
| Notifier.SmsNotifier.GetClient | spp-impact-study-alerts/spp_monitor/notifier.py:148-161 | reuses the client once created, creates it when the package is installed, and re-raises ImportError otherwise |
| Notifier.SmsNotifier.Send | spp-impact-study-alerts/spp_monitor/notifier.py:163-216 | false with no numbers, true with no studies, ImportError when no client can be had, otherwise true iff every number got its message; each number is sent the same truncated text from the configured sender; the client is created on the first send that reaches it with the package installed, and is otherwise left as it was |
| Config.FromYaml | spp-impact-study-alerts/spp_monitor/config.py:68-108 | without a file, the configuration is the defaults |
| Config.YamlFallback | spp-impact-study-alerts/spp_monitor/config.py:72-108 | an empty file gives the defaults; each of the sixteen YAML keys is taken when given and otherwise falls back to its dataclass default |
| Config.EnvOverride | spp-impact-study-alerts/spp_monitor/config.py:52-54 | a variable present in the environment wins even when empty; otherwise the YAML value stays |
| Config.StrippedPieces | spp-impact-study-alerts/spp_monitor/config.py:132 | the list holds exactly the non-empty stripped pieces |
| Config.StrippedPiecesAppend | spp-impact-study-alerts/spp_monitor/config.py:132 | the pieces keep their order: the filter distributes over concatenation, and one piece is kept, stripped, iff it is not blank |
| Config.CommaListClean | spp-impact-study-alerts/spp_monitor/config.py:130-136 | every entry parsed from a comma list is non-empty and has no surrounding whitespace |
| Config.ParseAll | spp-impact-study-alerts/spp_monitor/config.py:139-141 | the ids parse iff every piece parses, and then position by position |
| Config.EnvSmtp | spp-impact-study-alerts/spp_monitor/config.py:111-117 | fails iff SMTP_PORT is set and not an integer; otherwise user, password and sender follow any present variable, host and port only a non-empty one, and the TLS flag is kept |
| Config.EnvTwilio | spp-impact-study-alerts/spp_monitor/config.py:119-127 | each Twilio credential follows its variable when present |
| Config.EnvIds | spp-impact-study-alerts/spp_monitor/config.py:139-141 | fails iff SPP_YEAR_TYPE_IDS is set and one of its pieces is not an integer; when set and parsed, the ids are those of the variable; when unset, the YAML ids stay |
| Config.ApplyEnv | spp-impact-study-alerts/spp_monitor/config.py:110-141 | the overrides raise ValueError iff the port or an id fails to parse; otherwise each overridden field follows its variable and the rest of the configuration is unchanged |
| Config.DefaultsWithoutFile | spp-impact-study-alerts/spp_monitor/config.py:11-49 | with no file and no override variables, the configuration is the dataclass defaults |
| Config.CommaListRoundTrip | spp-impact-study-alerts/spp_monitor/config.py:130-136 | a comma-joined list of clean, comma-free entries parses back to itself |
| Config.CommaIdsRoundTrip | spp-impact-study-alerts/spp_monitor/config.py:139-141 | a comma-joined list of ids parses back to the same ids |
| Config.ReadYaml | spp-impact-study-alerts/spp_monitor/config.py:68-108 | the section-by-section overlay computes FromYaml |
| Config.OverrideSmtp | spp-impact-study-alerts/spp_monitor/config.py:111-117 | the SMTP overrides compute EnvSmtp |
| Config.LoadConfig | spp-impact-study-alerts/spp_monitor/config.py:57-143 | load_config is the YAML overlay followed by the environment overrides, raising ValueError exactly as ApplyEnv says |
| Cli.CheckSettings | spp-impact-study-alerts/main.py:71 | an empty id list means "discover all", and any other list is passed through |
| Cli.CheckExit | spp-impact-study-alerts/main.py:65-156 | with the corrected e-mail notifier: the exit code is 0, 1 or 2; it is 1 iff nothing was fetched; the check raises (ImportError) iff new studies reach an enabled SMS channel without the Twilio package |
| Cli.CheckExitAsWritten | spp-impact-study-alerts/main.py:65-156 | as written: the exit code is 0, 1 or 2 and 1 iff nothing was fetched; the check raises OSError iff new studies reach an enabled e-mail channel whose SMTP exchange ends in a socket error, and otherwise ImportError iff they reach an enabled SMS channel without the Twilio package |
| Cli.CheckAsWrittenDiffers | spp-impact-study-alerts/main.py:114-153 | the check as written agrees with the corrected one, exit and store, except when the e-mail step meets a socket error; then it raises OSError and leaves the store as loaded |
| Cli.AlertsFailAndStillMark | spp-impact-study-alerts/main.py:115-156 | with the corrected e-mail notifier, whatever the channels report, every fetched study ends up seen, and the exit is 2 iff a channel failed |
| Cli.DryRunKeepsStore | spp-impact-study-alerts/main.py:110-112 | a dry run leaves the store untouched and exits 0 |
| Cli.SecondCheckQuiet | spp-impact-study-alerts/main.py:88-94 | right after a completed check, a second check against the same portal finds nothing new and exits 0 |
| Cli.SmsStep | spp-impact-study-alerts/main.py:134-148 | the SMS step is skipped when SMS is not enabled, raises ImportError without the package, and otherwise succeeds iff every number got its message |
| Cli.SendAlerts | spp-impact-study-alerts/main.py:115-150 | with the corrected e-mail notifier: the alert step raises ImportError when SMS is enabled without the package; otherwise it succeeds iff each enabled channel succeeded |
| Cli.SendAlertsAsWritten | spp-impact-study-alerts/main.py:115-150 | as written: a socket error in an enabled e-mail step raises OSError before SMS is tried; otherwise as SendAlerts |
| Cli.AlertAndMark | spp-impact-study-alerts/main.py:114-156 | with the corrected e-mail notifier: alerting by e-mail and then SMS; unless the SMS client cannot be had, the new studies are marked seen even when a channel failed, and the exit is 2 iff one failed; on ImportError the store is untouched |
| Cli.AlertAndMarkAsWritten | spp-impact-study-alerts/main.py:114-156 | as written: a socket error in an enabled e-mail step raises OSError before `mark_seen`, leaving the store untouched; otherwise as AlertAndMark |
| Cli.CmdCheck | spp-impact-study-alerts/main.py:65-156 | over `send` as written the command returns CheckExitAsWritten and leaves the store as CheckedStoreAsWritten; over the corrected `send`, CheckExit and CheckedStore; the store is persisted either way |
| Cli.CmdDiscover | spp-impact-study-alerts/main.py:34-53 | the command exits 1 iff no year type is discovered, else 0 |
| Cli.CmdReset | spp-impact-study-alerts/main.py:56-62 | the command exits 0 and leaves an empty store on file |
| Cli.Run | spp-impact-study-alerts/main.py:207-217 | a bad override raises ValueError and touches no file; otherwise --discover wins over --reset, which wins over the check, run with the corrected e-mail notifier |

## Left out

- HTTP: the session, headers and timeout are not modelled. Each attempt at a URL is an input that either returns page text or fails.
- HTML parsing: BeautifulSoup is an abstract `Document` of tables, rows, cells and links, with texts already stripped.
- `urljoin` is a function parameter of the web.
- `time.sleep` is not performed. The sleeps are ghost outputs, namely the back-off waits. The per-category `request_delay` pause appears only as its `> 0` test.
- `request_delay` is a real number in Python and is kept only to that test.
- JSON encoding and decoding are not modelled:
  - the file is either missing, unreadable or a store;
  - a file whose JSON lacks the "seen" key is not distinguished;
  - directory creation and write failures are not modelled.
- `datetime.now()` is the `now` parameter.
- The storage path is not modelled: the file is a parameter of the commands.
- SMTP and MIME are not modelled. The SMTP exchange ends in one of three outcomes given as input. The message models the subject, the addresses and the two bodies.
- Twilio: the client and each message's delivery are inputs. Whether the package is installed is a flag.
- YAML parsing, `null` values and ill-typed values are not modelled. A configuration file is already a document whose keys are present or absent.
- Logging, the console report, argparse, `--log-level` and the sorted listing printed by `cmd_discover` are not modelled. Only their effect on exit codes and the store is.
- Notifier.HtmlPage: the markup keeps the structure of the template (a header, one row per study with name, category, details and link, a footer) but drops the inline styles and whitespace.
- Text.ParseInt: it accepts surrounding whitespace, an optional sign and ASCII digits. Python's `int()` also accepts underscores between digits and non-ASCII digits.
- Text.ToLower: it lowers ASCII letters only. Python's `str.lower()` covers all of Unicode.
- Concurrency: the poller is single-threaded.
- Twilio and SMTP error messages: only success or failure of each channel is modelled.
- CheckExit (Cli.CheckExit): models `cmd_check` over the corrected `EmailNotifier.send`. As written, a socket error in the e-mail step raises OSError; that outcome is Cli.CheckExitAsWritten.
- AlertsFailAndStillMark (Cli.AlertsFailAndStillMark): holds for the corrected check only. As written, a socket error in the e-mail step marks nothing (Cli.CheckAsWrittenDiffers).
- SendAlerts (Cli.SendAlerts): uses the corrected `send`. The as-written step is Cli.SendAlertsAsWritten.
- AlertAndMark (Cli.AlertAndMark): uses the corrected `send`, so it marks the studies after a socket error. The as-written tail is Cli.AlertAndMarkAsWritten, which raises OSError and leaves the store untouched.
- Run (Cli.Run): dispatches to the corrected check. The outcome over `send` as written is given by Cli.CmdCheck with `emailAsWritten` set.
- DryRunKeepsStore and SecondCheckQuiet (Cli): stated of the corrected check. A dry run never reaches the e-mail step, so the first holds as written too.

## Findings

| source | as written | input that shows it | evidently intended | confidence | as-written member | corrected member |
|---|---|---|---|---|---|---|
| spp-impact-study-alerts/spp_monitor/notifier.py:122-136 | `send` catches only `smtplib.SMTPException`. Refused connections, DNS failures and TLS socket errors are `OSError`s outside that class, so they escape `send`, and `cmd_check` ends before trying SMS or marking the studies seen (main.py, lines 128 and 152-153) | one recipient, one new study, and an SMTP host that refuses the connection | `send` logs the error and returns False, so the run goes on to SMS, marks the studies seen and exits 2 | not executed; high | Notifier.EmailNotifier.SendAsWritten, shown by Notifier.EmailNotifier.SocketErrorEscapes; in the check, Cli.CheckExitAsWritten, shown by Cli.CheckAsWrittenDiffers | Notifier.EmailNotifier.Send; in the check, Cli.CheckExit |
