# telethon-poster, modelled in Dafny

A model of the Telegram multi-account poster and its helper scripts:

- **Poster** (`telethon-poster.py`): how a Google Sheets row is normalised (`canon`, `FIELD_MAP`), how the
  header-less path maps columns (`record_from_sheet`), which records get a scheduled job
  (`schedule_for_acc`), how the post text and its custom-emoji entities are assembled (`build_post`,
  `add_emoji`), and whether `send_post` sends an album or a plain message.
- **BulkSingle** (`generate_session_bulk_single.py`) and **Bulk** (`generate_session_bulk.py`): each
  generator's own `.env` parser, case-insensitive `get_any`, `to_bool`, the 2FA password list
  (`split_passwords`, `get_passwords_for`), `discover_accounts` with its mandatory proxy, and the
  session file the bulk generator writes. **SessionEnv** holds what the two generators share word for
  word: the `KEY=VALUE` regex, the `TG<N>_` index scan, the proxy tuple and the account loop body.
- **SessionsAuto** (`generate_sessions_auto.py`): `load_kv_file`, `collect_accounts` (grouping,
  the `SESSIONS` fallback, the filter), `build_proxy`, `sanitize_name` and the result summary.
- **Recover** (`recover_account.py`): `strtobool`, `build_proxy_from_env`,
  `read_string_sessions_from_env` and `_candidate_env_paths`.
- **RecoverAlt** (`recover_account_alternative.py`): `mask_middle`, `ProxySpec.to_pysocks`,
  `read_numbered_sessions`, `read_numbered_proxy`, `read_legacy_sessions` and the account selection of `run`.
- **ExportSubscribers** (`export_channel_subscribers.py`): `resolve_channel`, `status_to_str`,
  `user_to_row`, the de-duplicating, counting and splitting sweep of `sweep_participants`, and the
  names of the split CSV files.
- Helper modules model the Python built-ins these scripts lean on:
  - **PyStr**: `str.strip` with Python's whitespace set, `lstrip`, `lower`, `isdigit`, `int()` and `re.split`.
  - **EnvList**: an insertion-ordered dictionary as an association list, with `get_any`'s case-folded lookup.
  - **Ordered**: order-preserving de-duplication, `sorted` over a set, and a stable sort by key.

Loops that the source runs step by step are methods with loop invariants, proved equal to a
specification function. The properties the scripts promise are lemmas about those functions: order,
uniqueness, last-assignment-wins, round trips of written lines, error conditions and defaults.

Entity offsets are Python `len` sums, that is code points. A record is scheduled when its time is *not earlier* than
now, because it is a future job, not when it is due.

The proofs are checked with

    dafny verify --resource-limit 2000000 --verification-time-limit 0 --warn-contradictory-assumptions *.dfy

and also go through with a plain `dafny verify *.dfy`.

## Model

| member | source | states |
|---|---|---|
| PyStr.Strip | tools/generate-sessions-bulk-single/generate_session_bulk_single.py:108 | `s.strip()` is the slice of `s` between its leading and trailing whitespace runs, and it neither starts nor ends with whitespace |
| PyStr.StripIdempotent | tools/generate-sessions-bulk-single/generate_session_bulk_single.py:125 | stripping twice is stripping once |
| PyStr.StripUntrimmed | tools/generate-sessions-bulk-single/generate_session_bulk_single.py:125 | a text with no whitespace at either end strips to itself |
| PyStr.StripChar | tools/generate_sessions_auto/generate_sessions_auto.py:135 | `s.strip(c)` neither starts nor ends with `c` and keeps only characters of `s` |
| PyStr.LStripChar | tools/export-channel-subscribers/export_channel_subscribers.py:72 | `s.lstrip(c)` is a suffix of `s`; everything cut off was `c`, and the result does not start with `c` |
| PyStr.Lower | tools/generate-sessions-bulk-single/generate_session_bulk_single.py:132 | `lower()` keeps the length and lowers each character |
| PyStr.NatToStr | tools/generate_session_bulk.py:295 | `str(n)` is all digits, with no leading zero unless `n` is 0 |
| PyStr.NatToStrRoundTrip | tools/generate-sessions-bulk-single/generate_session_bulk_single.py:199 | the digits of `str(n)` read back as `n` |
| PyStr.NatToStrInjective | tools/generate_session_bulk.py:295 | different indices give different `TG{idx}` prefixes |
| PyStr.IntToStr | tools/recover-account/recover_account_alternative.py:185 | `str(i)` of any integer is non-empty; `PyStr.PyIntRoundTrip` reads it back |
| PyStr.PyInt | tools/generate-sessions-bulk-single/generate_session_bulk_single.py:244 | `int(s)` succeeds only on text that is not blank once stripped |
| PyStr.PyIntOfDigits | tools/generate-sessions-bulk-single/generate_session_bulk_single.py:226-227 | an all-digit port string converts to its digit value |
| PyStr.PyIntOfNegative | tools/generate-sessions-bulk-single/generate_session_bulk_single.py:244 | `-` followed by digits converts to the negated value |
| PyStr.PyIntRoundTrip | tools/generate-sessions-bulk-single/generate_session_bulk_single.py:244 | `int(str(i)) == i` for every integer |
| PyStr.PyIntRejectsLetters | tools/generate-sessions-bulk-single/generate_session_bulk_single.py:243-247 | `int("12a")`, `int("")` and `int("1__0")` raise |
| PyStr.SplitOn | tools/generate-sessions-bulk-single/generate_session_bulk_single.py:150 | `re.split` on a character class yields at least one piece, no piece holds a separator, and every character comes from the input |
| PyStr.SplitKeepsNonSeparators | tools/generate-sessions-bulk-single/generate_session_bulk_single.py:150 | joined again, the pieces are the input with the separators removed |
| PyStr.SplitPieceCount | tools/generate-sessions-bulk-single/generate_session_bulk_single.py:150 | there is one piece more than there are separators |
| PyStr.Pieces | tools/recover-account/recover_account.py:186 | `[p.strip() for p in parts if p and p.strip()]` holds no empty string |
| PyStr.PiecesShape | tools/recover-account/recover_account.py:185-186 | every kept piece is stripped, non-empty and free of separators |
| PyStr.PartsInPieces | tools/recover-account/recover_account.py:186 | every part that is not blank is kept, stripped |
| EnvList.Get | tools/recover-account/recover_account.py:114-118 | `dict.get`/`os.getenv` is `None` exactly when no entry has the key, else the value of an entry with that key |
| EnvList.Put | tools/generate-sessions-bulk-single/generate_session_bulk_single.py:126 | `env[key] = val` adds an entry only for a new key |
| EnvList.PutGet | tools/generate-sessions-bulk-single/generate_session_bulk_single.py:126 | after `env[k] = v`, `k` reads `v` and every other key reads what it read before |
| EnvList.PutKeys | tools/generate-sessions-bulk-single/generate_session_bulk_single.py:126 | assignment keeps the key order, and a new key goes last |
| EnvList.PutDistinct | tools/generate-sessions-bulk-single/generate_session_bulk_single.py:126 | assignment keeps the keys distinct |
| EnvList.Assignments | tools/generate-sessions-bulk-single/generate_session_bulk_single.py:107-126 | the dictionary a sequence of assignments builds has distinct keys |
| EnvList.LastAssignmentWins | tools/generate-sessions-bulk-single/generate_session_bulk_single.py:126 | a key holds the value of its last assignment |
| EnvList.NeverAssigned | tools/generate-sessions-bulk-single/generate_session_bulk_single.py:103-127 | a key never assigned is absent |
| EnvList.FoldedGet | tools/generate-sessions-bulk-single/generate_session_bulk_single.py:132-134 | `lower_env.get(key.lower())` is `None` exactly when no key equals `key` up to case |
| EnvList.FoldedGetIsLastMatch | tools/generate-sessions-bulk-single/generate_session_bulk_single.py:132 | with several keys equal up to case, the later one wins the comprehension |
| EnvList.FoldedGetIgnoresCase | tools/generate-sessions-bulk-single/generate_session_bulk_single.py:132-134 | candidates equal up to case look up the same value |
| EnvList.GetAny | tools/generate-sessions-bulk-single/generate_session_bulk_single.py:130-137 | `get_any` is `None` exactly when no candidate has a non-empty value, and never returns "" |
| EnvList.GetAnyIsFirstFilled | tools/generate-sessions-bulk-single/generate_session_bulk_single.py:133-136 | `get_any` returns the value of the first candidate with a non-empty value |
| EnvList.GetAnyStopsAtFirst | tools/generate-sessions-bulk-single/generate_session_bulk_single.py:207 | a filled first candidate wins over all later ones |
| EnvList.GetAnySecond | tools/generate-sessions-bulk-single/generate_session_bulk_single.py:207 | an unfilled first candidate passes to the second |
| EnvList.ToBool | tools/generate-sessions-bulk-single/generate_session_bulk_single.py:140-143 | `to_bool` is the default for `None`, else true exactly for 1/true/yes/y/on after strip and lower |
| Ordered.Dedup | tools/recover-account/recover_account.py:199-205 | the de-duplicated list has no repeats and is no longer than the input |
| Ordered.DedupMembers | tools/recover-account/recover_account.py:199-205 | de-duplication loses and invents nothing |
| Ordered.DedupSnoc | tools/recover-account/recover_account.py:202-205 | one more item is appended exactly when it was not yet kept |
| Ordered.DedupPrefix | tools/generate-sessions-bulk-single/generate_session_bulk_single.py:168-176 | items appended later never disturb the list kept so far |
| Ordered.DedupOfDistinct | tools/generate-sessions-bulk-single/generate_session_bulk_single.py:169 | a list with no repeats is kept as it is |
| Ordered.DedupFirstOccurrenceOrder | tools/recover-account/recover_account.py:199-205 | kept items appear in the order of their first occurrence |
| Ordered.AppendUnique | tools/generate-sessions-bulk-single/generate_session_bulk_single.py:172-174 | the loop `if p not in passwords: passwords.append(p)` gives the de-duplication of the whole sequence |
| Ordered.KeepFirst | tools/recover-account/recover_account.py:199-205 | the `seen`/`uniq` loop computes the de-duplication |
| Ordered.Ascending | tools/generate-sessions-bulk-single/generate_session_bulk_single.py:205 | `sorted(indices)` lists exactly the set's members, strictly increasing |
| Ordered.InsertAfterEqual | tools/recover-account/recover_account.py:195 | inserting after equal keys keeps a key-sorted list sorted and adds exactly the item |
| Ordered.StableSortByKey | tools/recover-account/recover_account.py:195 | `sorted(pairs, key=t[0])` is sorted by key and a permutation of the input |
| Ordered.StableSortKeepsOrder | tools/recover-account/recover_account.py:195 | pairs with equal keys keep their input order (the sort is stable) |
| SessionEnv.MatchEnvLine | tools/generate-sessions-bulk-single/generate_session_bulk_single.py:45 | `ENV_LINE_RE` matches only lines with `=`, the key group is an identifier that starts the line after leading whitespace, and the value group is a suffix of the line that does not start with whitespace |
| SessionEnv.MatchRenderedLine | tools/generate-sessions-bulk-single/generate_session_bulk_single.py:45 | `KEY=VALUE` matches as that key and value |
| SessionEnv.Unquote | tools/generate-sessions-bulk-single/generate_session_bulk_single.py:119 | `val[1:-1]` drops exactly the first and last characters |
| SessionEnv.AccountIndex | tools/generate-sessions-bulk-single/generate_session_bulk_single.py:46 | `PREFIX_RE` matches only keys starting with `TG` in either case, and gives a non-negative index |
| SessionEnv.AccountIndexOfKey | tools/generate-sessions-bulk-single/generate_session_bulk_single.py:197-199 | every `TG<n>_...` key is found under index `n` |
| SessionEnv.SessionKeyIsKey | tools/generate_session_bulk.py:295 | `TG{idx}_SESSION` is a valid env key |
| SessionEnv.IndexSet | tools/generate-sessions-bulk-single/generate_session_bulk_single.py:195-199 | the index scan collects the index of every matching key, all non-negative |
| SessionEnv.IndexSetOnlyFromKeys | tools/generate-sessions-bulk-single/generate_session_bulk_single.py:195-199 | each collected index comes from some key |
| SessionEnv.SelectedIndices | tools/generate-sessions-bulk-single/generate_session_bulk_single.py:195-202 | an index is selected exactly when some key carries it and `only` is empty or lists it |
| SessionEnv.CollectIndices | tools/generate-sessions-bulk-single/generate_session_bulk_single.py:195-202 | the key scan and the `only` filter compute the selected indices |
| SessionEnv.KindOf | tools/generate-sessions-bulk-single/generate_session_bulk_single.py:228-234 | socks5/socks5h, socks4/socks4a and http/https name the three proxy kinds, and nothing else does |
| SessionEnv.ProxyOf | tools/generate-sessions-bulk-single/generate_session_bulk_single.py:225-234 | a proxy exists exactly when the host is set, the port is all digits and the type is known, and it carries those values |
| SessionEnv.OrEmpty | tools/generate-sessions-bulk-single/generate_session_bulk_single.py:217-218 | `x or ""` is the value, or "" for `None` |
| SessionEnv.SettingsProxy | tools/generate-sessions-bulk-single/generate_session_bulk_single.py:217-234 | the proxy keeps user and password, resolves names remotely when RDNS is unset, and its kind is the lower-cased type |
| SessionEnv.AccountOf | tools/generate-sessions-bulk-single/generate_session_bulk_single.py:212-256 | an account is built exactly when id and hash are set, a proxy exists and the id is an integer, and it carries those settings |
| SessionEnv.Collect | tools/generate-sessions-bulk-single/generate_session_bulk_single.py:204-258 | no more accounts than indices |
| SessionEnv.CollectStep | tools/generate-sessions-bulk-single/generate_session_bulk_single.py:249-256 | one more index appends its account, if built, at the end |
| SessionEnv.CollectMembers | tools/generate-sessions-bulk-single/generate_session_bulk_single.py:205-256 | an account is listed exactly when it is built from some index of the order |
| SessionEnv.CollectIncreasing | tools/generate-sessions-bulk-single/generate_session_bulk_single.py:205 | from increasing indices the accounts come out with strictly increasing `idx` |
| SessionEnv.BuildAccounts | tools/generate_session_bulk.py:112-163 | the loop of both generators' `discover_accounts` over the sorted indices appends the built account of each index, in order, skipping those it cannot build |
| BulkSingle.BeforeHash | tools/generate-sessions-bulk-single/generate_session_bulk_single.py:122-124 | the value is cut at its first `#` |
| BulkSingle.ValueOf | tools/generate-sessions-bulk-single/generate_session_bulk_single.py:114-125 | the stored value is stripped, and an unquoted value holds no `#` |
| BulkSingle.PlainValueReadsBack | tools/generate-sessions-bulk-single/generate_session_bulk_single.py:114-125 | a stripped unquoted value without `#` is stored as it is |
| BulkSingle.QuotedValueKeepsHash | tools/generate-sessions-bulk-single/generate_session_bulk_single.py:117-119 | a quoted value loses exactly its quotes and keeps any `#` |
| BulkSingle.LineEntry | tools/generate-sessions-bulk-single/generate_session_bulk_single.py:107-125 | blank and `#` lines assign nothing, and any key assigned is an identifier |
| BulkSingle.RenderedLineEntry | tools/generate-sessions-bulk-single/generate_session_bulk_single.py:107-126 | a written line `KEY=VALUE` reads back as that assignment |
| BulkSingle.Entries | tools/generate-sessions-bulk-single/generate_session_bulk_single.py:107 | one parse outcome per line, in file order |
| BulkSingle.EnvOf | tools/generate-sessions-bulk-single/generate_session_bulk_single.py:98-127 | the parsed dictionary has distinct keys |
| BulkSingle.ParseEnvFile | tools/generate-sessions-bulk-single/generate_session_bulk_single.py:98-127 | the line loop computes the file's dictionary |
| BulkSingle.LastLineWins | tools/generate-sessions-bulk-single/generate_session_bulk_single.py:126 | a repeated key keeps its last value |
| BulkSingle.UnassignedKeyAbsent | tools/generate-sessions-bulk-single/generate_session_bulk_single.py:103-127 | a key no line assigns is absent |
| BulkSingle.PasswordList | tools/generate-sessions-bulk-single/generate_session_bulk_single.py:146-156 | `split_passwords` has no repeats |
| BulkSingle.PasswordListShape | tools/generate-sessions-bulk-single/generate_session_bulk_single.py:150-156 | every password is non-empty, stripped and separator-free, and every non-blank piece of the split is kept |
| BulkSingle.SplitPasswords | tools/generate-sessions-bulk-single/generate_session_bulk_single.py:146-156 | the loop computes the password list |
| BulkSingle.IfFilled | tools/generate-sessions-bulk-single/generate_session_bulk_single.py:170 | a single password counts only when set and non-empty |
| BulkSingle.PasswordOrder | tools/generate-sessions-bulk-single/generate_session_bulk_single.py:168-177 | the merged password list has no repeats |
| BulkSingle.PasswordsFor | tools/generate-sessions-bulk-single/generate_session_bulk_single.py:159-177 | `get_passwords_for` has no repeats |
| BulkSingle.MergePasswords | tools/generate-sessions-bulk-single/generate_session_bulk_single.py:168-177 | the appending statements compute the merged list |
| BulkSingle.GetPasswordsFor | tools/generate-sessions-bulk-single/generate_session_bulk_single.py:159-177 | `get_passwords_for` reads the four keys and merges them in priority order |
| BulkSingle.AccountPasswordsFirst | tools/generate-sessions-bulk-single/generate_session_bulk_single.py:168-169 | the account's own list comes first, unchanged |
| BulkSingle.PasswordOrderMembers | tools/generate-sessions-bulk-single/generate_session_bulk_single.py:168-177 | a password is listed exactly when one of the four sources holds it |
| BulkSingle.AccountFor | tools/generate-sessions-bulk-single/generate_session_bulk_single.py:206-256 | an account built for index `i` has `idx == i` |
| BulkSingle.DiscoverAccounts | tools/generate-sessions-bulk-single/generate_session_bulk_single.py:193-258 | the loops compute the discovered accounts |
| BulkSingle.DiscoveredInOrder | tools/generate-sessions-bulk-single/generate_session_bulk_single.py:205 | accounts come in strictly increasing index order, each under a selected index |
| BulkSingle.DiscoveredExactly | tools/generate-sessions-bulk-single/generate_session_bulk_single.py:195-256 | an account is returned exactly when its index is selected and the loop body builds it |
| BulkSingle.SharedApiIdFallback | tools/generate-sessions-bulk-single/generate_session_bulk_single.py:207 | without its own id an account takes `TG_API_ID` |
| BulkSingle.OwnApiIdFirst | tools/generate-sessions-bulk-single/generate_session_bulk_single.py:207 | an account's own id wins over the shared ones |
| BulkSingle.RdnsDefaultsTrue | tools/generate-sessions-bulk-single/generate_session_bulk_single.py:223 | with no RDNS key at any level the proxy resolves names remotely |
| Bulk.LineEntry | tools/generate_session_bulk.py:56-66 | blank and `#` lines assign nothing, and any key assigned is an identifier |
| Bulk.RenderedLineEntry | tools/generate_session_bulk.py:60-67 | an unquoted `KEY=VALUE` keeps the whole value, `#` included |
| Bulk.QuotedLineEntry | tools/generate_session_bulk.py:65-66 | a double-quoted value loses exactly its outer quotes |
| Bulk.UnquotedEntry | tools/generate_session_bulk.py:65-66 | a quoted value group is stored without its quotes |
| Bulk.PlainEntry | tools/generate_session_bulk.py:60-67 | an unquoted value group is stored as matched |
| Bulk.Entries | tools/generate_session_bulk.py:56 | one parse outcome per line, in file order |
| Bulk.EnvOf | tools/generate_session_bulk.py:47-68 | the parsed dictionary has distinct keys |
| Bulk.ParseEnvFile | tools/generate_session_bulk.py:47-68 | the line loop computes the file's dictionary |
| Bulk.LastLineWins | tools/generate_session_bulk.py:67 | a repeated key keeps its last value |
| Bulk.UnassignedKeyAbsent | tools/generate_session_bulk.py:52-68 | a key no line assigns is absent |
| Bulk.AccountFor | tools/generate_session_bulk.py:113-162 | an account built for index `i` has `idx == i` |
| Bulk.NoSharedApiId | tools/generate_session_bulk.py:114-121 | without its own API id an account is skipped, whatever shared keys say |
| Bulk.NoProxyNoAccount | tools/generate_session_bulk.py:124-147 | without its own proxy type an account is skipped |
| Bulk.DiscoverAccounts | tools/generate_session_bulk.py:100-164 | the loops compute the discovered accounts |
| Bulk.DiscoveredInOrder | tools/generate_session_bulk.py:112 | accounts come in strictly increasing index order, each under a selected index |
| Bulk.CollectResults | tools/generate_session_bulk.py:285-289 | the login loop builds `results` from the login outcomes |
| Bulk.ResultsExactly | tools/generate_session_bulk.py:286-289 | an account is in `results` exactly when its login gave a non-empty session, stored under its index |
| Bulk.ResultsNotYet | tools/generate_session_bulk.py:285-289 | no other index gets an entry |
| Bulk.SessionLines | tools/generate_session_bulk.py:295 | one line `TG{idx}_SESSION={sess}` per stored session, by ascending index |
| Bulk.JoinThenBreak | tools/generate_session_bulk.py:296 | `"\n".join(lines) + "\n"` ends every line with a line break |
| Bulk.SessionFileLines | tools/generate_session_bulk.py:295-296 | the file text is the session lines, each ended by a line break |
| Bulk.SessionLineReadsBack | tools/generate_session_bulk.py:295 | a written session line reads back through the generator's own parser as that account's session |
| SessionsAuto.KvEntry | tools/generate_sessions_auto/generate_sessions_auto.py:29-36 | a line assigns nothing exactly when it is blank, a comment or has no `=`; key and value are stripped |
| SessionsAuto.KvKeyHasNoEquals | tools/generate_sessions_auto/generate_sessions_auto.py:35 | the split happens at the first `=`, so the key holds none |
| SessionsAuto.KvLineReadsBack | tools/generate_sessions_auto/generate_sessions_auto.py:29-36 | a line `k=v` reads back as `(k, v)` |
| SessionsAuto.KvEntries | tools/generate_sessions_auto/generate_sessions_auto.py:29 | one parse outcome per line, in file order |
| SessionsAuto.LoadKv | tools/generate_sessions_auto/generate_sessions_auto.py:24-37 | the parsed dictionary has distinct keys |
| SessionsAuto.LoadKvFile | tools/generate_sessions_auto/generate_sessions_auto.py:24-37 | the line loop computes the file's dictionary |
| SessionsAuto.KvLastLineWins | tools/generate_sessions_auto/generate_sessions_auto.py:36 | a repeated key keeps its last value |
| SessionsAuto.GroupKey | tools/generate_sessions_auto/generate_sessions_auto.py:92-98 | only keys `TG<N>_<field>`, upper-case `TG`, with a listed field, match |
| SessionsAuto.GroupKeyOf | tools/generate_sessions_auto/generate_sessions_auto.py:92 | every `TG<n>_<field>` key matches as `(n, field)` |
| SessionsAuto.Groups | tools/generate_sessions_auto/generate_sessions_auto.py:91-99 | group numbers are non-negative |
| SessionsAuto.GroupsLastWins | tools/generate_sessions_auto/generate_sessions_auto.py:99 | a group field holds the value of its last key |
| SessionsAuto.GroupsOnlyFromKeys | tools/generate_sessions_auto/generate_sessions_auto.py:93-99 | a field that no key sets is absent from its group |
| SessionsAuto.WithSessionFallback | tools/generate_sessions_auto/generate_sessions_auto.py:103-104 | `SESSIONS` stands in only when `SESSION` is absent, and nothing else changes |
| SessionsAuto.SessionsStandsIn | tools/generate_sessions_auto/generate_sessions_auto.py:103-104 | an absent `SESSION` takes the `SESSIONS` value |
| SessionsAuto.EmptySessionNotReplaced | tools/generate_sessions_auto/generate_sessions_auto.py:103-111 | an empty `SESSION` is not replaced, and the account is dropped |
| SessionsAuto.Fallbacks | tools/generate_sessions_auto/generate_sessions_auto.py:102-104 | the fallback keeps the same group numbers |
| SessionsAuto.Missing | tools/generate_sessions_auto/generate_sessions_auto.py:108-111 | `missing` lists only required fields without a value, and is empty exactly when all have one |
| SessionsAuto.Kept | tools/generate_sessions_auto/generate_sessions_auto.py:106-118 | every kept account is a viable group under its own number |
| SessionsAuto.KeptStep | tools/generate_sessions_auto/generate_sessions_auto.py:107-118 | one more group appends itself, if viable, at the end |
| SessionsAuto.KeptComplete | tools/generate_sessions_auto/generate_sessions_auto.py:107-118 | every viable group is kept |
| SessionsAuto.KeptIncreasing | tools/generate_sessions_auto/generate_sessions_auto.py:107 | kept accounts come in strictly increasing number order |
| SessionsAuto.CollectAccounts | tools/generate_sessions_auto/generate_sessions_auto.py:86-119 | `collect_accounts` computes the collected accounts |
| SessionsAuto.GroupAccounts | tools/generate_sessions_auto/generate_sessions_auto.py:91-99 | the grouping loop computes the groups |
| SessionsAuto.ApplySessionFallback | tools/generate_sessions_auto/generate_sessions_auto.py:102-104 | the in-place fallback loop applies the fallback to every group |
| SessionsAuto.FilterAccounts | tools/generate_sessions_auto/generate_sessions_auto.py:106-119 | the filter loop keeps exactly the viable groups in order |
| SessionsAuto.CollectedInOrder | tools/generate_sessions_auto/generate_sessions_auto.py:107 | the accounts come out by strictly increasing number |
| SessionsAuto.CollectedExactly | tools/generate_sessions_auto/generate_sessions_auto.py:86-119 | an account is returned exactly when its group, after the fallback, has every required field and a socks5 type |
| SessionsAuto.KeptExactly | tools/generate_sessions_auto/generate_sessions_auto.py:107-118 | a pair is kept exactly when its number is walked, its account is that group and the group is viable |
| SessionsAuto.OptionalField | tools/generate_sessions_auto/generate_sessions_auto.py:128-129 | `cfg.get(f) or None` is a value exactly when the field is non-empty |
| SessionsAuto.RdnsOn | tools/generate_sessions_auto/generate_sessions_auto.py:130 | RDNS is on exactly when the key is set to a word of `TRUE_SET`, so it defaults to off |
| SessionsAuto.BuildProxy | tools/generate_sessions_auto/generate_sessions_auto.py:121-131 | the proxy is always SOCKS5; it fails only on a non-integer port; host, port, credentials and RDNS come from the group |
| SessionsAuto.UnderscoredShape | tools/generate_sessions_auto/generate_sessions_auto.py:135 | each run of other characters becomes one `_`, the digits and `+` are kept, and the result ends in `_` exactly when the input ended in another character |
| SessionsAuto.ExtendKeeps | tools/generate_sessions_auto/generate_sessions_auto.py:135 | one more character keeps the text in that form and its digits and `+` in order; the text ends in `_` exactly when that character is neither |
| SessionsAuto.UnderscoredAround | tools/generate_sessions_auto/generate_sessions_auto.py:135 | the substitution splits at every digit or `+`: the text before it and the text after it are substituted separately, so an `_` stands exactly where a run of other characters stood |
| SessionsAuto.LeadThenRun | tools/generate_sessions_auto/generate_sessions_auto.py:135 | a digit or `+` followed by a run of other characters becomes that character and one `_` |
| SessionsAuto.UnderscoredSeparates | tools/generate_sessions_auto/generate_sessions_auto.py:135 | a digit or `+`, a run of other characters and another digit or `+` become `c_d` |
| SessionsAuto.SanitizeSeparates | tools/generate_sessions_auto/generate_sessions_auto.py:133-136 | `sanitize_name` of such a text is `c_d`, for example "1a2" gives "1_2" |
| SessionsAuto.UnderscoredTidy | tools/generate_sessions_auto/generate_sessions_auto.py:135 | a text already in that form is unchanged |
| SessionsAuto.StripUnderscoreKeeps | tools/generate_sessions_auto/generate_sessions_auto.py:135 | trimming `_` keeps the digits and `+` |
| SessionsAuto.SanitizeName | tools/generate_sessions_auto/generate_sessions_auto.py:133-136 | the name is never empty; it is "account" when no digit or `+` is present, else it keeps them with single `_` between runs and none at the ends |
| SessionsAuto.PlainPhoneKept | tools/generate_sessions_auto/generate_sessions_auto.py:133-136 | a phone number of digits and `+` is kept as it is |
| SessionsAuto.OthersBecomeOneUnderscore | tools/generate_sessions_auto/generate_sessions_auto.py:135 | a text without digits or `+` turns into a single `_` |
| SessionsAuto.SanitizeIdempotent | tools/generate_sessions_auto/generate_sessions_auto.py:133-136 | sanitising twice is sanitising once |
| SessionsAuto.Successes | tools/generate_sessions_auto/generate_sessions_auto.py:201-207 | successes never exceed the results |
| SessionsAuto.Summarize | tools/generate_sessions_auto/generate_sessions_auto.py:201-216 | `ok` counts the successes, `ok + fail` is the number of results, and one line is printed per result |
| SessionsAuto.CountOutcomes | tools/generate_sessions_auto/generate_sessions_auto.py:201-207 | `ok` counts the results with a session and `ok + fail` is the number of results |
| SessionsAuto.SummaryLines | tools/generate_sessions_auto/generate_sessions_auto.py:210-216 | one summary line per result, in the order of the results |
| SessionsAuto.SummaryLineReloads | tools/generate_sessions_auto/generate_sessions_auto.py:211-216 | a success line reads back through `load_kv_file` as that account's session; a failure line is a comment |
| Recover.StrToBool | tools/recover-account/recover_account.py:106-109 | `strtobool` is `to_bool` plus the word `t` |
| Recover.LetterTIsTrueHere | tools/recover-account/recover_account.py:109 | `t` is true here and false for the generators |
| Recover.ProxyKindOf | tools/recover-account/recover_account.py:126-128 | only socks5, socks4 and http, in any case, are known |
| Recover.AliasesRefused | tools/recover-account/recover_account.py:126-128 | `socks5h`, which the generators accept, is refused here |
| Recover.BuildProxyFromEnv | tools/recover-account/recover_account.py:112-138 | the proxy is built exactly when type, host and port are set, the type is known and the port is an integer; it carries the user and password only when both are set |
| Recover.RecoverRdnsDefaultsOn | tools/recover-account/recover_account.py:119 | without `TG_PROXY_RDNS` names resolve remotely |
| Recover.Single | tools/recover-account/recover_account.py:170-175 | `_add_single` adds at most one stripped, non-empty value |
| Recover.Block | tools/recover-account/recover_account.py:182-186 | a block's pieces are stripped, non-empty and hold no separator |
| Recover.NumberedIndex | tools/recover-account/recover_account.py:191-193 | a numbered session key gives a non-negative number |
| Recover.NumberedIndexOf | tools/recover-account/recover_account.py:191 | both spellings `TG_SESSION_<n>` and `TG_STRING_SESSION_<n>` carry `n` |
| Recover.NumberedPairs | tools/recover-account/recover_account.py:189-194 | at most one pair per environment entry |
| Recover.FilledValues | tools/recover-account/recover_account.py:195-197 | only non-empty numbered values are added |
| Recover.AllSessions | tools/recover-account/recover_account.py:168-197 | the collected sessions before de-duplication hold no empty string |
| Recover.StringSessions | tools/recover-account/recover_account.py:159-211 | the returned list is non-empty and has no repeats |
| Recover.ReadStringSessions | tools/recover-account/recover_account.py:159-211 | the loops compute the sessions or the error |
| Recover.CollectNumbered | tools/recover-account/recover_account.py:189-194 | the environment scan computes the numbered pairs |
| Recover.SessionsShape | tools/recover-account/recover_account.py:199-210 | the error is raised exactly when no source holds a non-blank value |
| Recover.SessionsMembers | tools/recover-account/recover_account.py:199-205 | a session is listed exactly when some source holds it |
| Recover.SessionKeyFirst | tools/recover-account/recover_account.py:178-179 | a non-blank `TG_SESSION` is the first session |
| Recover.Ancestors | tools/recover-account/recover_account.py:64-73 | the walk visits at most `n` directories, starting at the script's own |
| Recover.DirPaths | tools/recover-account/recover_account.py:67-69 | two candidate files per directory |
| Recover.CandidateList | tools/recover-account/recover_account.py:54-73 | between 2 and 11 candidates, the explicit path first when set |
| Recover.CandidateEnvPaths | tools/recover-account/recover_account.py:53-83 | `_candidate_env_paths` is the de-duplication of the normalised candidates |
| Recover.AncestorsStep | tools/recover-account/recover_account.py:70-73 | a directory with a parent is followed by that parent's walk |
| Recover.DirPathsSnoc | tools/recover-account/recover_account.py:68-69 | one more directory appends its two file names |
| Recover.WalkUp | tools/recover-account/recover_account.py:65-73 | the walk loop lists both names in the script's directory and up to three parents, stopping at the root |
| Recover.ExplicitPathFirst | tools/recover-account/recover_account.py:56-83 | with `ENV_RECOVER_PATH` set it is tried first, and no path is tried twice |
| RecoverAlt.MaskMiddle | tools/recover-account/recover_account_alternative.py:69-74 | "" gives "", a short value is unchanged, a longer one is its first and last `keep` characters around `…` |
| RecoverAlt.MaskMiddleIdempotent | tools/recover-account/recover_account_alternative.py:69-74 | masking a masked value changes nothing |
| RecoverAlt.MaskMiddleHides | tools/recover-account/recover_account_alternative.py:72-74 | a long value is shortened, and its characters are exactly its first and last `keep` characters plus the ellipsis |
| RecoverAlt.ReadNumberedProxy | tools/recover-account/recover_account_alternative.py:175-194 | type, host and port are required in that order and the port must be an integer; the spec carries the values read, with RDNS by `strtobool` |
| RecoverAlt.NumberedRdnsDefaultsOn | tools/recover-account/recover_account_alternative.py:193 | without `TG<n>_PROXY_RDNS` names resolve remotely |
| RecoverAlt.ToPysocks | tools/recover-account/recover_account_alternative.py:151-159 | the conversion fails exactly for an unknown type, and adds user and password only when both are set |
| RecoverAlt.KindName | tools/recover-account/recover_account_alternative.py:153 | each kind's name is accepted as that kind |
| RecoverAlt.RdnsFlagReadsBack | tools/recover-account/recover_account_alternative.py:63-66 | the flag written for `rdns` reads back as `rdns` |
| RecoverAlt.CredentialsReadBack | tools/recover-account/recover_account_alternative.py:191-192 | credentials written read back unchanged |
| RecoverAlt.EntriesGet | tools/recover-account/recover_account_alternative.py:175-193 | each written proxy key looks up its own value |
| RecoverAlt.ProxyRoundTrip | tools/recover-account/recover_account_alternative.py:175-194 | a proxy written under an account's keys is read back and converted to itself |
| RecoverAlt.ConvertWritten | tools/recover-account/recover_account_alternative.py:151-159 | settings holding a proxy's fields convert to that proxy |
| RecoverAlt.SessionNumber | tools/recover-account/recover_account_alternative.py:169 | `TG(\d+)_SESSION` gives a non-negative number |
| RecoverAlt.SessionNumberOf | tools/recover-account/recover_account_alternative.py:169 | every account's session key carries its number |
| RecoverAlt.ProxyKeyIsNotSession | tools/recover-account/recover_account_alternative.py:169 | proxy keys are not session keys |
| RecoverAlt.NumberedSessions | tools/recover-account/recover_account_alternative.py:166-171 | listed numbers are non-negative |
| RecoverAlt.NumberedValueTrimmed | tools/recover-account/recover_account_alternative.py:170-171 | every listed session is non-empty and stripped |
| RecoverAlt.NumberedStep | tools/recover-account/recover_account_alternative.py:168-171 | one more entry lists its number exactly when it counts |
| RecoverAlt.NumberedSessionsExactly | tools/recover-account/recover_account_alternative.py:168-171 | a number is listed exactly when some entry with a non-blank value carries it |
| RecoverAlt.NumberedSessionsLastWins | tools/recover-account/recover_account_alternative.py:171 | a number holds the stripped value of its last entry |
| RecoverAlt.ReadNumberedSessions | tools/recover-account/recover_account_alternative.py:166-172 | the loop computes the sessions, and the order is the numbers ascending |
| RecoverAlt.LegacySingle | tools/recover-account/recover_account_alternative.py:201-203 | `TG_SESSION`, or else `TG_STRING_SESSION`, stripped; only one of them |
| RecoverAlt.LegacyBlock | tools/recover-account/recover_account_alternative.py:204-207 | `TG_SESSIONS`, or else `TG_STRING_SESSIONS`, split into pieces |
| RecoverAlt.NonEmpty | tools/recover-account/recover_account_alternative.py:218-219 | exactly the non-empty strings are kept |
| RecoverAlt.LegacySessions | tools/recover-account/recover_account_alternative.py:199-221 | `read_legacy_sessions` has no repeats |
| RecoverAlt.LegacyMembers | tools/recover-account/recover_account_alternative.py:199-221 | a session is listed exactly when a source holds it non-empty; the list may be empty |
| RecoverAlt.KeepFirstFilled | tools/recover-account/recover_account_alternative.py:216-220 | the `seen`/`uniq` loop de-duplicates the non-empty sessions |
| RecoverAlt.ReadLegacySessions | tools/recover-account/recover_account_alternative.py:199-221 | the loops compute the legacy sessions |
| RecoverAlt.OnlyOneSingle | tools/recover-account/recover_account_alternative.py:201-203 | with both single keys set only `TG_SESSION` is used, where the other listener takes both |
| RecoverAlt.BlankSessionHidesString | tools/recover-account/recover_account_alternative.py:201-203 | a blank `TG_SESSION` hides `TG_STRING_SESSION` and adds an empty string |
| RecoverAlt.SelectAccount | tools/recover-account/recover_account_alternative.py:342-374 | an unlisted `--n` is refused, a sole session is picked, several ask the menu, and with legacy sessions only the first is used or the error raised |
| RecoverAlt.OneSessionListed | tools/recover-account/recover_account_alternative.py:166-172 | one account's session key lists just that account |
| RecoverAlt.ExplicitNumberPicksItsSession | tools/recover-account/recover_account_alternative.py:361-374 | an account's own key picks it, with or without `--n` |
| RecoverAlt.ConnectionFor | tools/recover-account/recover_account_alternative.py:374-376 | the account connects exactly when its proxy reads and converts, else the error says why |
| ExportSubscribers.ResolveChannel | tools/export-channel-subscribers/export_channel_subscribers.py:63-75 | a value that stays a name is the stripped input |
| ExportSubscribers.ResolveText | tools/export-channel-subscribers/export_channel_subscribers.py:67-75 | `-100` plus digits gives the id after the prefix, a number with leading `-` its digits, and anything else stays a name, exactly when it is not all digits after the dashes |
| ExportSubscribers.ChatId | tools/export-channel-subscribers/export_channel_subscribers.py:69 | a chat id is `-100` followed by digits |
| ExportSubscribers.ChatIdRoundTrip | tools/export-channel-subscribers/export_channel_subscribers.py:67-70 | the chat id of channel `n` resolves to channel `n` |
| ExportSubscribers.BareNumberResolves | tools/export-channel-subscribers/export_channel_subscribers.py:72-73 | a bare number resolves to that channel |
| ExportSubscribers.DigitsResolve | tools/export-channel-subscribers/export_channel_subscribers.py:72-73 | all-digit text resolves to its value |
| ExportSubscribers.BarePrefixIsChannel100 | tools/export-channel-subscribers/export_channel_subscribers.py:69-73 | `-100` alone falls to the second test and resolves to channel 100 |
| ExportSubscribers.Minus100IsNumber | tools/export-channel-subscribers/export_channel_subscribers.py:69-73 | `-100` resolves to the number 100, not to a name |
| ExportSubscribers.UserNameKept | tools/export-channel-subscribers/export_channel_subscribers.py:67-75 | a padded `@name` resolves to the name, stripped |
| ExportSubscribers.NameIsHandle | tools/export-channel-subscribers/export_channel_subscribers.py:75 | an `@name` stays a name |
| ExportSubscribers.StatusToStr | tools/export-channel-subscribers/export_channel_subscribers.py:45-60 | no status gives "unknown", a known one a non-empty word, offline `offline (was …)` |
| ExportSubscribers.StatusWords | tools/export-channel-subscribers/export_channel_subscribers.py:45-60 | online, recently, last_week and last_month for the fixed statuses, `offline (was None)` without a time, the type name for any other status |
| ExportSubscribers.StatusWordsDistinct | tools/export-channel-subscribers/export_channel_subscribers.py:47-59 | the fixed words tell the statuses apart |
| ExportSubscribers.OfflineShowsTime | tools/export-channel-subscribers/export_channel_subscribers.py:51-53 | the offline text carries the last-seen time verbatim |
| ExportSubscribers.UserToRow | tools/export-channel-subscribers/export_channel_subscribers.py:78-105 | the row keeps id, deleted flag and status word; missing texts become "", `lang_code` falls back to `language_code`, and the restriction text joins the reasons |
| ExportSubscribers.RestrictionText | tools/export-channel-subscribers/export_channel_subscribers.py:80-82 | no reasons give "", one reason gives its text |
| ExportSubscribers.Queries | tools/export-channel-subscribers/export_channel_subscribers.py:119-122 | 69 queries, the empty one first and then single characters |
| ExportSubscribers.UserToRowKeepsId | tools/export-channel-subscribers/export_channel_subscribers.py:87 | the row carries the user's id |
| ExportSubscribers.AddUser | tools/export-channel-subscribers/export_channel_subscribers.py:148-161 | a user already seen changes nothing, a new one is recorded, and the counts stay in step with the ids seen |
| ExportSubscribers.AddPage | tools/export-channel-subscribers/export_channel_subscribers.py:147-161 | a page only adds ids and counts |
| ExportSubscribers.AddPageWithin | tools/export-channel-subscribers/export_channel_subscribers.py:148-151 | pages of members only add members |
| ExportSubscribers.SweepQuery | tools/export-channel-subscribers/export_channel_subscribers.py:125-169 | a query's paging keeps the counts in step and only adds members |
| ExportSubscribers.SweepAll | tools/export-channel-subscribers/export_channel_subscribers.py:124-169 | the queries in order keep the counts in step and only add members |
| ExportSubscribers.ReadUser | tools/export-channel-subscribers/export_channel_subscribers.py:148-161 | the loop body records the user as `AddUser` says, and `new` goes up exactly for an unseen id |
| ExportSubscribers.ReadPage | tools/export-channel-subscribers/export_channel_subscribers.py:147-161 | the page loop computes `AddPage`, and `new` is the rise in `count` |
| ExportSubscribers.SweepQueryEnds | tools/export-channel-subscribers/export_channel_subscribers.py:144-145 | an empty page ends the query |
| ExportSubscribers.SweepQueryStep | tools/export-channel-subscribers/export_channel_subscribers.py:147-169 | a page that adds nobody ends the query; otherwise paging goes on from `offset + len(page)` with more users seen |
| ExportSubscribers.PageQuery | tools/export-channel-subscribers/export_channel_subscribers.py:125-169 | the `while True` loop computes the query's sweep |
| ExportSubscribers.SweepQueries | tools/export-channel-subscribers/export_channel_subscribers.py:124-169 | the `for q in queries` loop computes the sweep of all queries |
| ExportSubscribers.SweepParticipants | tools/export-channel-subscribers/export_channel_subscribers.py:109-171 | the three counters and the rows written are those of the full sweep from nothing |
| ExportSubscribers.AddUserWritten | tools/export-channel-subscribers/export_channel_subscribers.py:149-159 | one user keeps the written rows unique, seen and split by the deleted flag |
| ExportSubscribers.AddPageWritten | tools/export-channel-subscribers/export_channel_subscribers.py:148-161 | one page keeps the same |
| ExportSubscribers.SweepQueryWritten | tools/export-channel-subscribers/export_channel_subscribers.py:125-169 | one query keeps the same |
| ExportSubscribers.SweepAllWritten | tools/export-channel-subscribers/export_channel_subscribers.py:124-169 | all queries keep the same |
| ExportSubscribers.SweepGuarantees | tools/export-channel-subscribers/export_channel_subscribers.py:114-171 | each user is written at most once over both files; `count == active + deleted ==` users seen; with a split, deleted users go only to the deleted file and only when it exists |
| ExportSubscribers.EmptyFirstPage | tools/export-channel-subscribers/export_channel_subscribers.py:144-145 | a query with no results changes nothing |
| ExportSubscribers.StalePageAddsNothing | tools/export-channel-subscribers/export_channel_subscribers.py:148-150 | a page of users already seen changes nothing |
| ExportSubscribers.StaleFirstPage | tools/export-channel-subscribers/export_channel_subscribers.py:163-169 | a query whose first page holds only seen users stops there |
| ExportSubscribers.FlagOn | tools/export-channel-subscribers/export_channel_subscribers.py:36 | a flag is on only for a one-, three- or four-letter value (`1`, `yes`, `true`) |
| ExportSubscribers.FlagWordsOn | tools/export-channel-subscribers/export_channel_subscribers.py:36-39 | `1`, `TRUE` and `Yes` switch a flag on, and an unset variable takes its default `true` (`SLEEP_ON_FLOOD`) |
| ExportSubscribers.FlagWordsOff | tools/export-channel-subscribers/export_channel_subscribers.py:36-39 | `no` and `on` leave a flag off, and an unset variable with default `false` is off (`TG_SPLIT_DELETED`) |
| ExportSubscribers.FlagOnImpliesToBool | tools/export-channel-subscribers/export_channel_subscribers.py:36 | a value that switches this flag on switches the generators' flags on too |
| ExportSubscribers.PaddedYesIsOff | tools/export-channel-subscribers/export_channel_subscribers.py:36 | a padded ` yes` is off here, because the value is not stripped |
| ExportSubscribers.PaddedYesIsOn | tools/generate-sessions-bulk-single/generate_session_bulk_single.py:143 | while the generators' `to_bool` reads ` yes` as true |
| ExportSubscribers.SplitOutputNames | tools/export-channel-subscribers/export_channel_subscribers.py:213-216 | the two names end in `_active.csv` and `_deleted.csv` after a shared prefix: the name without its last four characters when those read `.csv` in any letter case, the whole name otherwise |
| ExportSubscribers.SplitNamesDiffer | tools/export-channel-subscribers/export_channel_subscribers.py:215-216 | the two files never coincide |
| ExportSubscribers.CsvExtensionReplaced | tools/export-channel-subscribers/export_channel_subscribers.py:214 | a name ending in `.csv` in any letter case (`.csv`, `.CSV`, `.Csv`, …) loses that ending before the suffixes are added |
| ExportSubscribers.DefaultOutputSplit | tools/export-channel-subscribers/export_channel_subscribers.py:35 | the default `channel_subscribers.csv` splits into `channel_subscribers_active.csv` and `channel_subscribers_deleted.csv` |
| Poster.HeaderNotLowerCase | telethon-poster.py:47-67 | no sheet header starts with a lower-case letter |
| Poster.CanonCell | telethon-poster.py:71 | a text cell comes back stripped, any other cell unchanged, a missing one `None` |
| Poster.CanonGet | telethon-poster.py:69-72 | each of the 19 fields is read from its `FIELD_MAP` header |
| Poster.CanonStripped | telethon-poster.py:71 | text fields carry no surrounding whitespace |
| Poster.CanonCellAgain | telethon-poster.py:71 | a cell written back as normalised normalises to the same value |
| Poster.CanonAgain | telethon-poster.py:69-72 | normalising is idempotent |
| Poster.TextOfIntReadsBack | telethon-poster.py:202 | `str()` of an integer cell, as the `sent` test and the f-strings use it, reads back as that integer |
| Poster.RecordFromSheet | telethon-poster.py:152-174 | the row needs at least 22 cells; the record has no `sent` key and only lower-case field-name keys |
| Poster.CanonOfHeaderlessRecord | telethon-poster.py:152-174 | normalising a header-less record gives `None` for every field |
| Poster.RunTime | telethon-poster.py:204-207 | a time that is not text parses to nothing |
| Poster.CanonAll | telethon-poster.py:198-199 | each record is normalised in place |
| Poster.Jobs | telethon-poster.py:197-216 | at most one job per record, and each job is for a due record at its parsed time |
| Poster.JobsSnoc | telethon-poster.py:198-216 | one more record adds its job, if due, at the end |
| Poster.ScheduleStep | telethon-poster.py:198-216 | a sent, untimed or past record adds no job; a due one adds its job at the end |
| Poster.JobsAppend | telethon-poster.py:198-216 | two batches give their job lists in order |
| Poster.EveryDueRecordScheduled | telethon-poster.py:208-216 | every due record gets its job |
| Poster.UntimedRecordsNoJobs | telethon-poster.py:204-207 | records without a time get no job |
| Poster.AsWrittenRecords | telethon-poster.py:194-195 | one record per row, as `record_from_sheet` maps it |
| Poster.HeaderlessSchedulesNothing | telethon-poster.py:191-216 | a header-less sheet schedules nothing |
| Poster.SheetRecords | telethon-poster.py:185-195 | the records are the sheet's own with headers, one per row without; a short header-less row raises |
| Poster.ScheduleRecords | telethon-poster.py:197-216 | the loop computes the jobs of the normalised records |
| Poster.ScheduleForAcc | telethon-poster.py:181-216 | `schedule_for_acc` gives the jobs of the sheet's records, or the error |
| Poster.SumLens | telethon-poster.py:111 | `sum(len(p) for p in parts)` is the length of the joined text |
| Poster.PhotoRow | telethon-poster.py:124-125 | one marker and one space per photo round, two parts each |
| Poster.JoinAppend | telethon-poster.py:149 | joining concatenated part lists concatenates the texts |
| Poster.AddEmoji | telethon-poster.py:110-115 | `add_emoji` returns the marker and records an entity of length 1 at the current summed length |
| Poster.AsWrittenEntities | telethon-poster.py:106-147 | 11 entities |
| Poster.EntitiesShape | telethon-poster.py:110-147 | each entity has length 1 and the ids follow the order 1,1,2,3,4,5,6,7,8,8,9 |
| Poster.AsWrittenHeader | telethon-poster.py:117-120 | the header statements give the first parts and entities |
| Poster.AsWrittenClosing | telethon-poster.py:145-147 | the closing statements complete parts and entities |
| Poster.BuildPost | telethon-poster.py:106-149 | `build_post` returns the joined template and the entities as written |
| Poster.PhotoRowText | telethon-poster.py:124-125 | the photo row is a marker and a space per round |
| Poster.AsWrittenStep | telethon-poster.py:111 | offsets grow along the template |
| Poster.AsWrittenOffsetsNonDecreasing | telethon-poster.py:111 | offsets never decrease |
| Poster.PhotoRowStep | telethon-poster.py:123-126 | photo-row offsets are exactly 2 apart |
| Poster.AsWrittenSharedOffsets | telethon-poster.py:118-146 | both header emoji sit at 0, and both call-to-action emoji share one offset |
| Poster.AsWrittenLinkEmojiMisplaced | telethon-poster.py:147 | the link emoji's offset points at the `<` of the link |
| Poster.AsWrittenMisplaced | telethon-poster.py:118-147 | an as-written offset misses its marker exactly for the second header emoji, the second call-to-action emoji, the link emoji, and the skip-line emoji when the skip field is not empty |
| Poster.PostTextEnds | telethon-poster.py:118-147 | the post opens and closes with the marker |
| Poster.PostTextStatus | telethon-poster.py:118 | the status follows the first marker and a space |
| Poster.PostTextName | telethon-poster.py:120 | the post contains the name verbatim |
| Poster.PostTextLink | telethon-poster.py:147 | the post contains the WhatsApp link verbatim |
| Poster.HeaderText | telethon-poster.py:118 | the header line is marker, padded status, marker, line break |
| Poster.PostTextAtLink | telethon-poster.py:147-149 | the post ends with the link line and a final marker |
| Poster.MarkerEntities | telethon-poster.py:106-147 | 11 entities |
| Poster.MarkerStep | telethon-poster.py:118-147 | each corrected offset is larger than the one before |
| Poster.MarkerOffsetsIncreasing | telethon-poster.py:118-147 | marker offsets strictly increase |
| Poster.MarkerOffsetsHitMarkers | telethon-poster.py:110-147 | every corrected offset points at a marker character |
| Poster.HeaderMarkers | telethon-poster.py:118-119 | the three header offsets point at marker characters |
| Poster.PhotoMarkers | telethon-poster.py:123-126 | the five photo-row offsets point at marker characters |
| Poster.TailMarkers | telethon-poster.py:145-147 | the three closing offsets point at marker characters |
| Poster.PhotoEntity | telethon-poster.py:124-125 | the photo entity for round `k` sits at the length of the text before that round |
| Poster.AddEmojiAfter | telethon-poster.py:110-115 | the entity lands after what its own statement wrote before the marker |
| Poster.AnchoredHeader | telethon-poster.py:117-120 | the header statements with anchored entities |
| Poster.AnchoredClosing | telethon-poster.py:145-147 | the closing statements with anchored entities |
| Poster.BuildPostAnchored | telethon-poster.py:106-149 | the same text, with each entity on its own marker |
| Poster.MediaUrls | telethon-poster.py:222 | at most 4 URLs, each a set value of a media field, every set field's value present, empty exactly when no field is set, `media1` first when it is set |
| Poster.KeepSetPicks | telethon-poster.py:222 | the comprehension's filter picks the set values at strictly increasing positions and misses none |
| Poster.MediaUrlsKeepSet | telethon-poster.py:222 | the media list is that filter over `media1` to `media4` |
| Poster.MediaUrlsInFieldOrder | telethon-poster.py:222-224 | one URL per set field, equal URLs in two fields both kept, in field order: the list is the set fields taken at strictly increasing positions |
| Poster.SendPost | telethon-poster.py:218-237 | an album exactly when some media field is set, with the post as caption; a message otherwise; either way the entities are exactly those `build_post` computes as written |
| Poster.SendPostAnchored | telethon-poster.py:218-237 | the same dispatch with the corrected entities: 11 of them, each over its own marker |
| Poster.Dispatch | telethon-poster.py:222-237 | the album or message carries the given text and entities unchanged; an album exactly when some media field is set |

## Left out

- Telethon calls (`connect`, `sign_in`, `send_file`, `send_message`, `GetParticipantsRequest`, `get_entity`, `session.save`, `iter_dialogs`) are foreign. API pages and login outcomes are parameters.
- `ensure_session` in both bulk generators is left out: its login and 2FA flow is interactive and driven by library errors.
- `copy_to_clipboard` and printing are left out. They are subprocess calls and terminal output.
- Google Sheets access and APScheduler are left out. Rows are an input and the job list is the output. The interval refresh in `main` is not modelled.
- `datetime.fromisoformat` and the clock are left out. They are the `parseTime` and `now` parameters.
- Reading files and the environment is left out: `splitlines`, `load_dotenv`, `dotenv_values` and path resolution. Files are sequences of lines and the environment is an ordered list of pairs.
- `find_config_file`, `load_env_or_fail`, `get_api_credentials`, `require_env`, the `TG_API_ID` parsing in each `main` and the `--only` parsing are left out. They are file-system searches and small CLI plumbing around the modelled readers.
- `choose_number_interactive` and the prompts of `run` and of the bulk-single `main` are left out. `RecoverAlt.SelectAccount` returns `AskMenu` or `AskNumber` where the script would prompt.
- Asynchronous concurrency (`gather`, the semaphore), flood-wait sleeps and retries, and the pauses between pages are left out.
- In the export, a FloodWait that is slept on retries the same request. The model's page function gives the page that finally arrives.
- Writing CSV files is left out. Each writer is the sequence of rows it receives.
- `ProxySpec.short`, `fmt_chat_sender`, `make_handler` and `print_recent_messages` are left out: they only format text for display.
- `tools/convert-session-to-string-session.py` and `tools/generate_session.py` are thin wrappers over Telethon login; they are not part of this model.
- `send_post` passes `parse_mode="html"`. How Telegram renders the markup, and whether the entities survive that, is not modelled.
- PyStr.Lower: only ASCII letters are lowered. The keys and words compared are ASCII.
- PyStr.PyInt: only ASCII digits are accepted. Python's `int` also takes other Unicode digits.
- PyStr.IsDigit: only the ASCII digits `0`-`9` count. Python's `str.isdigit()` and the regex `\d` also accept other Unicode digits. Such digits are not modelled in the `TG(\d+)_` prefixes (generate_session_bulk_single.py:46, generate_session_bulk.py:44, generate_sessions_auto.py:92), in the `[^\d+]` class of `sanitize_name` (generate_sessions_auto.py:135), in the numbered session keys (recover_account.py:191, recover_account_alternative.py:169 and :211) or in the menu choice (recover_account_alternative.py:321).
- SessionEnv.ProxyOf: the port test is ASCII digits only. A port such as "٣", which `isdigit()` accepts and `int()` reads as 3, and a port such as "²", which `isdigit()` accepts and `int()` rejects with a `ValueError` that ends the script, are not modelled (generate_session_bulk_single.py:226-227, generate_session_bulk.py:132-133).
- ExportSubscribers.ResolveText: the digit tests are ASCII only. A channel such as "-100٣" and the `ValueError` that `int()` raises for a superscript digit such as "²" are not modelled (export_channel_subscribers.py:69-73).
- PyStr.Strip: uses Python's whitespace set for `str.strip` and `\s`, and does not model Unicode normalisation.
- Poster.RunTime: the parsing itself is the `parseTime` oracle. Only the `TypeError` for a non-text time is modelled.
- Poster.CanonOfHeaderlessRecord: the header-less path is modelled as written. The model proves it schedules nothing but has no corrected variant.
- RecoverAlt.MaskMiddle: `keep` is a natural number. A negative `keep`, which the source never passes, is not modelled.
- ExportSubscribers.StatusToStr: any other status is given by its class name, which is data here.
- ExportSubscribers.ResolveChannel: a name is returned as text. Turning it into an entity is a network call.
- ExportSubscribers.UserToRow: the `except` branch of the restriction text is not modelled. Joining texts cannot fail.
- ExportSubscribers.SweepQuery: requires that every page holds only members of a finite set. This is what bounds the paging, and a server that kept inventing new ids would page forever.
- ExportSubscribers.SweepQuery: the row conversion is a parameter, and `SweepParticipants` instantiates it with `UserToRow`.
- SessionsAuto.SanitizeName: the `or f"TG{idx}"` fallback in `start_account` is never taken, because the result is never empty.
- Offsets are counted in code points, as Python's `len` does, while Telegram counts UTF-16 units. The two differ for characters outside the Basic Multilingual Plane. The template's own text has none, but the row fields spliced into the post (status, skip, name, services, prices and the rest) can hold such characters, for example emoji. After such a character, `Poster.MarkerOffsetsHitMarkers` still holds in code points, but the offsets Telegram reads no longer point at the markers.

## Findings

| source | as written | input that shows it | evidently intended | confidence | as-written member | corrected member |
|---|---|---|---|---|---|---|
| telethon-poster.py:118 | both `add_emoji(1)` calls run while the list literal is built, before `parts +=`, so both entities get offset 0 | any row; with status `new` the second marker is at offset 6 but its entity says 0 | each entity on its own marker character | high (not executed) | Poster.AsWrittenSharedOffsets | Poster.MarkerOffsetsHitMarkers |
| telethon-poster.py:146 | the two call-to-action emoji share the offset of the statement's start | any row: the second marker follows the call-to-action text | the second entity on the closing marker | high (not executed) | Poster.AsWrittenSharedOffsets | Poster.MarkerOffsetsHitMarkers |
| telethon-poster.py:147 | the link emoji is recorded before the link text is appended, so its offset points at `<` | any row | the entity on the final marker after the link | high (not executed) | Poster.AsWrittenLinkEmojiMisplaced | Poster.MarkerOffsetsHitMarkers |
| telethon-poster.py:119 | the skip-line emoji is recorded at the start of `f"{skip}{marker}\n"`, before the skip text | a row whose skip field is `x`: the marker is at the offset of `x` plus 1, the entity at the offset of `x` | the entity on the marker after the skip text | high (not executed) | Poster.AsWrittenMisplaced | Poster.MarkerOffsetsHitMarkers |
