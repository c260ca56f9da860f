# jankenoboe scheduling core, modelled in Dafny

jankenoboe is a command-line tool for memorising songs by spaced repetition.
Each song a user learns gets a row in the `learning` table. The row moves
through 20 levels, each with a wait taken from a Fibonacci-derived day curve,
and then graduates. This project models that core as Dafny code and proves
properties of it:

- the wait curve (`src/easing.rs`);
- the due predicate and the due listing;
- enrolment of songs (`learning-batch`) and levelling up
  (`learning-song-levelup-ids`), on a store class that holds the `learning`
  table and the known songs;
- the enrichment and level histogram of the review command;
- the review text helpers (`escape_html`, `escape_json_string`,
  `extract_url_extension`);
- percent-decoding with its UTF-8 check (`src/encoding.rs`);
- the per-table allow-lists and field parsing (`src/models.rs`,
  `src/table_config.rs`);
- search term validation and LIKE patterns, and the grouping of duplicate names
  (`src/commands/querying.rs`);
- the column, placeholder and SET lists built by create and update
  (`src/commands/data_management.rs`);
- the `http_error:<code> -=> <msg>` tag codec (`src/err.rs`);
- the first-occurrence dedup of the AMQ import script
  (`skills/importing-amq-songs/parse_amq_import.py`).

Database access is replaced by explicit data:

- The `learning` table is a `seq<Record>` held by the class
  `Learning.LearningDb`, together with the map of known songs.
- A transaction is a local copy of the table. The copy is assigned back only
  when the command commits, so a failed command leaves the table unchanged.
- The clock reading `now` is a parameter.
- Fresh UUIDs come from a `newIds` sequence aligned with the listed song ids:
  the `i`-th listed song's record, if one is created, gets `newIds[i]`. The
  ids of skipped and already-graduated songs go unused.
- A stored `level_up_path` is a `seq<nat>`. The JSON text written into the
  table is linked to that sequence by a round-trip lemma
  (`JsonValue.NatListJsonRoundTrip`); `json_extract(path, '$[level]')` reads
  element `level`, or NULL when the path is too short.

`src/commands.rs` is an older copy of the same commands:

- Its `DUE_WHERE` is the due predicate with offset 0
  (`Schedule.OffsetShiftsClock`).
- Its search differs only in error texts and in where the allow-lists come
  from (`Querying.Dialect.Legacy`).
- Its batch, level-up, escaping and duplicate grouping are the same code as the
  newer module. The rows below cite the newer module.

Modules, one per file:

| module | file | models |
|---|---|---|
| `Wrappers` | `wrappers.dfy` | Option/Result and the key list of a list of pairs |
| `Text` | `text.dfy` | split, trim, join, find, decimal printing |
| `JsonValue` | `json.dfy` | the JSON values the core builds, and the number-list codec |
| `Utf8` | `utf8.dfy` | UTF-8 decoding as Rust's `String::from_utf8` does it |
| `Easing` | `easing.dfy` | `src/easing.rs` |
| `Encoding` | `encoding.dfy` | `src/encoding.rs` |
| `HttpErr` | `http_err.dfy` | `src/err.rs` |
| `Models` | `models.dfy` | `src/models.rs` |
| `TableConfig` | `table_config.dfy` | `src/table_config.rs` |
| `Querying` | `querying.dfy` | `src/commands/querying.rs` |
| `DataManagement` | `data_management.dfy` | `src/commands/data_management.rs` |
| `Schedule` | `schedule.dfy` | learning records, the due predicate, `learning-due` |
| `Learning` | `learning.dfy` | batch and level-up, class `LearningDb` |
| `Review` | `review.dfy` | enrichment and histogram of `learning-song-review` |
| `ReviewText` | `review_text.dfy` | the review's text helpers |
| `AmqImport` | `amq_import.dfy` | `skills/importing-amq-songs/parse_amq_import.py` |

## Model

| member | source | states |
|---|---|---|
| Easing.DefaultEasing | src/easing.rs:16-21 | every wait is at least one day |
| Easing.GenerateLevelUpPath | src/easing.rs:27-29 | the path has exactly `max_level` entries, entry `n` being `default_easing(n)` |
| Easing.FiboMonotone | src/easing.rs:4-10 | `fibo` is non-decreasing |
| Easing.ShrinkMonotone | src/easing.rs:12-14 | `shrink(x) = x*2/9` is non-decreasing |
| Easing.EasingIsGrowth | src/easing.rs:16-21 | the subtraction never underflows; a wait is the growth of `shrink∘fibo` when that is positive and 1 when it is zero |
| Easing.PathSumBound | src/easing.rs:16-29 | the first `k` waits add up to at least `shrink(fibo(k))` |
| Easing.FiboValues | src/easing.rs:4-10 | the values of `fibo` up to 24 |
| Easing.PathFitsU16Iff | src/easing.rs:4-29 | every `u16` intermediate of the path stays below 65536 exactly when `max_level <= 23`, which covers `MAX_LEVEL = 20` |
| Easing.DefaultEasingTable | src/easing.rs:16-21 | the 20 waits, one by one |
| Easing.DefaultPathValues | src/easing.rs:41-50 | `generate_level_up_path(20)` is `[1,1,1,1,1,1,1,2,3,5,7,13,19,32,52,84,135,220,355,574]` |
| Easing.DefaultPathJson | src/easing.rs:52-58 | the JSON form is the comma-joined list in brackets without spaces, and it reads back as the path |
| Easing.PathJsonRoundTrip | src/easing.rs:32-35 | for every length, the JSON text of the path parses back to the path |
| Easing.DefaultPathNonDecreasing | src/easing.rs:25-29 | the default waits never shrink from one level to the next |
| JsonValue.NatListJsonRoundTrip | src/easing.rs:32-35 | the JSON text of any list of naturals parses back to that list |
| JsonValue.NatListJsonShape | src/easing.rs:32-35 | a non-empty list prints as `[`, the decimals separated by `,`, then `]`, with no spaces |
| JsonValue.ExtractAtNatList | src/commands/learning.rs:29 | `json_extract(path, '$[k]')` on the stored text is element `k` of the path, NULL past its end |
| JsonValue.StringArray | src/table_config.rs:143-145 | a string list becomes a JSON array of the same strings in the same order |
| Text.Split | src/models.rs:225 | a split has at least one piece and no piece holds the separator |
| Text.SplitJoin | src/models.rs:225 | splitting the join of separator-free pieces gives those pieces back |
| Text.JoinSplit | src/models.rs:225 | joining the pieces of a split gives the string back |
| Text.Trim | src/models.rs:226 | a trimmed string neither starts nor ends with whitespace |
| Text.TrimIdempotent | src/models.rs:226 | trimming twice is trimming once |
| Text.NatToString | src/err.rs:50 | the decimal form has only digits and no leading zero |
| Text.DecimalRoundTrip | src/err.rs:50 | reading a printed number gives it back |
| Text.AsciiLower | src/commands/learning.rs:639 | lower-casing keeps the length and maps each character by itself |
| Utf8.Decode | src/encoding.rs:28 | a decoding error points before the end of the input |
| Utf8.DecodeEncode | src/encoding.rs:28 | decoding the UTF-8 bytes of any string gives the string |
| Utf8.EncodeDecode | src/encoding.rs:28 | bytes that decode are exactly the encoding of what they decode to |
| Utf8.ValidUpToIsValid | src/encoding.rs:28 | the prefix before a reported error position is valid UTF-8 |
| Utf8.DecodeAsciiBytes | src/encoding.rs:28 | any ASCII byte string is valid UTF-8 |
| Encoding.HexDigit | src/encoding.rs:20 | a byte is a hex digit exactly when it is `0-9`, `A-F` or `a-f`, and its value is below 16 |
| Encoding.ParseHexByte | src/encoding.rs:17-21 | two hex digits give `hi*16+lo`; a leading `+` is accepted and the second digit alone gives the value |
| Encoding.DecodeEscape | src/encoding.rs:17-21 | an escape is accepted only when its two bytes are valid UTF-8 and parse as a hex byte, and then yields that byte |
| Encoding.UrlDecode | src/encoding.rs:5-29 | the byte loop returns what the decoding function prescribes: bytes decoded, then checked as UTF-8 |
| Encoding.NoPercentIsIdentity | src/encoding.rs:9-26 | bytes without `%` are copied unchanged |
| Encoding.NoPercentDecodesToItself | src/encoding.rs:68-71 | a string without `%` decodes to itself, so `+` stays `+` |
| Encoding.EscapeDecodes | src/encoding.rs:10-22 | `%HH` with two hex digits of either case becomes the single byte `0xHH` |
| Encoding.PlusSignEscape | src/encoding.rs:20-21 | `%+A` decodes to byte 10 |
| Encoding.DecodedLength | src/encoding.rs:9-26 | the decoded byte count is the input length minus twice the number of escapes |
| Encoding.TrailingPercentIncomplete | src/encoding.rs:11-16 | a `%` followed by fewer than two bytes is the incomplete-encoding error |
| Encoding.NonHexEscapeRejected | src/encoding.rs:17-21 | an ASCII pair that is not hex, such as `%ZZ`, is the invalid-hex error |
| Encoding.InvalidUtf8Rejected | src/encoding.rs:28 | decoded bytes that are not UTF-8 give the UTF-8 error |
| Encoding.DecodedBytes | src/encoding.rs:28 | a successful result is the string whose UTF-8 bytes were decoded |
| Encoding.DecodeQuote | tools/url_encode.py:27-29 | decoding what `urllib.parse.quote(text, safe="")` produces gives the text back |
| Encoding.JapaneseExample | src/encoding.rs:73-77 | `%E8%A6%9A%E3%81%88` decodes to 覚え |
| HttpErr.HttpErrTag | src/err.rs:45-47 | the tag is `http_error` |
| HttpErr.HttpErrMsg | src/err.rs:49-51 | the message is the tag, `:`, the code, ` -=> `, then the original message |
| HttpErr.ParseStatusCode | src/err.rs:62-65 | a status code parses exactly from three digits not starting with 0, giving their value |
| HttpErr.ParseHttpErrCode | src/err.rs:53-69 | a message that does not contain the tag yields no code |
| HttpErr.StatusCodeRoundTrip | src/err.rs:50-65 | a printed status code parses back to itself |
| HttpErr.ArrowAfterCode | src/err.rs:55-56 | the part of a tagged message before the first ` -=> ` is `http_error:<code>`, whatever the message holds |
| HttpErr.HttpErrRoundTrip | src/err.rs:49-69 | parsing a tagged message gives back its code, for every message and code |
| HttpErr.UnparsableCodeIsInternalError | src/err.rs:62-66 | a tagged message whose code does not parse yields 500 |
| HttpErr.NoColonIsNone | src/err.rs:57-61 | a prefix without `:` yields no code |
| HttpErr.BadRequestMessage | src/err.rs:86-93 | `http_err_msg("test", 400)` is `http_error:400 -=> test` |
| HttpErr.BadRequestParsed | src/err.rs:75-84 | `http_error:400 -=> test` parses to 400 |
| Models.GetFields | src/models.rs:36-87 | known exactly for the get tables, always offering `id`, with its own error message otherwise |
| Models.SearchColumns | src/models.rs:90-108 | known exactly for the search tables, never empty, with its own error message otherwise |
| Models.SearchFields | src/models.rs:111-163 | known exactly for the search tables, never empty, with its own error message otherwise |
| Models.CreateDataFields | src/models.rs:166-178 | known exactly for the create tables, never naming `id` or a timestamp, with its own error message otherwise |
| Models.UpdateDataFields | src/models.rs:181-192 | known exactly for the update tables, never naming `id` or `updated_at`, with its own error message otherwise |
| Models.LearningFieldLists | src/models.rs:172-187 | learning creates only `song_id` and `level_up_path`, and updates only `level` and `graduated` |
| Models.DataFieldsAreSearchable | src/models.rs:111-192 | for every updatable table, each creatable or updatable field is also selectable |
| Models.ValidateTable | src/models.rs:198-207 | Ok exactly when the table is in the list, else the error naming the table and the list |
| Models.FirstInvalid | src/models.rs:210-220 | finds the first field outside the list, or reports that there is none |
| Models.FieldsCheck | src/models.rs:210-220 | Ok exactly when every field is allowed |
| Models.ValidateFields | src/models.rs:210-220 | the loop is Ok exactly when every field is allowed, and its error names the first field that is not |
| Models.ParseList | src/models.rs:223-229 | every parsed field is non-empty, trimmed and free of commas |
| Models.ParseListJoin | src/models.rs:223-229 | a list of clean fields joined by commas parses back to itself |
| Models.ParseListStable | src/models.rs:223-229 | parsing is stable: re-joining a parsed list and parsing again changes nothing |
| Models.ParseListMembers | src/models.rs:223-229 | a field is parsed exactly when it is the non-empty trim of some comma-separated piece |
| Models.BlankPiecesParseEmpty | src/models.rs:223-229 | pieces that trim to nothing are all dropped |
| TableConfig.FindConfig | src/table_config.rs:120-125 | `find` returns the first entry of that name, and only for a listed name |
| TableConfig.Get | src/table_config.rs:120-125 | `get(t)` is Some exactly for the six table names |
| TableConfig.FindConfigUnique | src/table_config.rs:120-125 | in a list without repeated names, lookup returns the one entry of that name |
| TableConfig.GetKnown | src/table_config.rs:110-125 | each of the six names yields its own configuration |
| TableConfig.AllTablesDistinct | src/table_config.rs:110-117 | no table name is listed twice |
| TableConfig.SelectableNonEmpty | src/table_config.rs:165-173 | every table has a non-empty selectable list |
| TableConfig.RelShowSongNotUpdatable | src/table_config.rs:195-199 | `rel_show_song` has an empty updatable list |
| TableConfig.ArtistAndLearningFields | src/table_config.rs:151-158 | artist can update `status`, and learning can search `graduated` |
| TableConfig.ModelsAgree | src/table_config.rs:1-5 | this table, which is meant to be the single source of the field lists, agrees with the models module's lookups for every table, except show searching and the updatable list of `rel_show_song` |
| TableConfig.ShowSearchDiffers | src/models.rs:93 | shows are searchable by `name_romaji` here but not in the models module |
| TableConfig.SelectableMapContents | src/table_config.rs:131-139 | the built map has a key exactly for each listed name that has an entry, mapped to that entry's selectable fields |
| TableConfig.BuildSelectableEnumif | src/table_config.rs:131-139 | the insert loop builds `{"table": map}` with the map the specification function describes |
| TableConfig.EnumifContents | src/table_config.rs:175-184 | the constraint has exactly the known tables among those requested, each mapped to its selectable list |
| TableConfig.BuildTableEnum | src/table_config.rs:143-145 | the enum keeps the names, their order and their number |
| Querying.ParseMatchMode | src/commands/querying.rs:112-117 | a mode is accepted exactly when it is one of the five names |
| Querying.ModeNameRoundTrip | src/models.rs:195 | each mode's name parses back to it |
| Querying.LikeLiteral | src/commands/querying.rs:122-130 | a pattern without wildcards matches only itself |
| Querying.LikePrefix | src/commands/querying.rs:131-134 | `value%` matches exactly the texts starting with the value |
| Querying.LikeSuffix | src/commands/querying.rs:135-138 | `%value` matches exactly the texts ending with the value |
| Querying.LikeInfix | src/commands/querying.rs:139-142 | `%value%` matches exactly the texts containing the value |
| Querying.PreparedMeansMode | src/commands/querying.rs:122-144 | for a value without wildcards, the WHERE part and its bound value test exactly what the mode promises |
| Querying.ValueWildcardIsLive | src/commands/querying.rs:131-134 | a `%` typed into the value is not escaped and acts as a wildcard |
| Querying.WherePart | src/commands/querying.rs:122-142 | the WHERE part of a term names its quoted column |
| Querying.TermClause | src/commands/querying.rs:82-117 | a column outside the searchable list is rejected with the invalid-term-key message; an accepted term keeps its column and its mode |
| Querying.Outcomes | src/commands/querying.rs:82-148 | each term is validated by itself, in term order |
| Querying.CombineOk | src/commands/querying.rs:82-148 | the terms build exactly when every term validates, giving one part and one value per term |
| Querying.CombineFirstError | src/commands/querying.rs:82-148 | the first invalid term decides the error |
| Querying.WhereOfOk | src/commands/querying.rs:119-147 | a successful build holds term `i`'s WHERE part and bound value at position `i` |
| Querying.WhereOfSmallestError | src/commands/querying.rs:71-117 | over a term object with ascending unique keys, the failing key that sorts first decides the error |
| Querying.WhereOfFirstError | src/commands/querying.rs:82-117 | the first invalid term's own error is the result |
| Querying.BuildWhere | src/commands/querying.rs:78-150 | the term loop returns what the specification function gives |
| Querying.SearchPlan | src/commands/querying.rs:60-189 | the current version rejects empty fields, then an empty term, before anything else; the older one rejects an unknown table first; a plan has the parsed, non-empty fields and a non-empty term, and in the older version only selectable fields; its WHERE text is the ` AND ` join of the per-term clauses and its values are the per-term bound values, as `WhereOf` builds them for the dialect's searchable list |
| Querying.Search | src/commands/querying.rs:60-189 | the command returns the plan the specification function gives |
| Querying.SearchPlanTerm | src/commands/querying.rs:119-150 | in a current-version plan, each term key has its clause at its own position of the WHERE join, and its bound value at the same position of the values |
| Querying.UnknownTermKeyRejected | src/commands/querying.rs:84-89 | the first term key outside the searchable list is rejected, naming the key |
| Querying.ModeDefaultsToExact | src/commands/querying.rs:107-110 | a term without `match` is an exact match |
| Querying.GroupRuns | src/commands/querying.rs:247-276 | every row lands in exactly one group, in order; each group is a non-empty run of rows with one lower-cased name, that name is the group's, and neighbouring groups differ |
| Querying.ArtistIds | src/commands/querying.rs:289-299 | the artist-id list is rejected exactly when nothing is left after trimming, and is otherwise the parsed list |
| Querying.ArtistIdsJoin | src/commands/querying.rs:340-350 | any non-empty list of clean ids, joined by commas, is accepted as itself |
| Querying.ArtistIdsBlank | src/commands/querying.rs:289-299 | a blank or comma-only argument is rejected |
| DataManagement.Lookup | src/commands/data_management.rs:64 | a key is found exactly when the data holds it, with the value stored under it |
| DataManagement.DecodeValue | src/commands/data_management.rs:377-383 | non-string values pass unchanged; a decoded string is the percent-decoding of the original |
| DataManagement.DecodedEntriesOk | src/commands/data_management.rs:376-386 | decoding succeeds exactly when every value decodes, keeping every key in place |
| DataManagement.DecodedEntriesSmallestError | src/commands/data_management.rs:376-386 | over data with ascending unique keys, the undecodable key that sorts first decides the error |
| DataManagement.DecodedEntriesFirstError | src/commands/data_management.rs:379-381 | the first value that fails decides the error |
| DataManagement.PlainEntriesUnchanged | src/commands/data_management.rs:376-386 | data without `%` in its strings is left as it is |
| DataManagement.UrlDecodeMapValues | src/commands/data_management.rs:376-386 | the in-place loop produces what the specification function gives |
| DataManagement.KeysCheck | src/commands/data_management.rs:24-31 | Ok exactly when every data key is allowed |
| DataManagement.KeysCheckSmallest | src/commands/data_management.rs:24-31 | over data with ascending unique keys, the disallowed key that sorts first is the one named in the error |
| DataManagement.CheckKeys | src/commands/data_management.rs:24-31 | the key loop returns what the specification function gives |
| DataManagement.Placeholders | src/commands/data_management.rs:59-66 | `n` placeholders numbered from `?from` upwards |
| DataManagement.DataPairs | src/commands/data_management.rs:63-70 | only allowed columns that the data holds are taken |
| DataManagement.DataPairsValue | src/commands/data_management.rs:63-70 | a column gets the submitted value exactly when it is allowed and present |
| DataManagement.AddIfAbsentValue | src/commands/data_management.rs:75-80 | an automatic column never overrides a submitted one |
| DataManagement.BuildInsert | src/commands/data_management.rs:57-116 | the builder returns the columns, the placeholders `?1..?k` and the values of the specified pairs, all of equal length |
| DataManagement.AddColumn | src/commands/data_management.rs:75-116 | one guarded push keeps the three lists in step |
| DataManagement.CreateSpec | src/commands/data_management.rs:16-131 | an unknown table is rejected first; a plan exists only for decodable data with allowed keys; link rows get the link plan |
| DataManagement.LinkPlan | src/commands/data_management.rs:36-53 | a link requires `show_id`, then `song_id`, as strings, and is identified by `show_id:song_id` |
| DataManagement.Create | src/commands/data_management.rs:16-131 | the command returns the plan the specification function gives |
| DataManagement.CreateValue | src/commands/data_management.rs:57-116 | each column holds the submitted value when allowed and present, and otherwise its automatic value |
| DataManagement.CreateTimestamps | src/commands/data_management.rs:72-89 | columns start with `id`; `created_at` is always set; `updated_at` is set exactly for artist, show, song and learning |
| DataManagement.LearningCounterDefault | src/commands/data_management.rs:91-109 | an unsubmitted learning counter defaults to 0 |
| DataManagement.LearningPathDefault | src/commands/data_management.rs:110-115 | the learning path defaults to the 20-level path when not submitted |
| DataManagement.LearningCreateDefaults | src/commands/data_management.rs:91-116 | a created learning row has level, `last_level_up_at` and graduated 0, and the submitted path when given |
| DataManagement.LearningCreatePath | src/commands/data_management.rs:110-115 | with the learning allow-list, the path is the submitted one or the default |
| DataManagement.SetParts | src/commands/data_management.rs:169-174 | SET part `i` assigns column `i` to placeholder `?i+1` |
| DataManagement.UpdateSpec | src/commands/data_management.rs:137-199 | unknown tables, empty data and unknown keys are rejected; the id is bound after the SET values, at the next placeholder |
| DataManagement.BuildSet | src/commands/data_management.rs:162-193 | the SET builder returns the parts and values of the specified pairs, with the id last |
| DataManagement.Update | src/commands/data_management.rs:137-199 | the command returns the plan the specification function gives |
| DataManagement.UpdateOutcome | src/commands/data_management.rs:201-205 | the update fails exactly when no row was affected, naming table and id |
| DataManagement.UpdateStamps | src/commands/data_management.rs:177-189 | `updated_at` is set exactly for the four timestamped tables, and `last_level_up_at` exactly for learning with `level` in the data |
| DataManagement.ReassignMode | src/commands/data_management.rs:260-367 | by-ids exactly with song ids and a new artist alone and a non-empty list; by-artist exactly with from and to alone; otherwise the usage error |
| Schedule.WaitDays | src/commands/learning.rs:29 | the wait exists exactly when the path is longer than the level, and is `path[level]` |
| Schedule.DueIffReached | src/commands/learning.rs:13-31 | a record is due exactly when its next review time exists and has been reached |
| Schedule.OffsetShiftsClock | src/commands/learning.rs:13-18 | looking `offset` seconds ahead is asking at `now + offset`, so `DUE_WHERE` is the offset-0 case |
| Schedule.DueStays | src/commands/learning.rs:19-31 | once due, a record stays due |
| Schedule.NeverDue | src/commands/learning.rs:19-30 | graduated records, level-0 records with a negative `last_level_up_at`, and level>0 records whose `path[level]` is absent are never due |
| Schedule.Candidates | src/commands/learning.rs:46-50 | the rows kept are exactly the due records of known songs, taken from the table |
| Schedule.SortByLevel | src/commands/learning.rs:51 | the order is by level, descending, and is a permutation |
| Schedule.Take | src/commands/learning.rs:52 | `LIMIT` keeps a prefix of `min(limit, n)` rows |
| Schedule.DueRecordsAreCandidates | src/commands/learning.rs:45-53 | every listed record is a due record of a known song from the table |
| Schedule.DueListing | src/commands/learning.rs:45-70 | one row per listed record, with its song's name and `wait_days` defaulting to 0 |
| Schedule.ListingSize | src/commands/learning.rs:45-76 | at most `limit` rows, and fewer only when fewer are due |
| Schedule.ListingRowsAreDue | src/commands/learning.rs:45-70 | row `i` is built from a due record of the table |
| Schedule.ListingOrdered | src/commands/learning.rs:51 | rows come in descending level order |
| Schedule.ListingIsTop | src/commands/learning.rs:51-52 | the rows left out never have a higher level than a row kept |
| Schedule.ListingComplete | src/commands/learning.rs:45-53 | with a large enough limit every due record of a known song is listed |
| Learning.BatchSpec | src/commands/learning.rs:85-198 | a batch whose list is empty after trimming is rejected |
| Learning.RunAppends | src/commands/learning.rs:121-189 | existing rows are untouched; there is one new row per created entry, each a non-graduated row of a listed, known song with the batch's path and clock; `created + skipped + already_graduated` counts every input id |
| Learning.RunOkIff | src/commands/learning.rs:121-136 | the batch succeeds exactly when every song is known |
| Learning.RunFirstUnknown | src/commands/learning.rs:131-136 | the first unknown song aborts the batch with its own error |
| Learning.RunSongState | src/commands/learning.rs:139-189 | the graduated records are unchanged, and a song is being learnt afterwards exactly when it was before or the batch enrolled or relearnt it |
| Learning.RunNewRows | src/commands/learning.rs:156-189 | the `k`-th created id is the id of the `k`-th new row; each new row has a listed song's id paired with it in `newIds`, is created at `now`, and starts at `startLevel`/`now` when relearning a graduated song and at level 0, time 0 otherwise |
| Learning.RunAlreadyGraduated | src/commands/learning.rs:156-177 | a song is reported already-graduated exactly when it had only graduated records and was not listed for relearning |
| Learning.RunSkipped | src/commands/learning.rs:139-148 | a song is skipped exactly when it was already being learnt, or it is repeated in the list and its first occurrence enrolled it |
| Learning.RunKeepsValid | src/commands/learning.rs:121-189 | ids stay unique and each song keeps at most one non-graduated record |
| Learning.BatchKeepsValid | src/commands/learning.rs:119-191 | a committed batch keeps the table valid |
| Learning.OneNewPerSong | src/commands/learning.rs:121-189 | two records created by one batch never belong to the same song |
| Learning.FindRecord | src/commands/learning.rs:376-385 | a primary-key lookup finds the first row with that id, or reports that none has it |
| Learning.ScanOk | src/commands/learning.rs:375-401 | the scan succeeds exactly when no listed id is a graduated record |
| Learning.ScanContents | src/commands/learning.rs:375-401 | every id lands in the snapshot or in the missing list; missing ids are exactly those without a row; the snapshot holds the levels read |
| Learning.ScanFirstGraduated | src/commands/learning.rs:389-393 | the first graduated id aborts the scan, even when missing ids came earlier |
| Learning.BumpIdempotent | src/commands/learning.rs:416-432 | bumping from the same snapshot level twice is bumping once, and keeps the id and song |
| Learning.ApplyAllEffect | src/commands/learning.rs:416-433 | a listed row is bumped from its read level, and every other row is unchanged |
| Learning.Tally | src/commands/learning.rs:437-441 | `leveled_up + graduated = total =` the number of ids processed |
| Learning.GraduatingExtremes | src/commands/learning.rs:417-431 | all levels below 19 graduate none; all at 19 or above graduate all |
| Learning.LevelUpSpec | src/commands/learning.rs:361-369 | an id list that is empty after trimming is rejected |
| Learning.LevelUpOkIff | src/commands/learning.rs:361-408 | the level-up succeeds exactly when the list is non-empty and every id is present and not graduated |
| Learning.LevelUpGraduatedFirst | src/commands/learning.rs:389-393 | a graduated id is reported before any missing id |
| Learning.LevelUpMissing | src/commands/learning.rs:403-408 | when nothing is graduated, the missing ids are all reported together |
| Learning.LevelUpEffect | src/commands/learning.rs:416-441 | on success each listed row is bumped once from the level read (graduated at level 19 or above, else one level up, with both timestamps set to now), unlisted rows are unchanged, and the counts add up to the number of ids |
| Learning.LevelUpKeepsValid | src/commands/learning.rs:414-435 | a committed level-up keeps the table valid |
| Learning.LevelUpTwice | src/commands/learning.rs:375-433 | `a,a` raises the level once but counts twice |
| Learning.RunBatch | src/commands/learning.rs:119-191 | the loop on a copy of the table returns what the specification function gives |
| Learning.ScanIds | src/commands/learning.rs:372-401 | the read-only loop returns what the specification function gives |
| Learning.ApplySnapshot | src/commands/learning.rs:410-441 | the update loop and its two counters give the specified table and report |
| Learning.LearningDb.constructor | src/db.rs:19-30 | a fresh store holds the given songs and an empty, valid `learning` table |
| Learning.LearningDb.Batch | src/commands/learning.rs:85-198 | the batch commits the specified table and reports the specified lists, or returns the error with the table unchanged; a table that is `Valid()` before the batch, with fresh ids, is `Valid()` after it |
| Learning.LearningDb.LevelUp | src/commands/learning.rs:357-442 | the level-up commits the specified table and counts, or returns the error with the table unchanged; a table that is `Valid()` before stays `Valid()` |
| Review.Dedup | src/commands/learning.rs:274-276 | the dedup keeps only values of its input |
| Review.Position | src/commands/learning.rs:274-276 | the first index of a value in a list |
| Review.DedupMembers | src/commands/learning.rs:274-282 | the dedup holds no value twice and holds exactly the values of its input |
| Review.DedupOrder | src/commands/learning.rs:274-282 | the dedup keeps first-seen order |
| Review.DedupSnoc | src/commands/learning.rs:274-282 | pushing a value adds it only if it is new |
| Review.RelRows | src/commands/learning.rs:260-271 | the `(show name, media URL)` rows of the song's links whose show exists |
| Review.PlayUrls | src/commands/learning.rs:288-294 | the non-empty URLs of the song's plays with status 0 |
| Review.ArtistName | src/commands/learning.rs:247-253 | a missing artist is named "Unknown" |
| Review.RelUrls | src/commands/learning.rs:277-282 | only present, non-empty link URLs are taken |
| Review.NonEmpty | src/commands/learning.rs:297 | the empty strings are dropped and nothing else |
| Review.EnrichedShows | src/commands/learning.rs:274-276 | show names are unique, are exactly the linked shows, and keep first-seen order |
| Review.EnrichedUrls | src/commands/learning.rs:277-300 | media URLs are non-empty and unique, are exactly the link and play URLs, and link URLs come first |
| Review.CollectLinks | src/commands/learning.rs:272-283 | the link loop returns the deduplicated show names and link URLs |
| Review.CollectPlayed | src/commands/learning.rs:295-300 | the play loop extends the URL list as the dedup of link URLs followed by play URLs |
| Review.EnrichSong | src/commands/learning.rs:245-311 | one due row becomes the specified enriched song |
| Review.Levels | src/commands/learning.rs:315-317 | the levels of the enriched songs, in order |
| Review.HistogramCounts | src/commands/learning.rs:314-317 | a level is a key exactly when some song has it, and maps to how many do |
| Review.HistogramTotal | src/commands/learning.rs:314-317 | the counts add up to the number of songs |
| Review.LevelDistribution | src/commands/learning.rs:314-317 | the counting loop builds the histogram |
| Review.DueIds | src/commands/learning.rs:340-344 | the due ids, one per due row, in order |
| Review.SongReview | src/commands/learning.rs:204-350 | the review enriches each due row in order, counts them, builds their histogram and lists their ids |
| Review.ReviewOfListing | src/commands/learning.rs:210-343 | on the due listing the review has at most `limit` songs, its histogram sums to the count, and every id is that of a due, non-graduated record |
| ReviewText.Replace | src/commands/learning.rs:497-503 | replacing a character by a text without it leaves no occurrence |
| ReviewText.ReplaceAppend | src/commands/learning.rs:497-503 | replacing distributes over concatenation |
| ReviewText.EscapeHtmlOne | src/commands/learning.rs:497-503 | each special character becomes its entity and every other character stays |
| ReviewText.EscapeHtmlIsByChar | src/commands/learning.rs:497-503 | the chain of five replaces is an escape character by character; `&` first means no entity is escaped twice |
| ReviewText.EscapeHtmlSafe | src/commands/learning.rs:497-503 | the output holds no `<`, `>`, `"` or `'` |
| ReviewText.EscapeHtmlPlain | src/commands/learning.rs:497-503 | text without special characters is unchanged |
| ReviewText.EscapeJsonIsByChar | src/commands/learning.rs:506-508 | the two replaces escape `\` and `"` character by character |
| ReviewText.EscapeJsonRoundTrip | src/commands/learning.rs:506-508 | unescaping the escaped string gives it back |
| ReviewText.UrlPath | src/commands/learning.rs:632-633 | the path holds no `?` and no `#` |
| ReviewText.LastSegment | src/commands/learning.rs:636 | the last segment holds no `?`, `#` or `/` |
| ReviewText.DotSuffix | src/commands/learning.rs:637-639 | the suffix starts at the last dot of the segment |
| ReviewText.ExtensionShape | src/commands/learning.rs:630-642 | the extension is empty or a dot followed by dot-free text, has no upper-case ASCII letter, and holds no `?`, `#` or `/` |
| ReviewText.QueryIgnored | src/commands/learning.rs:632 | a query string does not change the extension |
| ReviewText.FragmentIgnored | src/commands/learning.rs:633 | a fragment does not change the extension |
| ReviewText.ExtensionOfFile | src/commands/learning.rs:630-642 | `dir/name.ext` has extension `.ext` lower-cased |
| AmqImport.OrEmpty | skills/importing-amq-songs/parse_amq_import.py:23-34 | a missing field reads as "" |
| AmqImport.SongRows | skills/importing-amq-songs/parse_amq_import.py:50-60 | one song row per entry, numbered 1..n in input order |
| AmqImport.ParseAmqExport | skills/importing-amq-songs/parse_amq_import.py:22-66 | the loop returns the specified artists, shows and songs |
| AmqImport.ArtistsContents | skills/importing-amq-songs/parse_amq_import.py:36-38 | artists are unique, non-empty, exactly the entries' non-empty artist names, in first-occurrence order |
| AmqImport.ShowKeysDedup | skills/importing-amq-songs/parse_amq_import.py:40-48 | the show keys are the dedup of the entries' keys |
| AmqImport.ShowsDistinct | skills/importing-amq-songs/parse_amq_import.py:40-48 | no two shows share a key |
| AmqImport.ShowsFirstData | skills/importing-amq-songs/parse_amq_import.py:42-48 | each show holds the data of the first entry with its key |
| AmqImport.ShowsCover | skills/importing-amq-songs/parse_amq_import.py:40-48 | every entry's key has a show |
| AmqImport.ShowKeyCollides | skills/importing-amq-songs/parse_amq_import.py:41 | the key `english|||vintage` is not injective: different pairs can share a key |

## Left out

- SQL text and its execution are not modelled. This covers the `strftime` clock, query templating, `json_extract` as SQL, and the jankensqlhub query definitions. Queries become functions over the modelled tables.
- The tie order of `ORDER BY l.level DESC` is not modelled. The listing is proved to be some level-descending arrangement of the due records; which of several equal-level records the database puts first is left open.
- `COUNT(*)` lookups of the batch are modelled by the predicates `HasActive` and `HasGraduated`.
- Transactions and rollback are modelled as copy-then-commit on the store class. Concurrent callers are left out, because the code is single-writer.
- UUID generation is the `newIds` parameter: the `i`-th listed song's record, if one is created, gets `newIds[i]`. That new ids are fresh is an assumption (`IdsFresh`), not something proved.
- The clock is the `now` parameter.
- `to_lowercase` is modelled as ASCII lower-casing, because Unicode case mapping is not modelled.
- The stored `level_up_path` is the number list itself. Its JSON text is connected through `JsonValue.NatListJsonRoundTrip`.
- `cmd_get`, `cmd_delete`, `cmd_learning_by_song_ids` and the queries of `cmd_shows_by_artist_ids`/`cmd_songs_by_artist_ids` are left out, because they only validate and run a query. For the artist-id commands, only the empty-list check is modelled.
- `json_value_to_sql` and the rusqlite parameter boxes are left out; a submitted value is bound as itself. `row_value_at` and its floating-point branch are left out too.
- `cmd_learning_song_review` does I/O that is left out: `build_review_html` with its template, resolving the output path, `create_dir_all` and the file write. The model stops at the enriched songs, the histogram, the count and the learning ids.
- The async HTTP handlers, routing and response mapping are left out; this includes `into_response` in `src/err.rs`, beyond the 500 fallback for an unparsable code.
- `models::allowed_term_keys`, which the newer search calls, is not part of this model. Its result is the `searchable` parameter of `Querying.SearchPlan`.
- The Python script's file reading, `json.load` and printing are left out. Entry fields are modelled as optional strings, so non-string JSON values are not modelled.
- DataManagement.UrlDecodeMapValues: the map is rewritten as a returned copy, not in place. JSON object key order is the order of the entry list.
- Querying.Outcomes, Querying.WhereOf, Querying.UnknownTermKeyRejected, DataManagement.CreateSpec, DataManagement.UpdateSpec, DataManagement.CheckKeys and DataManagement.DecodedEntriesFirstError take a JSON object as an entry list in any order, possibly with repeated keys. serde_json's `Map` (a sorted map here) holds unique keys in ascending order, described by `JsonValue.SortedKeys`. For such lists, `Querying.WhereOfSmallestError`, `DataManagement.DecodedEntriesSmallestError` and `DataManagement.KeysCheckSmallest` state that the invalid key that sorts first decides the error. Keys are compared by code point, which is the same order as comparing their UTF-8 bytes.
- The `serde_json::from_str` parse errors of the `term` and `data` arguments are not modelled. The model starts from the parsed object.
- Schedule.Record: `level` is a `nat`. The source's `i64` level can be set negative through the generic update; such a record is never due in the listing query, and it cannot be represented here.
- DataManagement.BuildInsert: the query and the values are computed, but running the insert and its database errors are not modelled.
- Learning.LearningDb.Batch: needs at least as many fresh ids as parsed song ids. This is a condition on the id supply, not something the command checks.
- Review.SongReview: artist names, links and plays are read from a catalog value, with no database involved. That the due rows come from the listing is stated separately by `Review.ReviewOfListing`.
- Review.CollectPlayed: keeps the code's own `!url.is_empty()` check, even though the query already excludes empty URLs.
- HttpErr.ParseHttpErrCode: status codes are modelled as the numbers 100 to 999, which hyper's parser accepts.
- Easing.PathFitsU16Iff: the `u8` argument and the `u16` arithmetic are modelled as a bound on the intermediates, not as wrapping machine integers.
