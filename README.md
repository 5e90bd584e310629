# BoltDB Explorer plugin — a verified model

This project models the IntelliJ side of the BoltDB Explorer plugin. The
plugin browses BoltDB files by running a packaged helper binary and reading
the JSON that binary prints. The storage engine lives in that helper binary
and is not part of this model. What the model covers is the plugin's own
deterministic logic:

- the command lines it sends to the helper, and the name of the helper binary
  for the running platform;
- how it turns the helper's exit code and output streams into a result or an
  error;
- the records it decodes, with their defaults;
- the client that keeps the database path and fills in defaults;
- the keys table and the panel's listing state: rows, the pagination cursor,
  the current bucket path, breadcrumbs, bucket statistics and item counts;
- the two JSON formatters of the preview pane;
- the search-results dialog and the add-key check;
- the file-acceptance rule the menu action and the editor provider share.

Each Kotlin file is modelled in its own form. Objects that update fields
become classes: `KeysTable`, `Panel`, `Client`, `StreamCollector`,
`SearchResultsDialog` and `Presentation`. Loops become methods with
invariants, each proved against a specification function. Pure expressions
become functions and lemmas.

Several operations are given an independent partner to be checked against:

- **Argv builders.** A reader of argv (`BoltHelper.ParseFlags`) turns a
  command line back into its options. Every builder is proved to produce a
  command line that reads back as exactly the intended options
  (`BoltHelper.Encodes`).
- **JSON pretty-printer.** Its scanner state is proved to agree with a
  separate quote tracker and nesting-depth function
  (`PanelJson.Quotes`, `PanelJson.Depth`).
- **Underflow.** The printer fails exactly when some prefix closes more
  brackets than it opened.
- **Path joins.** Joins are proved against `Split`.

Base64 and UTF-8 decoding are a parameter, `decode: string -> Option<string>`,
where `None` means the key is not valid base64. The helper's answers are
parameters too.

The source's `type` field of a search item is called `kind` here, because
`type` is a keyword.

## Model

Source paths are relative to the repository root.

| member | source | states |
|---|---|---|
| DataModels.KeysResult.SafeItems | src/main/kotlin/co/uk/owenrumney/boltdb.explorer/DataModels.kt:16-23 | the items when present, the empty list when null |
| DataModels.SearchResult.SafeItems | src/main/kotlin/co/uk/owenrumney/boltdb.explorer/DataModels.kt:42-49 | the items when present, the empty list when null |
| DataModels.DecodeKeysResult | src/main/kotlin/co/uk/owenrumney/boltdb.explorer/DataModels.kt:16-20 | decoding succeeds exactly when `approxReturned` is present; `items` and `nextAfterKey` default to null; the error names the missing field |
| DataModels.DecodeSearchResult | src/main/kotlin/co/uk/owenrumney/boltdb.explorer/DataModels.kt:42-46 | never fails; absent fields take the defaults `items = null`, `total = 0`, `limited = false` |
| DataModels.MissingHeadFields | src/main/kotlin/co/uk/owenrumney/boltdb.explorer/DataModels.kt:26-30 | names exactly the absent required fields: `mode`, `totalSize` and `valueHeadBase64` each appear exactly when missing, and nothing else appears |
| DataModels.DecodeHeadResult | src/main/kotlin/co/uk/owenrumney/boltdb.explorer/DataModels.kt:26-30 | succeeds exactly when all three required fields are present, with their values; otherwise the error lists exactly the missing fields, at least one |
| BoltHelper.ParseTokens | src/main/kotlin/co/uk/owenrumney/boltdb.explorer/BoltHelper.kt:139-185 | the argv reader gives back well-formed options from their tokens: the round trip every builder relies on |
| BoltHelper.TokensAppend | src/main/kotlin/co/uk/owenrumney/boltdb.explorer/BoltHelper.kt:142-145 | the tokens of two option lists are the concatenation of their tokens (how `addAll` grows the argv) |
| BoltHelper.ExtendArgs | src/main/kotlin/co/uk/owenrumney/boltdb.explorer/BoltHelper.kt:143-145 | appending at most one option's tokens keeps the argv equal to the command plus the tokens of the options so far |
| BoltHelper.EncodesTokens | src/main/kotlin/co/uk/owenrumney/boltdb.explorer/BoltHelper.kt:139-185 | the command word followed by the tokens of well-formed options reads back as those options |
| BoltHelper.ParseFlagsTokens | src/main/kotlin/co/uk/owenrumney/boltdb.explorer/BoltHelper.kt:141-211 | whatever reads as options is exactly the tokens of those options, and the options read are well formed |
| BoltHelper.EncodesExactly | src/main/kotlin/co/uk/owenrumney/boltdb.explorer/BoltHelper.kt:141-211 | an argv that encodes a command and options is exactly the command word followed by the options' tokens, so each builder's `Encodes` contract fixes its argv token for token |
| BoltHelper.MetaArgs | src/main/kotlin/co/uk/owenrumney/boltdb.explorer/BoltHelper.kt:122 | `meta` with the single option `--db D` |
| BoltHelper.ListBucketsArgs | src/main/kotlin/co/uk/owenrumney/boltdb.explorer/BoltHelper.kt:129-130 | `lsb` with `--db D --path P`, in that order |
| BoltHelper.ListKeys | src/main/kotlin/co/uk/owenrumney/boltdb.explorer/BoltHelper.kt:139-146 | `lsk --db D --path P`, then `--prefix` only for a non-empty prefix, `--limit` only for a given limit, `--after-key` only for a non-empty cursor, in that order, read back as exactly those options |
| BoltHelper.ReadHeadArgs | src/main/kotlin/co/uk/owenrumney/boltdb.explorer/BoltHelper.kt:155-161 | `get` with db, path, key, `--mode head` and `--n` (65536 by default) |
| BoltHelper.SaveToFileArgs | src/main/kotlin/co/uk/owenrumney/boltdb.explorer/BoltHelper.kt:164-170 | `get` with db, path, key, `--mode save` and `--out O` |
| BoltHelper.ExportBucket | src/main/kotlin/co/uk/owenrumney/boltdb.explorer/BoltHelper.kt:173-178 | `export --db D --out O`, then `--path` and `--prefix` only when not blank (a blank test, not an empty test) |
| BoltHelper.Search | src/main/kotlin/co/uk/owenrumney/boltdb.explorer/BoltHelper.kt:181-185 | `search --db D --query Q --limit L`, with `-case-sensitive` last exactly when case-sensitive |
| BoltHelper.CreateBucketArgs | src/main/kotlin/co/uk/owenrumney/boltdb.explorer/BoltHelper.kt:188-189 | `write` with db, `--op create-bucket` and path |
| BoltHelper.PutKeyValueArgs | src/main/kotlin/co/uk/owenrumney/boltdb.explorer/BoltHelper.kt:192-198 | `write` with db, `--op put`, path, key and value |
| BoltHelper.DeleteKeyArgs | src/main/kotlin/co/uk/owenrumney/boltdb.explorer/BoltHelper.kt:201-207 | `write` with db, `--op delete-key`, path and key |
| BoltHelper.DeleteBucketArgs | src/main/kotlin/co/uk/owenrumney/boltdb.explorer/BoltHelper.kt:210-211 | `write` with db, `--op delete-bucket` and path |
| BoltHelper.WriteArgs | src/main/kotlin/co/uk/owenrumney/boltdb.explorer/BoltHelper.kt:187-211 | specification: the argv of each write operation; `WriteArgsShape` states its shape and the client's write methods are proved against it |
| BoltHelper.WriteArgsShape | src/main/kotlin/co/uk/owenrumney/boltdb.explorer/BoltHelper.kt:187-211 | every write argv starts `write --db D --op X --path P`; it carries `--key` exactly for put and delete-key, and `--value` exactly for put, with the given values |
| BoltHelper.LookupCons3 | src/main/kotlin/co/uk/owenrumney/boltdb.explorer/BoltHelper.kt:187-211 | looking a name up past three leading options finds the first of them with that name, else looks in the rest |
| BoltHelper.PlatformBinary | src/main/kotlin/co/uk/owenrumney/boltdb.explorer/BoltHelper.kt:20-42 | as written: an unsupported OS (checked first) or arch gives that error; otherwise `bolthelper-` + os + `-` + arch, with `.exe` whenever the lower-cased OS name contains "win" |
| BoltHelper.PlatformBinaryName | src/main/kotlin/co/uk/owenrumney/boltdb.explorer/BoltHelper.kt:20-42 | corrected: a name exactly when OS and arch are both supported |
| BoltHelper.PlatformBinaryNameExe | src/main/kotlin/co/uk/owenrumney/boltdb.explorer/BoltHelper.kt:40-42 | the corrected name ends in `.exe` exactly on Windows |
| BoltHelper.DarwinBinary | src/main/kotlin/co/uk/owenrumney/boltdb.explorer/BoltHelper.kt:25-38 | for "Darwin"/"aarch64" the code as written names `bolthelper-darwin-arm64.exe`; the corrected name has no `.exe` |
| BoltHelper.BinaryNamesAgree | src/main/kotlin/co/uk/owenrumney/boltdb.explorer/BoltHelper.kt:20-42 | the code as written and the corrected rule fail together with the same message, and otherwise differ only by the `.exe` the code appends to a non-Windows name whose OS string contains "win" |
| BoltHelper.ReadLines | src/main/kotlin/co/uk/owenrumney/boltdb.explorer/BoltHelper.kt:217 | specification of `BufferedReader` lines: split at `\n`, `\r` or `\r\n`, terminators dropped, a last unterminated line kept; stated by `LineEndFirst`, `ReadLinesClean`, `TerminatedPlainText` and `TerminatedBlank` |
| Text.Terminated | src/main/kotlin/co/uk/owenrumney/boltdb.explorer/BoltHelper.kt:218 | specification of the buffer: each line followed by `\n`; `StreamCollector.Run` is proved against it |
| BoltHelper.LineEndFirst | src/main/kotlin/co/uk/owenrumney/boltdb.explorer/BoltHelper.kt:217 | the line ends at the first `\n` or `\r`: no terminator comes before that index, and one stands at it when the text goes on |
| BoltHelper.ReadLinesClean | src/main/kotlin/co/uk/owenrumney/boltdb.explorer/BoltHelper.kt:217 | no line yielded by the reader contains a `\n` or `\r` |
| BoltHelper.StreamCollector.Run | src/main/kotlin/co/uk/owenrumney/boltdb.explorer/BoltHelper.kt:214-220 | the buffer grows by each line read, each followed by `\n` |
| BoltHelper.TerminatedPlainText | src/main/kotlin/co/uk/owenrumney/boltdb.explorer/BoltHelper.kt:216-220 | a `\r`-free text that is empty or ends in `\n` is collected unchanged (empty input gives "") |
| BoltHelper.TerminatedBlank | src/main/kotlin/co/uk/owenrumney/boltdb.explorer/BoltHelper.kt:216-220 | the collected text is blank exactly when the stream was blank |
| BoltHelper.BlankConcat | src/main/kotlin/co/uk/owenrumney/boltdb.explorer/BoltHelper.kt:114 | a concatenation is blank exactly when each part is |
| BoltHelper.ExecJson | src/main/kotlin/co/uk/owenrumney/boltdb.explorer/BoltHelper.kt:109-116 | exit code 0 hands the collected stdout to the parser; any other code fails with the trimmed stderr when it is not blank, else "exit code N"; the message is never blank |
| BoltHelper.ExecErrorPlainStderr | src/main/kotlin/co/uk/owenrumney/boltdb.explorer/BoltHelper.kt:109-114 | for plain `\n`-terminated stderr the error message is stderr itself, trimmed |
| BoltHelper.IsBoltDB | src/main/kotlin/co/uk/owenrumney/boltdb.explorer/BoltHelper.kt:121-126 | sends `meta --db D`; true exactly when that call exits with 0 and its collected stdout parses as JSON; for plain `\n`-terminated stdout, exactly when the exit code is 0 and stdout itself parses |
| BoltDBClient.Client.ListKeys | src/main/kotlin/co/uk/owenrumney/boltdb.explorer/BoltDBClient.kt:23-29 | the stored path as `--db`; `--limit` always, 100 by default; the cursor when non-empty; never `--prefix` |
| BoltDBClient.Client.GetKeyHead | src/main/kotlin/co/uk/owenrumney/boltdb.explorer/BoltDBClient.kt:35-38 | always head mode with `--n 65536` |
| BoltDBClient.Client.Search | src/main/kotlin/co/uk/owenrumney/boltdb.explorer/BoltDBClient.kt:40-43 | case-insensitive with limit 100 unless given, passed in the (query, limit, caseSensitive) order the helper expects |
| BoltDBClient.Client.CreateBucket | src/main/kotlin/co/uk/owenrumney/boltdb.explorer/BoltDBClient.kt:45-47 | the create-bucket write with the stored path as `--db` |
| BoltDBClient.Client.PutKey | src/main/kotlin/co/uk/owenrumney/boltdb.explorer/BoltDBClient.kt:49-51 | the put write with the stored path, key and value |
| BoltDBClient.Client.DeleteKey | src/main/kotlin/co/uk/owenrumney/boltdb.explorer/BoltDBClient.kt:53-55 | the delete-key write with the stored path and key |
| BoltDBClient.Client.DeleteBucket | src/main/kotlin/co/uk/owenrumney/boltdb.explorer/BoltDBClient.kt:57-59 | the delete-bucket write with the stored path |
| BoltDBClient.Client.ExportValue | src/main/kotlin/co/uk/owenrumney/boltdb.explorer/BoltDBClient.kt:61-63 | always save mode with the given output path |
| BoltDBClient.Client.SetDatabasePath | src/main/kotlin/co/uk/owenrumney/boltdb.explorer/BoltDBClient.kt:19-21 | replaces the stored path |
| BoltDBClient.Client.constructor | src/main/kotlin/co/uk/owenrumney/boltdb.explorer/BoltDBClient.kt:17 | the stored path starts as "" |
| BoltDBClient.ListAfterSet | src/main/kotlin/co/uk/owenrumney/boltdb.explorer/BoltDBClient.kt:17-29 | after `setDatabasePath(p)` a listing sends `--db p` and `--limit 100` |
| KeysTableModel.KeysTable.RowCount | src/main/kotlin/co/uk/owenrumney/boltdb.explorer/KeysTableModel.kt:9 | the number of stored rows |
| KeysTableModel.KeysTable.ColumnCount | src/main/kotlin/co/uk/owenrumney/boltdb.explorer/KeysTableModel.kt:6-10 | always 3 |
| KeysTableModel.KeysTable.ColumnName | src/main/kotlin/co/uk/owenrumney/boltdb.explorer/KeysTableModel.kt:6-11 | Key, Size, Type for columns 0 to 2; no name (an index error) otherwise |
| KeysTableModel.KeysTable.ValueAt | src/main/kotlin/co/uk/owenrumney/boltdb.explorer/KeysTableModel.kt:12 | the stored cell exactly when both indices are in bounds |
| KeysTableModel.KeysTable.IsCellEditable | src/main/kotlin/co/uk/owenrumney/boltdb.explorer/KeysTableModel.kt:14 | always false |
| KeysTableModel.KeysTable.Clear | src/main/kotlin/co/uk/owenrumney/boltdb.explorer/KeysTableModel.kt:16-19 | no rows afterwards; a data-changed event |
| KeysTableModel.KeysTable.AddRow | src/main/kotlin/co/uk/owenrumney/boltdb.explorer/KeysTableModel.kt:21-24 | one row appended at the end, earlier rows unchanged, an insert event at index size-1 |
| KeysTableModel.KeysTable.SetRows | src/main/kotlin/co/uk/owenrumney/boltdb.explorer/KeysTableModel.kt:26-30 | the contents become exactly the given rows, whatever was there; a data-changed event |
| KeysTableModel.FillTable | src/main/kotlin/co/uk/owenrumney/boltdb.explorer/KeysTableModel.kt:16-24 | a usage scenario of the model, not a function of it: clearing and then adding rows one by one leaves exactly those rows, each announced at its own index |
| PanelPaths.ChildPath | src/main/kotlin/co/uk/owenrumney/boltdb.explorer/BoltDBExplorerPanel.kt:493 | the name alone at the root, else `parent/name` |
| PanelPaths.ChildPathSplit | src/main/kotlin/co/uk/owenrumney/boltdb.explorer/BoltDBExplorerPanel.kt:493 | for a name without `/`, splitting the child path gives the parent's names and then the name |
| PanelPaths.ChildPathParent | src/main/kotlin/co/uk/owenrumney/boltdb.explorer/BoltDBExplorerPanel.kt:493 | dropping the last name of a child path gives back the parent |
| PanelPaths.Breadcrumbs | src/main/kotlin/co/uk/owenrumney/boltdb.explorer/BoltDBExplorerPanel.kt:191-216 | a Root link to "", then one link per name of `currentPath.split("/")` targeting the names up to it joined by `/`; the last targets `currentPath` and every target is a prefix of it |
| ExplorerPanel.RoundedTenths | src/main/kotlin/co/uk/owenrumney/boltdb.explorer/BoltDBExplorerPanel.kt:1165-1166 | the quotient in tenths, within half a tenth of the exact value |
| ExplorerPanel.OneDecimal | src/main/kotlin/co/uk/owenrumney/boltdb.explorer/BoltDBExplorerPanel.kt:1170 | digits, a point and one digit |
| ExplorerPanel.OneDecimalValue | src/main/kotlin/co/uk/owenrumney/boltdb.explorer/BoltDBExplorerPanel.kt:1170 | reading the digits back, point ignored, gives the tenths |
| ExplorerPanel.FormatSizeUnit | src/main/kotlin/co/uk/owenrumney/boltdb.explorer/BoltDBExplorerPanel.kt:1162-1168 | below 1024 `"N B"`; below 1 MiB a KB figure, else an MB figure, each within half a tenth of the exact quotient |
| ExplorerPanel.FormatSize | src/main/kotlin/co/uk/owenrumney/boltdb.explorer/BoltDBExplorerPanel.kt:1162-1168 | every formatted size ends in `B`, and the letter before it is the unit: none below 1 KiB, `K` below 1 MiB, otherwise `M` |
| ExplorerPanel.KeyRowOf | src/main/kotlin/co/uk/owenrumney/boltdb.explorer/BoltDBExplorerPanel.kt:619-637 | type "Bucket" exactly for buckets and "Key" otherwise; size "Loading..." exactly for buckets, else the formatted size; the decoded key, or the base64 text when it does not decode |
| ExplorerPanel.MakeKeyRow | src/main/kotlin/co/uk/owenrumney/boltdb.explorer/BoltDBExplorerPanel.kt:619-637 | the loop body of `updateKeysTable` builds exactly the row `KeyRowOf` describes |
| ExplorerPanel.KeyRows | src/main/kotlin/co/uk/owenrumney/boltdb.explorer/BoltDBExplorerPanel.kt:619-639 | one row per item, in order |
| ExplorerPanel.Panel.UpdateKeysTable | src/main/kotlin/co/uk/owenrumney/boltdb.explorer/BoltDBExplorerPanel.kt:614-644 | emptied first when asked, then exactly one row per item appended in order; the cursor becomes the result's; the path is unchanged |
| ExplorerPanel.FirstBucketRow | src/main/kotlin/co/uk/owenrumney/boltdb.explorer/BoltDBExplorerPanel.kt:672-676 | the least index of a row with that name and type "Bucket", or none when no row matches |
| ExplorerPanel.Panel.SetItemCount | src/main/kotlin/co/uk/owenrumney/boltdb.explorer/BoltDBExplorerPanel.kt:671-685 | only the Size cell of the first matching bucket row changes; nothing changes when there is none |
| ExplorerPanel.ItemCountLabel | src/main/kotlin/co/uk/owenrumney/boltdb.explorer/BoltDBExplorerPanel.kt:664-669 | `"N+ items"` exactly when there is a next page, `"N items"` exactly when there is not |
| ExplorerPanel.CountLabel | src/main/kotlin/co/uk/owenrumney/boltdb.explorer/BoltDBExplorerPanel.kt:664-669 | the label for a listing's item count and cursor |
| ExplorerPanel.SetCount | src/main/kotlin/co/uk/owenrumney/boltdb.explorer/BoltDBExplorerPanel.kt:671-685 | only the first row showing the bucket (name and type "Bucket") gets the label; keys, types and every other row stay; nothing changes when there is no such row |
| ExplorerPanel.CountStep | src/main/kotlin/co/uk/owenrumney/boltdb.explorer/BoltDBExplorerPanel.kt:649-678 | specification of one listed entry: a bucket whose own listing (at the child path of its decoded name) succeeds labels its row with that listing's count; anything else changes nothing |
| ExplorerPanel.CountedRows | src/main/kotlin/co/uk/owenrumney/boltdb.explorer/BoltDBExplorerPanel.kt:647-694 | specification of the whole pass: the entries' steps applied in listing order; the row count is kept |
| ExplorerPanel.Panel.LoadBucketItemCounts | src/main/kotlin/co/uk/owenrumney/boltdb.explorer/BoltDBExplorerPanel.kt:647-694 | the loop leaves exactly `CountedRows` of the old rows over the listed items, with path, selection and cursor unchanged |
| ExplorerPanel.CountedRowsFrame | src/main/kotlin/co/uk/owenrumney/boltdb.explorer/BoltDBExplorerPanel.kt:647-694 | counting keeps the number of rows, every key and type, and the first row of each bucket; only bucket rows change size |
| ExplorerPanel.SameHeadersFirst | src/main/kotlin/co/uk/owenrumney/boltdb.explorer/BoltDBExplorerPanel.kt:675-676 | the row search looks only at the Key and Type cells |
| ExplorerPanel.CountedRowsLabel | src/main/kotlin/co/uk/owenrumney/boltdb.explorer/BoltDBExplorerPanel.kt:661-685 | a bucket's row ends up with the count of the last listed bucket of that name whose listing succeeded |
| ExplorerPanel.CountedRowsUntouched | src/main/kotlin/co/uk/owenrumney/boltdb.explorer/BoltDBExplorerPanel.kt:661-685 | a row whose key no successfully listed bucket carries is left exactly as it was |
| ExplorerPanel.Panel.NavigateToPath | src/main/kotlin/co/uk/owenrumney/boltdb.explorer/BoltDBExplorerPanel.kt:862-864 | the new path, with the selection cleared |
| ExplorerPanel.Panel.OpenBucket | src/main/kotlin/co/uk/owenrumney/boltdb.explorer/BoltDBExplorerPanel.kt:491-494 | a double click on a bucket moves to the child path |
| ExplorerPanel.Panel.BucketPreviewText | src/main/kotlin/co/uk/owenrumney/boltdb.explorer/BoltDBExplorerPanel.kt:758-792 | the preview text is `formatJson` of the statistics |
| ExplorerPanel.BucketStats | src/main/kotlin/co/uk/owenrumney/boltdb.explorer/BoltDBExplorerPanel.kt:758-787 | specification of the statistics map, in insertion order: the base fields, then the note, then the key statistics; its fields are stated by `BaseStatsFields`, `NoteStatsFields`, `KeyStatsFields` and the `BucketStats*` lemmas |
| ExplorerPanel.BaseStats | src/main/kotlin/co/uk/owenrumney/boltdb.explorer/BoltDBExplorerPanel.kt:762-775 | specification: name, path, totalItems ("N+" with a cursor), buckets, keys and approximateReturned |
| ExplorerPanel.NoteStats | src/main/kotlin/co/uk/owenrumney/boltdb.explorer/BoltDBExplorerPanel.kt:778-780 | specification: the incomplete-count note, present exactly with a cursor |
| ExplorerPanel.KeyStats | src/main/kotlin/co/uk/owenrumney/boltdb.explorer/BoltDBExplorerPanel.kt:782-787 | specification: total (the corrected sum), truncated mean, largest and smallest size, present exactly when there are keys |
| ExplorerPanel.KeyStatsFields | src/main/kotlin/co/uk/owenrumney/boltdb.explorer/BoltDBExplorerPanel.kt:782-787 | with keys, `totalKeySize` is the corrected sum, `averageKeySize` the truncated mean, and `largestKey`/`smallestKey` the maximum and minimum; without keys none of the four is present |
| ExplorerPanel.OfKind | src/main/kotlin/co/uk/owenrumney/boltdb.explorer/BoltDBExplorerPanel.kt:760-761 | the filtered entries all have the requested bucket flag and come from the listing; completeness is `OfKindMultiset` |
| ExplorerPanel.OfKindMultiset | src/main/kotlin/co/uk/owenrumney/boltdb.explorer/BoltDBExplorerPanel.kt:760-761 | the filter keeps every entry with the requested flag exactly as often as the listing holds it, and no other entry |
| ExplorerPanel.OfKindComplete | src/main/kotlin/co/uk/owenrumney/boltdb.explorer/BoltDBExplorerPanel.kt:760-761 | every listed entry with the requested flag appears in the filtered list |
| ExplorerPanel.OfKindSplit | src/main/kotlin/co/uk/owenrumney/boltdb.explorer/BoltDBExplorerPanel.kt:760-761 | buckets and keys together number the listing |
| ExplorerPanel.MaxSize | src/main/kotlin/co/uk/owenrumney/boltdb.explorer/BoltDBExplorerPanel.kt:786 | an upper bound of every key size that some key has |
| ExplorerPanel.MinSize | src/main/kotlin/co/uk/owenrumney/boltdb.explorer/BoltDBExplorerPanel.kt:787 | a lower bound of every key size that some key has |
| ExplorerPanel.TruncDiv | src/main/kotlin/co/uk/owenrumney/boltdb.explorer/BoltDBExplorerPanel.kt:785 | the quotient truncated toward zero |
| ExplorerPanel.Int32 | src/main/kotlin/co/uk/owenrumney/boltdb.explorer/BoltDBExplorerPanel.kt:784 | an `Int` value congruent to the integer modulo 2^32 |
| ExplorerPanel.TotalKeySizeAsWritten | src/main/kotlin/co/uk/owenrumney/boltdb.explorer/BoltDBExplorerPanel.kt:784 | as written: the sum is an `Int` value |
| ExplorerPanel.TotalKeySizeWraps | src/main/kotlin/co/uk/owenrumney/boltdb.explorer/BoltDBExplorerPanel.kt:784 | three keys of 10^9 bytes give a total of -1294967296 as written |
| ExplorerPanel.TotalKeySize | src/main/kotlin/co/uk/owenrumney/boltdb.explorer/BoltDBExplorerPanel.kt:784 | corrected: for sizes that are not negative, not negative and at least every key size |
| ExplorerPanel.TotalKeySizeIsSum | src/main/kotlin/co/uk/owenrumney/boltdb.explorer/BoltDBExplorerPanel.kt:784 | the corrected total is the true sum, and agrees with the code as written whenever the sum fits in an `Int` |
| ExplorerPanel.BucketStatsCounts | src/main/kotlin/co/uk/owenrumney/boltdb.explorer/BoltDBExplorerPanel.kt:760-778 | the `buckets` and `keys` entries are the two counts, and they add up to the total |
| ExplorerPanel.BucketStatsTotal | src/main/kotlin/co/uk/owenrumney/boltdb.explorer/BoltDBExplorerPanel.kt:767-773 | `totalItems` is the text `"N+"` with a next page, else the number N |
| ExplorerPanel.BucketStatsNote | src/main/kotlin/co/uk/owenrumney/boltdb.explorer/BoltDBExplorerPanel.kt:780-782 | the note is present exactly when there is a next page |
| ExplorerPanel.BucketStatsExtremes | src/main/kotlin/co/uk/owenrumney/boltdb.explorer/BoltDBExplorerPanel.kt:783-788 | largest and smallest are present exactly when there are keys; then smallest <= largest and they bound every key size |
| ExplorerPanel.BucketStatsBoundKeys | src/main/kotlin/co/uk/owenrumney/boltdb.explorer/BoltDBExplorerPanel.kt:759-788 | over the listing itself: largest and smallest are present exactly when some entry is not a bucket, and they bound the size of every such entry |
| PanelJson.EntryLines | src/main/kotlin/co/uk/owenrumney/boltdb.explorer/BoltDBExplorerPanel.kt:1206-1215 | one line per entry, in map order |
| PanelJson.AppendEntry | src/main/kotlin/co/uk/owenrumney/boltdb.explorer/BoltDBExplorerPanel.kt:1207-1214 | the builder grows by one entry's line and a newline |
| PanelJson.JsonText | src/main/kotlin/co/uk/owenrumney/boltdb.explorer/BoltDBExplorerPanel.kt:1204-1218 | specification of `formatJson`: "{", one line per entry in map order, "}", joined by newlines; stated by `JsonTextLines`, `LineShape` and `JsonTextEmpty` |
| PanelJson.FormatJson | src/main/kotlin/co/uk/owenrumney/boltdb.explorer/BoltDBExplorerPanel.kt:1204-1218 | the builder loop yields `{`, the entry lines and `}` joined by newlines |
| PanelJson.JsonTextEmpty | src/main/kotlin/co/uk/owenrumney/boltdb.explorer/BoltDBExplorerPanel.kt:1204-1218 | an empty map gives `"{\n}"` |
| PanelJson.LineShape | src/main/kotlin/co/uk/owenrumney/boltdb.explorer/BoltDBExplorerPanel.kt:1207-1214 | an entry's line has no newline when its key and value have none, and ends with a comma unless it is the last |
| PanelJson.JsonTextLines | src/main/kotlin/co/uk/owenrumney/boltdb.explorer/BoltDBExplorerPanel.kt:1204-1218 | split at newlines the text is `{`, one line per entry in order, `}`; every entry line but the last ends with a comma |
| PanelJson.Step | src/main/kotlin/co/uk/owenrumney/boltdb.explorer/BoltDBExplorerPanel.kt:1235-1277 | specification of one turn of the `when`, with the branches tried in source order; its properties are `StepChars`, `ScanAgrees`, `Layout` and `ScanUnderflow` |
| PanelJson.ScanText | src/main/kotlin/co/uk/owenrumney/boltdb.explorer/BoltDBExplorerPanel.kt:1230-1278 | specification of the character loop: `Step` applied in order from the start state, failing from the first underflow on |
| PanelJson.Format | src/main/kotlin/co/uk/owenrumney/boltdb.explorer/BoltDBExplorerPanel.kt:1220-1282 | specification of `formatJsonString`: the untrimmed original unless the trimmed text starts with `{` or `[` and scans without underflow; stated by `FormatFallback` and `FormatPrints` |
| PanelJson.FormatJsonString | src/main/kotlin/co/uk/owenrumney/boltdb.explorer/BoltDBExplorerPanel.kt:1220-1282 | the character loop computes the printer's specification, fallback paths included |
| PanelJson.UnderflowSticks | src/main/kotlin/co/uk/owenrumney/boltdb.explorer/BoltDBExplorerPanel.kt:1255-1258 | once the printer has thrown, further input does not revive it |
| PanelJson.ScanAgrees | src/main/kotlin/co/uk/owenrumney/boltdb.explorer/BoltDBExplorerPanel.kt:1235-1277 | the scanner's string and escape flags agree with an independent quote tracker, its indent is the nesting depth, the copied characters are the input minus outside-string whitespace, and only newlines and spaces are inserted |
| PanelJson.ScanChar | src/main/kotlin/co/uk/owenrumney/boltdb.explorer/BoltDBExplorerPanel.kt:1235-1277 | one turn of the formatter's `when`: it throws exactly when the step function underflows, and otherwise gives the step function's new flags, indent and text |
| PanelJson.ScanUnderflow | src/main/kotlin/co/uk/owenrumney/boltdb.explorer/BoltDBExplorerPanel.kt:1255-1258 | the printer throws exactly when some prefix closes more brackets than it opened |
| PanelJson.StepUnderflow | src/main/kotlin/co/uk/owenrumney/boltdb.explorer/BoltDBExplorerPanel.kt:1255-1258 | a printer that survived the prefix throws on the last character exactly when the depth drops below zero there |
| PanelJson.FormatFallback | src/main/kotlin/co/uk/owenrumney/boltdb.explorer/BoltDBExplorerPanel.kt:1222-1225 | the original, untrimmed string comes back when the trimmed input does not start with `{` or `[`, or when a prefix underflows |
| PanelJson.FormatPrints | src/main/kotlin/co/uk/owenrumney/boltdb.explorer/BoltDBExplorerPanel.kt:1235-1277 | otherwise deleting the inserted newlines and spaces gives the trimmed input minus its outside-string whitespace, in order |
| PanelJson.ScanInsideString | src/main/kotlin/co/uk/owenrumney/boltdb.explorer/BoltDBExplorerPanel.kt:1236-1248 | inside a string, text without quotes or backslashes (brackets and whitespace included) is copied verbatim |
| PanelJson.ScanEscapedQuote | src/main/kotlin/co/uk/owenrumney/boltdb.explorer/BoltDBExplorerPanel.kt:1236-1244 | inside a string, an escaped quote is copied and does not end the string |
| PanelJson.Layout | src/main/kotlin/co/uk/owenrumney/boltdb.explorer/BoltDBExplorerPanel.kt:1249-1269 | outside strings: an opener is followed by a newline and the new depth's indent; a closer is preceded by a newline and the decremented depth's indent; a comma is followed by a newline and indent; a colon by one space |
| PanelJson.StepChars | src/main/kotlin/co/uk/owenrumney/boltdb.explorer/BoltDBExplorerPanel.kt:1249-1269 | outside strings, one bracket, comma or colon emits exactly that character with its newline and indent, or its trailing space |
| PanelJson.FormatEmptyObject | src/main/kotlin/co/uk/owenrumney/boltdb.explorer/BoltDBExplorerPanel.kt:1249-1258 | `{}` gives `"{\n  \n}"` |
| Dialogs.DisplayName | src/main/kotlin/co/uk/owenrumney/boltdb.explorer/Dialogs.kt:94-98 | the decoded key, or `[invalid base64]` when decoding fails |
| Text.Trim | src/main/kotlin/co/uk/owenrumney/boltdb.explorer/Dialogs.kt:205 | `trim()`: the result is the input with its leading and trailing whitespace removed, and empty exactly when the input is blank |
| Dialogs.TypeLabel | src/main/kotlin/co/uk/owenrumney/boltdb.explorer/Dialogs.kt:100-102 | same length; only the first character changes, and only when it is lower case; an empty type stays empty |
| Dialogs.TypeLabelLower | src/main/kotlin/co/uk/owenrumney/boltdb.explorer/Dialogs.kt:100-102 | the label equals the type up to letter case |
| Dialogs.TypeLabelIdempotent | src/main/kotlin/co/uk/owenrumney/boltdb.explorer/Dialogs.kt:100-102 | labelling a label changes nothing |
| Dialogs.ResultRowOf | src/main/kotlin/co/uk/owenrumney/boltdb.explorer/Dialogs.kt:93-108 | Name is the display name, Path the bucket names joined by `/`, Type the type up to case |
| Dialogs.ResultPathSplit | src/main/kotlin/co/uk/owenrumney/boltdb.explorer/Dialogs.kt:106 | the Path column splits back into the bucket names when none contains `/` |
| Dialogs.ResultRows | src/main/kotlin/co/uk/owenrumney/boltdb.explorer/Dialogs.kt:93-109 | one row per match, in order |
| Dialogs.SearchResultsDialog.PopulateResults | src/main/kotlin/co/uk/owenrumney/boltdb.explorer/Dialogs.kt:92-110 | the loop appends exactly one row per `safeItems` entry, in order |
| Dialogs.SearchResultsDialog.constructor | src/main/kotlin/co/uk/owenrumney/boltdb.explorer/Dialogs.kt:25-28 | a new dialog shows one row per match |
| Dialogs.SearchResultsDialog.NavigateToResult | src/main/kotlin/co/uk/owenrumney/boltdb.explorer/Dialogs.kt:112-126 | the dialog closes and hands on the joined path and the display name of the chosen match, the strings its row shows |
| Dialogs.HeaderTitle | src/main/kotlin/co/uk/owenrumney/boltdb.explorer/Dialogs.kt:39 | `Search Results (N)` with N the number of matches |
| Dialogs.HeaderTitleCount | src/main/kotlin/co/uk/owenrumney/boltdb.explorer/Dialogs.kt:39 | the count in the title reads back as the number of matches |
| Dialogs.LimitedLabel | src/main/kotlin/co/uk/owenrumney/boltdb.explorer/Dialogs.kt:43-47 | shown exactly when the results are limited, with the number of matches |
| Dialogs.AddKey | src/main/kotlin/co/uk/owenrumney/boltdb.explorer/Dialogs.kt:204-217 | refused, with "Key name cannot be empty", exactly when the name is blank; otherwise the dialog closes and hands nothing on |
| Dialogs.SaveValue | src/main/kotlin/co/uk/owenrumney/boltdb.explorer/Dialogs.kt:278-285 | the dialog closes and hands nothing on |
| OpenAction.IsBoltDBFile | src/main/kotlin/co/uk/owenrumney/boltdb.explorer/OpenInBoltDBExplorerAction.kt:36-41 | false for directories and for a missing extension; otherwise true exactly when the lower-cased extension is db, bolt or boltdb |
| OpenAction.IsBoltDBFileIgnoresCase | src/main/kotlin/co/uk/owenrumney/boltdb.explorer/OpenInBoltDBExplorerAction.kt:39-40 | extensions equal up to case get the same verdict |
| OpenAction.IsBoltDBFileExtensions | src/main/kotlin/co/uk/owenrumney/boltdb.explorer/OpenInBoltDBExplorerAction.kt:39-40 | an accepted extension is db, bolt or boltdb letter for letter, in any case |
| OpenAction.Presentation.Update | src/main/kotlin/co/uk/owenrumney/boltdb.explorer/OpenInBoltDBExplorerAction.kt:17-24 | visible exactly with a project and an accepted file; enabled equals visible |
| OpenAction.ActionPerformed | src/main/kotlin/co/uk/owenrumney/boltdb.explorer/OpenInBoltDBExplorerAction.kt:26-34 | opens the file exactly with a project and an accepted file, and nothing otherwise |
| OpenAction.ChosenAfterUpdate | src/main/kotlin/co/uk/owenrumney/boltdb.explorer/OpenInBoltDBExplorerAction.kt:17-34 | the action opens a file exactly when `update` shows it |
| EditorProvider.Accept | src/main/kotlin/co/uk/owenrumney/boltdb.explorer/BoltDBFileEditorProvider.kt:15-20 | false for directories and for a missing extension |
| EditorProvider.AcceptAgrees | src/main/kotlin/co/uk/owenrumney/boltdb.explorer/BoltDBFileEditorProvider.kt:15-20 | `accept` agrees with the action's `isBoltDBFile` on every file |
| EditorProvider.EditorTypeId | src/main/kotlin/co/uk/owenrumney/boltdb.explorer/BoltDBFileEditorProvider.kt:26 | the constant "BoltDBFileEditor" |
| EditorProvider.Policy | src/main/kotlin/co/uk/owenrumney/boltdb.explorer/BoltDBFileEditorProvider.kt:28 | always HIDE_DEFAULT_EDITOR |

## Left out

- The helper binary itself: paging, search, bucket resolution and transactional writes. Only the argv it receives is modelled.
- Running the process: starting it, the reader threads, waiting for it, timing and logging. Extracting the binary from the resources and making it executable is also left out. `ExecJson` takes the exit code and the two streams' texts as parameters.
- JSON decoding with kotlinx.serialization. The decoders in `DataModels` take each field as present or absent, and `IsBoltDB` takes the parser as a predicate.
- Base64 and UTF-8 decoding. These are the `decode` parameter. Undecodable UTF-8 is not modelled, because `toString(UTF_8)` does not throw; only invalid base64 triggers the fallbacks.
- Concurrency. The background executor, `invokeLater`, the loading flag and the "Loading more..." placeholder row of infinite scrolling are left out. `Panel.LoadBucketItemCounts` runs the counting in sequence. The helper's answer for each bucket is a parameter, and a failed call is `None`. The `ArrayIndexOutOfBoundsException` guard of the row update cannot fire there, because the rows do not change underneath. The count request uses limit 10000; only its answer is modelled. The counting that `updateKeysTable` submits at its end (BoltDBExplorerPanel.kt:642) is `Panel.LoadBucketItemCounts` over `result.SafeItems()`, applied as a separate call after `Panel.UpdateKeysTable`.
- Swing and IntelliJ presentation: layout, fonts, colours, listeners, message dialogs, the clipboard, showing or closing windows beyond a `disposed` flag, and console logging. This includes `logAllRows`, which only prints, and `getColumnClass`, which is always `String`.
- `KeysTableModel` and the panel are not linked. The panel's own table is Swing's `DefaultTableModel`, so `Panel.rows` models it; `KeysTable` models the separate class.
- `selectDatabase`, `loadKeys`, `loadMoreKeys`, the key preview and the delete confirmations. They are I/O and UI sequencing around the modelled pieces.
- ExplorerPanel.FormatSize: the `%.1f` locale is not modelled; the decimal separator is `.`. The KB and MB figures round half up on the exact quotient, which is what `%.1f` does with the quotient of an `Int` by 1024 or 1024², both exact in a `Double`.
- ExplorerPanel.BucketStats: `averageKeySize` is the exact mean truncated toward zero. The `Double` sum and quotient of `average()` are not modelled. They agree with this for sums below 2^53 and fewer than about 2^22 keys.
- ExplorerPanel.BucketStats: `totalKeySize` is the corrected, unbounded sum `TotalKeySize`, so the statistics `Panel.BucketPreviewText` shows do not wrap as the `Int` `sumOf` of BoltDBExplorerPanel.kt:784 does past 2^31 - 1. The as-written wrapping sum is `TotalKeySizeAsWritten`, and the two agree whenever the sum fits in an `Int` (`TotalKeySizeIsSum`); see "## Findings".
- Dialogs.TypeLabel: `isLowerCase` and the locale's `titlecase` are reduced to ASCII letters.
- Text.Lower: `lowercase()` is reduced to ASCII letters.
- Text.Trim and Text.IsBlank: Kotlin's `isWhitespace` is modelled as a fixed set of Unicode whitespace code points.
- BoltHelper.ReadLines: the line splitting of `BufferedReader` is modelled on the decoded text; character decoding of the stream is left out.

## Findings

| source | as written | input that shows it | evidently intended | confidence | as-written member | corrected member |
|---|---|---|---|---|---|---|
| src/main/kotlin/co/uk/owenrumney/boltdb.explorer/BoltHelper.kt:40-42 | `.exe` is appended whenever the lower-cased OS name contains "win" | `os.name` "Darwin" with `os.arch` "aarch64" gives `bolthelper-darwin-arm64.exe`, because "darwin" contains "win" | `.exe` only for the Windows branch | high that the code does this, but standard macOS JVMs report os.name "Mac OS X", which has no "win", so it fires only where os.name contains "darwin"; not executed | BoltHelper.DarwinBinary | BoltHelper.PlatformBinaryNameExe |
| src/main/kotlin/co/uk/owenrumney/boltdb.explorer/BoltDBExplorerPanel.kt:784 | `totalKeySize` is `keys.sumOf { it.valueSize }`, an `Int` sum that wraps past 2^31 - 1 | three keys of 1000000000 bytes each give a total of -1294967296 | the true total, at least every key size | medium; not executed | ExplorerPanel.TotalKeySizeWraps | ExplorerPanel.TotalKeySize |
