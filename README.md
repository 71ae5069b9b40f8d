# dui: a terminal browser for DynamoDB, modelled in Dafny

dui is a terminal user interface for browsing and editing the tables of a
DynamoDB (or DynamoDB-compatible) service. This project models three parts
of it and proves what they promise.

- **The type-hinted codec and key helpers** (`db.go`).
  - Decoding turns a JSON object into a DynamoDB item of S, N, BOOL, NULL,
    L, M, SS, NS, B and BS values. An attribute name ending in `<TYPE>`
    forces the type.
  - Encoding turns an item back into a JSON tree. A type-only view of an
    item is also modelled.
  - The `key=value` reader of `/query`, the primary key that `/get`,
    `/update` and `/delete` send, and the key value shown for a row.
  - The key-schema loops of `DescribeTable`.
  - The page-accumulation loops of `ListTables`, `Scan` and `Query`.
- **The interaction state machine** (`model.go`).
  - A `Model` class holds the screen state: the mode, the tables and items,
    the cursor, the selection, the chord buffer, the command line, the
    status and error texts, and the editor's starting text.
  - Its methods react to completion messages and keystrokes. Each one
    returns the command it asks for as an `Effect` value instead of
    running it.
- **Text and layout arithmetic** (`view.go`).
  - `truncate` and `wrapText`.
  - The rows of the item list that are on screen.
  - The count that the delete prompt shows.

Files and modules:

| file | module | contents |
|---|---|---|
| `values.dfy` | `Values` | `Option`, `Result`, JSON trees, Go `any` values, attribute values, maps as association lists |
| `gostrings.dfy` | `GoStrings` | `strings.TrimSpace`, `Fields`, `ToUpper`/`ToLower`, `Index`/`LastIndex`, decimal text of a count |
| `codec.dfy` | `Codec` | decoding with type hints, encoding, the type view |
| `codec_props.dfy` | `CodecProperties` | what the codec promises, including the round trip |
| `keys.dfy` | `Keys` | `ParseKeyValue`, `BuildKey`, `GetKeyValue`, the `DescribeTable` key-schema loops |
| `paging.dfy` | `Paging` | the pagination loops over a finite sequence of service responses |
| `view.dfy` | `View` | `truncate`, `wrapText`, the visible window, the delete count |
| `session.dfy` | `Session` | the `Model` class, command-line reading, key and delete plans |

A Go map is an association list with distinct names. The order of the list
stands for whatever order Go's `range` visits the map in.

Library behaviour that the model leaves abstract is passed in as
function-valued parameters:

- `Codec.Library` holds how `encoding/json` parses text, the text of its
  errors, `%v` for floats, slices and maps, and base64.
- The `Model` class holds `pretty` (`ItemToPrettyJSON`), `scansFloat` (the
  `%f` scan of `ParseKeyValue`) and `typeKey` (the text input's handling of
  a keystroke).

Go strings are byte strings. In this model, each `char` stands for one byte.

Three behaviours of the source that a reader might not expect, modelled as
written:

- `/scan` with no table loaded is reported as `unknown command: /scan`.
- Only the last `<...>` of a name is a hint, so `a<S><N>` stores a number
  under the name `a<S>`.
- In Normal mode, the `q` key checks the chord buffer for a `:`, which it
  can never hold. So `q` never quits; only Ctrl+C and the quit lines (`:q`,
  `:quit`, `/q`, `\q`) do.

## Model

| member | source | states |
|---|---|---|
| `CodecProperties.HintedKeyParts` | db.go:263-266 | a name is hinted exactly when it holds `<` and ends in `>`; it is then its clean name, `<`, a hint without `<`, and `>` |
| `CodecProperties.HintedKeyCompose` | db.go:263-266 | conversely, the clean name and a hint without `<` are read back from `clean<hint>` |
| `CodecProperties.UnhintedUnchanged` | db.go:275-278 | a map whose names carry no hint comes out of processTypeHints unchanged, nested maps and lists included |
| `CodecProperties.DecodeSucceeds` | db.go:258-282 | decoding succeeds exactly when every hinted entry converts |
| `CodecProperties.DecodeFails` | db.go:269-272 | a failed decode gives no item, only the error of the first entry, in iteration order, whose conversion fails |
| `CodecProperties.HintNames` | db.go:286 | hints are compared ignoring case; any other hint, the empty one included, fails as an unknown hint naming it |
| `CodecProperties.DecodeSingle` | db.go:261-278 | an unhinted attribute is kept; a hinted one is converted and stored under its clean name, or its failure is reported under the clean name and the hint |
| `CodecProperties.EmptyHintRejected` | db.go:448-449 | `x<>` names the empty hint, which is rejected as unknown |
| `CodecProperties.ConversionErrorText` | db.go:271 | the failure text names the clean key, the hint and the cause |
| `CodecProperties.ScalarHints` | db.go:287-318 | NULL gives null from anything; S keeps a string; N keeps a string's text as the number; BOOL keeps a bool, reads any string as `lower(s) == "true"` and rejects anything else |
| `CodecProperties.ListAndMapHints` | db.go:320-348 | L keeps a list, parses a string as an array or fails, and wraps anything else in a one-element list; M rejects what is neither a map nor a string, and a string that is not an object |
| `CodecProperties.MapHintRecurses` | db.go:336-348 | an M hint applies the hints inside a map, or inside the object that a string holds |
| `CodecProperties.SetHints` | db.go:353-446 | SS, NS and BS have one member per list element, in order; a string that parses as a JSON array gives one member per array element, in order; a string that is not an array, or a scalar, gives one member |
| `CodecProperties.SetMarkersBecomeSets` | db.go:523-538 | the `__SS`, `__NS` and `__BS` markers that set hints leave become the set attributes they stand for |
| `CodecProperties.NumberHintDecodes` | db.go:291-300 | `name<N>` over a string stores the number it spells under `name` |
| `CodecProperties.NumberHintExample` | db.go:291-300 | `{"age<N>": "5"}` decodes to the number attribute age = 5 |
| `CodecProperties.UnknownHintExample` | db.go:448-449 | `{"x<ZZZ>": 1}` is rejected with an unknown-hint error naming `ZZZ` under `x` |
| `CodecProperties.DoubleHintKeepsSuffix` | db.go:263-266 | only the last `<...>` is a hint: `a<S><N>` stores a number under `a<S>` |
| `CodecProperties.BinaryHint` | db.go:403-414 | a B hint takes the bytes of the text as written, not base64-decoded, and keeps bytes |
| `Codec.EncodeAttr` | db.go:461-490 | encoding is structural: S, N, BOOL and NULL map to their JSON counterparts, L keeps length and order, M keeps names and order, every set becomes the plain array of its members |
| `CodecProperties.RereadAttr` | db.go:461-490 | an encoded value read back is what `Reread` says: numbers re-read, sets as lists of strings, binary as its base64 text |
| `CodecProperties.RereadPlain` | db.go:500-544 | values made of S, BOOL, NULL, L and M are unchanged by `Reread` |
| `CodecProperties.EncodeThenDecode` | db.go:243-254 | decoding the encoding of an item with distinct names and no hint on a top-level name gives every attribute back under its name, changed only as `Reread` says |
| `CodecProperties.RoundTrip` | db.go:243-254 | an item of S, BOOL, NULL, L and M values, with distinct names and no hinted top-level name, survives encoding and decoding unchanged |
| `CodecProperties.BinaryComesBackAsText` | db.go:483-484 | binary does not round-trip: it comes back as the string of its base64 text |
| `CodecProperties.StringSetComesBackAsList` | db.go:479-480 | a string set comes back as a list of strings |
| `CodecProperties.TypeViewNamesTypes` | db.go:641-676 | the type view names the DynamoDB type of every value, and of each list element and map attribute at the same position |
| `Keys.LastOfType` | db.go:92-98 | the last key-schema element of a key type, or none |
| `Keys.NameOfSingleType` | db.go:92-98 | with one element of a key type, the loop finds its attribute name |
| `Keys.NameOfMissingType` | db.go:92-98 | with no element of a key type, that key name stays empty |
| `Keys.ReadKeySchema` | db.go:92-98 | the key-schema loop leaves the name of the last HASH element and of the last RANGE element |
| `Keys.ReadIndexes` | db.go:101-124 | one index entry per global or local index, in order, with its name and key names |
| `Keys.DescribeTable` | db.go:81-127 | a failure names the table; otherwise the table's key names and its indexes in order |
| `Keys.ParseKeyValue` | db.go:566-581 | fails exactly when there is no `=`; splits at the first `=` and trims both sides; the value is a number exactly when it scans as a float and has no `"` |
| `Keys.ParseKeyValueCompose` | db.go:566-581 | a name without `=` and a value, both trimmed, are read back from `name=value` |
| `Keys.BuildKey` | db.go:584-596 | the partition key always, as a string; the sort key, as a string, only when the table has one and a value is given |
| `Keys.GetKeyValue` | db.go:547-563 | empty for an empty key name or a missing attribute |
| `Keys.GetKeyValueFound` | db.go:547-563 | for a present attribute: the text of a string or number, the `%v` rendering of anything else |
| `Keys.BuildThenGet` | db.go:547-596 | the key BuildKey makes gives back the values it was built from |
| `Paging.FirstStop` | db.go:65-77 | the first response that fails or has no continuation; every earlier one succeeded with a continuation |
| `Paging.Paginate` | db.go:62-79 | the loop returns what `Collect` says, with the operation's prefix on an error; the first request has no start and each later one starts where the previous page ended |
| `Paging.CollectOutcome` | db.go:65-77 | the result is every page's entries in order up to the first page without a continuation, or the first error with no entries |
| `Paging.AllPages` | db.go:62-79 | from the first request: all pages' entries concatenated in order, or the first error alone |
| `Paging.OnePage` | db.go:73-75 | a page without a continuation ends the loop with its own entries |
| `Paging.IndexOption` | db.go:133-135 | an empty index name means the table itself |
| `Paging.ListTables` | db.go:62-79 | the table names of every page in order, or `failed to list tables: ` and the error; each request continues from the previous page's last table |
| `Paging.Scan` | db.go:129-156 | every item of every page in order, or `scan failed: ` and the error; each request names the table and index and continues from the last key |
| `Paging.Query` | db.go:158-187 | as Scan, with the key condition and its values unchanged in every request, and `query failed: ` on an error |
| `View.Truncate` | view.go:433-441 | the string when it fits; otherwise exactly the width long, ending in `...` when the width exceeds 3, else a plain prefix |
| `View.Lines` | view.go:448 | the newline-split pieces, at least one, without newlines, joining back to the text |
| `View.LinesOfJoin` | view.go:448 | splitting lines joined by newlines gives the lines back |
| `View.BreakAt` | view.go:450-457 | a long line is cut at the last space among places 1 to width-1, or at the width |
| `View.FindBreak` | view.go:450-457 | the backward scan finds that break point |
| `View.WrapText` | view.go:443-466 | the nested loops compute `Wrap`: the input for a width of 0 or less, else every line wrapped and joined with newlines |
| `View.WrappedLinesFit` | view.go:449-458 | every line of the wrapped text fits the width |
| `View.WrapUnchanged` | view.go:444-446 | text whose lines all fit, or any text at a width of 0 or less, is left as it is |
| `View.WrapKeepsText` | view.go:458-461 | wrapping only adds newlines and drops spaces: without spaces and newlines, output and input are the same |
| `View.VisibleWindow` | view.go:174-182 | the cursor row is always on screen, the window never exceeds the rows or the list, and it is the first page while the cursor is on it |
| `View.DeleteCount` | view.go:396-401 | the number of selected rows, or 1 when none is selected |
| `Session.ErrorStatus` | model.go:111-116 | a message up to 50 bytes is the status as it is; a longer one becomes its first 47 bytes, `...` and ` (/err)`, 57 bytes in all |
| `Session.Model.SetError` | model.go:106-118 | the message is kept in full as the last error; a long one also opens the error view showing it in full; a short one leaves the mode and the view alone |
| `Session.Model.constructor` | model.go:86-100 | the start state: Normal mode, nothing loaded, the requested table kept, `Loading tables...` |
| `Session.Model.Init` | model.go:102-104 | the first command loads the table list |
| `Session.Model.Update` | model.go:149-251 | every message keeps the state well formed: cursor on an item, current table within the tables, chord buffer empty, `d` or `g` |
| `Session.FirstNamed` | model.go:166-174 | the first table with the requested name, or none |
| `Session.FindTable` | model.go:166-174 | the search loop finds that table, else settles on table 0 |
| `Session.Model.TablesLoaded` | model.go:157-187 | an error goes to setError; otherwise the tables replace the list, `No tables found` when empty, else the requested table (or table 0 with a not-found status that is kept once) is selected and its items loaded |
| `Session.Model.SelectTable` | model.go:163-183 | the requested table when found, else table 0 with `Table '…' not found, using …` and the status kept once; `Loaded N tables` otherwise |
| `Session.Model.ItemsLoaded` | model.go:189-204 | an error leaves the items; otherwise the items replace the list, the cursor goes to 0, the selection empties, and the status is `No matching item`, the kept status once, or `Loaded N items` |
| `Session.Model.OperationDone` | model.go:206-217 | an error goes to setError; otherwise the status is shown, the error cleared, and the current table reloaded |
| `Session.Model.SaveEditedItem` | model.go:803-825 | saving targets the current table when there is one and carries the edited text |
| `Session.Model.EditorFinished` | model.go:219-230 | unchanged text gives `No changes made` and no save; changed text is saved |
| `Session.Model.ItemFetchedForEdit` | model.go:232-244 | an error or a missing item goes to the status line only; a fetched item replaces the list and opens in the editor, the selection left stale |
| `Session.Model.HandleKeyPress` | model.go:253-407 | as `KeyDone` says: in Normal mode the table stays and `NormalKeyDone` holds; in every other mode the cursor, chord buffer and selection stay and the mode's own predicate holds (`CommandKeyDone` or `ModalKeyDone`); Enter runs the command line as `LineRan` says |
| `Session.Model.HandleModalKey` | model.go:255-276 | the table list, item view, delete prompt, error view and help answer as `ModalKeyDone` says: each mode's predicate, plus the texts, command line and table that mode leaves alone; the error view closes on Esc, Enter or `q`, the help on Esc, `q` or `?`, emptying the view and doing nothing else |
| `Session.Model.HandleNormalKey` | model.go:278-404 | as `NormalKeyDone` says: the cursor, buffer, selection and mode move as CursorAfter, BufferAfter, Toggled and ModeAfter say; Ctrl+C quits; Enter runs a non-empty command line (`LineRan`) or shows the item under the cursor; `e` edits that item unless several rows are selected; `i` and `a` edit the new-item template; `:` and `/` start the command line with that key and clear an error in force; Esc clears the line; no other key gives a command or changes a text |
| `Session.Model.NavigationKey` | model.go:280-349 | the same for Ctrl+C, `q`, the command-line keys, the moves and space |
| `Session.Model.ActionKey` | model.go:324-404 | the same, with `LineRan`, for Enter, the editing keys, `d`, `t`, `?`, Esc and any other key |
| `Session.Model.ControlKey` | model.go:280-308 | Ctrl+C quits, `q` never does, `:` and `/` open the command line |
| `Session.Model.OpenKey` | model.go:324-338 | the same, with `LineRan`, for Enter and the editing keys |
| `Session.Model.NewItemKey` | model.go:373-375 | `i` and `a` open the editor on the new-item template |
| `Session.Model.OpenCommandLine` | model.go:290-308 | command mode, the line started with the key, the chord buffer cleared, an error in force cleared with the status back to the item count |
| `Session.CursorAfter` | model.go:310-322 | up floors at 0, down caps at the last item, `gg` goes to 0, `G` to the last item; the cursor stays on the list |
| `Session.BufferAfter` | model.go:283-288 | `d` and `g` start or complete their chord; `q`, Ctrl+C and an `e` that edits leave the buffer; every other key clears it |
| `Session.ModeAfter` | model.go:324-386 | `dd` asks to delete, `:` and `/` open the command line, Enter on an item views it, `t` lists the tables, `?` opens the help |
| `Session.DeleteChordAcrossQ` | model.go:283-288 | `d`, `q`, `d` opens the delete prompt and empties the buffer |
| `Session.Toggled` | model.go:340-349 | space adds the row under the cursor to the selection or takes it out |
| `Session.Model.Move` | model.go:310-322 | the moves, as CursorAfter and BufferAfter say |
| `Session.Model.Step` | model.go:310-322 | one row up or down, staying within the list |
| `Session.Model.Jump` | model.go:388-400 | `g` twice goes to the first row, `G` to the last |
| `Session.Model.Open` | model.go:324-338 | `NormalKeyDone` and `LineRan` for Enter: a non-empty command line is emptied and run, else the item under the cursor opens in the item view |
| `Session.Model.RunInput` | model.go:326-331 | the command line is emptied, then run as executeCommand runs it |
| `Session.Model.ViewItem` | model.go:332-337 | the item under the cursor in the item view, when there is one |
| `Session.Model.ToggleSelection` | model.go:340-349 | as Toggled says, when there are items |
| `Session.Model.EditKey` | model.go:351-356 | the item under the cursor goes to the editor, the chord buffer untouched, unless several rows are selected |
| `Session.Model.SwitchMode` | model.go:358-386 | `dd`, `t`, `?` and Esc, as ModeAfter and BufferAfter say; Esc clears the command line |
| `Session.Model.HandleCommandMode` | model.go:409-426 | as `CommandKeyDone` and `LineRan` say: Esc returns to Normal and clears the line; Enter clears the line and runs it from Normal mode; other keys go to the text input; the texts and the table stay otherwise |
| `Session.Model.HandleTableSelectMode` | model.go:428-454 | as `TableKeyDone` says: up and down move within the tables; Esc keeps the table under the cursor; Enter loads it; the texts and the command line stay |
| `Session.Model.HandleItemViewMode` | model.go:456-467 | as `ItemViewKeyDone` says: Esc, `q` and Enter close and empty the view; `e` closes it and edits the item under the cursor, or says `No item selected`; other keys change nothing |
| `Session.Model.HandleConfirmDeleteMode` | model.go:469-480 | as `ConfirmKeyDone` says: `y` deletes each selected row once, or the cursor row when nothing is selected (`DeletesSelection`), with at most as many keys as the prompt counts and exactly as many when no selected row is stale; `n` and Esc cancel; other keys leave the prompt open; the texts stay |
| `Session.ReadLine` | model.go:506-512 | a verb is lower case and non-empty; its words are non-empty and have no spaces |
| `Session.ReadMetaLine` | model.go:486-503 | the quit, help, `/err` and `/mlrd` lines are recognised exactly, before splitting; a blank line has no words |
| `Session.KindOfVerbs` | model.go:514-557 | each verb names exactly one command, `/delete` and `/rm` the same one; any other word is unknown |
| `Session.LineKeyIsBuildKey` | model.go:610-616 | the key that `/get`, `/update` and `/delete` send is BuildKey of their first two words |
| `Session.KeyOfArgs` | model.go:610-616 | the partition key always, as a string; the sort key, as a string, when a second word is given and the table has a sort key |
| `Session.QueryPlan` | model.go:572-592 | the first word is an index only when more follow and it has no `=`; the next word is read as `name=value` and bound as `name = :pk`; a malformed one is an error |
| `Session.QueryIgnoresRest` | model.go:572-592 | words after the key word are ignored |
| `Session.QueryOnIndex` | model.go:572-592 | `/query idx name=value` queries the index on `name`, with the value a number exactly when it scans as one and has no quote |
| `Session.Plan` | model.go:561-684 | without a table, `No table selected`; `/query` as QueryPlan says; `/get`, `/update` and `/delete` name the current table and the key of the words |
| `Session.Model.ExecuteCommand` | model.go:482-559 | the trimmed line runs as `Ran` says: meta lines, usages without words, `/delete` alone asks to confirm, planned requests, `/put`, and setError for unknown verbs and for `/scan` with no table |
| `Session.Model.RunMeta` | model.go:486-503 | quit, help, the last error in the error view (or `No errors`), the banner, or nothing for a blank line |
| `Session.Model.RunVerb` | model.go:514-557 | the verbs, as `VerbRan` says |
| `Session.Model.RunKeyVerb` | model.go:524-555 | a usage status without words, else the plan; `/delete` alone opens the delete prompt |
| `Session.Model.ExecuteQuery` | model.go:561-599 | the request or the status as Plan says for `/query` |
| `Session.Model.ExecuteGet` | model.go:601-629 | the request or the status as Plan says for `/get` |
| `Session.Model.ExecuteUpdate` | model.go:631-657 | the request or the status as Plan says for `/update` |
| `Session.Model.ExecuteDelete` | model.go:659-684 | the request or the status as Plan says for `/delete` |
| `Session.DeleteKeyNamesKeys` | model.go:717-724 | a delete key names the partition key always and the sort key when the table has one and the item holds it, each with the item's value |
| `Session.DeleteKeys` | model.go:711-724 | at most one key per target |
| `Session.DeleteKeysInRange` | model.go:711-724 | with every target inside the list, one key per target, in target order |
| `Session.Model.DeleteSelectedItems` | model.go:686-734 | nothing without tables or items; each selected row once, else the cursor row, as `DeletesSelection` says; at most the prompt's count of keys, exactly that count when no selected row is stale |
| `Session.FirstFailure` | model.go:711-730 | the first failed deletion, every earlier one having succeeded |
| `Session.RunDeletes` | model.go:707-733 | the deletions stop at the first failure and report it alone; otherwise `Deleted N item(s)` |
| `Session.Model.PutNewItem` | model.go:736-750 | the editor on a template with the table's key names |
| `Session.Model.EditCurrentItem` | model.go:752-759 | the editor on the item under the cursor, or `No item selected` |
| `Session.Model.OpenEditor` | model.go:761-801 | the editor's starting text is remembered |
| `Session.DeleteChord` | model.go:358-366 | `d`, `q`, `d` through the Normal-mode key handler opens the delete prompt, keeping the cursor and the selection |
| `Session.GoToTop` | model.go:388-395 | `g`, `g` through the Normal-mode key handler puts the cursor on the first row |

## Left out

- The AWS SDK is not modelled: client setup, `NewDB`, `GetItem`, `PutItem`, `DeleteItem`, and the service calls inside `ListTables`, `Scan`, `Query` and `DescribeTable`. Each response is an input: a finite sequence of pages, or a table description.
- JSON text is not modelled. `encoding/json` parsing, `Marshal` and `MarshalIndent` are left abstract; the codec works on JSON trees, and "this string parses as an array or object" is a parameter.
- Float formatting and `%v` are parameters. Unhinted JSON numbers arrive as floats and are printed back with `%v`, so the model makes no claim that their text is kept.
- The `%f` scan of `ParseKeyValue` is the parameter `scansFloat`. Base64 is a parameter. B and BS members are opaque byte sequences.
- `Codec.FromJson`: a repeated JSON object name keeps its last value. Go's map iteration order is the order of the association list. Two names with the same clean name (`a` and `a<S>`) are not claimed to resolve either way.
- `Session.Model.DeleteSelectedItems`: the selected rows are taken in an arbitrary order, because Go visits the selection map in no fixed order. The model proves facts that hold for every order.
- The `deleteSelectedItems` closure reads `m.items` when it runs. Here the keys are computed when the command is built.
- Of the command closures, only the deletion loop is modelled, as `Session.RunDeletes`. The other closures are service calls and return their result as a message. This covers `loadTables`, `loadItems` and its 2-second timeout, and the query, get, put and delete requests.
- `openEditor` writes a temporary file, looks up `$EDITOR`, runs it, and removes the file. This I/O and its error paths are not modelled. Only the remembered starting text and the `Edit` command are.
- `saveEditedItem` parses the edited text and stores it. The model keeps the `Save` command and its target; what happens to the text is the codec's part.
- The text input component's editing in command mode is the parameter `typeKey`. The command that the component returns for such a key (a cursor blink, or none) is dropped, and `HandleCommandMode` returns `NoCmd` instead.
- Window-size messages, rendering and styling are not modelled, and neither is anything else in `view.go` beyond `truncate`, `wrapText`, the window arithmetic and the delete count. Some of that code refers to fields and modes that `model.go` lacks: filters and the item-view type toggle.
- Keys are a datatype of typed characters and named keys. The key names Bubble Tea reports are not modelled.
- `main.go` (flags, environment, program start) is not part of this model.
- `ItemToJSON`, `ItemToDataTypes` and `AttributeValueToString` print their trees as text through `encoding/json` or `%v`. The model stops at the trees: `Codec.ItemToJson` and `Codec.AttributeValueToTypeMap`.
- `View.Truncate`: a negative width makes the Go slice panic, so the model requires a width of at least 0.
- `Keys.BuildKey`: the Go function's error result is always nil and is not modelled.
- `GoStrings.IsSpace`, `GoStrings.ToUpper` and `GoStrings.ToLower` work one byte at a time and know only ASCII. Go's `TrimSpace` and `Fields` also cut the multi-byte UTF-8 spaces (U+0085, U+00A0 and others), and Go's case mapping maps non-ASCII letters (`ſ` upper-cases to `S`, so `x<ſ>` is an S hint in Go). The model does not capture either, and this reaches `Keys.ParseKeyValue`, `Session.ReadLine` and the hint names of `CodecProperties.HintNames`.
- `Session.DeleteKeys`: its own contract states only the bound on the number of keys. The contents per target are stated in `Session.DeleteKeysInRange` and `Session.DeleteKeyNamesKeys`.
- `Session.Model.Update`: its own contract states only that the state stays well formed. What each message does is stated by the handler it dispatches to.
- The usage check inside `executeQuery` (model.go:577-580) cannot fire. `executeCommand` only calls it with at least one word, and an index name is only taken when another word follows. `Session.QueryPlan` has no such branch.
