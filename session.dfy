/** The browser's interaction state machine: the screen state, the keystrokes
    and completion messages that change it, and the commands it hands back.
    A command is returned as an `Effect` value instead of being run; what the
    service answers comes back later as a `Msg`. */
module Session {
  import opened Values
  import opened GoStrings
  import opened Keys
  import View

  datatype Mode = Normal | Command | TableSelect | ItemView | ConfirmDelete | Help | ErrorView

  /** The key deleteSelectedItems sends for one item: each key attribute with
      the item's value for it, None standing for the nil an absent attribute
      reads as. */
  type DeleteKeyItem = seq<(string, Option<AttrValue>)>

  /** The commands the state machine asks for. */
  datatype Effect =
    | NoCmd
    | Quit
    | LoadTables
    | LoadItems(table: string, index: string)
    | Query(table: string, index: string, keyCondition: string, values: Item)
    | Get(table: string, key: Item)
    | FetchForEdit(table: string, key: Item)
    | DeleteOne(table: string, key: Item)
    | DeleteMany(table: string, keys: seq<DeleteKeyItem>)
    | Edit(content: string)
    | Save(target: Option<string>, content: string)

  /** The messages the state machine reacts to; errors are their texts. */
  datatype Msg =
    | TablesLoadedMsg(tables: seq<TableInfo>, err: Option<string>)
    | ItemsLoadedMsg(items: seq<Item>, err: Option<string>, noMatch: bool)
    | OperationDoneMsg(status: string, err: Option<string>)
    | EditorFinishedMsg(content: string, original: string, err: Option<string>)
    | ItemFetchedForEditMsg(item: Option<Item>, err: Option<string>)
    | KeyMsg(key: Key)

  /** A keystroke: a typed character, or a named key. Named keys no screen
      reacts to are `OtherKey`. */
  datatype Key = Rune(c: char) | Enter | Esc | Up | Down | CtrlC | OtherKey(name: string)

  /** The texts the screen shows or keeps: the status line, the error
      in force, the last error, the content of the item or error view, and
      the text the editor was opened on. */
  datatype Texts = Texts(status: string, err: Option<string>, lastError: string, viewContent: string, editOrigContent: string)

  // ---------------------------------------------------------------------------
  // Texts

  const MlrdStatus: string := "https://mlrd.tech/docs ~ https://mlrd.app"
  const NoTable: string := "No table selected"

  /** The whole command lines that are not verbs. */
  const QuitLines: set<string> := {":q", ":quit", "/q", "\\q"}
  const HelpLines: set<string> := {":?", ":help", "/?", "/help"}
  const MetaLines: set<string> := QuitLines + HelpLines + {"/err", "/mlrd"}

  /** The verbs executeCommand knows. */
  const Verbs: set<string> := {"/scan", "/query", "/get", "/put", "/update", "/delete", "/rm"}

  /** The status line setError shows: the whole message up to 50 bytes, else
      its first 47 bytes, an ellipsis, and a pointer to the /err view. */
  function ErrorStatus(errStr: string): (r: string)
    ensures |errStr| <= 50 ==> r == errStr
    ensures |errStr| > 50 ==> r == View.Truncate(errStr, 50) + " (/err)" && |r| == 57
  {
    if |errStr| > 50 then errStr[..47] + "... (/err)" else errStr
  }

  /** The template putNewItem opens: the table's key attributes with empty
      values, or an empty object when there is no table. */
  function NewItemContent(tables: seq<TableInfo>, current: int): string
    requires |tables| > 0 ==> 0 <= current < |tables|
  {
    if |tables| == 0 then "{}"
    else
      var t := tables[current];
      if t.sortKey != "" then "{\n  \"" + t.partitionKey + "\": \"\",\n  \"" + t.sortKey + "\": \"\"\n}"
      else "{\n  \"" + t.partitionKey + "\": \"\"\n}"
  }

  // ---------------------------------------------------------------------------
  // Table selection

  /** The first table with the given name, or -1. */
  function FirstNamed(ts: seq<TableInfo>, name: string): (r: int)
    ensures -1 <= r < |ts|
    ensures r == -1 <==> forall i :: 0 <= i < |ts| ==> ts[i].name != name
    ensures r >= 0 ==> ts[r].name == name && forall j :: 0 <= j < r ==> ts[j].name != name
  {
    if ts == [] then -1
    else if ts[0].name == name then 0
    else var k := FirstNamed(ts[1..], name); if k == -1 then -1 else k + 1
  }

  /** The search for the requested table: the first match, else table 0. */
  method FindTable(ts: seq<TableInfo>, name: string) returns (index: int, found: bool)
    ensures found <==> FirstNamed(ts, name) != -1
    ensures index == if found then FirstNamed(ts, name) else 0
  {
    index, found := 0, false;
    var i := 0;
    while i < |ts|
      invariant 0 <= i <= |ts|
      invariant forall j :: 0 <= j < i ==> ts[j].name != name
    {
      if ts[i].name == name {
        index, found := i, true;
        return;
      }
      i := i + 1;
    }
  }

  // ---------------------------------------------------------------------------
  // Requests built from command arguments

  /** The key /get, /update and /delete send: the first argument as the
      partition key, the second as the sort key when the table has one. For
      the non-empty words a command line splits into, this is BuildKey. */
  function KeyOfArgs(table: TableInfo, args: seq<string>): (key: Item)
    requires |args| >= 1
    ensures UniqueKeys(key)
    ensures |args| == 1 ==> key == BuildKey(table, args[0], "")
    ensures |args| > 1 && args[1] != "" ==> key == BuildKey(table, args[0], args[1])
    ensures Lookup(key, table.partitionKey).Some?
  {
    var key := Assign([], table.partitionKey, S(args[0]));
    AssignKeepsUnique([], table.partitionKey, S(args[0]));
    if |args| > 1 && table.sortKey != "" then
      AssignKeepsUnique(key, table.sortKey, S(args[1]));
      Assign(key, table.sortKey, S(args[1]))
    else key
  }

  /** /query: the first argument names an index only when more follow and it
      has no `=`; the next argument is read as `name=value` and bound as the
      condition `name = :pk`; a malformed one is reported in the status. */
  function QueryPlan(table: TableInfo, args: seq<string>, scansFloat: string -> bool): (r: Result<Effect, string>)
    requires |args| >= 1
    ensures var named := |args| > 1 && '=' !in args[0];
      var keyArg := if named then args[1] else args[0];
      (r.Err? <==> '=' !in keyArg)
      && (r.Err? ==> r.error == "Error: " + InvalidKeyValue(keyArg))
      && (r.Ok? ==>
            var kv := ParseKeyValue(keyArg, scansFloat).value;
            r.value == Query(table.name, if named then args[0] else "", kv.0 + " = :pk", [(":pk", kv.1)]))
  {
    var named := |args| > 1 && '=' !in args[0];
    var indexName := if named then args[0] else "";
    var keyArgs := if named then args[1..] else args;
    match ParseKeyValue(keyArgs[0], scansFloat)
    case Err(e) => Err("Error: " + e)
    case Ok(kv) => Ok(Query(table.name, indexName, kv.0 + " = :pk", [(":pk", kv.1)]))
  }

  /** Only the key argument counts: what follows it is ignored. */
  lemma QueryIgnoresRest(table: TableInfo, args: seq<string>, rest: seq<string>, scansFloat: string -> bool)
    requires |args| == 2
    ensures QueryPlan(table, args + rest, scansFloat) == QueryPlan(table, args, scansFloat)
  {
    assert (args + rest)[0] == args[0] && (args + rest)[1] == args[1];
  }

  /** `/query idx name=value`: the index and the condition on `name`, the
      value a number exactly when it scans as one and has no quote. */
  lemma QueryOnIndex(table: TableInfo, index: string, name: string, value: string, scansFloat: string -> bool)
    requires '=' !in index && '=' !in name
    requires name == [] || (!IsSpace(name[0]) && !IsSpace(name[|name| - 1]))
    requires value == [] || (!IsSpace(value[0]) && !IsSpace(value[|value| - 1]))
    ensures QueryPlan(table, [index, name + "=" + value], scansFloat)
      == Ok(Query(table.name, index, name + " = :pk",
                  [(":pk", if scansFloat(value) && '"' !in value then N(value) else S(value))]))
  {
    ParseKeyValueCompose(name, value, scansFloat);
  }


  // ---------------------------------------------------------------------------
  // Deleting the selection

  /** The key sent to delete an item: its partition key value (nil when the
      item lacks it), and its sort key value when the table has a sort key
      and the item holds it. */
  function DeleteKey(table: TableInfo, item: Item): DeleteKeyItem {
    var key := Assign([], table.partitionKey, Lookup(item, table.partitionKey));
    if table.sortKey != "" && Lookup(item, table.sortKey).Some? then
      Assign(key, table.sortKey, Lookup(item, table.sortKey))
    else key
  }

  /** The delete key names each key attribute once, the partition key
      always and the sort key when the table has one and the item holds it,
      and carries the item's value for each. */
  lemma DeleteKeyNamesKeys(table: TableInfo, item: Item)
    ensures var key := DeleteKey(table, item);
      UniqueKeys(key)
      && Values.Keys(key) == {table.partitionKey}
         + (if table.sortKey != "" && table.sortKey in Values.Keys(item) then {table.sortKey} else {})
      && forall k :: k in Values.Keys(key) ==> Lookup(key, k) == Some(Lookup(item, k))
  {
    var key := Assign([], table.partitionKey, Lookup(item, table.partitionKey));
    AssignKeepsUnique([], table.partitionKey, Lookup(item, table.partitionKey));
    if table.sortKey != "" && Lookup(item, table.sortKey).Some? {
      AssignKeepsUnique(key, table.sortKey, Lookup(item, table.sortKey));
    }
  }

  /** The keys of the targets still inside the item list, in target order;
      targets at or past its end are skipped. */
  function DeleteKeys(table: TableInfo, items: seq<Item>, targets: seq<nat>): (keys: seq<DeleteKeyItem>)
    ensures |keys| <= |targets|
  {
    if targets == [] then []
    else
      var rest := DeleteKeys(table, items, targets[1..]);
      if targets[0] >= |items| then rest else [DeleteKey(table, items[targets[0]])] + rest
  }

  /** When every target is inside the item list, one key is sent per
      target, in target order. */
  lemma {:induction false} DeleteKeysInRange(table: TableInfo, items: seq<Item>, targets: seq<nat>)
    requires forall j :: 0 <= j < |targets| ==> targets[j] < |items|
    ensures var keys := DeleteKeys(table, items, targets);
      |keys| == |targets| && forall j :: 0 <= j < |targets| ==> keys[j] == DeleteKey(table, items[targets[j]])
  {
    if targets != [] {
      var rest := DeleteKeys(table, items, targets[1..]);
      DeleteKeysInRange(table, items, targets[1..]);
      var keys := DeleteKeys(table, items, targets);
      assert keys == [DeleteKey(table, items[targets[0]])] + rest;
      forall j | 0 < j < |targets|
        ensures keys[j] == DeleteKey(table, items[targets[j]])
      {
        assert keys[j] == rest[j - 1];
        assert targets[1..][j - 1] == targets[j];
      }
    }
  }

  /** The first failed deletion, or -1. */
  function FirstFailure(outcomes: seq<Option<string>>): (r: int)
    ensures -1 <= r < |outcomes|
    ensures r == -1 <==> forall i :: 0 <= i < |outcomes| ==> outcomes[i].None?
    ensures r >= 0 ==> outcomes[r].Some? && forall j :: 0 <= j < r ==> outcomes[j].None?
  {
    if outcomes == [] then -1
    else if outcomes[0].Some? then 0
    else var k := FirstFailure(outcomes[1..]); if k == -1 then -1 else k + 1
  }

  /** The deletion command at work: one delete per key in order, stopping at
      the first failure and reporting only it, else the number deleted.
      `outcomes[i]` is the service's answer to the i-th delete. */
  method RunDeletes(keys: seq<DeleteKeyItem>, outcomes: seq<Option<string>>) returns (msg: Msg)
    requires |outcomes| == |keys|
    ensures FirstFailure(outcomes) >= 0 ==> msg == OperationDoneMsg("", outcomes[FirstFailure(outcomes)])
    ensures FirstFailure(outcomes) == -1 ==>
      msg == OperationDoneMsg("Deleted " + NatToString(|keys|) + " item(s)", None)
  {
    var deleted := 0;
    var i := 0;
    while i < |keys|
      invariant 0 <= i <= |keys| && deleted == i
      invariant forall j :: 0 <= j < i ==> outcomes[j].None?
    {
      if outcomes[i].Some? {
        return OperationDoneMsg("", outcomes[i]);
      }
      deleted := deleted + 1;
      i := i + 1;
    }
    msg := OperationDoneMsg("Deleted " + NatToString(deleted) + " item(s)", None);
  }


  // ---------------------------------------------------------------------------
  // Command lines

  /** A command line as executeCommand reads it once trimmed: one of the whole
      lines it knows, nothing, or a lower-cased verb and its words. */
  datatype Line = QuitLine | HelpLine | ErrLine | MlrdLine | Blank | Verb(verb: string, args: seq<string>)

  /** How executeCommand reads a trimmed line: the quit, help, error and
      banner lines first, then the words of the line, the first of them in
      lower case. The meta lines are stated apart, in ReadMetaLine. */
  function ReadLine(line: string): (l: Line)
    ensures l.Verb? ==> l.verb != [] && forall i :: 0 <= i < |l.verb| ==> !('A' <= l.verb[i] <= 'Z')
    ensures l.Verb? ==> forall i :: 0 <= i < |l.args| ==> l.args[i] != [] && NoSpace(l.args[i])
  {
    if line in QuitLines then QuitLine
    else if line in HelpLines then HelpLine
    else if line == "/err" then ErrLine
    else if line == "/mlrd" then MlrdLine
    else
      var parts := Fields(line);
      if parts == [] then Blank else Verb(ToLower(parts[0]), parts[1..])
  }

  /** The meta lines are recognised exactly, before the line is split into
      words; a line of blanks has no words. */
  lemma ReadMetaLine(line: string)
    ensures ReadLine(line).QuitLine? <==> line in QuitLines
    ensures ReadLine(line).HelpLine? <==> line in HelpLines
    ensures ReadLine(line).ErrLine? <==> line == "/err"
    ensures ReadLine(line).MlrdLine? <==> line == "/mlrd"
    ensures ReadLine(line).Blank? <==> line !in MetaLines && Fields(line) == []
  {
  }

  /** Every word after the verb is non-empty, so the key a /get, /update or
      /delete line sends is the one BuildKey makes from its first two words. */
  lemma LineKeyIsBuildKey(line: string, table: TableInfo)
    requires ReadLine(line).Verb? && ReadLine(line).args != []
    ensures var args := ReadLine(line).args;
      KeyOfArgs(table, args) == BuildKey(table, args[0], if |args| > 1 then args[1] else "")
  {
    var args := ReadLine(line).args;
    if |args| > 1 {
      assert args[1] != [];
    }
  }

  /** The verbs executeCommand tells apart; /delete and /rm are one. */
  datatype Kind = ScanCmd | QueryCmd | GetCmd | PutCmd | UpdateCmd | DeleteCmd | UnknownCmd
  {
    /** The verbs that name an item by its key words. */
    predicate TakesKey() {
      QueryCmd? || GetCmd? || UpdateCmd? || DeleteCmd?
    }
  }

  /** Which command a lower-cased verb names. */
  function KindOf(verb: string): (k: Kind)
  {
    if verb == "/scan" then ScanCmd
    else if verb == "/query" then QueryCmd
    else if verb == "/get" then GetCmd
    else if verb == "/put" then PutCmd
    else if verb == "/update" then UpdateCmd
    else if verb == "/delete" || verb == "/rm" then DeleteCmd
    else UnknownCmd
  }

  /** Each verb names exactly one kind, /delete and /rm the same one, and
      every other word is unknown. */
  lemma KindOfVerbs(verb: string)
    ensures KindOf(verb) == UnknownCmd <==> verb !in Verbs
    ensures KindOf(verb) == DeleteCmd <==> verb == "/delete" || verb == "/rm"
    ensures KindOf(verb) == ScanCmd <==> verb == "/scan"
    ensures KindOf(verb) == QueryCmd <==> verb == "/query"
    ensures KindOf(verb) == GetCmd <==> verb == "/get"
    ensures KindOf(verb) == PutCmd <==> verb == "/put"
    ensures KindOf(verb) == UpdateCmd <==> verb == "/update"
  {
  }

  /** The status a verb that needs key words shows without them. */
  function Usage(k: Kind): string {
    if k == QueryCmd then "Usage: /query [indexName] pk=value"
    else if k == GetCmd then "Usage: /get pk [sk]"
    else "Usage: /update pk [sk]"
  }

  /** What a verb with key words gives: the status it sets when there is no
      table or the query is malformed, else the request for the current
      table. */
  function Plan(tables: seq<TableInfo>, current: int, k: Kind, args: seq<string>, scansFloat: string -> bool): (r: Result<Effect, string>)
    requires |tables| > 0 ==> 0 <= current < |tables|
    requires args != []
    ensures |tables| == 0 ==> r == Err(NoTable)
    ensures |tables| > 0 && k == QueryCmd ==> r == QueryPlan(tables[current], args, scansFloat)
    ensures |tables| > 0 && k != QueryCmd ==>
      r.Ok? && (r.value.Get? || r.value.FetchForEdit? || r.value.DeleteOne?)
      && r.value.table == tables[current].name && r.value.key == KeyOfArgs(tables[current], args)
      && (r.value.Get? <==> k == GetCmd) && (r.value.FetchForEdit? <==> k == UpdateCmd)
  {
    if |tables| == 0 then Err(NoTable)
    else
      var t := tables[current];
      if k == QueryCmd then QueryPlan(t, args, scansFloat)
      else if k == GetCmd then Ok(Get(t.name, KeyOfArgs(t, args)))
      else if k == UpdateCmd then Ok(FetchForEdit(t.name, KeyOfArgs(t, args)))
      else Ok(DeleteOne(t.name, KeyOfArgs(t, args)))
  }

  // ---------------------------------------------------------------------------
  // Normal-mode keys

  predicate IsUp(key: Key) { key == Up || key == Rune('k') }
  predicate IsDown(key: Key) { key == Down || key == Rune('j') }
  /** The keys that open the command line, which they start with. */
  predicate IsCommandKey(key: Key) { key == Rune(':') || key == Rune('/') }
  /** The keys that open the editor. */
  predicate IsEditKey(key: Key) { key == Rune('i') || key == Rune('a') || key == Rune('e') }

  /** Where a Normal-mode key leaves the cursor over n items: up and down
      move by one within the list, `gg` and `G` jump to its ends. */
  function CursorAfter(cursor: int, buffer: string, key: Key, n: int): (c: int)
    ensures 0 <= cursor && (cursor == 0 || cursor < n) ==> 0 <= c && (c == 0 || c < n)
    ensures IsUp(key) && cursor > 0 ==> c == cursor - 1
    ensures IsDown(key) && cursor < n - 1 ==> c == cursor + 1
    ensures key == Rune('g') && buffer == "g" ==> c == 0
    ensures key == Rune('G') ==> c == if n > 0 then n - 1 else 0
    ensures c != cursor ==> IsUp(key) || IsDown(key) || key == Rune('g') || key == Rune('G')
  {
    if IsUp(key) then (if cursor > 0 then cursor - 1 else cursor)
    else if IsDown(key) then (if cursor < n - 1 then cursor + 1 else cursor)
    else if key == Rune('g') then (if buffer == "g" then 0 else cursor)
    else if key == Rune('G') then (if n - 1 > 0 then n - 1 else 0)
    else cursor
  }

  /** What the chord buffer can hold: nothing, or the first key of `dd` or `gg`. */
  predicate IsChord(buffer: string) {
    buffer == "" || buffer == "d" || buffer == "g"
  }

  /** What a Normal-mode key leaves in the chord buffer: `d` and `g` start
      their chord or complete it, `q`, Ctrl+C and an `e` that opens the
      editor leave it alone, and every other key clears it. */
  function BufferAfter(buffer: string, key: Key, editing: bool): (r: string)
    ensures IsChord(buffer) ==> IsChord(r)
    ensures key == Rune('d') ==> (r == "" <==> buffer == "d") && (r != "" ==> r == "d")
    ensures key == Rune('g') ==> (r == "" <==> buffer == "g") && (r != "" ==> r == "g")
    ensures key == Rune('q') || key == CtrlC || (key == Rune('e') && editing) ==> r == buffer
    ensures r != "" && r != buffer ==> key == Rune('d') || key == Rune('g')
  {
    if key == CtrlC || key == Rune('q') then buffer
    else if key == Rune('d') then (if buffer == "d" then "" else "d")
    else if key == Rune('g') then (if buffer == "g" then "" else "g")
    else if key == Rune('e') && editing then buffer
    else ""
  }

  /** The mode a Normal-mode key that does not run a command line leads to. */
  function ModeAfter(buffer: string, key: Key, cursor: int, n: int): (m: Mode)
    ensures m == ConfirmDelete <==> key == Rune('d') && buffer == "d"
    ensures m == Command <==> IsCommandKey(key)
    ensures m == ItemView <==> key == Enter && 0 <= cursor < n
    ensures m == TableSelect <==> key == Rune('t')
    ensures m == Help <==> key == Rune('?')
  {
    if IsCommandKey(key) then Command
    else if key == Enter && 0 <= cursor < n then ItemView
    else if key == Rune('d') && buffer == "d" then ConfirmDelete
    else if key == Rune('t') then TableSelect
    else if key == Rune('?') then Help
    else Normal
  }

  /** A `q` does not break the delete chord: d, q, d asks for confirmation
      and empties the buffer. */
  lemma DeleteChordAcrossQ(buffer: string, editing: bool, cursor: int, n: int)
    requires buffer != "d"
    ensures var b1 := BufferAfter(buffer, Rune('d'), editing);
      var b2 := BufferAfter(b1, Rune('q'), editing);
      b2 == "d" && ModeAfter(b2, Rune('d'), cursor, n) == ConfirmDelete && BufferAfter(b2, Rune('d'), editing) == ""
  {
  }

  /** The selection with row c added, or taken out when it was in it. */
  function Toggled(selected: set<nat>, c: nat): (r: set<nat>)
    ensures c in r <==> c !in selected
    ensures forall i :: i != c ==> (i in r <==> i in selected)
  {
    if c in selected then selected - {c} else selected + {c}
  }

  // ---------------------------------------------------------------------------
  // The state machine

  class Model {
    var mode: Mode
    var tables: seq<TableInfo>
    var currentTable: int
    var requestedTable: string
    var items: seq<Item>
    var cursor: int
    var selected: set<nat>
    var keyBuffer: string
    var input: string
    var status: string
    var err: Option<string>
    var lastError: string
    var viewContent: string
    var editOrigContent: string
    var preserveStatus: bool

    /** ItemToPrettyJSON: the indented JSON text of an item. */
    const pretty: Item -> string
    /** The `%f` scan test ParseKeyValue applies to a value. */
    const scansFloat: string -> bool
    /** The text input's own handling of a keystroke in command mode. */
    const typeKey: (string, Key) -> string

    /** The cursor is on an item (or at 0 when there is none), the current
        table is one of the tables when there are any, and the chord buffer
        holds nothing, a `d` or a `g`. */
    ghost predicate Valid()
      reads this`cursor, this`items, this`currentTable, this`tables, this`keyBuffer
    {
      0 <= cursor && (cursor == 0 || cursor < |items|)
      && 0 <= currentTable && (|tables| > 0 ==> currentTable < |tables|)
      && IsChord(keyBuffer)
    }

    /** The texts on screen and kept for later. */
    function Shown(): Texts
      reads this`status, this`err, this`lastError, this`viewContent, this`editOrigContent
    {
      Texts(status, err, lastError, viewContent, editOrigContent)
    }

    /** What setError leaves: the message kept in full, shown in the status
        line when it fits in 50 bytes, else cut there and shown whole in the
        error view; otherwise the screen stays in mode m0 showing view0. */
    predicate ErrorShown(errStr: string, m0: Mode, view0: string)
      reads this`status, this`err, this`lastError, this`viewContent, this`mode
    {
      lastError == errStr && err == Some(errStr) && status == ErrorStatus(errStr)
      && if |errStr| > 50 then viewContent == errStr && mode == ErrorView
         else viewContent == view0 && mode == m0
    }

    /** A planned request: its command with the status left at status0, or
        the status it sets and no command. */
    predicate Applied(p: Result<Effect, string>, e: Effect, status0: string)
      reads this`status
    {
      if p.Ok? then e == p.value && status == status0 else e == NoCmd && status == p.error
    }

    constructor (requestedTable: string, pretty: Item -> string, scansFloat: string -> bool, typeKey: (string, Key) -> string)
      ensures Valid()
      ensures mode == Normal && tables == [] && currentTable == 0 && this.requestedTable == requestedTable
      ensures items == [] && cursor == 0 && selected == {} && keyBuffer == "" && input == ""
      ensures status == "Loading tables..." && err == None && lastError == "" && viewContent == ""
      ensures editOrigContent == "" && !preserveStatus
      ensures this.pretty == pretty && this.scansFloat == scansFloat && this.typeKey == typeKey
    {
      mode := Normal;
      tables := [];
      currentTable := 0;
      this.requestedTable := requestedTable;
      items := [];
      cursor := 0;
      selected := {};
      keyBuffer := "";
      input := "";
      status := "Loading tables...";
      err := None;
      lastError := "";
      viewContent := "";
      editOrigContent := "";
      preserveStatus := false;
      this.pretty := pretty;
      this.scansFloat := scansFloat;
      this.typeKey := typeKey;
    }

    /** The first command loads the table list. */
    method Init() returns (e: Effect)
      ensures e == LoadTables
    {
      e := LoadTables;
    }

    method SetError(errStr: string)
      modifies this`lastError, this`err, this`status, this`viewContent, this`mode
      ensures ErrorShown(errStr, old(mode), old(viewContent))
    {
      lastError := errStr;
      err := Some(errStr);
      status := ErrorStatus(errStr);
      if |errStr| > 50 {
        viewContent := errStr;
        mode := ErrorView;
      }
    }

    // -------------------------------------------------------------------------
    // Messages

    method Update(msg: Msg) returns (e: Effect)
      requires Valid()
      modifies this`lastError, this`err, this`status, this`viewContent, this`mode, this`editOrigContent,
        this`input, this`keyBuffer, this`cursor, this`selected, this`currentTable, this`tables,
        this`items, this`preserveStatus
      ensures Valid()
    {
      match msg
      case TablesLoadedMsg(ts, failure) => e := TablesLoaded(ts, failure);
      case ItemsLoadedMsg(its, failure, noMatch) => e := ItemsLoaded(its, failure, noMatch);
      case OperationDoneMsg(s, failure) => e := OperationDone(s, failure);
      case EditorFinishedMsg(content, original, failure) => e := EditorFinished(content, original, failure);
      case ItemFetchedForEditMsg(item, failure) => e := ItemFetchedForEdit(item, failure);
      case KeyMsg(key) => e := HandleKeyPress(key);
    }

    method TablesLoaded(ts: seq<TableInfo>, failure: Option<string>) returns (e: Effect)
      requires Valid()
      modifies this`lastError, this`err, this`status, this`viewContent, this`mode,
        this`tables, this`currentTable, this`preserveStatus
      ensures Valid()
      ensures failure.Some? ==>
        e == NoCmd && ErrorShown(failure.value, old(mode), old(viewContent)) && unchanged(this`tables, this`currentTable, this`preserveStatus)
      ensures failure.None? ==> tables == ts && unchanged(this`lastError, this`err, this`viewContent, this`mode)
      ensures failure.None? && ts == [] ==>
        e == NoCmd && status == "No tables found" && unchanged(this`currentTable, this`preserveStatus)
      ensures failure.None? && ts != [] ==> 0 <= currentTable < |ts| && e == LoadItems(ts[currentTable].name, "")
      ensures failure.None? && ts != [] && requestedTable != "" && FirstNamed(ts, requestedTable) == -1 ==>
        currentTable == 0 && preserveStatus
        && status == "Table '" + requestedTable + "' not found, using " + ts[0].name
      ensures failure.None? && ts != [] && !(requestedTable != "" && FirstNamed(ts, requestedTable) == -1) ==>
        currentTable == (if requestedTable != "" then FirstNamed(ts, requestedTable) else 0)
        && status == "Loaded " + NatToString(|ts|) + " tables" && preserveStatus == old(preserveStatus)
    {
      if failure.Some? {
        SetError(failure.value);
        return NoCmd;
      }
      tables := ts;
      if |tables| > 0 {
        SelectTable();
        return LoadItems(tables[currentTable].name, "");
      }
      status := "No tables found";
      e := NoCmd;
    }

    /** The table asked for on the command line, or the first one with a
        status saying the one asked for is missing. */
    method SelectTable()
      requires |tables| > 0
      modifies this`status, this`currentTable, this`preserveStatus
      ensures 0 <= currentTable < |tables|
      ensures requestedTable != "" && FirstNamed(tables, requestedTable) == -1 ==>
        currentTable == 0 && preserveStatus
        && status == "Table '" + requestedTable + "' not found, using " + tables[0].name
      ensures !(requestedTable != "" && FirstNamed(tables, requestedTable) == -1) ==>
        currentTable == (if requestedTable != "" then FirstNamed(tables, requestedTable) else 0)
        && status == "Loaded " + NatToString(|tables|) + " tables" && preserveStatus == old(preserveStatus)
    {
      currentTable := 0;
      if requestedTable != "" {
        var index, found := FindTable(tables, requestedTable);
        currentTable := index;
        if !found {
          status := "Table '" + requestedTable + "' not found, using " + tables[0].name;
          preserveStatus := true;
        } else {
          status := "Loaded " + NatToString(|tables|) + " tables";
        }
      } else {
        status := "Loaded " + NatToString(|tables|) + " tables";
      }
    }

    method ItemsLoaded(its: seq<Item>, failure: Option<string>, noMatch: bool) returns (e: Effect)
      requires Valid()
      modifies this`lastError, this`err, this`status, this`viewContent, this`mode,
        this`items, this`cursor, this`selected, this`preserveStatus
      ensures Valid() && e == NoCmd
      ensures failure.Some? ==>
        ErrorShown(failure.value, old(mode), old(viewContent)) && unchanged(this`items, this`cursor, this`selected, this`preserveStatus)
      ensures failure.None? ==>
        items == its && cursor == 0 && selected == {}
        && unchanged(this`lastError, this`err, this`viewContent, this`mode)
      ensures failure.None? ==>
        status == if noMatch then "No matching item"
                  else if old(preserveStatus) then old(status)
                  else "Loaded " + NatToString(|its|) + " items"
      ensures failure.None? ==> preserveStatus == if noMatch then old(preserveStatus) else false
    {
      e := NoCmd;
      if failure.Some? {
        SetError(failure.value);
        return;
      }
      items := its;
      cursor := 0;
      selected := {};
      if noMatch {
        status := "No matching item";
      } else if preserveStatus {
        preserveStatus := false;
      } else {
        status := "Loaded " + NatToString(|items|) + " items";
      }
    }

    method OperationDone(s: string, failure: Option<string>) returns (e: Effect)
      requires Valid()
      modifies this`lastError, this`err, this`status, this`viewContent, this`mode
      ensures Valid()
      ensures failure.Some? ==> e == NoCmd && ErrorShown(failure.value, old(mode), old(viewContent))
      ensures failure.None? ==>
        status == s && err == None && unchanged(this`lastError, this`viewContent, this`mode)
        && e == if |tables| > 0 then LoadItems(tables[currentTable].name, "") else NoCmd
    {
      if failure.Some? {
        SetError(failure.value);
        return NoCmd;
      }
      status := s;
      err := None;
      if |tables| > 0 {
        return LoadItems(tables[currentTable].name, "");
      }
      e := NoCmd;
    }

    /** saveEditedItem: the command that saves edited text into the current
        table, or reports that there is no table. */
    function SaveEditedItem(content: string): (e: Effect)
      reads this`tables, this`currentTable
      requires |tables| > 0 ==> 0 <= currentTable < |tables|
      ensures e.Save? && e.content == content
      ensures e.target.Some? <==> |tables| > 0
      ensures e.target.Some? ==> e.target.value == tables[currentTable].name
    {
      Save(if |tables| > 0 then Some(tables[currentTable].name) else None, content)
    }

    method EditorFinished(content: string, original: string, failure: Option<string>) returns (e: Effect)
      requires Valid()
      modifies this`lastError, this`err, this`status, this`viewContent, this`mode
      ensures Valid()
      ensures failure.Some? ==> e == NoCmd && ErrorShown(failure.value, old(mode), old(viewContent))
      ensures failure.None? ==> unchanged(this`lastError, this`err, this`viewContent, this`mode)
      ensures failure.None? && content == original ==> e == NoCmd && status == "No changes made"
      ensures failure.None? && content != original ==> e == SaveEditedItem(content) && status == old(status)
    {
      if failure.Some? {
        SetError(failure.value);
        return NoCmd;
      }
      if content == original {
        status := "No changes made";
        return NoCmd;
      }
      e := SaveEditedItem(content);
    }

    /** A fetched item replaces the list and goes to the editor; the selection
        is not touched. A failure goes to the status line only. */
    method ItemFetchedForEdit(item: Option<Item>, failure: Option<string>) returns (e: Effect)
      requires Valid()
      modifies this`status, this`items, this`cursor, this`editOrigContent
      ensures Valid()
      ensures failure.Some? ==>
        e == NoCmd && status == "Error: " + failure.value && unchanged(this`items, this`cursor, this`editOrigContent)
      ensures failure.None? && item.None? ==>
        e == NoCmd && status == "Item not found" && unchanged(this`items, this`cursor, this`editOrigContent)
      ensures failure.None? && item.Some? ==>
        items == [item.value] && cursor == 0 && status == old(status)
        && e == Edit(pretty(item.value)) && editOrigContent == pretty(item.value)
    {
      if failure.Some? {
        status := "Error: " + failure.value;
        return NoCmd;
      }
      if item.None? {
        status := "Item not found";
        return NoCmd;
      }
      items := [item.value];
      cursor := 0;
      e := EditCurrentItem();
    }

    // -------------------------------------------------------------------------
    // Keys

    method HandleKeyPress(key: Key) returns (e: Effect)
      requires Valid()
      modifies this`lastError, this`err, this`status, this`viewContent, this`mode, this`editOrigContent,
        this`input, this`keyBuffer, this`cursor, this`selected, this`currentTable
      ensures Valid()
      ensures KeyDone(key, e, old(mode), old(cursor), old(keyBuffer), old(selected), old(input), old(currentTable), old(Shown()))
      ensures LineRan(key, e, old(mode), old(input), old(Shown()))
    {
      if mode == Normal {
        e := HandleNormalKey(key);
      } else if mode == Command {
        e := HandleCommandMode(key);
      } else {
        e := HandleModalKey(key);
      }
    }

    /** What a key did in mode m0, from cursor c0, chord buffer b0,
        selection s0, command line in0, current table ct0 and texts t0: in
        Normal mode the table stays and NormalKeyDone holds; in every other
        mode the cursor, the chord buffer and the selection stay and
        ModalKeyDone holds. */
    ghost predicate KeyDone(key: Key, e: Effect, m0: Mode, c0: int, b0: string, s0: set<nat>, in0: string, ct0: int, t0: Texts)
      requires Valid()
      reads this`cursor, this`items, this`currentTable, this`tables, this`keyBuffer, this`selected,
        this`status, this`err, this`lastError, this`viewContent, this`editOrigContent, this`mode, this`input
    {
      && (m0 != Normal || (currentTable == ct0 && NormalKeyDone(key, e, c0, b0, s0, in0, t0)))
      && (m0 == Normal || (cursor == c0 && keyBuffer == b0 && selected == s0 && ModalKeyDone(key, e, m0, in0, ct0, t0)))
    }

    /** The keys of the table list, the item view, the delete prompt, the
        error view and the help, each answered as ModalKeyDone says. */
    method HandleModalKey(key: Key) returns (e: Effect)
      requires Valid() && mode != Normal && mode != Command
      modifies this`status, this`viewContent, this`mode, this`editOrigContent, this`currentTable
      ensures Valid()
      ensures ModalKeyDone(key, e, old(mode), old(input), old(currentTable), old(Shown()))
    {
      match mode
      case TableSelect => e := HandleTableSelectMode(key);
      case ItemView => e := HandleItemViewMode(key);
      case ConfirmDelete => e := HandleConfirmDeleteMode(key);
      case ErrorView =>
        if key == Esc || key == Enter || key == Rune('q') {
          mode := Normal;
          viewContent := "";
        }
        e := NoCmd;
      case Help =>
        if key == Esc || key == Rune('q') || key == Rune('?') {
          mode := Normal;
          viewContent := "";
        }
        e := NoCmd;
    }

    /** What a key did in mode m0, from command line in0, current table ct0
        and texts t0: each mode's own predicate, with what that mode leaves
        alone; the error view and the help close on their keys, emptying the
        view, and do nothing else. */
    ghost predicate ModalKeyDone(key: Key, e: Effect, m0: Mode, in0: string, ct0: int, t0: Texts)
      requires Valid() && m0 != Normal
      reads this`cursor, this`items, this`currentTable, this`tables, this`keyBuffer, this`selected,
        this`status, this`err, this`lastError, this`viewContent, this`editOrigContent, this`mode, this`input
    {
      match m0
      case Command => CommandKeyDone(key, e, m0, in0, t0) && currentTable == ct0
      case TableSelect => TableKeyDone(key, e, m0, ct0) && Shown() == t0 && input == in0
      case ItemView => ItemViewKeyDone(key, e, m0, t0) && input == in0 && currentTable == ct0
      case ConfirmDelete => ConfirmKeyDone(key, e, m0) && Shown() == t0 && input == in0 && currentTable == ct0
      case ErrorView =>
        e == NoCmd && input == in0 && currentTable == ct0
        && if key == Esc || key == Enter || key == Rune('q') then mode == Normal && Shown() == t0.(viewContent := "")
           else mode == m0 && Shown() == t0
      case Help =>
        e == NoCmd && input == in0 && currentTable == ct0
        && if key == Esc || key == Rune('q') || key == Rune('?') then mode == Normal && Shown() == t0.(viewContent := "")
           else mode == m0 && Shown() == t0
    }

    /** A key on the command line, from mode m0, line in0 and texts t0: Esc
        drops the line, Enter drops it (LineRan says what running it does),
        any other key is typed into it. */
    predicate CommandKeyDone(key: Key, e: Effect, m0: Mode, in0: string, t0: Texts)
      requires |tables| > 0 ==> 0 <= currentTable < |tables|
      reads this`status, this`err, this`lastError, this`viewContent, this`editOrigContent, this`mode,
        this`input, this`tables, this`currentTable
    {
      && (key == Esc ==> e == NoCmd && mode == Normal && input == "" && Shown() == t0)
      && (key == Enter ==> input == "")
      && (key != Esc && key != Enter ==> e == NoCmd && input == typeKey(in0, key) && mode == m0 && Shown() == t0)
    }

    /** A key in the table list, from mode m0 and table ct0: up and down move
        within the list, Esc closes it, Enter closes it and loads the table. */
    predicate TableKeyDone(key: Key, e: Effect, m0: Mode, ct0: int)
      requires |tables| > 0 ==> 0 <= currentTable < |tables|
      reads this`mode, this`currentTable, this`tables
    {
      && (key == Esc ==> e == NoCmd && mode == Normal && currentTable == ct0)
      && (IsUp(key) ==> e == NoCmd && mode == m0 && currentTable == if ct0 > 0 then ct0 - 1 else ct0)
      && (IsDown(key) ==> e == NoCmd && mode == m0 && currentTable == if ct0 < |tables| - 1 then ct0 + 1 else ct0)
      && (key == Enter ==>
            mode == Normal && currentTable == ct0
            && e == if |tables| > 0 then LoadItems(tables[currentTable].name, "") else NoCmd)
      && (!(key == Esc || IsUp(key) || IsDown(key) || key == Enter) ==> e == NoCmd && mode == m0 && currentTable == ct0)
    }

    /** A key in the item view, from mode m0 and texts t0: Esc, `q` and Enter
        close it; `e` closes it and edits the item under the cursor, or says
        there is none. */
    predicate ItemViewKeyDone(key: Key, e: Effect, m0: Mode, t0: Texts)
      requires 0 <= cursor && (cursor == 0 || cursor < |items|)
      reads this`status, this`err, this`lastError, this`viewContent, this`editOrigContent, this`mode,
        this`items, this`cursor
    {
      && (key == Esc || key == Rune('q') || key == Enter ==> e == NoCmd && mode == Normal && Shown() == t0.(viewContent := ""))
      && (key == Rune('e') && |items| > 0 ==>
            mode == Normal && e == Edit(pretty(items[cursor]))
            && Shown() == t0.(viewContent := "", editOrigContent := pretty(items[cursor])))
      && (key == Rune('e') && |items| == 0 ==>
            mode == Normal && e == NoCmd && Shown() == t0.(viewContent := "", status := "No item selected"))
      && (!(key == Esc || key == Rune('q') || key == Enter || key == Rune('e')) ==> e == NoCmd && mode == m0 && Shown() == t0)
    }

    /** A key at the delete prompt, from mode m0: `y` deletes the selection,
        or the row under the cursor when nothing is selected, with as many
        keys as the prompt counts when no selected row is stale; `n` and Esc
        cancel; other keys leave the prompt open. */
    ghost predicate ConfirmKeyDone(key: Key, e: Effect, m0: Mode)
      requires |tables| > 0 ==> 0 <= currentTable < |tables|
      reads this`mode, this`tables, this`items, this`currentTable, this`selected, this`cursor
    {
      var yes := key == Rune('y') || key == Rune('Y');
      && (yes ==> mode == Normal && exists toDelete :: e == DeletionOf(toDelete) && DeletesSelection(toDelete))
      && (yes && e.DeleteMany? ==> |e.keys| <= View.DeleteCount(selected))
      && (yes && |tables| > 0 && |items| > 0 && (forall i :: i in selected ==> i < |items|) ==>
            e.DeleteMany? && |e.keys| == View.DeleteCount(selected))
      && (key == Rune('n') || key == Rune('N') || key == Esc ==> mode == Normal && e == NoCmd)
      && (!(yes || key == Rune('n') || key == Rune('N') || key == Esc) ==> mode == m0 && e == NoCmd)
    }

    /** Enter runs the command line in0, trimmed, from Normal mode with
        texts t0: always in command mode, and in Normal mode when the line
        holds text. */
    predicate LineRan(key: Key, e: Effect, m0: Mode, in0: string, t0: Texts)
      requires |tables| > 0 ==> 0 <= currentTable < |tables|
      reads this`status, this`err, this`lastError, this`viewContent, this`editOrigContent, this`mode,
        this`tables, this`currentTable
    {
      !(key == Enter && (m0 == Command || (m0 == Normal && in0 != ""))) || Ran(TrimSpace(in0), e, Normal, t0)
    }

    /** What a Normal-mode key did, from cursor c0, chord buffer b0,
        selection s0, command line in0 and texts t0: the cursor, the buffer,
        the selection and the mode move as CursorAfter, BufferAfter, Toggled
        and ModeAfter say; Ctrl+C quits and `q` does not. Enter empties the
        command line when it holds text (LineRan says what running it does),
        else shows the item under the cursor; `e` edits that item unless several rows are selected; `i`
        and `a` edit the new item template; `:` and `/` start the command
        line and clear an error in force; Esc clears the command line. No
        other key gives a command or changes a text. */
    predicate NormalKeyDone(key: Key, e: Effect, c0: int, b0: string, s0: set<nat>, in0: string, t0: Texts)
      requires |tables| > 0 ==> 0 <= currentTable < |tables|
      reads this`cursor, this`keyBuffer, this`selected, this`mode, this`items, this`input, this`tables,
        this`currentTable, this`status, this`err, this`lastError, this`viewContent, this`editOrigContent
    {
      && cursor == CursorAfter(c0, b0, key, |items|)
      && keyBuffer == BufferAfter(b0, key, |items| > 0 && |s0| <= 1)
      && selected == (if key == Rune(' ') && |items| > 0 && c0 >= 0 then Toggled(s0, c0) else s0)
      && (!(key == Enter && in0 != "") ==> mode == ModeAfter(b0, key, c0, |items|))
      && (key == CtrlC ==> e == Quit)
      && (!(key == CtrlC || key == Enter || IsEditKey(key)) ==> e == NoCmd)
      && (key == Enter && in0 != "" ==> input == "")
      && (key == Enter && in0 == "" ==>
            e == NoCmd && input == ""
            && Shown() == t0.(viewContent := if 0 <= c0 < |items| then pretty(items[c0]) else t0.viewContent))
      && (key == Rune('e') ==>
            input == in0
            && if 0 <= c0 < |items| && |s0| <= 1
               then e == Edit(pretty(items[c0])) && Shown() == t0.(editOrigContent := pretty(items[c0]))
               else e == NoCmd && Shown() == t0)
      && (key == Rune('i') || key == Rune('a') ==>
            input == in0 && e == Edit(NewItemContent(tables, currentTable))
            && Shown() == t0.(editOrigContent := NewItemContent(tables, currentTable)))
      && (IsCommandKey(key) ==>
            input == [key.c]
            && Shown() == t0.(err := None, status := if t0.err.Some? then NatToString(|items|) + " items" else t0.status))
      && (!(key == Enter || IsEditKey(key) || IsCommandKey(key)) ==>
            Shown() == t0 && input == if key == Esc then "" else in0)
    }

    /** The Normal-mode keys, split between those that move about the list
        and those that act on it. */
    method HandleNormalKey(key: Key) returns (e: Effect)
      requires Valid() && mode == Normal
      modifies this`lastError, this`err, this`status, this`viewContent, this`mode, this`editOrigContent,
        this`input, this`keyBuffer, this`cursor, this`selected
      ensures Valid()
      ensures NormalKeyDone(key, e, old(cursor), old(keyBuffer), old(selected), old(input), old(Shown()))
      ensures LineRan(key, e, old(mode), old(input), old(Shown()))
    {
      if key == CtrlC || key == Rune('q') || IsCommandKey(key) || IsUp(key) || IsDown(key)
        || key == Rune('g') || key == Rune('G') || key == Rune(' ')
      {
        e := NavigationKey(key);
      } else {
        e := ActionKey(key);
      }
    }

    /** Ctrl+C, `q`, the command-line keys, the moves and the selection. */
    method NavigationKey(key: Key) returns (e: Effect)
      requires Valid() && mode == Normal
      requires key == CtrlC || key == Rune('q') || IsCommandKey(key) || IsUp(key) || IsDown(key)
        || key == Rune('g') || key == Rune('G') || key == Rune(' ')
      modifies this`err, this`status, this`mode, this`input, this`keyBuffer, this`cursor, this`selected
      ensures Valid()
      ensures NormalKeyDone(key, e, old(cursor), old(keyBuffer), old(selected), old(input), old(Shown()))
    {
      if key == CtrlC || key == Rune('q') || IsCommandKey(key) {
        e := ControlKey(key);
      } else if key == Rune(' ') {
        ToggleSelection();
        e := NoCmd;
      } else {
        Move(key);
        e := NoCmd;
      }
    }

    /** Ctrl+C quits; `q` checks for a `:` in the chord buffer, which Valid()
        rules out, so `q` never quits; `:` and `/` open the command line. */
    method ControlKey(key: Key) returns (e: Effect)
      requires Valid() && mode == Normal
      requires key == CtrlC || key == Rune('q') || IsCommandKey(key)
      modifies this`err, this`status, this`mode, this`input, this`keyBuffer
      ensures Valid()
      ensures NormalKeyDone(key, e, old(cursor), old(keyBuffer), old(selected), old(input), old(Shown()))
      ensures key == Rune('q') ==> e == NoCmd
      ensures IsCommandKey(key) ==> input == [key.c] && err == None
    {
      assert key != Enter && key != Esc && key != Rune(' ') && !IsEditKey(key) && !IsUp(key) && !IsDown(key);
      if key == CtrlC {
        e := Quit;
      } else if key == Rune('q') {
        e := if keyBuffer == ":" then Quit else NoCmd;
      } else {
        OpenCommandLine(key.c);
        e := NoCmd;
      }
    }

    /** Enter, the editing keys, `d`, `t`, `?`, Esc and every other key. */
    method ActionKey(key: Key) returns (e: Effect)
      requires Valid() && mode == Normal
      requires !(key == CtrlC || key == Rune('q') || IsCommandKey(key) || IsUp(key) || IsDown(key)
        || key == Rune('g') || key == Rune('G') || key == Rune(' '))
      modifies this`lastError, this`err, this`status, this`viewContent, this`mode, this`editOrigContent,
        this`input, this`keyBuffer
      ensures Valid()
      ensures NormalKeyDone(key, e, old(cursor), old(keyBuffer), old(selected), old(input), old(Shown()))
      ensures LineRan(key, e, old(mode), old(input), old(Shown()))
    {
      if key == Enter || IsEditKey(key) {
        e := OpenKey(key);
      } else if key == Rune('d') || key == Rune('t') || key == Rune('?') || key == Esc {
        SwitchMode(key);
        e := NoCmd;
      } else {
        assert key != Esc && !IsEditKey(key) && !IsCommandKey(key);
        keyBuffer := "";
        e := NoCmd;
      }
    }

    /** Enter opens the item or runs the command line; `e` edits the item
        under the cursor; `i` and `a` start a new one. */
    method OpenKey(key: Key) returns (e: Effect)
      requires Valid() && mode == Normal && (key == Enter || IsEditKey(key))
      modifies this`lastError, this`err, this`status, this`viewContent, this`mode, this`editOrigContent,
        this`input, this`keyBuffer
      ensures Valid()
      ensures NormalKeyDone(key, e, old(cursor), old(keyBuffer), old(selected), old(input), old(Shown()))
      ensures LineRan(key, e, old(mode), old(input), old(Shown()))
    {
      if key == Enter {
        e := Open();
      } else if key == Rune('e') {
        e := EditKey();
      } else {
        e := NewItemKey(key);
      }
    }

    /** `i` and `a`: the editor on the new item template. */
    method NewItemKey(key: Key) returns (e: Effect)
      requires Valid() && mode == Normal && (key == Rune('i') || key == Rune('a'))
      modifies this`editOrigContent, this`keyBuffer
      ensures Valid()
      ensures NormalKeyDone(key, e, cursor, old(keyBuffer), selected, input, old(Shown()))
      ensures e == Edit(NewItemContent(tables, currentTable)) && editOrigContent == NewItemContent(tables, currentTable)
    {
      assert key != Enter && key != Esc && key != CtrlC && key != Rune(' ') && key != Rune('e') && !IsCommandKey(key);
      keyBuffer := "";
      e := PutNewItem();
    }

    /** `:` and `/`: the command line opens with the key typed, and an error
        in force is cleared, the status going back to the item count. */
    method OpenCommandLine(c: char)
      requires Valid()
      modifies this`mode, this`input, this`keyBuffer, this`err, this`status
      ensures Valid()
      ensures mode == Command && input == [c] && keyBuffer == ""
      ensures err == None && status == if old(err).Some? then NatToString(|items|) + " items" else old(status)
    {
      mode := Command;
      input := [c];
      keyBuffer := "";
      if err.Some? {
        err := None;
        status := NatToString(|items|) + " items";
      }
    }

    /** Up and down by one row, `gg` to the first row, `G` to the last. */
    method Move(key: Key)
      requires Valid() && mode == Normal && (IsUp(key) || IsDown(key) || key == Rune('g') || key == Rune('G'))
      modifies this`cursor, this`keyBuffer
      ensures Valid()
      ensures NormalKeyDone(key, NoCmd, old(cursor), old(keyBuffer), selected, input, Shown())
    {
      assert key != Enter && key != Esc && key != CtrlC && key != Rune(' ') && !IsEditKey(key) && !IsCommandKey(key);
      if IsUp(key) || IsDown(key) {
        Step(IsUp(key));
      } else {
        Jump(key == Rune('g'));
      }
    }

    /** One row up or down, staying within the list. */
    method Step(up: bool)
      requires Valid()
      modifies this`cursor, this`keyBuffer
      ensures Valid() && keyBuffer == ""
      ensures cursor == if up then CursorAfter(old(cursor), old(keyBuffer), Up, |items|)
                        else CursorAfter(old(cursor), old(keyBuffer), Down, |items|)
    {
      if up {
        if cursor > 0 {
          cursor := cursor - 1;
        }
      } else if cursor < |items| - 1 {
        cursor := cursor + 1;
      }
      keyBuffer := "";
    }

    /** `g` twice goes to the first row, `G` to the last. */
    method Jump(first: bool)
      requires Valid()
      modifies this`cursor, this`keyBuffer
      ensures Valid()
      ensures first ==>
        (cursor == CursorAfter(old(cursor), old(keyBuffer), Rune('g'), |items|)
         && keyBuffer == BufferAfter(old(keyBuffer), Rune('g'), false))
      ensures !first ==> cursor == CursorAfter(old(cursor), old(keyBuffer), Rune('G'), |items|) && keyBuffer == ""
    {
      if first {
        if keyBuffer == "g" {
          cursor := 0;
          keyBuffer := "";
        } else {
          keyBuffer := "g";
        }
      } else {
        cursor := if |items| - 1 > 0 then |items| - 1 else 0;
        keyBuffer := "";
      }
    }

    /** Enter: runs the command line when it holds text, else opens the item
        under the cursor in the item view. */
    method Open() returns (e: Effect)
      requires Valid() && mode == Normal
      modifies this`lastError, this`err, this`status, this`viewContent, this`mode, this`editOrigContent,
        this`input, this`keyBuffer
      ensures Valid()
      ensures NormalKeyDone(Enter, e, cursor, old(keyBuffer), selected, old(input), old(Shown()))
      ensures LineRan(Enter, e, old(mode), old(input), old(Shown()))
    {
      if input != "" {
        e := RunInput();
      } else {
        ViewItem();
        e := NoCmd;
      }
    }

    /** The command line is emptied, then run. */
    method RunInput() returns (e: Effect)
      requires Valid()
      modifies this`lastError, this`err, this`status, this`viewContent, this`mode, this`editOrigContent,
        this`input, this`keyBuffer
      ensures Valid() && input == "" && keyBuffer == ""
      ensures Ran(TrimSpace(old(input)), e, old(mode), old(Shown()))
    {
      ghost var t0 := Shown();
      var cmd := input;
      input := "";
      keyBuffer := "";
      assert Shown() == t0;
      e := ExecuteCommand(cmd);
    }

    /** The item under the cursor, if any, in the item view. */
    method ViewItem()
      requires Valid()
      modifies this`viewContent, this`mode, this`keyBuffer
      ensures Valid() && keyBuffer == ""
      ensures if 0 < |items| then mode == ItemView && viewContent == pretty(items[cursor])
        else mode == old(mode) && viewContent == old(viewContent)
    {
      if |items| > 0 && cursor < |items| {
        viewContent := pretty(items[cursor]);
        mode := ItemView;
      }
      keyBuffer := "";
    }

    /** Space: the row under the cursor joins the selection or leaves it. */
    method ToggleSelection()
      requires Valid() && mode == Normal
      modifies this`selected, this`keyBuffer
      ensures Valid()
      ensures NormalKeyDone(Rune(' '), NoCmd, cursor, old(keyBuffer), old(selected), input, Shown())
    {
      if |items| > 0 {
        selected := Toggled(selected, cursor);
      }
      keyBuffer := "";
    }

    /** `e`: the item under the cursor goes to the editor unless several rows
        are selected; the chord buffer is then left as it was. */
    method EditKey() returns (e: Effect)
      requires Valid() && mode == Normal
      modifies this`status, this`editOrigContent, this`keyBuffer
      ensures Valid() && status == old(status)
      ensures NormalKeyDone(Rune('e'), e, cursor, old(keyBuffer), selected, input, old(Shown()))
      ensures |items| > 0 && |selected| <= 1 ==>
        e == Edit(pretty(items[cursor])) && editOrigContent == pretty(items[cursor]) && keyBuffer == old(keyBuffer)
      ensures !(|items| > 0 && |selected| <= 1) ==>
        e == NoCmd && editOrigContent == old(editOrigContent) && keyBuffer == ""
    {
      if |items| > 0 && |selected| <= 1 {
        e := EditCurrentItem();
        return;
      }
      keyBuffer := "";
      e := NoCmd;
    }

    /** `dd` asks to delete, `t` opens the table list, `?` the help, Esc
        clears the command line. */
    method SwitchMode(key: Key)
      requires Valid() && mode == Normal && (key == Rune('d') || key == Rune('t') || key == Rune('?') || key == Esc)
      modifies this`mode, this`keyBuffer, this`input
      ensures Valid()
      ensures mode == ModeAfter(old(keyBuffer), key, 0, 0)
      ensures keyBuffer == BufferAfter(old(keyBuffer), key, false)
      ensures input == if key == Esc then "" else old(input)
    {
      if key == Rune('d') {
        if keyBuffer == "d" {
          mode := ConfirmDelete;
          keyBuffer := "";
        } else {
          keyBuffer := "d";
        }
      } else if key == Rune('t') {
        mode := TableSelect;
        keyBuffer := "";
      } else if key == Rune('?') {
        mode := Help;
        keyBuffer := "";
      } else {
        keyBuffer := "";
        input := "";
        mode := Normal;
      }
    }

    /** Esc leaves command mode; Enter leaves it and runs the line; any other
        key goes to the text input. */
    method HandleCommandMode(key: Key) returns (e: Effect)
      requires Valid() && mode == Command
      modifies this`lastError, this`err, this`status, this`viewContent, this`mode, this`editOrigContent, this`input
      ensures Valid()
      ensures ModalKeyDone(key, e, old(mode), old(input), old(currentTable), old(Shown()))
      ensures LineRan(key, e, old(mode), old(input), old(Shown()))
    {
      if key == Esc {
        mode := Normal;
        input := "";
        return NoCmd;
      }
      if key == Enter {
        ghost var t0 := Shown();
        var cmd := input;
        input := "";
        mode := Normal;
        assert Shown() == t0;
        e := ExecuteCommand(cmd);
        return;
      }
      input := typeKey(input, key);
      e := NoCmd;
    }

    /** Esc closes the table list keeping the table under the cursor; Enter
        closes it and loads that table. */
    method HandleTableSelectMode(key: Key) returns (e: Effect)
      requires Valid() && mode == TableSelect
      modifies this`mode, this`currentTable
      ensures Valid()
      ensures ModalKeyDone(key, e, old(mode), old(input), old(currentTable), old(Shown()))
    {
      e := NoCmd;
      if key == Esc {
        mode := Normal;
      } else if IsUp(key) {
        if currentTable > 0 {
          currentTable := currentTable - 1;
        }
      } else if IsDown(key) {
        if currentTable < |tables| - 1 {
          currentTable := currentTable + 1;
        }
      } else if key == Enter {
        mode := Normal;
        if |tables| > 0 {
          e := LoadItems(tables[currentTable].name, "");
        }
      }
    }

    /** Esc, q and Enter close the item view; e closes it and edits the item. */
    method HandleItemViewMode(key: Key) returns (e: Effect)
      requires Valid() && mode == ItemView
      modifies this`mode, this`viewContent, this`status, this`editOrigContent
      ensures Valid()
      ensures ModalKeyDone(key, e, old(mode), old(input), old(currentTable), old(Shown()))
    {
      e := NoCmd;
      if key == Esc || key == Rune('q') || key == Enter {
        mode := Normal;
        viewContent := "";
      } else if key == Rune('e') {
        mode := Normal;
        viewContent := "";
        e := EditCurrentItem();
      }
    }

    /** y deletes the selection (or the row under the cursor), n and Esc
        cancel; other keys leave the prompt open. */
    method HandleConfirmDeleteMode(key: Key) returns (e: Effect)
      requires Valid() && mode == ConfirmDelete
      modifies this`mode
      ensures Valid()
      ensures ModalKeyDone(key, e, old(mode), old(input), old(currentTable), old(Shown()))
    {
      e := NoCmd;
      if key == Rune('y') || key == Rune('Y') {
        mode := Normal;
        var toDelete;
        e, toDelete := DeleteSelectedItems();
      } else if key == Rune('n') || key == Rune('N') || key == Esc {
        mode := Normal;
      }
    }

    // -------------------------------------------------------------------------
    // Commands

    /** What a whole command line that is not a verb does, run from mode m0
        with texts t0. */
    predicate MetaRan(l: Line, e: Effect, m0: Mode, t0: Texts)
      reads this`status, this`err, this`lastError, this`viewContent, this`editOrigContent, this`mode
    {
      lastError == t0.lastError && err == t0.err && editOrigContent == t0.editOrigContent
      && (l.QuitLine? ==> e == Quit && status == t0.status && viewContent == t0.viewContent && mode == m0)
      && (l.HelpLine? ==> e == NoCmd && mode == Help && status == t0.status && viewContent == t0.viewContent)
      && (l.ErrLine? ==>
            e == NoCmd
            && if t0.lastError != "" then viewContent == t0.lastError && mode == ErrorView && status == t0.status
               else status == "No errors" && viewContent == t0.viewContent && mode == m0)
      && (l.MlrdLine? ==> e == NoCmd && status == MlrdStatus && viewContent == t0.viewContent && mode == m0)
      && (l.Blank? ==> e == NoCmd && status == t0.status && viewContent == t0.viewContent && mode == m0)
    }

    /** What a verb and its words do, run from mode m0 with texts t0: /scan
        loads the current table or the index named; /query, /get and /update
        without words show their usage; /delete and /rm without words ask to
        delete the selection; with words these plan a request; /put opens the
        new item template; anything else, and /scan with no table, is an
        error. */
    predicate VerbRan(verb: string, args: seq<string>, e: Effect, m0: Mode, t0: Texts)
      requires |tables| > 0 ==> 0 <= currentTable < |tables|
      reads this`status, this`err, this`lastError, this`viewContent, this`editOrigContent, this`mode,
        this`tables, this`currentTable
    {
      var k := KindOf(verb);
      (k == ScanCmd && |tables| > 0 ==>
         e == LoadItems(tables[currentTable].name, if args == [] then "" else args[0])
         && Shown() == t0 && mode == m0)
      && ((k == QueryCmd || k == GetCmd || k == UpdateCmd) && args == [] ==>
         e == NoCmd && Shown() == t0.(status := Usage(k)) && mode == m0)
      && (k == DeleteCmd && args == [] ==>
         e == NoCmd && Shown() == t0 && mode == ConfirmDelete)
      && (k.TakesKey() && args != [] ==>
         Applied(Plan(tables, currentTable, k, args, scansFloat), e, t0.status)
         && Shown() == t0.(status := status) && mode == m0)
      && (k == PutCmd ==>
         e == Edit(NewItemContent(tables, currentTable))
         && Shown() == t0.(editOrigContent := NewItemContent(tables, currentTable)) && mode == m0)
      && (k == UnknownCmd || (k == ScanCmd && |tables| == 0) ==>
         e == NoCmd && ErrorShown("unknown command: " + verb, m0, t0.viewContent) && editOrigContent == t0.editOrigContent)
    }

    /** What a trimmed command line does, run from mode m0 with texts t0. */
    predicate Ran(line: string, e: Effect, m0: Mode, t0: Texts)
      requires |tables| > 0 ==> 0 <= currentTable < |tables|
      reads this`status, this`err, this`lastError, this`viewContent, this`editOrigContent, this`mode,
        this`tables, this`currentTable
    {
      var l := ReadLine(line);
      if l.Verb? then VerbRan(l.verb, l.args, e, m0, t0) else MetaRan(l, e, m0, t0)
    }

    /** executeCommand: the line trimmed, then read as a whole line or as a
        verb and its words. */
    method ExecuteCommand(cmd: string) returns (e: Effect)
      requires Valid()
      modifies this`lastError, this`err, this`status, this`viewContent, this`mode, this`editOrigContent
      ensures Valid()
      ensures Ran(TrimSpace(cmd), e, old(mode), old(Shown()))
    {
      var line := ReadLine(TrimSpace(cmd));
      if line.Verb? {
        e := RunVerb(line.verb, line.args);
      } else {
        e := RunMeta(line);
      }
    }

    method RunMeta(l: Line) returns (e: Effect)
      requires Valid() && !l.Verb?
      modifies this`status, this`viewContent, this`mode
      ensures Valid()
      ensures MetaRan(l, e, old(mode), old(Shown()))
    {
      e := NoCmd;
      match l
      case QuitLine => e := Quit;
      case HelpLine => mode := Help;
      case ErrLine =>
        if lastError != "" {
          viewContent := lastError;
          mode := ErrorView;
        } else {
          status := "No errors";
        }
      case MlrdLine => status := MlrdStatus;
      case Blank =>
    }

    method RunVerb(verb: string, args: seq<string>) returns (e: Effect)
      requires Valid()
      modifies this`lastError, this`err, this`status, this`viewContent, this`mode, this`editOrigContent
      ensures Valid()
      ensures VerbRan(verb, args, e, old(mode), old(Shown()))
    {
      var k := KindOf(verb);
      if k.TakesKey() {
        e := RunKeyVerb(verb, args);
      } else if k == ScanCmd && |tables| > 0 {
        e := LoadItems(tables[currentTable].name, if |args| > 0 then args[0] else "");
      } else if k == PutCmd {
        e := PutNewItem();
      } else {
        SetError("unknown command: " + verb);
        e := NoCmd;
      }
    }

    /** The verbs that take key words: their usage without words, else
        their plan; /delete alone asks to delete the selection. */
    method RunKeyVerb(verb: string, args: seq<string>) returns (e: Effect)
      requires Valid() && KindOf(verb).TakesKey()
      modifies this`status, this`mode
      ensures Valid()
      ensures VerbRan(verb, args, e, old(mode), old(Shown()))
    {
      var k := KindOf(verb);
      if (k == QueryCmd || k == GetCmd || k == UpdateCmd) && |args| < 1 {
        status := Usage(k);
        e := NoCmd;
      } else if k == QueryCmd {
        e := ExecuteQuery(args);
      } else if k == GetCmd {
        e := ExecuteGet(args);
      } else if k == UpdateCmd {
        e := ExecuteUpdate(args);
      } else if |args| < 1 {
        mode := ConfirmDelete;
        e := NoCmd;
      } else {
        e := ExecuteDelete(args);
      }
    }

    method ExecuteQuery(args: seq<string>) returns (e: Effect)
      requires Valid() && args != []
      modifies this`status
      ensures Applied(Plan(tables, currentTable, QueryCmd, args, scansFloat), e, old(status))
    {
      if |tables| == 0 {
        status := NoTable;
        return NoCmd;
      }
      var r := QueryPlan(tables[currentTable], args, scansFloat);
      if r.Err? {
        status := r.error;
        return NoCmd;
      }
      e := r.value;
    }

    method ExecuteGet(args: seq<string>) returns (e: Effect)
      requires Valid() && args != []
      modifies this`status
      ensures Applied(Plan(tables, currentTable, GetCmd, args, scansFloat), e, old(status))
    {
      if |tables| == 0 {
        status := NoTable;
        return NoCmd;
      }
      var table := tables[currentTable];
      e := Get(table.name, KeyOfArgs(table, args));
    }

    method ExecuteUpdate(args: seq<string>) returns (e: Effect)
      requires Valid() && args != []
      modifies this`status
      ensures Applied(Plan(tables, currentTable, UpdateCmd, args, scansFloat), e, old(status))
    {
      if |tables| == 0 {
        status := NoTable;
        return NoCmd;
      }
      var table := tables[currentTable];
      e := FetchForEdit(table.name, KeyOfArgs(table, args));
    }

    method ExecuteDelete(args: seq<string>) returns (e: Effect)
      requires Valid() && args != []
      modifies this`status
      ensures Applied(Plan(tables, currentTable, DeleteCmd, args, scansFloat), e, old(status))
    {
      if |tables| == 0 {
        status := NoTable;
        return NoCmd;
      }
      var table := tables[currentTable];
      e := DeleteOne(table.name, KeyOfArgs(table, args));
    }

    /** The deletion command for a list of targets, as deleteSelectedItems
        builds it: nothing without tables, items or targets. */
    ghost function DeletionOf(toDelete: seq<nat>): Effect
      reads this`tables, this`items, this`currentTable
      requires |tables| > 0 ==> 0 <= currentTable < |tables|
    {
      if |tables| == 0 || |items| == 0 || toDelete == [] then NoCmd
      else DeleteMany(tables[currentTable].name, DeleteKeys(tables[currentTable], items, toDelete))
    }

    /** The rows deleteSelectedItems targets: every selected row once, in
        some order, else the row under the cursor; nothing is promised when
        there is no table or no item, as the command is then empty. */
    ghost predicate DeletesSelection(toDelete: seq<nat>)
      reads this`tables, this`items, this`selected, this`cursor
    {
      && (|tables| > 0 && |items| > 0 && selected != {} ==>
            |toDelete| == |selected| && forall i :: i in toDelete <==> i in selected)
      && (|tables| > 0 && |items| > 0 && selected == {} ==> toDelete == [cursor])
    }

    /** deleteSelectedItems: the selected rows in some order, else the row
        under the cursor; rows past the end of the list are skipped. The
        number of keys is at most the count the delete prompt shows, and
        equal to it when no selected row is stale. */
    method DeleteSelectedItems() returns (e: Effect, toDelete: seq<nat>)
      requires Valid()
      ensures e == DeletionOf(toDelete) && DeletesSelection(toDelete)
      ensures e.DeleteMany? ==> |e.keys| <= View.DeleteCount(selected)
      ensures |tables| > 0 && |items| > 0 && (forall i :: i in selected ==> i < |items|) ==>
        e.DeleteMany? && |e.keys| == View.DeleteCount(selected)
    {
      toDelete := [];
      if |tables| == 0 || |items| == 0 {
        return NoCmd, toDelete;
      }
      var table := tables[currentTable];
      if |selected| > 0 {
        var rest := selected;
        while rest != {}
          invariant rest <= selected
          invariant |toDelete| + |rest| == |selected|
          invariant forall i :: i in toDelete <==> i in selected && i !in rest
          decreases |rest|
        {
          var idx :| idx in rest;
          toDelete := toDelete + [idx];
          rest := rest - {idx};
        }
      } else if cursor < |items| {
        toDelete := toDelete + [cursor];
      }
      if |toDelete| == 0 {
        return NoCmd, toDelete;
      }
      e := DeleteMany(table.name, DeleteKeys(table, items, toDelete));
      if forall i :: i in selected ==> i < |items| {
        assert forall j :: 0 <= j < |toDelete| ==> toDelete[j] in toDelete;
        DeleteKeysInRange(table, items, toDelete);
      }
    }

    /** putNewItem: the editor on a template with the table's key names. */
    method PutNewItem() returns (e: Effect)
      requires Valid()
      modifies this`editOrigContent
      ensures e == Edit(NewItemContent(tables, currentTable)) && editOrigContent == NewItemContent(tables, currentTable)
    {
      e := OpenEditor(NewItemContent(tables, currentTable));
    }

    /** editCurrentItem: the editor on the item under the cursor, or a status
        saying there is none. */
    method EditCurrentItem() returns (e: Effect)
      requires Valid()
      modifies this`status, this`editOrigContent
      ensures |items| == 0 ==> e == NoCmd && status == "No item selected" && editOrigContent == old(editOrigContent)
      ensures |items| > 0 ==>
        e == Edit(pretty(items[cursor])) && editOrigContent == pretty(items[cursor]) && status == old(status)
    {
      if |items| == 0 || cursor >= |items| {
        status := "No item selected";
        return NoCmd;
      }
      e := OpenEditor(pretty(items[cursor]));
    }

    /** openEditor: remembers the text the editor starts from. */
    method OpenEditor(content: string) returns (e: Effect)
      modifies this`editOrigContent
      ensures e == Edit(content) && editOrigContent == content
    {
      editOrigContent := content;
      e := Edit(content);
    }
  }

  // ---------------------------------------------------------------------------
  // Keystroke sequences

  /** d, q, d through the Normal-mode keys: the delete prompt opens, and the
      cursor and the selection stay where they were. */
  method DeleteChord(m: Model)
    requires m.Valid() && m.mode == Normal && m.keyBuffer == ""
    modifies m`lastError, m`err, m`status, m`viewContent, m`mode, m`editOrigContent,
      m`input, m`keyBuffer, m`cursor, m`selected
    ensures m.Valid() && m.mode == ConfirmDelete && m.keyBuffer == ""
    ensures m.cursor == old(m.cursor) && m.selected == old(m.selected)
  {
    var e1 := m.HandleNormalKey(Rune('d'));
    var e2 := m.HandleNormalKey(Rune('q'));
    var e3 := m.HandleNormalKey(Rune('d'));
  }

  /** g, g through the Normal-mode keys: the cursor goes to the first row. */
  method GoToTop(m: Model)
    requires m.Valid() && m.mode == Normal && m.keyBuffer == ""
    modifies m`lastError, m`err, m`status, m`viewContent, m`mode, m`editOrigContent,
      m`input, m`keyBuffer, m`cursor, m`selected
    ensures m.Valid() && m.mode == Normal && m.keyBuffer == "" && m.cursor == 0
  {
    var e1 := m.HandleNormalKey(Rune('g'));
    var e2 := m.HandleNormalKey(Rune('g'));
  }
}
