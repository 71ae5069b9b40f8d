/** The page loops of ListTables, Scan and Query: request a page, append its
    entries, and ask for the next page from where the last one ended until a
    page carries no continuation. The service is a finite sequence of
    responses, the i-th answering the i-th request. */
module Paging {
  import opened Values

  /** One page: its entries and where the next page starts, if there is one. */
  datatype Page<T, K> = Page(entries: seq<T>, next: Option<K>)

  type Response<T, K> = Result<Page<T, K>, string>

  /** The loop ends at response i: it failed, or it has no continuation. */
  predicate Stops<T, K>(rs: seq<Response<T, K>>, i: nat)
    requires i < |rs|
  {
    rs[i].Err? || rs[i].value.next.None?
  }

  /** The first response from i on at which the loop ends, or -1. */
  function FirstStop<T, K>(rs: seq<Response<T, K>>, i: nat): (r: int)
    ensures r == -1 || (i <= r < |rs| && Stops(rs, r))
    ensures r == -1 ==> forall j :: i <= j < |rs| ==> rs[j].Ok? && rs[j].value.next.Some?
    ensures r != -1 ==> forall j :: i <= j < r ==> rs[j].Ok? && rs[j].value.next.Some?
    decreases |rs| - i
  {
    if i >= |rs| then -1
    else if Stops(rs, i) then i
    else FirstStop(rs, i + 1)
  }

  /** What the loop returns when it starts at response i: every page's entries
      in order up to the last page, or the first failure with nothing else. */
  function Collect<T, K>(rs: seq<Response<T, K>>, i: nat): Result<seq<T>, string>
    requires FirstStop(rs, i) != -1
    decreases |rs| - i
  {
    if rs[i].Err? then Err(rs[i].error)
    else if rs[i].value.next.None? then Ok(rs[i].value.entries)
    else
      match Collect(rs, i + 1)
      case Err(e) => Err(e)
      case Ok(rest) => Ok(rs[i].value.entries + rest)
  }

  /** The entries of pages i up to n, in order; all of them succeeded. */
  function Entries<T, K>(rs: seq<Response<T, K>>, i: nat, n: nat): seq<T>
    requires i <= n <= |rs| && forall j :: i <= j < n ==> rs[j].Ok?
    decreases n - i
  {
    if i == n then [] else rs[i].value.entries + Entries(rs, i + 1, n)
  }

  /** Entries gathered so far, in front of what the rest of the loop gives. */
  function Prepend<T>(acc: seq<T>, r: Result<seq<T>, string>): Result<seq<T>, string> {
    match r
    case Err(e) => Err(e)
    case Ok(rest) => Ok(acc + rest)
  }

  lemma PrependTwice<T>(a: seq<T>, b: seq<T>, r: Result<seq<T>, string>)
    ensures Prepend(a, Prepend(b, r)) == Prepend(a + b, r)
  {
    if r.Ok? {
      assert a + (b + r.value) == (a + b) + r.value;
    }
  }

  /** The error a loop reports: the operation's prefix, then the cause. */
  function Wrapped<T>(r: Result<seq<T>, string>, prefix: string): Result<seq<T>, string> {
    match r
    case Ok(es) => Ok(es)
    case Err(e) => Err(prefix + e)
  }

  /** The loop: the first request has no start; each later one starts where
      the previous page ended. It stops at the first failure, returning its
      error alone, or at the first page without a continuation, returning the
      entries of all pages read. `starts` are the start points it sent. */
  method Paginate<T, K>(rs: seq<Response<T, K>>, prefix: string) returns (r: Result<seq<T>, string>, starts: seq<Option<K>>)
    requires FirstStop(rs, 0) != -1
    ensures r == Wrapped(Collect(rs, 0), prefix)
    ensures |starts| == FirstStop(rs, 0) + 1 && starts[0] == None
    ensures forall i :: 0 < i < |starts| ==> rs[i - 1].Ok? && starts[i] == rs[i - 1].value.next
  {
    var acc: seq<T> := [];
    var last: Option<K> := None;
    var i := 0;
    starts := [];
    assert Collect(rs, 0) == Prepend(acc, Collect(rs, 0)) by {
      if Collect(rs, 0).Ok? {
        assert acc + Collect(rs, 0).value == Collect(rs, 0).value;
      }
    }
    while true
      invariant 0 <= i <= FirstStop(rs, 0) && FirstStop(rs, i) == FirstStop(rs, 0)
      invariant |starts| == i
      invariant forall j :: 0 <= j < i ==> rs[j].Ok?
      invariant forall j :: 0 < j < i ==> starts[j] == rs[j - 1].value.next
      invariant i == 0 ==> last == None
      invariant i > 0 ==> starts[0] == None && last == rs[i - 1].value.next
      invariant Collect(rs, 0) == Prepend(acc, Collect(rs, i))
      decreases |rs| - i
    {
      starts := starts + [last];
      var out := rs[i];
      if out.Err? {
        assert FirstStop(rs, 0) == i;
        assert Collect(rs, 0) == Err(out.error);
        r := Err(prefix + out.error);
        return;
      }
      var before := acc;
      acc := acc + out.value.entries;
      if out.value.next.None? {
        assert FirstStop(rs, 0) == i;
        assert Collect(rs, 0) == Ok(acc);
        break;
      }
      assert !Stops(rs, i);
      assert Collect(rs, i) == Prepend(out.value.entries, Collect(rs, i + 1));
      PrependTwice(before, out.value.entries, Collect(rs, i + 1));
      last := out.value.next;
      i := i + 1;
    }
    r := Ok(acc);
  }

  /** The loop ends at the first page without a continuation with every
      page's entries in order; a failure before then is all it reports. */
  lemma {:induction false} CollectOutcome<T, K>(rs: seq<Response<T, K>>, i: nat)
    requires FirstStop(rs, i) != -1
    ensures var s := FirstStop(rs, i);
      (rs[s].Err? ==> Collect(rs, i) == Err(rs[s].error))
      && (rs[s].Ok? ==> Collect(rs, i) == Ok(Entries(rs, i, s + 1)))
    decreases |rs| - i
  {
    var s := FirstStop(rs, i);
    if s != i {
      CollectOutcome(rs, i + 1);
    } else if rs[s].Ok? {
      assert Entries(rs, i + 1, s + 1) == [];
      assert Entries(rs, i, s + 1) == rs[i].value.entries + [] == rs[i].value.entries;
    }
  }

  /** From the start: the result is the concatenation of all pages up to the
      first without a continuation, or the first error with no entries. */
  lemma AllPages<T, K>(rs: seq<Response<T, K>>)
    requires FirstStop(rs, 0) != -1
    ensures var s := FirstStop(rs, 0);
      (rs[s].Ok? ==> Collect(rs, 0) == Ok(Entries(rs, 0, s + 1)))
      && (rs[s].Err? ==> Collect(rs, 0) == Err(rs[s].error))
  {
    CollectOutcome(rs, 0);
  }

  /** A single page with no continuation is all there is. */
  lemma OnePage<T, K>(es: seq<T>, rest: seq<Response<T, K>>)
    ensures FirstStop([Ok(Page(es, None))] + rest, 0) == 0
    ensures Collect([Ok(Page(es, None))] + rest, 0) == Ok(es)
  {
  }

  // ---------------------------------------------------------------------------
  // The three loops

  /** What a Scan or Query request names: the table, the index when one is
      given, and where the page starts. */
  datatype Request<K> = Request(table: string, index: Option<string>, start: Option<K>)

  /** An empty index name means the table itself. */
  function IndexOption(indexName: string): (r: Option<string>)
    ensures r.None? <==> indexName == ""
    ensures r.Some? ==> r.value == indexName
  {
    if indexName == "" then None else Some(indexName)
  }

  /** ListTables: the table names of every page, continuing from the last
      table name of the previous page. */
  method ListTables(rs: seq<Response<string, string>>) returns (r: Result<seq<string>, string>, starts: seq<Option<string>>)
    requires FirstStop(rs, 0) != -1
    ensures r == Wrapped(Collect(rs, 0), "failed to list tables: ")
    ensures |starts| == FirstStop(rs, 0) + 1 && starts[0] == None
    ensures forall i :: 0 < i < |starts| ==> rs[i - 1].Ok? && starts[i] == rs[i - 1].value.next
  {
    r, starts := Paginate(rs, "failed to list tables: ");
    forall i | 0 < i < |starts| ensures rs[i - 1].Ok? && starts[i] == rs[i - 1].value.next {
    }
  }

  /** Scan: every item of the table or index, page after page. */
  method Scan(tableName: string, indexName: string, rs: seq<Response<Item, Item>>)
    returns (r: Result<seq<Item>, string>, requests: seq<Request<Item>>)
    requires FirstStop(rs, 0) != -1
    ensures r == Wrapped(Collect(rs, 0), "scan failed: ")
    ensures |requests| == FirstStop(rs, 0) + 1 && requests[0].start == None
    ensures forall i :: 0 <= i < |requests| ==>
      requests[i].table == tableName && requests[i].index == IndexOption(indexName)
    ensures forall i :: 0 < i < |requests| ==> rs[i - 1].Ok? && requests[i].start == rs[i - 1].value.next
  {
    var starts;
    r, starts := Paginate(rs, "scan failed: ");
    requests := seq(|starts|, i requires 0 <= i < |starts| => Request(tableName, IndexOption(indexName), starts[i]));
  }

  /** Query: every item matching the key condition, page after page; the
      condition and its values go unchanged into every request. */
  method Query(tableName: string, indexName: string, keyCondition: string, values: Item, rs: seq<Response<Item, Item>>)
    returns (r: Result<seq<Item>, string>, requests: seq<(Request<Item>, string, Item)>)
    requires FirstStop(rs, 0) != -1
    ensures r == Wrapped(Collect(rs, 0), "query failed: ")
    ensures |requests| == FirstStop(rs, 0) + 1 && requests[0].0.start == None
    ensures forall i :: 0 <= i < |requests| ==>
      requests[i].0.table == tableName && requests[i].0.index == IndexOption(indexName)
      && requests[i].1 == keyCondition && requests[i].2 == values
    ensures forall i :: 0 < i < |requests| ==> rs[i - 1].Ok? && requests[i].0.start == rs[i - 1].value.next
  {
    var starts;
    r, starts := Paginate(rs, "query failed: ");
    requests := seq(|starts|, i requires 0 <= i < |starts| =>
      (Request(tableName, IndexOption(indexName), starts[i]), keyCondition, values));
    forall i | 0 < i < |requests| ensures rs[i - 1].Ok? && requests[i].0.start == rs[i - 1].value.next {
      assert requests[i].0.start == starts[i];
    }
  }
}
