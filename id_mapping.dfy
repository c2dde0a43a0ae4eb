/** `map_db_identifiers` of workflow/scripts/KEGG.py: the query list is cut
    into chunks of 20000, each chunk is sent as one request to the UniProt
    ID-mapping service, each tab-separated reply is shaped into a table, the
    tables are appended in chunk order and duplicate rows are dropped at the
    end. The HTTP round trip is the parameter `fetch`, a total function from
    request to reply text. A query item is `None` where the caller passes a
    missing value (NaN), which `" ".join` rejects when it reaches that chunk. */
module IdMapping {
  import opened Wrappers
  import opened Sequences
  import opened Text
  import opened Chunking

  const Url: string := "https://www.uniprot.org/uploadlists/"
  const ChunkSize: nat := 20000

  /** One line of a reply, cut at the tabs. */
  type Row = seq<string>

  /** A data frame: column names and rows. */
  datatype Table = Table(columns: seq<string>, rows: seq<Row>)

  /** The form parameters of one POST to the mapping service. */
  datatype Request = Request(url: string, fromId: string, toId: string, format: string, query: string)

  /** Why a chunk fails: a missing item makes `" ".join` raise TypeError
      before any request is built; a reply without a line break leaves no
      last line to take from the empty index (pandas raises IndexError). */
  datatype ChunkFailure = NonStringItem | ResponseTooShort

  /** The failure that ends the run; `chunk` is the 1-based chunk number. */
  datatype MapError = ChunkFailed(chunk: nat, why: ChunkFailure)

  /** The chunk's identifiers when none of them is missing. */
  function Present(chunk: seq<Option<string>>): (r: Option<seq<string>>)
    ensures r.None? <==> None in chunk
    ensures r.Some? ==> |r.value| == |chunk| && forall k :: 0 <= k < |chunk| ==> chunk[k] == Some(r.value[k])
  {
    if None in chunk then None
    else
      assert forall k :: 0 <= k < |chunk| ==> chunk[k] in chunk;
      var ids := seq(|chunk|, k requires 0 <= k < |chunk| => chunk[k].value);
      assert forall k :: 0 <= k < |chunk| ==> Some(ids[k]) == chunk[k];
      Some(ids)
  }

  /** The request for one chunk: its identifiers joined by single spaces. */
  function ChunkRequest(fromId: string, toId: string, chunk: seq<string>): Request
  {
    Request(Url, fromId, toId, "tab", Join(chunk, ' '))
  }

  /** The query of a request carries exactly the chunk's identifiers, in
      order, whenever no identifier itself contains a space. */
  lemma QueryCarriesChunk(fromId: string, toId: string, chunk: seq<string>)
    requires |chunk| >= 1
    requires forall k :: 0 <= k < |chunk| ==> ' ' !in chunk[k]
    ensures Split(ChunkRequest(fromId, toId, chunk).query, ' ') == chunk
  {
    SplitJoin(chunk, ' ');
  }

  /** Every line cut at the tabs. */
  function SplitFields(lines: seq<string>): (rows: seq<Row>)
    ensures |rows| == |lines|
    ensures forall k :: 0 <= k < |lines| ==> rows[k] == Split(lines[k], '\t')
  {
    seq(|lines|, k requires 0 <= k < |lines| => Split(lines[k], '\t'))
  }

  /** The shaping of one reply (KEGG.py lines 79-82): cut into lines and
      fields, take the first line as the column names, drop it and the last
      line. `None` when the reply has a single line. */
  function ParseResponse(response: string): (r: Option<Table>)
    ensures r.None? <==> '\n' !in response
    ensures r.Some? ==> |r.value.rows| == |Split(response, '\n')| - 2
    ensures r.Some? ==> r.value.columns == Split(Split(response, '\n')[0], '\t')
    ensures r.Some? ==> forall k :: 0 <= k < |r.value.rows| ==>
      r.value.rows[k] == Split(Split(response, '\n')[k + 1], '\t')
  {
    CountZero(response, '\n');
    var lines := Split(response, '\n');
    if |lines| < 2 then None
    else Some(Table(Split(lines[0], '\t'), SplitFields(lines[1..|lines| - 1])))
  }

  /** The service's tab format: a header line, one line per row, every line
      ended by a line break. */
  function Render(t: Table): string
  {
    Join([Join(t.columns, '\t')] + seq(|t.rows|, k requires 0 <= k < |t.rows| => Join(t.rows[k], '\t')) + [""], '\n')
  }

  ghost predicate FieldsRenderable(fields: seq<string>)
  {
    |fields| >= 1 && forall k :: 0 <= k < |fields| ==> '\t' !in fields[k] && '\n' !in fields[k]
  }

  /** A table the tab format can carry: no field holds a tab or a line break,
      and no line is without fields. */
  ghost predicate Renderable(t: Table)
  {
    FieldsRenderable(t.columns) && forall k :: 0 <= k < |t.rows| ==> FieldsRenderable(t.rows[k])
  }

  lemma RenderLine(fields: seq<string>)
    requires FieldsRenderable(fields)
    ensures '\n' !in Join(fields, '\t')
    ensures Split(Join(fields, '\t'), '\t') == fields
  {
    JoinFree(fields, '\t', '\n');
    SplitJoin(fields, '\t');
  }

  /** Shaping a rendered reply gives back the table: the first line is the
      header and the last, empty line is the one dropped. */
  lemma ParseRender(t: Table)
    requires Renderable(t)
    ensures ParseResponse(Render(t)) == Some(t)
  {
    var body := seq(|t.rows|, k requires 0 <= k < |t.rows| => Join(t.rows[k], '\t'));
    var lines := [Join(t.columns, '\t')] + body + [""];
    RenderLine(t.columns);
    forall k | 0 <= k < |t.rows|
      ensures '\n' !in body[k] && Split(body[k], '\t') == t.rows[k]
    {
      RenderLine(t.rows[k]);
    }
    SplitJoin(lines, '\n');
    assert Split(Render(t), '\n') == lines;
    assert lines[1..|lines| - 1] == body;
    assert SplitFields(body) == t.rows;
  }

  /** `DataFrame.append(..., ignore_index=True)`: rows go after the
      accumulated ones; the initial empty frame takes the appended header. */
  function Append(acc: Table, t: Table): Table
  {
    Table(if acc.columns == [] then t.columns else acc.columns, acc.rows + t.rows)
  }

  /** One chunk's turn of the loop: build the query, send the request,
      shape the reply; or the reason it fails. */
  function ChunkTable(fromId: string, toId: string, chunk: seq<Option<string>>, fetch: Request -> string): Result<Table, ChunkFailure>
  {
    match Present(chunk)
    case None => Err(NonStringItem)
    case Some(ids) =>
      match ParseResponse(fetch(ChunkRequest(fromId, toId, ids)))
      case None => Err(ResponseTooShort)
      case Some(t) => Ok(t)
  }

  /** The accumulated frame after the chunks `cs`, or the first chunk that fails. */
  function Collect(fromId: string, toId: string, cs: seq<seq<Option<string>>>, fetch: Request -> string): Result<Table, MapError>
  {
    if |cs| == 0 then Ok(Table([], []))
    else
      match Collect(fromId, toId, cs[..|cs| - 1], fetch)
      case Err(e) => Err(e)
      case Ok(acc) =>
        match ChunkTable(fromId, toId, cs[|cs| - 1], fetch)
        case Err(why) => Err(ChunkFailed(|cs|, why))
        case Ok(t) => Ok(Append(acc, t))
  }

  /** What `map_db_identifiers` returns: the accumulated frame with duplicate rows dropped. */
  function MappedTable(fromId: string, toId: string, query: seq<Option<string>>, fetch: Request -> string): Result<Table, MapError>
  {
    match Collect(fromId, toId, Chunks(query, ChunkSize), fetch)
    case Err(e) => Err(e)
    case Ok(t) => Ok(Table(t.columns, Dedup(t.rows)))
  }

  /** `sent` are the requests for the first chunks of `cs`, in order; each of
      those chunks has all its identifiers. */
  ghost predicate SentFor(fromId: string, toId: string, cs: seq<seq<Option<string>>>, sent: seq<Request>)
  {
    && |sent| <= |cs|
    && forall k :: 0 <= k < |sent| ==>
      Present(cs[k]).Some? && sent[k] == ChunkRequest(fromId, toId, Present(cs[k]).value)
  }

  /** Once a prefix of the chunks fails, the whole run fails the same way. */
  lemma {:induction false} CollectPrefixErr(fromId: string, toId: string, cs: seq<seq<Option<string>>>, fetch: Request -> string, m: nat)
    requires m <= |cs|
    requires Collect(fromId, toId, cs[..m], fetch).Err?
    ensures Collect(fromId, toId, cs, fetch) == Collect(fromId, toId, cs[..m], fetch)
    decreases |cs| - m
  {
    if m < |cs| {
      assert cs[..m + 1][..m] == cs[..m];
      CollectPrefixErr(fromId, toId, cs, fetch, m + 1);
    } else {
      assert cs[..m] == cs;
    }
  }

  /** The accumulation succeeds exactly when every chunk gets through. */
  lemma {:induction false} CollectSucceeds(fromId: string, toId: string, cs: seq<seq<Option<string>>>, fetch: Request -> string)
    ensures Collect(fromId, toId, cs, fetch).Ok? <==>
      forall k :: 0 <= k < |cs| ==> ChunkTable(fromId, toId, cs[k], fetch).Ok?
  {
    if |cs| > 0 {
      var p := cs[..|cs| - 1];
      CollectSucceeds(fromId, toId, p, fetch);
      assert forall k :: 0 <= k < |p| ==> p[k] == cs[k];
      var last := ChunkTable(fromId, toId, cs[|cs| - 1], fetch);
      assert Collect(fromId, toId, cs, fetch).Ok? <==> Collect(fromId, toId, p, fetch).Ok? && last.Ok?;
    }
  }

  /** A failed accumulation names the first chunk that does not get through, and why. */
  lemma {:induction false} CollectFails(fromId: string, toId: string, cs: seq<seq<Option<string>>>, fetch: Request -> string)
    requires Collect(fromId, toId, cs, fetch).Err?
    ensures var e := Collect(fromId, toId, cs, fetch).error;
      && 1 <= e.chunk <= |cs|
      && ChunkTable(fromId, toId, cs[e.chunk - 1], fetch) == Err(e.why)
      && forall k :: 0 <= k < e.chunk - 1 ==> ChunkTable(fromId, toId, cs[k], fetch).Ok?
  {
    var p := cs[..|cs| - 1];
    assert forall k :: 0 <= k < |p| ==> p[k] == cs[k];
    if Collect(fromId, toId, p, fetch).Err? {
      CollectFails(fromId, toId, p, fetch);
    } else {
      CollectSucceeds(fromId, toId, p, fetch);
    }
  }

  /** The accumulated rows are exactly the rows of the shaped replies, chunk after chunk. */
  lemma {:induction false} CollectRows(fromId: string, toId: string, cs: seq<seq<Option<string>>>, fetch: Request -> string)
    requires Collect(fromId, toId, cs, fetch).Ok?
    ensures forall k :: 0 <= k < |cs| ==> ChunkTable(fromId, toId, cs[k], fetch).Ok?
    ensures Collect(fromId, toId, cs, fetch).value.rows ==
      Flatten(seq(|cs|, k requires 0 <= k < |cs| => ChunkTable(fromId, toId, cs[k], fetch).value.rows))
  {
    CollectSucceeds(fromId, toId, cs, fetch);
    if |cs| > 0 {
      var p := cs[..|cs| - 1];
      CollectRows(fromId, toId, p, fetch);
      var parts := seq(|cs|, k requires 0 <= k < |cs| => ChunkTable(fromId, toId, cs[k], fetch).value.rows);
      var pparts := seq(|p|, k requires 0 <= k < |p| => ChunkTable(fromId, toId, p[k], fetch).value.rows);
      assert parts == pparts + [parts[|cs| - 1]];
      FlattenSnoc(pparts, parts[|cs| - 1]);
    }
  }

  /** The mapping result has no duplicate row, and every row of every chunk's reply is in it. */
  lemma MapRowsComplete(fromId: string, toId: string, query: seq<Option<string>>, fetch: Request -> string, k: nat, row: Row)
    requires MappedTable(fromId, toId, query, fetch).Ok?
    requires k < |Chunks(query, ChunkSize)|
    ensures NoDup(MappedTable(fromId, toId, query, fetch).value.rows)
    ensures ChunkTable(fromId, toId, Chunks(query, ChunkSize)[k], fetch).Ok?
    ensures row in ChunkTable(fromId, toId, Chunks(query, ChunkSize)[k], fetch).value.rows ==>
      row in MappedTable(fromId, toId, query, fetch).value.rows
  {
    var cs := Chunks(query, ChunkSize);
    CollectRows(fromId, toId, cs, fetch);
    var parts := seq(|cs|, k requires 0 <= k < |cs| => ChunkTable(fromId, toId, cs[k], fetch).value.rows);
    if row in parts[k] {
      FlattenMember(parts, k, row);
    }
  }

  /** Every row of the mapping result comes from some chunk's reply. */
  lemma MapRowsSound(fromId: string, toId: string, query: seq<Option<string>>, fetch: Request -> string, row: Row)
    returns (k: nat)
    requires MappedTable(fromId, toId, query, fetch).Ok?
    requires row in MappedTable(fromId, toId, query, fetch).value.rows
    ensures k < |Chunks(query, ChunkSize)|
    ensures ChunkTable(fromId, toId, Chunks(query, ChunkSize)[k], fetch).Ok?
    ensures row in ChunkTable(fromId, toId, Chunks(query, ChunkSize)[k], fetch).value.rows
  {
    var cs := Chunks(query, ChunkSize);
    CollectRows(fromId, toId, cs, fetch);
    var parts := seq(|cs|, k requires 0 <= k < |cs| => ChunkTable(fromId, toId, cs[k], fetch).value.rows);
    k := FlattenSource(parts, row);
  }

  /** The kept rows are in the order of their first occurrences in the accumulated frame. */
  lemma MapOrder(fromId: string, toId: string, query: seq<Option<string>>, fetch: Request -> string)
    requires MappedTable(fromId, toId, query, fetch).Ok?
    ensures var acc := Collect(fromId, toId, Chunks(query, ChunkSize), fetch).value.rows;
      var r := MappedTable(fromId, toId, query, fetch).value.rows;
      forall i, j :: 0 <= i < j < |r| ==> FirstIndex(acc, r[i]) < FirstIndex(acc, r[j])
  {
    DedupOrder(Collect(fromId, toId, Chunks(query, ChunkSize), fetch).value.rows);
  }

  /** A missing item anywhere in the query fails the run: at its own chunk's
      join, unless an earlier chunk's reply has already failed; when every
      reply has a line break, the failure is the join's. */
  lemma MissingItemFails(fromId: string, toId: string, query: seq<Option<string>>, fetch: Request -> string)
    requires None in query
    ensures MappedTable(fromId, toId, query, fetch).Err?
    ensures (forall req :: '\n' in fetch(req)) ==> MappedTable(fromId, toId, query, fetch).error.why == NonStringItem
  {
    var cs := Chunks(query, ChunkSize);
    ChunksConcat(query, ChunkSize);
    var k := FlattenSource(cs, None);
    CollectSucceeds(fromId, toId, cs, fetch);
    assert ChunkTable(fromId, toId, cs[k], fetch).Err?;
    CollectFails(fromId, toId, cs, fetch);
  }

  lemma {:induction false} FlattenMember<T>(ss: seq<seq<T>>, k: nat, x: T)
    requires k < |ss| && x in ss[k]
    ensures x in Flatten(ss)
  {
    if k > 0 {
      FlattenMember(ss[1..], k - 1, x);
    }
  }

  lemma {:induction false} FlattenSource<T>(ss: seq<seq<T>>, x: T) returns (k: nat)
    requires x in Flatten(ss)
    ensures k < |ss| && x in ss[k]
  {
    if x in ss[0] {
      k := 0;
    } else {
      var k' := FlattenSource(ss[1..], x);
      k := k' + 1;
    }
  }

  /** The ID mapper. Builds each chunk's query, sends one request per chunk
      in order, shapes each reply and appends it; drops duplicate rows at
      the end. */
  method MapDbIdentifiers(fromId: string, toId: string, query: seq<Option<string>>, fetch: Request -> string)
    returns (result: Result<Table, MapError>, sent: seq<Request>)
    ensures result == MappedTable(fromId, toId, query, fetch)
    ensures SentFor(fromId, toId, Chunks(query, ChunkSize), sent)
    ensures result.Ok? ==> |sent| == |Chunks(query, ChunkSize)|
    ensures result.Err? ==> 1 <= result.error.chunk <= |Chunks(query, ChunkSize)|
    ensures result.Err? ==>
      |sent| == if result.error.why == ResponseTooShort then result.error.chunk else result.error.chunk - 1
  {
    var chunkList := Chunks(query, ChunkSize);
    var lenGen := |chunkList|;
    var returnDf := Table([], []);
    var iterationCount := 1;
    sent := [];
    while iterationCount <= lenGen
      invariant 1 <= iterationCount <= lenGen + 1
      invariant Collect(fromId, toId, chunkList[..iterationCount - 1], fetch) == Ok(returnDf)
      invariant |sent| == iterationCount - 1 && SentFor(fromId, toId, chunkList, sent)
    {
      var chunk := chunkList[iterationCount - 1];
      assert chunkList[..iterationCount][..iterationCount - 1] == chunkList[..iterationCount - 1];
      var ids := Present(chunk);
      if ids.None? {
        result := Err(ChunkFailed(iterationCount, NonStringItem));
        CollectPrefixErr(fromId, toId, chunkList, fetch, iterationCount);
        return;
      }
      var request := ChunkRequest(fromId, toId, ids.value);
      var response := fetch(request);
      sent := sent + [request];
      var tempDf := ParseResponse(response);
      if tempDf.None? {
        result := Err(ChunkFailed(iterationCount, ResponseTooShort));
        CollectPrefixErr(fromId, toId, chunkList, fetch, iterationCount);
        return;
      }
      returnDf := Append(returnDf, tempDf.value);
      iterationCount := iterationCount + 1;
    }
    assert chunkList[..iterationCount - 1] == chunkList;
    result := Ok(Table(returnDf.columns, Dedup(returnDf.rows)));
  }
}
