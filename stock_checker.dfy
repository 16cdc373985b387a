/**
 * The stock checker of src/main.py: the outcome of the stock request, the
 * parser that turns the decoded response into one (store name, stock status)
 * record per entry, and the script that prints those records.
 */
module StockChecker {
  import opened PyJson

  /** One parsed record: `{"store_name": ..., "stock_status": ...}`. */
  datatype StockResult = StockResult(storeName: string, stockStatus: string)

  /** The fixed table of stock codes. */
  const StockMapping: map<string, string> :=
    map["R" := "Out of Stock", "G" := "In Stock", "A" := "Limited Stock"]

  const UnknownStatus: string := "Unknown Status"

  const FallbackPrefix: string := "Store ID "

  const Header: string := "Stock Information:"

  const NoDataMessage: string := "No response or failed to retrieve stock information."

  // ---------------------------------------------------------------------------
  // The request (check_stock)
  // ---------------------------------------------------------------------------

  /** What the HTTP library reports for the one POST request: a response with
      its status code and its body, or a transport failure (timeout, refused
      connection, DNS). */
  datatype HttpOutcome =
    | Responded(statusCode: int, body: DecodedBody)
    | TransportFailed

  /** The response body as the JSON decoder sees it. */
  datatype DecodedBody = NotJson | Decoded(value: Json)

  /** check_stock's value: the decoded body on status 200, `None` otherwise. */
  function CheckStock(outcome: HttpOutcome): (r: Json)
    ensures r != Null ==> outcome.Responded? && outcome.statusCode == 200 && outcome.body == Decoded(r)
    ensures outcome.Responded? && outcome.statusCode == 200 && outcome.body.Decoded? ==> r == outcome.body.value
  {
    match outcome
    case Responded(code, body) =>
      if code == 200 && body.Decoded? then body.value else Null
    case TransportFailed => Null
  }

  // ---------------------------------------------------------------------------
  // The parser (parse_stock_levels)
  // ---------------------------------------------------------------------------

  /** `stock_mapping.get(code, "Unknown Status")` for a hashable code. */
  function StatusLabel(code: Json): (status: string)
    requires Hashable(code)
    ensures status == "Out of Stock" <==> code == Str("R")
    ensures status == "In Stock" <==> code == Str("G")
    ensures status == "Limited Stock" <==> code == Str("A")
    ensures status == UnknownStatus <==> code !in {Str("R"), Str("G"), Str("A")}
  {
    if code.Str? && code.s in StockMapping then StockMapping[code.s] else UnknownStatus
  }

  /** `store_id_map.get(store_id, f"Store ID {store_id}")` for a hashable id.
      The directory's keys are strings, so only a string id can hit it. */
  function StoreName(storeId: Json, directory: map<string, string>): (name: string)
    requires Hashable(storeId)
    ensures storeId.Str? && storeId.s in directory ==> name == directory[storeId.s]
    ensures !(storeId.Str? && storeId.s in directory) ==> name == FallbackPrefix + Render(storeId)
  {
    if storeId.Str? && storeId.s in directory then directory[storeId.s]
    else FallbackPrefix + Render(storeId)
  }

  /** An entry the parser turns into a record without raising: a dict whose
      "storeId" and "stockLevel" values (if present) are scalars. */
  predicate WellFormedEntry(entry: Json)
  {
    && entry.Dict?
    && Hashable(Get(entry.fields, "storeId", Null))
    && Hashable(Get(entry.fields, "stockLevel", Str("")))
  }

  /** The body of the loop for one entry: the status looked up in the code
      table, the name looked up in the directory. */
  function ParseEntry(entry: Json, directory: map<string, string>): (r: Result<StockResult>)
    ensures r.Ok? <==> WellFormedEntry(entry)
    ensures r.Err? ==> r.error == (if entry.Dict? then Unhashable else NoGetAttribute)
  {
    if !entry.Dict? then Err(NoGetAttribute)
    else
      var storeId := Get(entry.fields, "storeId", Null);
      var code := Get(entry.fields, "stockLevel", Str(""));
      if !Hashable(code) || !Hashable(storeId) then Err(Unhashable)
      else Ok(StockResult(StoreName(storeId, directory), StatusLabel(code)))
  }

  /** The sequence `response_data.get("stockLevels", [])` iterates over.
      A str or a dict iterates over strings, so a non-empty one already fails
      at the first `.get`; None, a bool or an int cannot be iterated. */
  function StockLevelEntries(response: map<string, Json>): (r: Result<seq<Json>>)
    ensures "stockLevels" !in response ==> r == Ok([])
    ensures r.Ok? <==> "stockLevels" in response ==> match response["stockLevels"]
      case List(_) => true
      case Str(s) => s == ""
      case Dict(m) => m == map[]
      case _ => false
    ensures "stockLevels" in response && response["stockLevels"].List? ==>
      r == Ok(response["stockLevels"].items)
    ensures r.Ok? && !("stockLevels" in response && response["stockLevels"].List?) ==> r.value == []
    ensures r.Err? ==>
      r.error == if response["stockLevels"].Str? || response["stockLevels"].Dict? then NoGetAttribute else NotIterable
  {
    match Get(response, "stockLevels", List([]))
    case List(items) => Ok(items)
    case Str(s) => if s == "" then Ok([]) else Err(NoGetAttribute)
    case Dict(m) => if m == map[] then Ok([]) else Err(NoGetAttribute)
    case _ => Err(NotIterable)
  }

  /** The accumulation the loop performs over the outcomes of its entries,
      in order: the records of all but the last, then the last one's. The
      first exception stops it. */
  function Collect(outcomes: seq<Result<StockResult>>): (r: Result<seq<StockResult>>)
    ensures r.Ok? ==> |r.value| == |outcomes|
    decreases |outcomes|
  {
    if outcomes == [] then Ok([])
    else
      match Collect(outcomes[..|outcomes| - 1])
      case Err(e) => Err(e)
      case Ok(done) =>
        match outcomes[|outcomes| - 1]
        case Err(e) => Err(e)
        case Ok(record) => Ok(done + [record])
  }

  /** What the loop body yields for each entry, in order. */
  function Outcomes(entries: seq<Json>, directory: map<string, string>): (outcomes: seq<Result<StockResult>>)
    ensures |outcomes| == |entries|
    ensures forall i | 0 <= i < |entries| :: outcomes[i] == ParseEntry(entries[i], directory)
  {
    seq(|entries|, i requires 0 <= i < |entries| => ParseEntry(entries[i], directory))
  }

  /** The records for `entries`, as the loop builds them. */
  function ParseEntries(entries: seq<Json>, directory: map<string, string>): (r: Result<seq<StockResult>>)
    ensures r.Ok? ==> |r.value| == |entries|
  {
    Collect(Outcomes(entries, directory))
  }

  /** parse_stock_levels as a function of the response and the directory. */
  function Parse(response: map<string, Json>, directory: map<string, string>): (r: Result<seq<StockResult>>)
    ensures "stockLevels" !in response ==> r == Ok([])
    ensures r.Ok? <==>
      && StockLevelEntries(response).Ok?
      && forall i | 0 <= i < |StockLevelEntries(response).value| ::
           WellFormedEntry(StockLevelEntries(response).value[i])
    ensures r.Ok? ==> |r.value| == |StockLevelEntries(response).value|
  {
    match StockLevelEntries(response)
    case Err(e) => Err(e)
    case Ok(entries) =>
      ParseEntriesSucceeds(entries, directory);
      ParseEntries(entries, directory)
  }

  /** parse_stock_levels: one pass over the entries, appending one record per
      entry to a fresh list. */
  method ParseStockLevels(response: map<string, Json>, directory: map<string, string>)
    returns (r: Result<seq<StockResult>>)
    ensures r == Parse(response, directory)
  {
    var levels := StockLevelEntries(response);
    if levels.Err? {
      return Err(levels.error);
    }
    var entries := levels.value;
    var results: seq<StockResult> := [];
    for i := 0 to |entries|
      invariant ParseEntries(entries[..i], directory) == Ok(results)
    {
      var stockInfo := entries[i];
      ExtendPrefix(entries, i, directory);
      if !stockInfo.Dict? {
        PrefixFailurePropagates(entries, i + 1, directory);
        return Err(NoGetAttribute);
      }
      var storeId := Get(stockInfo.fields, "storeId", Null);
      var code := Get(stockInfo.fields, "stockLevel", Str(""));
      if !Hashable(code) || !Hashable(storeId) {
        PrefixFailurePropagates(entries, i + 1, directory);
        return Err(Unhashable);
      }
      var stockLevel := StatusLabel(code);
      var storeName := StoreName(storeId, directory);
      results := results + [StockResult(storeName, stockLevel)];
    }
    assert entries[..|entries|] == entries;
    return Ok(results);
  }

  // Properties of the accumulation, independent of what an entry is.

  /** Collecting one more outcome appends its record, or stops with its
      exception. */
  lemma CollectSnoc(outcomes: seq<Result<StockResult>>, last: Result<StockResult>)
    requires Collect(outcomes).Ok?
    ensures Collect(outcomes + [last]) ==
      match last
      case Err(e) => Err(e)
      case Ok(record) => Ok(Collect(outcomes).value + [record])
  {
    assert (outcomes + [last])[..|outcomes|] == outcomes;
  }

  /** Once a prefix fails, the whole sequence fails the same way. */
  lemma {:induction false} CollectPrefixFailure(outcomes: seq<Result<StockResult>>, k: nat)
    requires k <= |outcomes|
    requires Collect(outcomes[..k]).Err?
    ensures Collect(outcomes) == Collect(outcomes[..k])
    decreases |outcomes|
  {
    if k < |outcomes| {
      var init := outcomes[..|outcomes| - 1];
      assert init[..k] == outcomes[..k];
      CollectPrefixFailure(init, k);
    } else {
      assert outcomes[..k] == outcomes;
    }
  }

  /** Collecting succeeds exactly when every outcome is a record. */
  lemma {:induction false} CollectSucceeds(outcomes: seq<Result<StockResult>>)
    ensures Collect(outcomes).Ok? <==> forall i | 0 <= i < |outcomes| :: outcomes[i].Ok?
    decreases |outcomes|
  {
    if outcomes != [] {
      var n := |outcomes| - 1;
      var init := outcomes[..n];
      CollectSucceeds(init);
      assert forall i | 0 <= i < n :: init[i] == outcomes[i];
    }
  }

  /** A successful collection holds outcome i's record at position i. */
  lemma {:induction false} CollectPointwise(outcomes: seq<Result<StockResult>>)
    requires Collect(outcomes).Ok?
    ensures forall i | 0 <= i < |outcomes| ::
      outcomes[i].Ok? && Collect(outcomes).value[i] == outcomes[i].value
    decreases |outcomes|
  {
    if outcomes != [] {
      var n := |outcomes| - 1;
      var init := outcomes[..n];
      CollectPointwise(init);
      assert forall i | 0 <= i < n :: init[i] == outcomes[i];
    }
  }

  /** A failed collection reports the first exception. */
  lemma {:induction false} CollectFirstFailure(outcomes: seq<Result<StockResult>>)
    requires Collect(outcomes).Err?
    ensures exists k | 0 <= k < |outcomes| ::
      && outcomes[k] == Err(Collect(outcomes).error)
      && forall j | 0 <= j < k :: outcomes[j].Ok?
    decreases |outcomes|
  {
    var n := |outcomes| - 1;
    var init := outcomes[..n];
    assert forall i | 0 <= i < n :: init[i] == outcomes[i];
    if Collect(init).Err? {
      CollectFirstFailure(init);
      var k :| && 0 <= k < n
               && init[k] == Err(Collect(init).error)
               && forall j | 0 <= j < k :: init[j].Ok?;
      assert outcomes[k] == Err(Collect(outcomes).error);
    } else {
      CollectSucceeds(init);
      assert outcomes[n] == Err(Collect(outcomes).error);
    }
  }

  /** Two successful collections back to back give the concatenated records. */
  lemma CollectConcat(xs: seq<Result<StockResult>>, ys: seq<Result<StockResult>>)
    requires Collect(xs).Ok? && Collect(ys).Ok?
    ensures Collect(xs + ys) == Ok(Collect(xs).value + Collect(ys).value)
  {
    CollectPointwise(xs);
    CollectPointwise(ys);
    var zs := xs + ys;
    var expected := Collect(xs).value + Collect(ys).value;
    forall i | 0 <= i < |zs| ensures zs[i].Ok? && zs[i].value == expected[i] {
      if i < |xs| {
        assert zs[i] == xs[i];
      } else {
        assert zs[i] == ys[i - |xs|];
      }
    }
    CollectSucceeds(zs);
    CollectPointwise(zs);
    assert Collect(zs).value == expected;
  }

  // The same properties of the loop over entries.

  lemma OutcomesPrefix(entries: seq<Json>, k: nat, directory: map<string, string>)
    requires k <= |entries|
    ensures Outcomes(entries[..k], directory) == Outcomes(entries, directory)[..k]
  {
  }

  /** One more turn of the loop: the records for the first i + 1 entries are
      those for the first i followed by entry i's, unless entry i fails. */
  lemma ExtendPrefix(entries: seq<Json>, i: nat, directory: map<string, string>)
    requires i < |entries|
    requires ParseEntries(entries[..i], directory).Ok?
    ensures ParseEntries(entries[..i + 1], directory) ==
      match ParseEntry(entries[i], directory)
      case Err(e) => Err(e)
      case Ok(record) => Ok(ParseEntries(entries[..i], directory).value + [record])
  {
    var os := Outcomes(entries, directory);
    OutcomesPrefix(entries, i, directory);
    OutcomesPrefix(entries, i + 1, directory);
    assert os[..i + 1] == os[..i] + [ParseEntry(entries[i], directory)];
    CollectSnoc(os[..i], ParseEntry(entries[i], directory));
  }

  /** Once a prefix of the entries fails, the whole list fails the same way:
      nothing after the failing entry is looked at. */
  lemma PrefixFailurePropagates(entries: seq<Json>, k: nat, directory: map<string, string>)
    requires k <= |entries|
    requires ParseEntries(entries[..k], directory).Err?
    ensures ParseEntries(entries, directory) == ParseEntries(entries[..k], directory)
  {
    OutcomesPrefix(entries, k, directory);
    CollectPrefixFailure(Outcomes(entries, directory), k);
  }

  /** The loop succeeds exactly when every entry is well formed. */
  lemma ParseEntriesSucceeds(entries: seq<Json>, directory: map<string, string>)
    ensures ParseEntries(entries, directory).Ok? <==>
      forall i | 0 <= i < |entries| :: WellFormedEntry(entries[i])
  {
    var os := Outcomes(entries, directory);
    CollectSucceeds(os);
    forall i | 0 <= i < |entries| ensures os[i].Ok? == WellFormedEntry(entries[i]) {
      assert os[i] == ParseEntry(entries[i], directory);
    }
  }

  /** A successful loop has one record per entry, record i coming from
      entry i. */
  lemma ParseEntriesPointwise(entries: seq<Json>, directory: map<string, string>)
    requires ParseEntries(entries, directory).Ok?
    ensures |ParseEntries(entries, directory).value| == |entries|
    ensures forall i | 0 <= i < |entries| ::
      && ParseEntry(entries[i], directory).Ok?
      && ParseEntries(entries, directory).value[i] == ParseEntry(entries[i], directory).value
  {
    var os := Outcomes(entries, directory);
    CollectPointwise(os);
    forall i | 0 <= i < |entries|
      ensures ParseEntry(entries[i], directory).Ok?
      ensures ParseEntries(entries, directory).value[i] == ParseEntry(entries[i], directory).value
    {
      assert os[i] == ParseEntry(entries[i], directory);
    }
  }

  /** When the loop fails, it reports the exception of the first entry that
      is not well formed. */
  lemma FirstFailureReported(entries: seq<Json>, directory: map<string, string>)
    requires ParseEntries(entries, directory).Err?
    ensures exists k | 0 <= k < |entries| ::
      && ParseEntry(entries[k], directory) == Err(ParseEntries(entries, directory).error)
      && forall j | 0 <= j < k :: WellFormedEntry(entries[j])
  {
    var os := Outcomes(entries, directory);
    CollectFirstFailure(os);
    var k :| && 0 <= k < |os|
             && os[k] == Err(Collect(os).error)
             && forall j | 0 <= j < k :: os[j].Ok?;
    forall j | 0 <= j < k ensures WellFormedEntry(entries[j]) {
      assert os[j] == ParseEntry(entries[j], directory);
    }
    assert ParseEntry(entries[k], directory) == Err(ParseEntries(entries, directory).error);
  }

  /** Parsing two lists one after the other gives the concatenated records:
      no entry is dropped, merged or moved. */
  lemma ParseEntriesConcat(xs: seq<Json>, ys: seq<Json>, directory: map<string, string>)
    requires ParseEntries(xs, directory).Ok? && ParseEntries(ys, directory).Ok?
    ensures ParseEntries(xs + ys, directory) ==
      Ok(ParseEntries(xs, directory).value + ParseEntries(ys, directory).value)
  {
    var zs, os := xs + ys, Outcomes(xs, directory) + Outcomes(ys, directory);
    forall i | 0 <= i < |zs| ensures Outcomes(zs, directory)[i] == os[i] {
      if i < |xs| {
        assert zs[i] == xs[i];
      } else {
        assert zs[i] == ys[i - |xs|];
      }
    }
    assert Outcomes(zs, directory) == os;
    CollectConcat(Outcomes(xs, directory), Outcomes(ys, directory));
  }

  /** Each record holds the status label of its entry's "stockLevel" (``""``
      when absent) and the directory name of its "storeId" (None when absent)
      or the synthesized fallback, in input order. */
  lemma RecordsFollowEntries(response: map<string, Json>, directory: map<string, string>, entries: seq<Json>)
    requires StockLevelEntries(response) == Ok(entries)
    requires Parse(response, directory).Ok?
    ensures |Parse(response, directory).value| == |entries|
    ensures forall i | 0 <= i < |entries| ::
      && entries[i].Dict?
      && var storeId := Get(entries[i].fields, "storeId", Null);
      && var code := Get(entries[i].fields, "stockLevel", Str(""));
      && Hashable(storeId) && Hashable(code)
      && Parse(response, directory).value[i] ==
           StockResult(StoreName(storeId, directory), StatusLabel(code))
  {
    ParseEntriesPointwise(entries, directory);
  }

  /** Every record's name is a directory value or a fallback label, and
      every status is one of the four labels: no entry is dropped for lack of
      a directory entry or a known code. */
  lemma RecordsAreResolvedOrFallback(response: map<string, Json>, directory: map<string, string>)
    requires Parse(response, directory).Ok?
    ensures forall record | record in Parse(response, directory).value ::
      && (record.storeName in directory.Values || FallbackPrefix <= record.storeName)
      && record.stockStatus in StockMapping.Values + {UnknownStatus}
  {
    var entries := StockLevelEntries(response).value;
    var records := Parse(response, directory).value;
    ParseEntriesPointwise(entries, directory);
    forall record | record in records
      ensures record.storeName in directory.Values || FallbackPrefix <= record.storeName
      ensures record.stockStatus in StockMapping.Values + {UnknownStatus}
    {
      var i :| 0 <= i < |records| && records[i] == record;
      var storeId := Get(entries[i].fields, "storeId", Null);
      if storeId.Str? && storeId.s in directory {
        assert record.storeName == directory[storeId.s];
      }
    }
  }

  /** A response with no "stockLevels" key, or with an empty list under it,
      gives no records and no exception. */
  lemma NoEntriesNoRecords(response: map<string, Json>, directory: map<string, string>)
    requires "stockLevels" !in response || response["stockLevels"] == List([])
    ensures Parse(response, directory) == Ok([])
  {
  }

  /** A response of the documented shape, a list of dicts whose "storeId" and
      "stockLevel" are scalars or absent, never raises. */
  lemma WellFormedResponseParses(response: map<string, Json>, directory: map<string, string>)
    requires "stockLevels" in response && response["stockLevels"].List?
    ensures Parse(response, directory).Ok? <==>
      forall i | 0 <= i < |response["stockLevels"].items| ::
        WellFormedEntry(response["stockLevels"].items[i])
  {
    ParseEntriesSucceeds(response["stockLevels"].items, directory);
  }

  /** An integer store id never matches the directory's string keys: it always
      falls back, and two different integer ids fall back to different names. */
  lemma IntegerIdsFallBack(i: int, j: int, directory: map<string, string>)
    ensures StoreName(Int(i), directory) == FallbackPrefix + IntToDecimal(i)
    ensures i != j ==> StoreName(Int(i), directory) != StoreName(Int(j), directory)
  {
    if StoreName(Int(i), directory) == StoreName(Int(j), directory) {
      var a, b := FallbackPrefix + IntToDecimal(i), FallbackPrefix + IntToDecimal(j);
      assert a[|FallbackPrefix|..] == IntToDecimal(i);
      assert b[|FallbackPrefix|..] == IntToDecimal(j);
      IntToDecimalInjective(i, j);
    }
  }

  /** A missing store id is rendered as `None`. */
  lemma MissingIdFallsBack(entry: map<string, Json>, directory: map<string, string>)
    requires "storeId" !in entry
    requires Hashable(Get(entry, "stockLevel", Str("")))
    ensures ParseEntry(Dict(entry), directory).Ok?
    ensures ParseEntry(Dict(entry), directory).value.storeName == "Store ID None"
  {
  }

  /** Two entries, one known store and one unknown, keep their order. */
  lemma TwoStoresExample()
    ensures Parse(
      map["stockLevels" := List([
        Dict(map["storeId" := Str("723"), "stockLevel" := Str("G")]),
        Dict(map["storeId" := Str("999"), "stockLevel" := Str("R")])])],
      map["723" := "Boots Oxford Street"])
      == Ok([StockResult("Boots Oxford Street", "In Stock"), StockResult("Store ID 999", "Out of Stock")])
  {
    var e0 := Dict(map["storeId" := Str("723"), "stockLevel" := Str("G")]);
    var e1 := Dict(map["storeId" := Str("999"), "stockLevel" := Str("R")]);
    var entries := [e0, e1];
    var directory := map["723" := "Boots Oxford Street"];
    var r0 := StockResult("Boots Oxford Street", "In Stock");
    var r1 := StockResult("Store ID 999", "Out of Stock");
    // The known store resolves through the directory.
    assert ParseEntry(e0, directory) == Ok(r0);
    // The unknown one falls back to its own id.
    assert "999" !in directory by {
      assert "999"[0] != "723"[0];
    }
    assert FallbackPrefix + "999" == "Store ID 999";
    assert ParseEntry(e1, directory) == Ok(r1);
    // The loop: first e0, then e1.
    var os := [Ok(r0), Ok(r1)];
    assert Outcomes(entries, directory) == os;
    assert os[..1] == [Ok(r0)] && [Ok(r0)][..0] == [];
    assert Collect([Ok(r0)]) == Ok([] + [r0]);
    assert [] + [r0] == [r0];
    assert Collect(os) == Ok([r0] + [r1]);
    assert [r0] + [r1] == [r0, r1];
    assert StockLevelEntries(map["stockLevels" := List(entries)]) == Ok(entries);
  }

  // ---------------------------------------------------------------------------
  // The script
  // ---------------------------------------------------------------------------

  /** One printed line per record. */
  function StatusLine(record: StockResult): (line: string)
    ensures |line| == |"Store: "| + |record.storeName| + |", Stock Status: "| + |record.stockStatus|
    ensures line[..7] == "Store: "
    ensures line[7..7 + |record.storeName|] == record.storeName
    ensures line[7 + |record.storeName|..|line| - |record.stockStatus|] == ", Stock Status: "
    ensures line[|line| - |record.stockStatus|..] == record.stockStatus
  {
    "Store: " + record.storeName + ", Stock Status: " + record.stockStatus
  }

  /** What the script prints for the fetched value, or the exception it dies
      with: the no-data message when the value is falsy; otherwise the header
      and one line per record. */
  function Output(fetched: Json, directory: map<string, string>): (out: Result<seq<string>>)
    ensures !Truthy(fetched) ==> out == Ok([NoDataMessage])
    ensures Truthy(fetched) && !fetched.Dict? ==> out == Err(NoGetAttribute)
    ensures Truthy(fetched) && fetched.Dict? ==>
      (out.Ok? <==> Parse(fetched.fields, directory).Ok?)
    ensures Truthy(fetched) && fetched.Dict? && Parse(fetched.fields, directory).Err? ==>
      out == Err(Parse(fetched.fields, directory).error)
    ensures out.Ok? && Truthy(fetched) ==>
      && |out.value| == |Parse(fetched.fields, directory).value| + 1
      && out.value[0] == Header
      && forall i | 0 <= i < |Parse(fetched.fields, directory).value| ::
           out.value[i + 1] == StatusLine(Parse(fetched.fields, directory).value[i])
  {
    if !Truthy(fetched) then Ok([NoDataMessage])
    else if !fetched.Dict? then Err(NoGetAttribute)
    else
      match Parse(fetched.fields, directory)
      case Err(e) => Err(e)
      case Ok(records) => Ok([Header] + seq(|records|, i requires 0 <= i < |records| => StatusLine(records[i])))
  }

  /** The print loop: the header, then one line per record in order. */
  method PrintedLines(records: seq<StockResult>) returns (lines: seq<string>)
    ensures |lines| == |records| + 1 && lines[0] == Header
    ensures forall i | 0 <= i < |records| :: lines[i + 1] == StatusLine(records[i])
  {
    lines := [Header];
    for i := 0 to |records|
      invariant |lines| == i + 1 && lines[0] == Header
      invariant forall k | 0 <= k < i :: lines[k + 1] == StatusLine(records[k])
    {
      lines := lines + [StatusLine(records[i])];
    }
  }

  /** The module-level script after the request: parse and print if the
      response is truthy, print the no-data message otherwise. */
  method Report(fetched: Json, directory: map<string, string>) returns (out: Result<seq<string>>)
    ensures out == Output(fetched, directory)
  {
    if !Truthy(fetched) {
      return Ok([NoDataMessage]);
    }
    if !fetched.Dict? {
      return Err(NoGetAttribute);
    }
    var parsed := ParseStockLevels(fetched.fields, directory);
    if parsed.Err? {
      return Err(parsed.error);
    }
    var records := parsed.value;
    var lines := PrintedLines(records);
    assert lines == [Header] + seq(|records|, i requires 0 <= i < |records| => StatusLine(records[i]));
    out := Ok(lines);
  }

  /** A failed request (any status but 200, an undecodable body or a
      transport failure) makes the parse-and-print step print only the no-data
      message, without parsing. */
  lemma FailedRequestPrintsNoData(outcome: HttpOutcome, directory: map<string, string>)
    requires !(outcome.Responded? && outcome.statusCode == 200 && outcome.body.Decoded?)
    ensures Output(CheckStock(outcome), directory) == Ok([NoDataMessage])
  {
  }
}
