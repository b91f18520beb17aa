/** The answer of a bulk request and what the client makes of it (HttpClient.java: bulk). */
module Bulk {
  import opened Wrappers
  import opened JavaText
  import opened Responses

  /** The error of one bulk item; `reason` is None when the server gave none. */
  datatype ItemError = ItemError(reason: Option<string>)

  /** The index result of one bulk item; `error` is None when the item was indexed. */
  datatype IndexResult = IndexResult(indexName: Option<string>, error: Option<ItemError>)

  /** One bulk item; `index` is None when the item carries no index result (a null
      reference once parsed, for instance for a delete action). */
  datatype BulkItem = BulkItem(index: Option<IndexResult>)

  /** The parsed bulk answer; `items` is None when the answer had no item list. */
  datatype BulkResponse = BulkResponse(errors: bool, items: Option<seq<BulkItem>>)

  /** One logged indexing error: the index name and the reason, both printed as text. */
  datatype ReportedError = ReportedError(index: string, reason: string)

  predicate HasIndex(item: BulkItem) { item.index.Some? }

  predicate HasError(item: BulkItem) { item.index.Some? && item.index.value.error.Some? }

  function Report(item: BulkItem): ReportedError
    requires HasError(item)
  {
    ReportedError(Text(item.index.value.indexName), Text(item.index.value.error.value.reason))
  }

  /** What one item with an index result adds to the log. */
  function Logged(item: BulkItem): (r: seq<ReportedError>)
    ensures |r| <= 1
  {
    if HasError(item) then [Report(item)] else []
  }

  predicate AllIndexed(items: seq<BulkItem>)
  {
    forall i :: 0 <= i < |items| ==> HasIndex(items[i])
  }

  /** The errors the client logs, in item order. The stream is consumed item by item, so
      the log stops at the first item without an index result, on which the filter
      dereferences null. */
  function Reported(items: seq<BulkItem>): (r: seq<ReportedError>)
    ensures |r| <= |items|
  {
    if items == [] || !HasIndex(items[0]) then []
    else Logged(items[0]) + Reported(items[1..])
  }

  /** What bulk returns for an answer: 200 is required; the parsed response is then returned
      as it is, also when it reports errors, unless logging them dereferences null. */
  function BulkResult(answer: Option<Reply>, parsed: Option<BulkResponse>): (r: Result<BulkResponse, Error>)
    ensures r.Success? ==> answer.Some? && answer.value.status == Ok && parsed == Some(r.value)
    ensures answer.Some? && answer.value.status != Ok ==> r == Failure(Elasticsearch(BulkFailure))
    ensures answer.Some? && answer.value.status == Ok && parsed.Some? ==>
      (r.Success? <==> !parsed.value.errors || (parsed.value.items.Some? && AllIndexed(parsed.value.items.value)))
  {
    match ExpectOk(answer, parsed, BulkFailure)
    case Failure(e) => Failure(e)
    case Success(response) =>
      if !response.errors then Success(response)
      else if response.items.None? then Failure(NullPointer)
      else if !AllIndexed(response.items.value) then Failure(NullPointer)
      else Success(response)
  }

  /** The errors bulk logs for an answer: none unless 200 came back and the parsed response
      says there were errors. */
  function BulkReported(answer: Option<Reply>, parsed: Option<BulkResponse>): (r: seq<ReportedError>)
    ensures r != [] ==> answer.Some? && answer.value.status == Ok && parsed.Some? && parsed.value.errors
    ensures r != [] ==> parsed.value.items.Some? && |r| <= |parsed.value.items.value|
  {
    if answer.None? || answer.value.status != Ok || parsed.None? || !parsed.value.errors
      || parsed.value.items.None?
    then []
    else Reported(parsed.value.items.value)
  }

  /** Logged errors, in order: over items that all have an index result, the log of a
      concatenation is the concatenation of the logs. */
  lemma {:induction false} ReportedAppend(a: seq<BulkItem>, b: seq<BulkItem>)
    requires AllIndexed(a)
    ensures Reported(a + b) == Reported(a) + Reported(b)
  {
    if a != [] {
      var ab := a + b;
      assert ab[0] == a[0] && HasIndex(ab[0]);
      assert ab[1..] == a[1..] + b;
      ReportedAppend(a[1..], b);
      calc {
        Reported(ab);
        Logged(a[0]) + Reported(a[1..] + b);
        Logged(a[0]) + (Reported(a[1..]) + Reported(b));
        (Logged(a[0]) + Reported(a[1..])) + Reported(b);
        Reported(a) + Reported(b);
      }
    } else {
      assert a + b == b;
    }
  }

  /** Nothing after an item without an index result is logged. */
  lemma ReportedStopsAtNull(a: seq<BulkItem>, item: BulkItem, b: seq<BulkItem>)
    requires AllIndexed(a) && !HasIndex(item)
    ensures Reported(a + [item] + b) == Reported(a)
  {
    ReportedAppend(a, [item] + b);
    assert a + [item] + b == a + ([item] + b);
  }

  /** Over items that all have an index result, exactly the erroneous ones are logged. */
  lemma {:induction false} ReportedExactlyErrors(items: seq<BulkItem>)
    requires AllIndexed(items)
    ensures forall e :: e in Reported(items) <==>
      exists i :: 0 <= i < |items| && HasError(items[i]) && e == Report(items[i])
  {
    if items != [] {
      ReportedExactlyErrors(items[1..]);
      var head := Logged(items[0]);
      assert Reported(items) == head + Reported(items[1..]);
      forall e | e in Reported(items)
        ensures exists i :: 0 <= i < |items| && HasError(items[i]) && e == Report(items[i])
      {
        if e in head {
          assert HasError(items[0]) && e == Report(items[0]);
        } else {
          var j :| 0 <= j < |items[1..]| && HasError(items[1..][j]) && e == Report(items[1..][j]);
          assert items[1..][j] == items[j + 1];
        }
      }
      forall e | exists i :: 0 <= i < |items| && HasError(items[i]) && e == Report(items[i])
        ensures e in Reported(items)
      {
        var i :| 0 <= i < |items| && HasError(items[i]) && e == Report(items[i]);
        if i > 0 {
          assert items[1..][i - 1] == items[i];
        }
      }
    }
  }

  /** An answer that reports errors is still a success for the caller when every item has an
      index result: bulk does not fail on indexing errors, it only logs them. */
  lemma ErrorsDoNotFailTheCall(body: Option<string>, response: BulkResponse)
    requires response.errors && response.items.Some? && AllIndexed(response.items.value)
    ensures BulkResult(Some(Reply(Ok, body)), Some(response)) == Success(response)
    ensures BulkReported(Some(Reply(Ok, body)), Some(response)) == Reported(response.items.value)
  {
  }
}
