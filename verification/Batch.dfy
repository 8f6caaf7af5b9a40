/** Submitting a batch of judgements, waiting for it to end, and collecting one result per item. */
module Batch {
  import opened Common
  import opened World

  datatype ResultKind =
    | Succeeded(blocks: seq<Option<string>>)  // a block without text contributes nothing
    | Errored(description: string)
    | Expired
    | Canceled
    | Unrecognized(name: string)

  datatype Response = Response(customId: string, kind: ResultKind)
  datatype ItemResult = ItemResult(customId: string, text: Option<string>, error: Option<string>)

  function ExtractText(blocks: seq<Option<string>>): string {
    if blocks == [] then ""
    else (match blocks[0] case Some(t) => t case None => "") + ExtractText(blocks[1..])
  }

  /** `_result_for_response`: whatever the outcome, exactly one of text and error is set. */
  function ResultFor(resp: Response): (r: ItemResult)
    ensures r.customId == resp.customId && r.text.Some? != r.error.Some?
    ensures r.text.Some? <==> resp.kind.Succeeded?
  {
    match resp.kind
    case Succeeded(blocks) => ItemResult(resp.customId, Some(ExtractText(blocks)), None)
    case Errored(description) => ItemResult(resp.customId, None, Some(description))
    case Expired => ItemResult(resp.customId, None, Some("batch item expired"))
    case Canceled => ItemResult(resp.customId, None, Some("batch item canceled"))
    case Unrecognized(name) => ItemResult(resp.customId, None, Some("unrecognized batch result type: " + name))
  }

  function MissingResult(id: string): ItemResult {
    ItemResult(id, None, Some("missing from batch results"))
  }

  /** The last response in the stream that carries `id`. */
  function LastFor(stream: seq<Response>, id: string): (r: Option<Response>)
    ensures r.Some? ==> r.value in stream && r.value.customId == id
    ensures r.None? ==> forall i :: 0 <= i < |stream| ==> stream[i].customId != id
  {
    if stream == [] then None
    else if stream[|stream| - 1].customId == id then Some(stream[|stream| - 1])
    else LastFor(stream[..|stream| - 1], id)
  }

  function Answer(stream: seq<Response>, id: string): ItemResult {
    match LastFor(stream, id)
    case Some(resp) => ResultFor(resp)
    case None => MissingResult(id)
  }

  function Ids(stream: seq<Response>): set<string> {
    set i | 0 <= i < |stream| :: stream[i].customId
  }

  /** `collect_results` */
  method CollectResults(stream: seq<Response>, expected: seq<string>) returns (results: map<string, ItemResult>)
    ensures results.Keys == Ids(stream) + (set i | 0 <= i < |expected| :: expected[i])
    ensures forall id :: id in results ==> results[id] == Answer(stream, id)
    ensures forall i :: 0 <= i < |expected| ==>
              expected[i] in results && results[expected[i]].text.Some? != results[expected[i]].error.Some?
  {
    results := map[];
    for i := 0 to |stream|
      invariant results.Keys == Ids(stream[..i])
      invariant forall id :: id in results ==> results[id] == Answer(stream[..i], id)
    {
      var r := ResultFor(stream[i]);
      assert stream[..i + 1] == stream[..i] + [stream[i]];
      IdsSnoc(stream[..i], stream[i]);
      results := results[r.customId := r];
      assert stream[..i + 1][..i] == stream[..i];
    }
    assert stream[..|stream|] == stream;
    for i := 0 to |expected|
      invariant results.Keys == Ids(stream) + (set k | 0 <= k < i :: expected[k])
      invariant forall id :: id in results ==> results[id] == Answer(stream, id)
    {
      if expected[i] !in results {
        assert expected[i] !in Ids(stream);
        results := results[expected[i] := MissingResult(expected[i])];
      }
    }
  }

  lemma IdsSnoc(stream: seq<Response>, resp: Response)
    ensures Ids(stream + [resp]) == Ids(stream) + {resp.customId}
  {
    var longer := stream + [resp];
    assert longer[|stream|] == resp;
    forall i | 0 <= i < |stream| ensures longer[i] == stream[i] {}
    forall id | id in Ids(stream) ensures id in Ids(longer) {
      var i :| 0 <= i < |stream| && stream[i].customId == id;
      assert longer[i].customId == id;
    }
  }

  ghost predicate UniqueIds(stream: seq<Response>) {
    forall i, j :: 0 <= i < j < |stream| ==> stream[i].customId != stream[j].customId
  }

  /** The text of a succeeded item is that of its blocks one after the other, those without text left out. */
  lemma TextOfBlocks(front: seq<Option<string>>, block: Option<string>, rest: seq<Option<string>>)
    ensures ExtractText(front + [block] + rest) ==
            ExtractText(front) + (if block.Some? then block.value else "") + ExtractText(rest)
    ensures ExtractText([]) == ""
  {
    TextOfBoth(front, [block] + rest);
    assert front + [block] + rest == front + ([block] + rest) && ([block] + rest)[1..] == rest;
  }

  lemma {:induction false} TextOfBoth(a: seq<Option<string>>, b: seq<Option<string>>)
    ensures ExtractText(a + b) == ExtractText(a) + ExtractText(b)
  {
    if a == [] {
      assert a + b == b;
    } else {
      var first := if a[0].Some? then a[0].value else "";
      TextOfBoth(a[1..], b);
      assert (a + b)[1..] == a[1..] + b;
      Regroup(first, ExtractText(a[1..]), ExtractText(b));
    }
  }

  lemma Regroup(x: string, y: string, z: string)
    ensures x + y + z == x + (y + z)
  {
  }

  /** What an id gets, from the last response that carries it: the text of a success, and for every other
      outcome an error that says which. */
  lemma AnswerExactly(stream: seq<Response>, i: nat, id: string)
    requires i < |stream| && stream[i].customId == id
    requires forall j :: i < j < |stream| ==> stream[j].customId != id
    ensures Answer(stream, id).customId == id
    ensures
      match stream[i].kind
      case Succeeded(blocks) => Answer(stream, id).text == Some(ExtractText(blocks)) && Answer(stream, id).error.None?
      case Errored(description) => Answer(stream, id).text.None? && Answer(stream, id).error == Some(description)
      case Expired => Answer(stream, id).text.None? && Answer(stream, id).error == Some("batch item expired")
      case Canceled => Answer(stream, id).text.None? && Answer(stream, id).error == Some("batch item canceled")
      case Unrecognized(name) =>
        && Answer(stream, id).text.None?
        && Answer(stream, id).error == Some("unrecognized batch result type: " + name)
  {
    assert stream == stream[..i] + [stream[i]] + stream[i + 1..];
    LastDuplicateWins(stream[..i], stream[i], stream[i + 1..]);
  }

  /** An id that no response carries is reported missing. */
  lemma MissingExactly(stream: seq<Response>, id: string)
    requires forall j :: 0 <= j < |stream| ==> stream[j].customId != id
    ensures Answer(stream, id).customId == id && Answer(stream, id).text.None?
    ensures Answer(stream, id).error == Some("missing from batch results")
  {
    LastForSkips([], stream, id);
    assert [] + stream == stream;
  }

  /** With unique ids the arrival order is irrelevant: any rearrangement answers alike. */
  lemma OrderFree(a: seq<Response>, b: seq<Response>, id: string)
    requires UniqueIds(a) && UniqueIds(b) && multiset(a) == multiset(b)
    ensures Answer(a, id) == Answer(b, id)
  {
    forall x ensures x in a <==> x in b {
      assert x in a <==> x in multiset(a);
      assert x in b <==> x in multiset(b);
    }
    var x, y := LastFor(a, id), LastFor(b, id);
    assert y.Some? ==> y.value in a;
    if x.Some? {
      assert x.value in b;
      var i :| 0 <= i < |b| && b[i] == x.value;
      var j :| 0 <= j < |b| && b[j] == y.value;
      assert i == j;
    }
  }

  /** Among duplicates the response that arrives last wins, whatever came before it. */
  lemma LastDuplicateWins(stream: seq<Response>, late: Response, rest: seq<Response>)
    requires forall i :: 0 <= i < |rest| ==> rest[i].customId != late.customId
    ensures Answer(stream + [late] + rest, late.customId) == ResultFor(late)
  {
    LastForSkips(stream + [late], rest, late.customId);
    assert (stream + [late])[|stream|] == late;
  }

  lemma {:induction false} LastForSkips(stream: seq<Response>, rest: seq<Response>, id: string)
    requires forall i :: 0 <= i < |rest| ==> rest[i].customId != id
    ensures LastFor(stream + rest, id) == LastFor(stream, id)
  {
    if rest == [] {
      assert stream + rest == stream;
    } else {
      LastForSkips(stream, rest[..|rest| - 1], id);
      assert (stream + rest)[..|stream + rest| - 1] == stream + rest[..|rest| - 1];
    }
  }

  // ---------------------------------------------------------------- waiting

  datatype BatchState = BatchState(ended: bool, responses: seq<Response>)

  datatype Wait = Ended | TimedOut

  /** The number of whole or begun intervals in a timeout. */
  function Intervals(timeout: nat, interval: nat): nat
    requires interval > 0
  {
    (timeout + interval - 1) / interval
  }

  lemma SleepsFit(n: nat, timeout: nat, interval: nat)
    requires interval > 0 && (n > 0 ==> n * interval - interval < timeout)
    ensures n <= Intervals(timeout, interval)
  {
    var q := Intervals(timeout, interval);
    var r := (timeout + interval - 1) % interval;
    assert timeout + interval - 1 == q * interval + r;
    if n > q {
      Scale(q, n - 1, interval);
      OneMore(n - 1, interval);
    }
  }

  lemma OneMore(n: nat, interval: nat)
    ensures (n + 1) * interval == n * interval + interval
  {
  }

  lemma {:induction false} Scale(a: nat, b: nat, c: nat)
    requires a <= b
    ensures a * c <= b * c
    decreases b
  {
    if a < b {
      Scale(a, b - 1, c);
      assert b * c == (b - 1) * c + c;
    }
  }

  /** The looks of one wait: in the window, an interval apart, and unfinished but for the last. */
  ghost predicate Waited(h: nat -> BatchState, looks: seq<nat>, interval: nat, from: nat, to: nat) {
    && looks != []
    && (forall k :: 0 <= k < |looks| ==> from <= looks[k] <= to)
    && (forall k :: 0 < k < |looks| ==> looks[k - 1] + interval <= looks[k])
    && (forall k :: 0 <= k < |looks| - 1 ==> !h(looks[k]).ended)
  }

  lemma LookAgain(h: nat -> BatchState, looks: seq<nat>, interval: nat, from: nat, at: nat)
    requires looks != [] && Waited(h, looks, interval, from, looks[|looks| - 1])
    requires !h(looks[|looks| - 1]).ended && at >= looks[|looks| - 1] + interval
    ensures Waited(h, looks + [at], interval, from, at)
  {
    var more := looks + [at];
    forall k | 0 <= k < |more| ensures from <= more[k] <= at {
      if k < |looks| {
        assert looks[k] <= looks[|looks| - 1];
      }
    }
  }

  /** `wait_for_batch`: the last look decides. It found the batch ended, or it did not and the
      deadline had passed when that was known; the script slept one interval between looks. */
  method WaitForBatch(w: World<BatchState>, interval: nat, timeout: nat) returns (r: Wait, ghost looks: seq<nat>)
    requires interval > 0
    modifies w
    ensures w.now >= old(w.now)
    ensures Waited(w.history, looks, interval, old(w.now), w.now)
    ensures |looks| <= 1 + Intervals(timeout, interval)
    ensures r.Ended? <==> w.history(looks[|looks| - 1]).ended
    ensures r.TimedOut? ==> w.now >= old(w.now) + timeout
    ensures w.slept == old(w.slept) + (|looks| - 1) * interval
  {
    ghost var start := w.now;
    w.Elapse();
    var deadline := w.now + timeout;
    var batch := w.Observe();
    looks := [w.now];
    ghost var at, asleep: nat := w.now, 0;
    while !batch.ended
      invariant looks != [] && at == looks[|looks| - 1] && at <= w.now && batch == w.history(at)
        && start + timeout <= deadline
      invariant Waited(w.history, looks, interval, start, at)
      invariant asleep == (|looks| - 1) * interval && w.slept == old(w.slept) + asleep
      invariant |looks| > 1 ==> asleep - interval < timeout
      invariant at >= deadline - timeout + asleep
      decreases deadline + interval - at
    {
      w.Elapse();
      if w.now >= deadline {
        SleepsFit(|looks| - 1, timeout, interval);
        return TimedOut, looks;
      }
      w.Sleep(interval);
      batch := w.Observe();
      LookAgain(w.history, looks, interval, start, w.now);
      OneMore(|looks| - 1, interval);
      at, looks, asleep := w.now, looks + [w.now], asleep + interval;
    }
    SleepsFit(|looks| - 1, timeout, interval);
    r := Ended;
  }

  datatype Judged = NoItems | BatchTimeout | Results(results: map<string, ItemResult>)

  /** `run_batch_judge`: submit, wait, collect. The wait's last look decides: a timeout means it found
      the batch unfinished with the deadline passed; otherwise every submitted id gets exactly one of a
      text and an error, taken from the results as they stand once the batch has ended. */
  method RunBatchJudge(w: World<BatchState>, ids: seq<string>, interval: nat, timeout: nat)
      returns (r: Judged, ghost looks: seq<nat>, ghost read: nat)
    requires interval > 0
    modifies w
    ensures r.NoItems? <==> ids == []
    ensures ids != [] ==> Waited(w.history, looks, interval, old(w.now), w.now)
    ensures r.BatchTimeout? ==> !w.history(looks[|looks| - 1]).ended && w.now >= old(w.now) + timeout
    ensures r.Results? ==>
              && w.history(looks[|looks| - 1]).ended && looks[|looks| - 1] <= read <= w.now
              && r.results.Keys == Ids(w.history(read).responses) + (set i | 0 <= i < |ids| :: ids[i])
              && forall id :: id in r.results ==> r.results[id] == Answer(w.history(read).responses, id)
    ensures r.Results? ==> forall i :: 0 <= i < |ids| ==>
              ids[i] in r.results && r.results[ids[i]].text.Some? != r.results[ids[i]].error.Some?
  {
    looks, read := [], w.now;
    if ids == [] {
      return NoItems, looks, read;
    }
    var wait;
    wait, looks := WaitForBatch(w, interval, timeout);
    if wait.TimedOut? {
      return BatchTimeout, looks, w.now;
    }
    ghost var waited := w.now;
    var batch := w.Observe();
    read := w.now;
    assert Waited(w.history, looks, interval, old(w.now), w.now) by {
      assert forall k :: 0 <= k < |looks| ==> looks[k] <= waited;
    }
    var results := CollectResults(batch.responses, ids);
    r := Results(results);
  }
}
