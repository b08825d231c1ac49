/** The expired-contract retention sweep: an HTTP handler that selects the
    contracts whose expiry time has passed and whose status is not yet
    "expired", removes each one's stored file, marks it "expired", and reports
    how many status updates succeeded.

    `Handle` gives the whole effect of one invocation as a function of the
    table, the stored paths, the time and the backend's failures; `Serve` is
    the handler itself, a loop over the selection calling the backend, proved
    to have exactly that effect. The lemmas state what the retention promise
    rests on. Failures are per row: `removeFails` and `updateFails` hold the ids
    of the contracts whose storage removal, respectively status update, the
    backend rejects. */
module Cleanup {
  import opened Wrappers
  import opened Strings
  import opened Backend

  datatype Request = Request(httpMethod: string)

  /** The JSON payloads the handler answers with, before serialisation. */
  datatype Body = NoBody | Summary(message: string, deleted: nat) | Failure(error: string)

  datatype Response = Response(status: int, headers: seq<(string, string)>, body: Body)

  const CorsHeaders: seq<(string, string)> := [
    ("Access-Control-Allow-Origin", "*"),
    ("Access-Control-Allow-Headers", "authorization, x-client-info, apikey, content-type")
  ]

  const JsonHeaders: seq<(string, string)> := CorsHeaders + [("Content-Type", "application/json")]

  const NoneFoundMessage := "No expired contracts found"

  function CleanedMessage(deleted: nat): string {
    "Cleaned up " + NatToString(deleted) + " expired contracts"
  }

  function FetchFailedMessage(detail: string): string {
    "Failed to fetch expired contracts: " + detail
  }

  /** The selection predicate: `expires_at < now` and `status != "expired"`. */
  predicate IsCandidate(c: Contract, now: int) {
    c.expiresAt < now && c.status != Expired
  }

  /** The rows the query returns, in table order. */
  function Select(rows: seq<Contract>, now: int): (sel: seq<Contract>)
    ensures |sel| <= |rows|
  {
    if rows == [] then []
    else (if IsCandidate(rows[0], now) then [rows[0]] else []) + Select(rows[1..], now)
  }

  /** The table after the loop has processed `sel`, one status update per row. */
  function SweepRows(rows: seq<Contract>, sel: seq<Contract>, updateFails: set<string>): seq<Contract>
  {
    if sel == [] then rows
    else
      var before := SweepRows(rows, sel[..|sel| - 1], updateFails);
      var c := sel[|sel| - 1];
      if c.id in updateFails then before else ContractsWithStatus(before, c.id, Expired)
  }

  /** The stored paths after the loop has processed `sel`, one removal per row. */
  function SweepFiles(files: set<string>, sel: seq<Contract>, removeFails: set<string>): set<string>
  {
    if sel == [] then files
    else
      var before := SweepFiles(files, sel[..|sel| - 1], removeFails);
      var c := sel[|sel| - 1];
      if c.id in removeFails then before else before - {c.filePath}
  }

  /** `deletedCount` after the loop has processed `sel`. */
  function CountUpdated(sel: seq<Contract>, updateFails: set<string>): nat
  {
    if sel == [] then 0
    else CountUpdated(sel[..|sel| - 1], updateFails) + (if sel[|sel| - 1].id in updateFails then 0 else 1)
  }

  /** Ids of the selected rows whose status update succeeded. */
  function UpdatedIds(sel: seq<Contract>, updateFails: set<string>): set<string> {
    set c | c in sel && c.id !in updateFails :: c.id
  }

  /** Paths of the selected rows whose removal succeeded. */
  function RemovedPaths(sel: seq<Contract>, removeFails: set<string>): set<string> {
    set c | c in sel && c.id !in removeFails :: c.filePath
  }

  /** Everything one invocation does: the response, the new table, the new stored paths. */
  datatype Outcome = Outcome(response: Response, contracts: seq<Contract>, files: set<string>)

  function Handle(req: Request, contracts: seq<Contract>, files: set<string>, now: int,
                  fetchError: Option<string>, removeFails: set<string>, updateFails: set<string>): (o: Outcome)
    ensures o.response.status == 500 <==> req.httpMethod != "OPTIONS" && fetchError.Some?
    ensures o.response.status == 200 || o.response.status == 500
    ensures o.response.status == 500 ==> o.contracts == contracts && o.files == files
    ensures |o.contracts| == |contracts| && o.files <= files
    ensures o.response.body.Summary? ==> o.response.body.deleted <= |Select(contracts, now)|
  {
    if req.httpMethod == "OPTIONS" then
      Outcome(Response(200, CorsHeaders, NoBody), contracts, files)
    else if fetchError.Some? then
      Outcome(Response(500, JsonHeaders, Failure(FetchFailedMessage(fetchError.value))), contracts, files)
    else
      var sel := Select(contracts, now);
      if sel == [] then
        Outcome(Response(200, JsonHeaders, Summary(NoneFoundMessage, 0)), contracts, files)
      else
        var n := CountUpdated(sel, updateFails);
        SweepRowsEffect(contracts, sel, updateFails);
        SweepFilesEffect(files, sel, removeFails);
        CountUpdatedBounds(sel, updateFails);
        Outcome(Response(200, JsonHeaders, Summary(CleanedMessage(n), n)),
                SweepRows(contracts, sel, updateFails), SweepFiles(files, sel, removeFails))
  }

  /** The handler. The loop removes each selected row's file (a failure is
      only logged), then updates its status, and counts the updates that
      succeeded. */
  method Serve(db: Database, req: Request, now: int, fetchError: Option<string>,
               removeFails: set<string>, updateFails: set<string>) returns (resp: Response)
    modifies db
    ensures Outcome(resp, db.contracts, db.files)
         == Handle(req, old(db.contracts), old(db.files), now, fetchError, removeFails, updateFails)
    ensures db.reports == old(db.reports) && db.responses == old(db.responses) && db.feedback == old(db.feedback)
  {
    if req.httpMethod == "OPTIONS" {
      return Response(200, CorsHeaders, NoBody);
    }
    if fetchError.Some? {
      return Response(500, JsonHeaders, Failure(FetchFailedMessage(fetchError.value)));
    }
    var expiredContracts := Select(db.contracts, now);
    if |expiredContracts| == 0 {
      return Response(200, JsonHeaders, Summary(NoneFoundMessage, 0));
    }
    var deletedCount := 0;
    var i := 0;
    while i < |expiredContracts|
      invariant 0 <= i <= |expiredContracts|
      invariant db.contracts == SweepRows(old(db.contracts), expiredContracts[..i], updateFails)
      invariant db.files == SweepFiles(old(db.files), expiredContracts[..i], removeFails)
      invariant deletedCount == CountUpdated(expiredContracts[..i], updateFails)
      invariant db.reports == old(db.reports) && db.responses == old(db.responses) && db.feedback == old(db.feedback)
    {
      var contract := expiredContracts[i];
      var storageError := db.RemoveFile(contract.filePath, contract.id in removeFails);
      var updateError := db.UpdateContractStatus(contract.id, Expired, contract.id in updateFails);
      if !updateError {
        deletedCount := deletedCount + 1;
      }
      assert expiredContracts[..i + 1][..i] == expiredContracts[..i];
      i := i + 1;
    }
    assert expiredContracts[..i] == expiredContracts;
    resp := Response(200, JsonHeaders, Summary(CleanedMessage(deletedCount), deletedCount));
  }

  // ---------------------------------------------------------------------------
  // Properties of the selection and of the loop's effect

  /** A row is selected exactly when it is a candidate. */
  lemma {:induction false} SelectExactly(rows: seq<Contract>, now: int)
    ensures forall c :: c in Select(rows, now) <==> c in rows && IsCandidate(c, now)
  {
    if rows != [] {
      SelectExactly(rows[1..], now);
      assert rows == [rows[0]] + rows[1..];
    }
  }

  lemma {:induction false} SelectNone(rows: seq<Contract>, now: int)
    requires forall k :: 0 <= k < |rows| ==> !IsCandidate(rows[k], now)
    ensures Select(rows, now) == []
  {
    if rows != [] {
      SelectNone(rows[1..], now);
    }
  }

  /** Selection keeps table order: selecting from two halves and concatenating is selecting from the whole. */
  lemma {:induction false} SelectAppend(a: seq<Contract>, b: seq<Contract>, now: int)
    ensures Select(a + b, now) == Select(a, now) + Select(b, now)
  {
    if a != [] {
      assert (a + b)[1..] == a[1..] + b;
      SelectAppend(a[1..], b, now);
    } else {
      assert a + b == b;
    }
  }

  lemma UpdatedIdsStep(sel: seq<Contract>, updateFails: set<string>)
    requires sel != []
    ensures UpdatedIds(sel, updateFails)
         == UpdatedIds(sel[..|sel| - 1], updateFails)
          + (if sel[|sel| - 1].id in updateFails then {} else {sel[|sel| - 1].id})
  {
    assert sel == sel[..|sel| - 1] + [sel[|sel| - 1]];
  }

  lemma RemovedPathsStep(sel: seq<Contract>, removeFails: set<string>)
    requires sel != []
    ensures RemovedPaths(sel, removeFails)
         == RemovedPaths(sel[..|sel| - 1], removeFails)
          + (if sel[|sel| - 1].id in removeFails then {} else {sel[|sel| - 1].filePath})
  {
    assert sel == sel[..|sel| - 1] + [sel[|sel| - 1]];
  }

  /** The loop's effect on the table, row by row: a row is marked "expired",
      with every other column kept, exactly when its id belongs to a selected
      row whose update succeeded. */
  lemma {:induction false} SweepRowsEffect(rows: seq<Contract>, sel: seq<Contract>, updateFails: set<string>)
    ensures |SweepRows(rows, sel, updateFails)| == |rows|
    ensures forall k :: 0 <= k < |rows| ==>
      SweepRows(rows, sel, updateFails)[k]
        == if rows[k].id in UpdatedIds(sel, updateFails) then rows[k].(status := Expired) else rows[k]
  {
    if sel != [] {
      SweepRowsEffect(rows, sel[..|sel| - 1], updateFails);
      UpdatedIdsStep(sel, updateFails);
    }
  }

  /** The loop's effect on storage: exactly the paths of the selected rows whose removal succeeded are gone. */
  lemma {:induction false} SweepFilesEffect(files: set<string>, sel: seq<Contract>, removeFails: set<string>)
    ensures SweepFiles(files, sel, removeFails) == files - RemovedPaths(sel, removeFails)
  {
    if sel != [] {
      SweepFilesEffect(files, sel[..|sel| - 1], removeFails);
      RemovedPathsStep(sel, removeFails);
    }
  }

  /** `deletedCount` never exceeds the selection, and reaches it exactly when every update succeeded. */
  lemma {:induction false} CountUpdatedBounds(sel: seq<Contract>, updateFails: set<string>)
    ensures CountUpdated(sel, updateFails) <= |sel|
    ensures CountUpdated(sel, updateFails) == |sel| <==> forall c :: c in sel ==> c.id !in updateFails
  {
    if sel != [] {
      var init := sel[..|sel| - 1];
      CountUpdatedBounds(init, updateFails);
      assert sel == init + [sel[|sel| - 1]];
      assert forall c :: c in sel <==> c in init || c == sel[|sel| - 1];
    }
  }

  // ---------------------------------------------------------------------------
  // Properties of one invocation

  /** An OPTIONS request gets the CORS headers and no body, and touches neither the table nor storage. */
  lemma OptionsTouchesNothing(contracts: seq<Contract>, files: set<string>, now: int, fetchError: Option<string>,
                              removeFails: set<string>, updateFails: set<string>)
    ensures Handle(Request("OPTIONS"), contracts, files, now, fetchError, removeFails, updateFails)
         == Outcome(Response(200, CorsHeaders, NoBody), contracts, files)
  {
  }

  /** A failed fetch answers 500 with the error message and changes nothing. */
  lemma FetchFailureChangesNothing(req: Request, contracts: seq<Contract>, files: set<string>, now: int,
                                   detail: string, removeFails: set<string>, updateFails: set<string>)
    requires req.httpMethod != "OPTIONS"
    ensures Handle(req, contracts, files, now, Some(detail), removeFails, updateFails)
         == Outcome(Response(500, JsonHeaders, Failure("Failed to fetch expired contracts: " + detail)), contracts, files)
  {
  }

  /** With no candidate row the handler answers `deleted: 0`, "No expired contracts found", and changes nothing. */
  lemma NothingExpiredChangesNothing(req: Request, contracts: seq<Contract>, files: set<string>, now: int,
                                     removeFails: set<string>, updateFails: set<string>)
    requires req.httpMethod != "OPTIONS"
    requires forall k :: 0 <= k < |contracts| ==> !IsCandidate(contracts[k], now)
    ensures Handle(req, contracts, files, now, None, removeFails, updateFails)
         == Outcome(Response(200, JsonHeaders, Summary(NoneFoundMessage, 0)), contracts, files)
  {
    SelectNone(contracts, now);
  }

  /** The reported count lies between 0 and the number of selected rows; it
      equals the number of selected rows when every update succeeded. */
  lemma DeletedCountBounds(req: Request, contracts: seq<Contract>, files: set<string>, now: int,
                           removeFails: set<string>, updateFails: set<string>)
    requires req.httpMethod != "OPTIONS"
    ensures var r := Handle(req, contracts, files, now, None, removeFails, updateFails).response;
      && r.status == 200 && r.body.Summary?
      && r.body.deleted <= |Select(contracts, now)|
      && (r.body.deleted == |Select(contracts, now)| <==> forall c :: c in Select(contracts, now) ==> c.id !in updateFails)
  {
    CountUpdatedBounds(Select(contracts, now), updateFails);
  }

  /** Whether storage removals fail has no bearing on the table or on the count:
      a failed removal is only logged and the status update is still made. */
  lemma StorageFailureDoesNotBlockUpdate(req: Request, contracts: seq<Contract>, files: set<string>, now: int,
                                         removeFails1: set<string>, removeFails2: set<string>,
                                         updateFails: set<string>)
    ensures var o1 := Handle(req, contracts, files, now, None, removeFails1, updateFails);
            var o2 := Handle(req, contracts, files, now, None, removeFails2, updateFails);
            o1.contracts == o2.contracts && o1.response == o2.response
  {
  }

  /** Primary keys: no two rows share an id. */
  predicate UniqueIds(rows: seq<Contract>) {
    forall j, k :: 0 <= j < k < |rows| ==> rows[j].id != rows[k].id
  }

  /** The selection of a table with unique ids has unique ids. */
  lemma {:induction false} SelectUnique(rows: seq<Contract>, now: int)
    requires UniqueIds(rows)
    ensures UniqueIds(Select(rows, now))
  {
    if rows != [] {
      var tail := rows[1..];
      assert UniqueIds(tail);
      SelectUnique(tail, now);
      SelectExactly(tail, now);
      var rest := Select(tail, now);
      if IsCandidate(rows[0], now) {
        forall k | 0 <= k < |rest|
          ensures rest[k].id != rows[0].id
        {
          assert rest[k] in tail;
          var j :| 0 <= j < |tail| && tail[j] == rest[k];
          assert rows[j + 1] == rest[k];
        }
        var sel := [rows[0]] + rest;
        assert Select(rows, now) == sel;
        forall j, k | 0 <= j < k < |sel|
          ensures sel[j].id != sel[k].id
        {
          if j > 0 {
            assert sel[j] == rest[j - 1] && sel[k] == rest[k - 1];
          } else {
            assert sel[k] == rest[k - 1];
          }
        }
      } else {
        assert Select(rows, now) == [] + rest;
      }
    }
  }

  /** With unique ids among the selected rows, the counter is the number of rows whose update succeeded. */
  lemma {:induction false} CountUpdatedIsUpdatedIds(sel: seq<Contract>, updateFails: set<string>)
    requires UniqueIds(sel)
    ensures CountUpdated(sel, updateFails) == |UpdatedIds(sel, updateFails)|
  {
    if sel == [] {
      assert UpdatedIds(sel, updateFails) == {};
    } else {
      var init := sel[..|sel| - 1];
      var last := sel[|sel| - 1];
      assert UniqueIds(init);
      CountUpdatedIsUpdatedIds(init, updateFails);
      UpdatedIdsStep(sel, updateFails);
      forall c | c in init
        ensures c.id != last.id
      {
        var j :| 0 <= j < |init| && init[j] == c;
        assert sel[j] == c;
      }
      assert last.id !in UpdatedIds(init, updateFails);
    }
  }

  /** The reported count is accurate: with unique ids it is the number of
      selected contracts whose status update succeeded, that is, of the rows
      `RowsAfterSweep` shows marked "expired". */
  lemma DeletedCountIsUpdatedRows(req: Request, contracts: seq<Contract>, files: set<string>, now: int,
                                  removeFails: set<string>, updateFails: set<string>)
    requires req.httpMethod != "OPTIONS"
    requires UniqueIds(contracts)
    ensures var r := Handle(req, contracts, files, now, None, removeFails, updateFails).response;
      r.body.Summary? && r.body.deleted == |UpdatedIds(Select(contracts, now), updateFails)|
  {
    var sel := Select(contracts, now);
    SelectUnique(contracts, now);
    CountUpdatedIsUpdatedIds(sel, updateFails);
  }

  /** After one invocation, with ids unique: rows that were not candidates are
      unchanged; a candidate whose update succeeded is "expired" with every
      other column kept; a candidate whose update failed is unchanged. */
  lemma RowsAfterSweep(req: Request, contracts: seq<Contract>, files: set<string>, now: int,
                       removeFails: set<string>, updateFails: set<string>)
    requires req.httpMethod != "OPTIONS"
    requires UniqueIds(contracts)
    ensures var after := Handle(req, contracts, files, now, None, removeFails, updateFails).contracts;
      && |after| == |contracts|
      && forall k :: 0 <= k < |contracts| ==>
           after[k] == if IsCandidate(contracts[k], now) && contracts[k].id !in updateFails
                       then contracts[k].(status := Expired) else contracts[k]
  {
    var sel := Select(contracts, now);
    SelectExactly(contracts, now);
    SweepRowsEffect(contracts, sel, updateFails);
    if sel != [] {
      forall k | 0 <= k < |contracts|
        ensures contracts[k].id in UpdatedIds(sel, updateFails)
            <==> IsCandidate(contracts[k], now) && contracts[k].id !in updateFails
      {
        if contracts[k].id in UpdatedIds(sel, updateFails) {
          var c :| c in sel && c.id !in updateFails && c.id == contracts[k].id;
          var j :| 0 <= j < |contracts| && contracts[j] == c;
          assert j == k;
        }
        if IsCandidate(contracts[k], now) && contracts[k].id !in updateFails {
          assert contracts[k] in sel;
        }
      }
    } else {
      forall k | 0 <= k < |contracts| ensures !IsCandidate(contracts[k], now) {
        assert contracts[k] in contracts;
      }
    }
  }

  /** After one invocation exactly the paths of the selected rows whose removal succeeded are gone from storage. */
  lemma FilesAfterSweep(req: Request, contracts: seq<Contract>, files: set<string>, now: int,
                        removeFails: set<string>, updateFails: set<string>)
    requires req.httpMethod != "OPTIONS"
    ensures Handle(req, contracts, files, now, None, removeFails, updateFails).files
         == files - RemovedPaths(Select(contracts, now), removeFails)
  {
    var sel := Select(contracts, now);
    SweepFilesEffect(files, sel, removeFails);
    if sel == [] {
      assert RemovedPaths(sel, removeFails) == {};
    }
  }

  /** Idempotence: when every status update of a run succeeded, a second run
      at the same time selects nothing, answers `deleted: 0` and changes
      nothing, whatever the backend does on the second run. */
  lemma SecondRunFindsNothing(req: Request, contracts: seq<Contract>, files: set<string>, now: int,
                              removeFails: set<string>, updateFails: set<string>,
                              removeFails2: set<string>, updateFails2: set<string>)
    requires req.httpMethod != "OPTIONS"
    requires forall c :: c in Select(contracts, now) ==> c.id !in updateFails
    ensures var first := Handle(req, contracts, files, now, None, removeFails, updateFails);
            Select(first.contracts, now) == []
            && Handle(req, first.contracts, first.files, now, None, removeFails2, updateFails2)
               == Outcome(Response(200, JsonHeaders, Summary(NoneFoundMessage, 0)), first.contracts, first.files)
  {
    var first := Handle(req, contracts, files, now, None, removeFails, updateFails);
    var sel := Select(contracts, now);
    SelectExactly(contracts, now);
    SweepRowsEffect(contracts, sel, updateFails);
    forall k | 0 <= k < |first.contracts| ensures !IsCandidate(first.contracts[k], now) {
      if IsCandidate(contracts[k], now) {
        assert contracts[k] in sel;
        assert contracts[k].id in UpdatedIds(sel, updateFails);
      }
    }
    NothingExpiredChangesNothing(req, first.contracts, first.files, now, removeFails2, updateFails2);
  }

  /** A failed storage removal leaves the file in place while the row is
      still marked "expired": the handler does not keep "expired implies no
      stored file". */
  lemma ExpiredRowCanKeepItsFile()
    ensures var c := Contract("a", "u", "a.pdf", "u/1_a.pdf", "nda", "completed", 0, 10);
            var o := Handle(Request("POST"), [c], {c.filePath}, 20, None, {"a"}, {});
            o.contracts == [c.(status := Expired)] && c.filePath in o.files
  {
    var c := Contract("a", "u", "a.pdf", "u/1_a.pdf", "nda", "completed", 0, 10);
    assert Select([c], 20) == [c];
    assert [c][..0] == [];
  }

  /** Three contracts: A expired two hours ago (completed), B expires in an
      hour (pending), C expired a day ago and is already "expired". One run
      selects only A, removes its file, marks it and reports one clean-up. */
  lemma ThreeContractScenario()
    ensures var hour := 3600000;
            var now := 100 * hour;
            var a := Contract("A", "u", "a.pdf", "u/a.pdf", "nda", "completed", now - 50 * hour, now - 2 * hour);
            var b := Contract("B", "u", "b.pdf", "u/b.pdf", "trial", "pending", now - hour, now + hour);
            var c := Contract("C", "u", "c.pdf", "u/c.pdf", "nda", Expired, now - 72 * hour, now - 24 * hour);
            Handle(Request("POST"), [a, b, c], {"u/a.pdf", "u/b.pdf"}, now, None, {}, {})
              == Outcome(Response(200, JsonHeaders, Summary(CleanedMessage(1), 1)),
                         [a.(status := Expired), b, c], {"u/b.pdf"})
  {
    var hour := 3600000;
    var now := 100 * hour;
    var a := Contract("A", "u", "a.pdf", "u/a.pdf", "nda", "completed", now - 50 * hour, now - 2 * hour);
    var b := Contract("B", "u", "b.pdf", "u/b.pdf", "trial", "pending", now - hour, now + hour);
    var c := Contract("C", "u", "c.pdf", "u/c.pdf", "nda", Expired, now - 72 * hour, now - 24 * hour);
    assert [a, b, c][1..] == [b, c];
    assert [b, c][1..] == [c];
    assert [c][1..] == [];
    assert Select([c], now) == [];
    assert Select([b, c], now) == [];
    assert Select([a, b, c], now) == [a];
    assert [a][..0] == [];
    assert ContractsWithStatus([a, b, c], "A", Expired) == [a.(status := Expired), b, c];
    assert {"u/a.pdf", "u/b.pdf"} - {"u/a.pdf"} == {"u/b.pdf"};
    assert CountUpdated([a], {}) == 1;
    assert SweepRows([a, b, c], [a], {}) == ContractsWithStatus([a, b, c], "A", Expired);
    assert SweepFiles({"u/a.pdf", "u/b.pdf"}, [a], {}) == {"u/a.pdf", "u/b.pdf"} - {"u/a.pdf"};
  }
}
