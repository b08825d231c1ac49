/** The managed backend the pages and the sweep talk to, as an in-memory
    store: the tables the core reads and writes, and the set of paths held in
    the `contracts` storage bucket. Every backend call is a method of
    `Database`; whether the call fails is not decided here but passed in as
    the `fails` argument, so a caller can be verified against every
    combination of failures. Row shapes follow the generated table types in
    src/integrations/supabase/types.ts (timestamps the core compares are
    milliseconds since the epoch). */
module Backend {
  import opened Wrappers

  /** A row of `contracts`. */
  datatype Contract = Contract(
    id: string,
    userId: string,
    fileName: string,
    filePath: string,
    contractType: string,
    status: string,
    uploadedAt: int,
    expiresAt: int)

  /** The values of `contracts.status`. */
  const Pending := "pending"
  const Processing := "processing"
  const Completed := "completed"
  const Expired := "expired"

  /** A JavaScript object whose fields hold strings, such as a risk clause,
      a suggestion or the contract overview. */
  type Record = map<string, string>

  /** The shapes a JSON column of `review_reports` can hold, as far as the
      report editor tells them apart. */
  datatype Json = JNull | JScalar | JArray(items: seq<Record>) | JObject(fields: Record)

  /** A row of `review_reports`. */
  datatype ReportRow = ReportRow(
    id: string,
    contractId: string,
    operatorId: string,
    overallRiskLevel: string,
    summary: Option<string>,
    overview: Json,
    clauses: Json,
    suggestions: Json)

  /** A row of `suggestion_responses`. */
  datatype ResponseRow = ResponseRow(
    id: string,
    reportId: string,
    suggestionIndex: int,
    userId: string,
    action: string,
    reason: Option<string>)

  /** A row of `report_feedback`; `createdAt` is the timestamp text the
      database fills in. */
  datatype FeedbackRow = FeedbackRow(
    reportId: string,
    userId: string,
    satisfactionRating: int,
    efficiencyRating: Option<int>,
    willingnessToPay: Option<string>,
    comments: Option<string>,
    interviewAvailable: Option<bool>,
    createdAt: string)

  /** The contracts after the status of the row with this id is set. */
  function ContractsWithStatus(rows: seq<Contract>, id: string, status: string): seq<Contract>
  {
    seq(|rows|, k requires 0 <= k < |rows| => if rows[k].id == id then rows[k].(status := status) else rows[k])
  }

  /** The reports after the row with this id takes the payload: every column but `id` is replaced. */
  function ReportsWithPayload(rows: seq<ReportRow>, id: string, payload: ReportRow): seq<ReportRow>
  {
    seq(|rows|, k requires 0 <= k < |rows| => if rows[k].id == id then payload.(id := rows[k].id) else rows[k])
  }

  /** The responses after the rows of one report, index and user take a new action and reason. */
  function ResponsesWithAnswer(rows: seq<ResponseRow>, reportId: string, index: int, userId: string,
                               action: string, reason: string): seq<ResponseRow>
  {
    seq(|rows|, k requires 0 <= k < |rows| =>
      if rows[k].reportId == reportId && rows[k].suggestionIndex == index && rows[k].userId == userId
      then rows[k].(action := action, reason := Some(reason))
      else rows[k])
  }

  class Database {
    var contracts: seq<Contract>
    var files: set<string>
    var reports: seq<ReportRow>
    var responses: seq<ResponseRow>
    var feedback: seq<FeedbackRow>

    constructor (contracts: seq<Contract>, files: set<string>, reports: seq<ReportRow>,
                 responses: seq<ResponseRow>, feedback: seq<FeedbackRow>)
      ensures this.contracts == contracts && this.files == files && this.reports == reports
      ensures this.responses == responses && this.feedback == feedback
    {
      this.contracts := contracts;
      this.files := files;
      this.reports := reports;
      this.responses := responses;
      this.feedback := feedback;
    }

    /** Remove one path from the bucket. */
    method RemoveFile(path: string, fails: bool) returns (err: bool)
      modifies this`files
      ensures err == fails
      ensures files == if fails then old(files) else old(files) - {path}
    {
      err := fails;
      if !fails {
        files := files - {path};
      }
    }

    /** Store a file in the bucket under `path`. */
    method UploadFile(path: string, fails: bool) returns (err: bool)
      modifies this`files
      ensures err == fails
      ensures files == if fails then old(files) else old(files) + {path}
    {
      err := fails;
      if !fails {
        files := files + {path};
      }
    }

    /** Set the status of the contract with this id. */
    method UpdateContractStatus(id: string, status: string, fails: bool) returns (err: bool)
      modifies this`contracts
      ensures err == fails
      ensures contracts == if fails then old(contracts) else ContractsWithStatus(old(contracts), id, status)
    {
      err := fails;
      if !fails {
        contracts := ContractsWithStatus(contracts, id, status);
      }
    }

    /** Insert a contract; the columns the database fills in are already in `row`. */
    method InsertContract(row: Contract, fails: bool) returns (err: bool)
      modifies this`contracts
      ensures err == fails
      ensures contracts == if fails then old(contracts) else old(contracts) + [row]
    {
      err := fails;
      if !fails {
        contracts := contracts + [row];
      }
    }

    /** Overwrite the report with this id. */
    method UpdateReport(id: string, payload: ReportRow, fails: bool) returns (err: bool)
      modifies this`reports
      ensures err == fails
      ensures reports == if fails then old(reports) else ReportsWithPayload(old(reports), id, payload)
    {
      err := fails;
      if !fails {
        reports := ReportsWithPayload(reports, id, payload);
      }
    }

    /** Insert a report. */
    method InsertReport(row: ReportRow, fails: bool) returns (err: bool)
      modifies this`reports
      ensures err == fails
      ensures reports == if fails then old(reports) else old(reports) + [row]
    {
      err := fails;
      if !fails {
        reports := reports + [row];
      }
    }

    /** Change the action and reason of the responses of one report, index and user. */
    method UpdateResponse(reportId: string, index: int, userId: string, action: string, reason: string,
                          fails: bool) returns (err: bool)
      modifies this`responses
      ensures err == fails
      ensures responses == if fails then old(responses)
                           else ResponsesWithAnswer(old(responses), reportId, index, userId, action, reason)
    {
      err := fails;
      if !fails {
        responses := ResponsesWithAnswer(responses, reportId, index, userId, action, reason);
      }
    }

    /** Insert a response. */
    method InsertResponse(row: ResponseRow, fails: bool) returns (err: bool)
      modifies this`responses
      ensures err == fails
      ensures responses == if fails then old(responses) else old(responses) + [row]
    {
      err := fails;
      if !fails {
        responses := responses + [row];
      }
    }

    /** Insert a feedback row. */
    method InsertFeedback(row: FeedbackRow, fails: bool) returns (err: bool)
      modifies this`feedback
      ensures err == fails
      ensures feedback == if fails then old(feedback) else old(feedback) + [row]
    {
      err := fails;
      if !fails {
        feedback := feedback + [row];
      }
    }
  }
}
