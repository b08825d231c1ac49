/** The user's report page: the map of the user's answers to the operator's
    suggestions, the upsert of one answer, the guarded feedback submission,
    the save guard of a suggestion card, and the colour and label of a risk
    level. */
module ReportPage {
  import opened Wrappers
  import opened Backend

  /** One entry of the page's `responses` map. */
  datatype SuggestionResponse = SuggestionResponse(suggestionIndex: int, action: string, reason: Option<string>)

  function AsResponse(r: ResponseRow): SuggestionResponse {
    SuggestionResponse(r.suggestionIndex, r.action, r.reason)
  }

  /** Position of the last row answering suggestion `index`, or -1 when none does. */
  function LastIndexOf(rows: seq<ResponseRow>, index: int): (j: int)
    ensures -1 <= j < |rows|
    ensures j >= 0 ==> rows[j].suggestionIndex == index
    ensures forall k :: j < k < |rows| ==> rows[k].suggestionIndex != index
  {
    if rows == [] then -1
    else if rows[|rows| - 1].suggestionIndex == index then |rows| - 1
    else LastIndexOf(rows[..|rows| - 1], index)
  }

  /** The `forEach` of `fetchData` that fills the map from the fetched rows:
      a key is present exactly when some row answers that suggestion, and
      when several rows share an index the last one wins. */
  method BuildResponses(rows: seq<ResponseRow>) returns (m: map<int, SuggestionResponse>)
    ensures forall index :: index in m <==> LastIndexOf(rows, index) >= 0
    ensures forall index :: index in m ==> m[index] == AsResponse(rows[LastIndexOf(rows, index)])
  {
    m := map[];
    var i := 0;
    while i < |rows|
      invariant 0 <= i <= |rows|
      invariant forall index :: index in m <==> LastIndexOf(rows[..i], index) >= 0
      invariant forall index :: index in m ==> m[index] == AsResponse(rows[LastIndexOf(rows[..i], index)])
    {
      var r := rows[i];
      m := m[r.suggestionIndex := AsResponse(r)];
      assert rows[..i + 1][..i] == rows[..i];
      i := i + 1;
    }
    assert rows[..i] == rows;
  }

  /** Which backend call an answer turned into. */
  datatype Upsert = Skipped | Updated | Inserted

  /** `null` for the falsy number 0, the number otherwise. */
  function NullIfZero(n: int): Option<int> {
    if n == 0 then None else Some(n)
  }

  /** `null` for the falsy empty string, the string otherwise. */
  function NullIfEmpty(s: string): Option<string> {
    if s == "" then None else Some(s)
  }

  /** The row `handleFeedbackSubmit` inserts; the unset optional answers are sent as null. */
  function FeedbackPayload(reportId: string, userId: string, satisfaction: int, efficiency: int,
                           willingness: string, comments: string, interviewAvailable: bool,
                           createdAt: string): (f: FeedbackRow)
    ensures f.satisfactionRating == satisfaction && f.interviewAvailable == Some(interviewAvailable)
    ensures f.efficiencyRating.GetOr(0) == efficiency && (f.efficiencyRating == None <==> efficiency == 0)
    ensures f.willingnessToPay.GetOr("") == willingness && (f.willingnessToPay == None <==> willingness == "")
    ensures f.comments.GetOr("") == comments && (f.comments == None <==> comments == "")
  {
    FeedbackRow(reportId, userId, satisfaction, NullIfZero(efficiency), NullIfEmpty(willingness),
                NullIfEmpty(comments), Some(interviewAvailable), createdAt)
  }

  /** The submit button is disabled without a rating and while a submission is under way. */
  function SubmitEnabled(satisfaction: int, submitting: bool): (enabled: bool)
    ensures enabled ==> satisfaction != 0
    ensures satisfaction != 0 && !submitting ==> enabled
  {
    !(satisfaction == 0 || submitting)
  }

  /** The early return of `handleFeedbackSubmit`: the handler goes on only
      with a loaded report, a signed-in user and a rating. */
  function FeedbackGuard(reportId: Option<string>, userId: Option<string>, satisfaction: int): (passes: bool)
    ensures passes ==> reportId.Some? && userId.Some?
    ensures passes <==> reportId.Some? && userId.Some? && satisfaction != 0
  {
    !(reportId.None? || userId.None? || satisfaction == 0)
  }

  /** The page state the two handlers read and write. `reportId` and `userId`
      are the loaded report and the signed-in user, absent when missing. */
  /** The update of an answer matches rows by report, index and user; when no
      row of this user answers the index, the table is left as it was. */
  lemma {:induction false} UpdateWithoutOwnRowChangesNothing(rows: seq<ResponseRow>, reportId: string, index: int,
                                                            userId: string, action: string, reason: string)
    requires forall k :: 0 <= k < |rows| ==>
      !(rows[k].reportId == reportId && rows[k].suggestionIndex == index && rows[k].userId == userId)
    ensures ResponsesWithAnswer(rows, reportId, index, userId, action, reason) == rows
  {
    var r := ResponsesWithAnswer(rows, reportId, index, userId, action, reason);
    assert |r| == |rows|;
    forall k | 0 <= k < |rows|
      ensures r[k] == rows[k]
    {
    }
  }

  /** The answers are fetched for the report without a user filter, so another
      user's answer puts its index in the map; the answer of the user at the
      page then goes to the update, which matches no row and stores nothing. */
  lemma OtherUsersAnswerHidesOwn()
    ensures var rows := [ResponseRow("r1", "rep", 0, "other", "accept", None)];
      && LastIndexOf(rows, 0) == 0
      && ResponsesWithAnswer(rows, "rep", 0, "me", "reject", "too strict") == rows
  {
    var rows := [ResponseRow("r1", "rep", 0, "other", "accept", None)];
    UpdateWithoutOwnRowChangesNothing(rows, "rep", 0, "me", "reject", "too strict");
  }

  class ReportView {
    const reportId: Option<string>
    const userId: Option<string>
    var responses: map<int, SuggestionResponse>
    var feedbackSubmitted: bool
    var satisfaction: int
    var efficiency: int
    var willingness: string
    var comments: string
    var interviewAvailable: bool
    var submittingFeedback: bool

    /** The page after `fetchData`, with the form empty. */
    constructor (reportId: Option<string>, userId: Option<string>, responses: map<int, SuggestionResponse>,
                 feedbackSubmitted: bool)
      ensures this.reportId == reportId && this.userId == userId
      ensures this.responses == responses && this.feedbackSubmitted == feedbackSubmitted
      ensures satisfaction == 0 && efficiency == 0 && willingness == "" && comments == ""
      ensures !interviewAvailable && !submittingFeedback
    {
      this.reportId := reportId;
      this.userId := userId;
      this.responses := responses;
      this.feedbackSubmitted := feedbackSubmitted;
      satisfaction := 0;
      efficiency := 0;
      willingness := "";
      comments := "";
      interviewAvailable := false;
      submittingFeedback := false;
    }

    /** `handleSuggestionAction`: update the stored answer when the map
        already has one for `index`, insert otherwise, then record the answer
        in the map. The backend's error, if any, is not looked at: the map is
        updated either way. `newId` is the id the database gives an inserted row. */
    method SuggestionAction(db: Database, index: int, action: string, reason: string,
                            newId: string, fails: bool) returns (op: Upsert)
      modifies this`responses, db`responses
      ensures reportId.None? || userId.None? ==>
        op == Skipped && responses == old(responses) && db.responses == old(db.responses)
      ensures reportId.Some? && userId.Some? ==>
        && op == (if index in old(responses) then Updated else Inserted)
        && responses == old(responses)[index := SuggestionResponse(index, action, Some(reason))]
        && db.responses == (
             if fails then old(db.responses)
             else if op == Updated
             then ResponsesWithAnswer(old(db.responses), reportId.value, index, userId.value, action, reason)
             else old(db.responses) + [ResponseRow(newId, reportId.value, index, userId.value, action, Some(reason))])
    {
      if reportId.None? || userId.None? {
        return Skipped;
      }
      var err;
      if index in responses {
        err := db.UpdateResponse(reportId.value, index, userId.value, action, reason, fails);
        op := Updated;
      } else {
        err := db.InsertResponse(ResponseRow(newId, reportId.value, index, userId.value, action, Some(reason)), fails);
        op := Inserted;
      }
      responses := responses[index := SuggestionResponse(index, action, Some(reason))];
    }

    /** `handleFeedbackSubmit`: nothing happens without report, user or a
        rating; otherwise the feedback row is inserted and the page shows the
        thank-you state only when the insert returned no error. `createdAt` is
        the timestamp the database gives the row. */
    method FeedbackSubmit(db: Database, createdAt: string, fails: bool) returns (attempted: bool)
      modifies this`feedbackSubmitted, this`submittingFeedback, db`feedback
      ensures attempted == FeedbackGuard(reportId, userId, satisfaction)
      ensures !attempted ==>
        && db.feedback == old(db.feedback) && feedbackSubmitted == old(feedbackSubmitted)
        && submittingFeedback == old(submittingFeedback)
      ensures attempted ==>
        && db.feedback == (if fails then old(db.feedback)
                           else old(db.feedback) + [FeedbackPayload(reportId.value, userId.value, satisfaction,
                                  efficiency, willingness, comments, interviewAvailable, createdAt)])
        && feedbackSubmitted == (old(feedbackSubmitted) || !fails)
        && !submittingFeedback
    {
      if reportId.None? || userId.None? || satisfaction == 0 {
        return false;
      }
      attempted := true;
      submittingFeedback := true;
      var payload := FeedbackPayload(reportId.value, userId.value, satisfaction, efficiency, willingness,
                                     comments, interviewAvailable, createdAt);
      var err := db.InsertFeedback(payload, fails);
      submittingFeedback := false;
      if !err {
        feedbackSubmitted := true;
      }
    }
  }

  /** Whatever the button allows on a loaded report page, the handler's guard
      lets through; without a rating neither the button nor the guard lets a
      submission happen. */
  lemma SubmitEnabledPassesRatingGuard(reportId: Option<string>, userId: Option<string>, satisfaction: int,
                                       submitting: bool)
    ensures SubmitEnabled(satisfaction, submitting) && reportId.Some? && userId.Some? ==>
      FeedbackGuard(reportId, userId, satisfaction)
    ensures !SubmitEnabled(0, submitting) && !FeedbackGuard(reportId, userId, 0)
  {
  }

  // ---------------------------------------------------------------------------
  // The save guard of a suggestion card: disabled while the trimmed reason is empty

  /** The characters `String.prototype.trim` removes: ECMAScript white space and line terminators. */
  predicate IsWhitespace(c: char) {
    || c == '\t' || c == '\n' || c == '\U{000B}' || c == '\U{000C}' || c == '\r' || c == ' '
    || c == '\U{00A0}' || c == '\U{1680}' || ('\U{2000}' <= c <= '\U{200A}')
    || c == '\U{2028}' || c == '\U{2029}' || c == '\U{202F}' || c == '\U{205F}'
    || c == '\U{3000}' || c == '\U{FEFF}'
  }

  predicate AllWhitespace(s: string) {
    forall i :: 0 <= i < |s| ==> IsWhitespace(s[i])
  }

  function TrimStart(s: string): string {
    if s != [] && IsWhitespace(s[0]) then TrimStart(s[1..]) else s
  }

  function TrimEnd(s: string): string {
    if s != [] && IsWhitespace(s[|s| - 1]) then TrimEnd(s[..|s| - 1]) else s
  }

  function Trim(s: string): string {
    TrimEnd(TrimStart(s))
  }

  lemma {:induction false} TrimStartShape(s: string)
    ensures TrimStart(s) == [] <==> AllWhitespace(s)
    ensures TrimStart(s) != [] ==> !IsWhitespace(TrimStart(s)[0])
  {
    if s != [] && IsWhitespace(s[0]) {
      TrimStartShape(s[1..]);
      assert forall i :: 1 <= i < |s| ==> s[i] == s[1..][i - 1];
    }
  }

  lemma {:induction false} TrimEndKeepsFirst(s: string)
    requires s != [] && !IsWhitespace(s[0])
    ensures TrimEnd(s) != [] && TrimEnd(s)[0] == s[0]
  {
    if |s| > 1 && IsWhitespace(s[|s| - 1]) {
      TrimEndKeepsFirst(s[..|s| - 1]);
    }
  }

  /** The trimmed text is non-empty exactly when the text holds a character that is not white space. */
  lemma TrimNonEmptyIff(reason: string)
    ensures Trim(reason) != "" <==> exists i :: 0 <= i < |reason| && !IsWhitespace(reason[i])
  {
    TrimStartShape(reason);
    if TrimStart(reason) != [] {
      TrimEndKeepsFirst(TrimStart(reason));
    }
  }

  /** The save button of a card: shown once an action is chosen, and enabled
      when the trimmed reason is not empty, that is, exactly when the reason
      holds a character that is not white space. */
  function SaveEnabled(selectedAction: string, reason: string): (enabled: bool)
    ensures enabled <==> selectedAction != "" && exists i :: 0 <= i < |reason| && !IsWhitespace(reason[i])
  {
    TrimNonEmptyIff(reason);
    selectedAction != "" && Trim(reason) != ""
  }

  // ---------------------------------------------------------------------------
  // Risk levels

  function RiskColor(level: string): (color: string)
    ensures color == "bg-muted" <==> !IsKnownLevel(level)
  {
    match level
    case "high" => "bg-red-500"
    case "medium" => "bg-amber-500"
    case "low" => "bg-green-500"
    case _ => "bg-muted"
  }

  function RiskLabel(level: string): (text: string)
    ensures text == level <==> !IsKnownLevel(level)
  {
    match level
    case "high" => "高风险"
    case "medium" => "中风险"
    case "low" => "低风险"
    case _ => level
  }

  predicate IsKnownLevel(level: string) {
    level == "high" || level == "medium" || level == "low"
  }

  /** The three known levels get three different colours and three different
      labels; a colour is the muted one exactly for an unknown level, whose
      label is the level itself. */
  lemma RiskMappings(level: string, other: string)
    ensures RiskColor(level) == "bg-muted" <==> !IsKnownLevel(level)
    ensures !IsKnownLevel(level) ==> RiskLabel(level) == level
    ensures IsKnownLevel(level) && IsKnownLevel(other) && level != other ==>
      RiskColor(level) != RiskColor(other) && RiskLabel(level) != RiskLabel(other)
  {
  }
}
