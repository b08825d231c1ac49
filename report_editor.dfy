/** The operator's report editor: the form state loaded from a stored
    report, the list operations on risk clauses and suggestions, and the save
    that writes the report and, on success, marks the contract "completed".
    Clauses and suggestions are JavaScript objects, modelled as records from
    field names to strings, so that setting a field by name is a record
    update. */
module ReportEditor {
  import opened Wrappers
  import opened Backend

  const DefaultClause: Record := map["title" := "", "level" := "medium", "description" := "", "original_text" := ""]

  const DefaultSuggestion: Record := map["issue" := "", "suggestion" := "", "reason" := ""]

  /** The overview a new report starts with: contract type, party A, party B, signing date, term. */
  const DefaultOverview: Record := map["合同类型" := "", "签约方A" := "", "签约方B" := "", "签约日期" := "", "有效期" := ""]

  /** The new overview has five keys, each with an empty value. */
  lemma DefaultOverviewShape()
    ensures |DefaultOverview.Keys| == 5
    ensures forall k :: k in DefaultOverview ==> DefaultOverview[k] == ""
  {
  }

  /** Drop position `i` from the part of a list that starts at position `offset`. */
  function FilterOutIndex<T>(s: seq<T>, i: int, offset: int): (r: seq<T>)
    ensures offset <= i < offset + |s| ==> r == s[..i - offset] + s[i - offset + 1..]
    ensures !(offset <= i < offset + |s|) ==> r == s
  {
    if s == [] then []
    else (if offset == i then [] else [s[0]]) + FilterOutIndex(s[1..], i, offset + 1)
  }

  /** Keep every element whose position is not `i`: exactly position `i` is dropped and
      the rest keep their order; a position outside the list drops nothing. */
  function RemoveAt<T>(s: seq<T>, i: int): (r: seq<T>)
    ensures 0 <= i < |s| ==> |r| == |s| - 1 && r == s[..i] + s[i + 1..]
    ensures !(0 <= i < |s|) ==> r == s
  {
    FilterOutIndex(s, i, 0)
  }

  /** Removing what was just appended restores the list. */
  lemma RemoveLastAppended<T>(s: seq<T>, x: T)
    ensures RemoveAt(s + [x], |s|) == s
  {
    assert (s + [x])[..|s|] == s;
  }

  /** After removing position `i`, every later element has moved one place forward. */
  lemma RemoveAtShifts<T>(s: seq<T>, i: int, j: int)
    requires 0 <= i < |s| && 0 <= j < |s| - 1
    ensures RemoveAt(s, i)[j] == if j < i then s[j] else s[j + 1]
  {
  }

  /** What a saved report holds, before the database gives it an id. Every
      part has the shape that loading a report takes over, so loading the
      saved row gives back the form it was saved from. */
  function Payload(id: string, contractId: string, operatorId: string, overallRisk: string, summary: string,
                   overview: Record, clauses: seq<Record>, suggestions: seq<Record>): (r: ReportRow)
    ensures r.contractId == contractId && r.operatorId == operatorId && r.overallRiskLevel == overallRisk
    ensures r.summary.GetOr("") == summary
    ensures r.overview.JObject? && r.overview.fields == overview
    ensures r.clauses.JArray? && r.clauses.items == clauses
    ensures r.suggestions.JArray? && r.suggestions.items == suggestions
  {
    ReportRow(id, contractId, operatorId, overallRisk, Some(summary), JObject(overview), JArray(clauses),
              JArray(suggestions))
  }

  datatype SaveOutcome = NotSignedIn | Saved | SaveFailed

  class EditorPage {
    const contractId: string
    const userId: Option<string>
    var existingReport: Option<ReportRow>
    var overallRisk: string
    var summary: string
    var overview: Record
    var clauses: seq<Record>
    var suggestions: seq<Record>
    var saving: bool

    constructor (contractId: string, userId: Option<string>)
      ensures this.contractId == contractId && this.userId == userId && existingReport == None
      ensures overallRisk == "medium" && summary == "" && overview == DefaultOverview
      ensures clauses == [] && suggestions == [] && !saving
    {
      this.contractId := contractId;
      this.userId := userId;
      existingReport := None;
      overallRisk := "medium";
      summary := "";
      overview := DefaultOverview;
      clauses := [];
      suggestions := [];
      saving := false;
    }

    /** The report part of `fetchData`. A stored report replaces the risk
        level and the summary (a missing summary becomes ""); it replaces the
        clauses and the suggestions only when the stored value is an array,
        and the overview only when it is an object. */
    method Load(stored: Option<ReportRow>)
      modifies this`existingReport, this`overallRisk, this`summary, this`overview, this`clauses, this`suggestions
      ensures stored.None? ==>
        && existingReport == old(existingReport) && overallRisk == old(overallRisk) && summary == old(summary)
        && overview == old(overview) && clauses == old(clauses) && suggestions == old(suggestions)
      ensures stored.Some? ==>
        var r := stored.value;
        && existingReport == stored && overallRisk == r.overallRiskLevel && summary == r.summary.GetOr("")
        && overview == (if r.overview.JObject? then r.overview.fields else old(overview))
        && clauses == (if r.clauses.JArray? then r.clauses.items else old(clauses))
        && suggestions == (if r.suggestions.JArray? then r.suggestions.items else old(suggestions))
    {
      if stored.Some? {
        var r := stored.value;
        existingReport := stored;
        overallRisk := r.overallRiskLevel;
        summary := r.summary.GetOr("");
        if r.overview.JObject? {
          overview := r.overview.fields;
        }
        if r.clauses.JArray? {
          clauses := r.clauses.items;
        }
        if r.suggestions.JArray? {
          suggestions := r.suggestions.items;
        }
      }
    }

    method AddClause()
      modifies this`clauses
      ensures clauses == old(clauses) + [DefaultClause]
    {
      clauses := clauses + [DefaultClause];
    }

    method RemoveClause(i: int)
      modifies this`clauses
      ensures clauses == RemoveAt(old(clauses), i)
    {
      clauses := RemoveAt(clauses, i);
    }

    /** Copy the list and set one field of element `i`. For a position
        outside the list the source's assignment throws; the list is then
        left as it was and `ok` is false. */
    method UpdateClause(i: int, field: string, value: string) returns (ok: bool)
      modifies this`clauses
      ensures ok == (0 <= i < |old(clauses)|)
      ensures ok ==> clauses == old(clauses)[i := old(clauses)[i][field := value]]
      ensures !ok ==> clauses == old(clauses)
    {
      var updated := clauses;
      if !(0 <= i < |updated|) {
        return false;
      }
      updated := updated[i := updated[i][field := value]];
      clauses := updated;
      ok := true;
    }

    method AddSuggestion()
      modifies this`suggestions
      ensures suggestions == old(suggestions) + [DefaultSuggestion]
    {
      suggestions := suggestions + [DefaultSuggestion];
    }

    method RemoveSuggestion(i: int)
      modifies this`suggestions
      ensures suggestions == RemoveAt(old(suggestions), i)
    {
      suggestions := RemoveAt(suggestions, i);
    }

    method UpdateSuggestion(i: int, field: string, value: string) returns (ok: bool)
      modifies this`suggestions
      ensures ok == (0 <= i < |old(suggestions)|)
      ensures ok ==> suggestions == old(suggestions)[i := old(suggestions)[i][field := value]]
      ensures !ok ==> suggestions == old(suggestions)
    {
      var updated := suggestions;
      if !(0 <= i < |updated|) {
        return false;
      }
      updated := updated[i := updated[i][field := value]];
      suggestions := updated;
      ok := true;
    }

    /** The save and load round trip: loading the row that a save with
        operator `operatorId` writes gives back every field of the form. */
    method LoadSaved(newId: string, operatorId: string)
      modifies this`existingReport, this`overallRisk, this`summary, this`overview, this`clauses, this`suggestions
      ensures overallRisk == old(overallRisk) && summary == old(summary) && overview == old(overview)
      ensures clauses == old(clauses) && suggestions == old(suggestions)
      ensures existingReport == Some(Payload(newId, contractId, operatorId, old(overallRisk), old(summary),
                                             old(overview), old(clauses), old(suggestions)))
    {
      var saved := Payload(newId, contractId, operatorId, overallRisk, summary, overview, clauses, suggestions);
      Load(Some(saved));
    }

    /** `handleSave`: without a user nothing happens. Otherwise the report is
        updated when one was loaded and inserted (with the id `newId` the
        database gives it) when none was; only when that call returned no
        error is the contract's status set to "completed", whose own error
        is not looked at. */
    method Save(db: Database, newId: string, saveFails: bool, statusFails: bool) returns (outcome: SaveOutcome)
      modifies this`saving, db`reports, db`contracts
      ensures userId.None? ==>
        outcome == NotSignedIn && db.reports == old(db.reports) && db.contracts == old(db.contracts)
        && saving == old(saving)
      ensures userId.Some? ==>
        var payload := Payload(newId, contractId, userId.value, overallRisk, summary, overview, clauses, suggestions);
        && outcome == (if saveFails then SaveFailed else Saved)
        && db.reports == (if saveFails then old(db.reports)
                          else if existingReport.Some?
                          then ReportsWithPayload(old(db.reports), existingReport.value.id, payload)
                          else old(db.reports) + [payload])
        && db.contracts == (if saveFails || statusFails then old(db.contracts)
                            else ContractsWithStatus(old(db.contracts), contractId, Completed))
        && !saving
    {
      if userId.None? {
        return NotSignedIn;
      }
      saving := true;
      var payload := Payload(newId, contractId, userId.value, overallRisk, summary, overview, clauses, suggestions);
      var err;
      if existingReport.Some? {
        err := db.UpdateReport(existingReport.value.id, payload, saveFails);
      } else {
        err := db.InsertReport(payload, saveFails);
      }
      if !err {
        var statusErr := db.UpdateContractStatus(contractId, Completed, statusFails);
        outcome := Saved;
      } else {
        outcome := SaveFailed;
      }
      saving := false;
    }
  }
}
