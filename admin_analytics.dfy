/** The analytics page: the admin gate, the statistics computed from the
    fetched counts and feedback rows, and the CSV export of the feedback. The
    comments column is an escaped field in the sense of section 2, rule 7 of
    RFC 4180: it is enclosed in double quotes and every double quote inside it
    is doubled. */
module AdminAnalytics {
  import opened Wrappers
  import opened Strings
  import opened Backend
  import ReportPage

  /** The page is for users holding the "admin" role only. */
  function IsAdmin(roles: Option<seq<string>>): (admin: bool)
    ensures admin <==> roles.Some? && exists k :: 0 <= k < |roles.value| && roles.value[k] == "admin"
  {
    roles.Some? && "admin" in roles.value
  }

  /** A missing (or zero) count shows as 0. */
  function CountOrZero(count: Option<int>): (n: int)
    ensures count.None? ==> n == 0
    ensures count.Some? ==> n == count.value
  {
    if count.None? || count.value == 0 then 0 else count.value
  }

  /** The `reduce` over the satisfaction ratings; its bounds are `SumBounds`. */
  function Sum(fb: seq<FeedbackRow>): int {
    if fb == [] then 0 else Sum(fb[..|fb| - 1]) + fb[|fb| - 1].satisfactionRating
  }

  /** The mean satisfaction, 0 when there is no feedback. */
  function Average(fb: seq<FeedbackRow>): (avg: real)
    ensures fb == [] ==> avg == 0.0
    ensures fb != [] ==> avg * |fb| as real == Sum(fb) as real
  {
    if |fb| > 0 then Sum(fb) as real / |fb| as real else 0.0
  }

  lemma {:induction false} SumBounds(fb: seq<FeedbackRow>, lo: int, hi: int)
    requires forall k :: 0 <= k < |fb| ==> lo <= fb[k].satisfactionRating <= hi
    ensures lo * |fb| <= Sum(fb) <= hi * |fb|
  {
    if fb != [] {
      var init := fb[..|fb| - 1];
      SumBounds(init, lo, hi);
      assert Sum(fb) == Sum(init) + fb[|fb| - 1].satisfactionRating;
      assert lo * |fb| == lo * |init| + lo && hi * |fb| == hi * |init| + hi;
    }
  }

  /** When every rating lies between `lo` and `hi`, so does the mean. */
  lemma AverageBounds(fb: seq<FeedbackRow>, lo: int, hi: int)
    requires fb != []
    requires forall k :: 0 <= k < |fb| ==> lo <= fb[k].satisfactionRating <= hi
    ensures lo as real <= Average(fb) <= hi as real
  {
    SumBounds(fb, lo, hi);
    var n := |fb| as real;
    assert lo as real * n <= Sum(fb) as real <= hi as real * n;
    MeanBounds(Average(fb), n, Sum(fb) as real, lo as real, hi as real);
  }

  /** A mean `avg` with `avg * n == total` lies between `lo` and `hi` when `total` lies between `lo * n` and `hi * n`. */
  lemma MeanBounds(avg: real, n: real, total: real, lo: real, hi: real)
    requires n > 0.0 && avg * n == total && lo * n <= total <= hi * n
    ensures lo <= avg <= hi
  {
    assert (avg - lo) * n == total - lo * n && (hi - avg) * n == hi * n - total;
  }

  /** What `fetchAnalytics` leads to. `avgSatisfaction` is the unrounded mean. */
  datatype Analytics =
    | RedirectToDashboard
    | Stats(totalUsers: int, totalContracts: int, completedReports: int, avgSatisfaction: real,
            feedbacks: seq<FeedbackRow>, waitlistCount: int)

  /** The counts and rows the four parallel queries returned, absent where a query returned none. */
  function FetchAnalytics(roles: Option<seq<string>>, contractsCount: Option<int>, reportsCount: Option<int>,
                          feedback: Option<seq<FeedbackRow>>, waitlistCount: Option<int>): (a: Analytics)
    ensures a.RedirectToDashboard? <==> !IsAdmin(roles)
    ensures a.Stats? ==>
      && a.totalUsers == 0
      && a.totalContracts == contractsCount.GetOr(0) && a.completedReports == reportsCount.GetOr(0)
      && a.waitlistCount == waitlistCount.GetOr(0)
      && a.feedbacks == feedback.GetOr([])
      && (a.feedbacks == [] ==> a.avgSatisfaction == 0.0)
      && a.avgSatisfaction * |a.feedbacks| as real == Sum(a.feedbacks) as real
  {
    if !IsAdmin(roles) then RedirectToDashboard
    else
      var fb := feedback.GetOr([]);
      Stats(0, CountOrZero(contractsCount), CountOrZero(reportsCount), Average(fb), fb, CountOrZero(waitlistCount))
  }

  // ---------------------------------------------------------------------------
  // Escaping the comments field

  /** Every double quote doubled, every other character kept. */
  function Escape(s: string): (t: string)
    ensures |t| >= |s|
    ensures forall c :: c != '"' ==> (c in t <==> c in s)
  {
    if s == [] then [] else (if s[0] == '"' then "\"\"" else [s[0]]) + Escape(s[1..])
  }

  /** The reading side: every pair of double quotes becomes one. */
  function Unescape(t: string): string {
    if t == [] then []
    else if |t| >= 2 && t[0] == '"' && t[1] == '"' then "\"" + Unescape(t[2..])
    else [t[0]] + Unescape(t[1..])
  }

  /** The inside of an escaped field: double quotes occur only in pairs. */
  predicate WellEscaped(t: string) {
    if t == [] then true
    else if t[0] == '"' then |t| >= 2 && t[1] == '"' && WellEscaped(t[2..])
    else WellEscaped(t[1..])
  }

  lemma {:induction false} EscapeIsWellEscaped(s: string)
    ensures WellEscaped(Escape(s))
  {
    if s != [] {
      EscapeIsWellEscaped(s[1..]);
      var t := Escape(s);
      if s[0] == '"' {
        assert t[2..] == Escape(s[1..]);
      } else {
        assert t[1..] == Escape(s[1..]);
      }
    }
  }

  lemma {:induction false} UnescapeEscape(s: string)
    ensures Unescape(Escape(s)) == s
  {
    if s != [] {
      UnescapeEscape(s[1..]);
      var t := Escape(s);
      if s[0] == '"' {
        assert t[2..] == Escape(s[1..]);
      } else {
        assert t[1..] == Escape(s[1..]);
      }
      assert [s[0]] + s[1..] == s;
    }
  }

  lemma {:induction false} EscapeUnescape(t: string)
    requires WellEscaped(t)
    ensures Escape(Unescape(t)) == t
  {
    if t != [] {
      if t[0] == '"' {
        EscapeUnescape(t[2..]);
        assert ("\"" + Unescape(t[2..]))[1..] == Unescape(t[2..]);
        assert t == "\"\"" + t[2..];
      } else {
        EscapeUnescape(t[1..]);
        assert ([t[0]] + Unescape(t[1..]))[1..] == Unescape(t[1..]);
        assert t == [t[0]] + t[1..];
      }
    }
  }

  /** The comments column: the escaped comment enclosed in double quotes. */
  function QuoteField(s: string): (q: string)
    ensures |q| >= 2 && q[0] == '"' && q[|q| - 1] == '"' && WellEscaped(q[1..|q| - 1])
  {
    EscapeIsWellEscaped(s);
    var q := "\"" + Escape(s) + "\"";
    assert q[1..|q| - 1] == Escape(s);
    q
  }

  /** Reading an escaped field back; `None` for a value that is not enclosed in double quotes. */
  function UnquoteField(q: string): Option<string> {
    if |q| >= 2 && q[0] == '"' && q[|q| - 1] == '"' then Some(Unescape(q[1..|q| - 1])) else None
  }

  /** Removing the enclosing quotes and halving the doubled ones gives back the comment. */
  lemma QuoteRoundTrip(s: string)
    ensures UnquoteField(QuoteField(s)) == Some(s)
  {
    var q := QuoteField(s);
    assert q[1..|q| - 1] == Escape(s);
    UnescapeEscape(s);
  }

  /** Every escaped field is the quoting of exactly one comment. */
  lemma QuoteFieldOnto(q: string)
    requires |q| >= 2 && q[0] == '"' && q[|q| - 1] == '"' && WellEscaped(q[1..|q| - 1])
    ensures QuoteField(Unescape(q[1..|q| - 1])) == q
  {
    EscapeUnescape(q[1..|q| - 1]);
    assert q == "\"" + q[1..|q| - 1] + "\"";
  }

  // ---------------------------------------------------------------------------
  // The CSV text

  const Header: seq<string> := ["满意度", "效率评分", "付费意愿", "评论", "可访谈", "时间"]

  /** No efficiency rating and the rating 0 both give an empty field. */
  function EfficiencyCell(e: Option<int>): string {
    if e.None? || e.value == 0 then "" else IntToString(e.value)
  }

  /** No willingness answer and the empty answer both give an empty field. */
  function WillingnessCell(w: Option<string>): string {
    if w.None? || w.value == "" then "" else w.value
  }

  /** "是" (yes) only for a true interview flag, "否" (no) for false and for none. */
  function InterviewCell(b: Option<bool>): string {
    if b == Some(true) then "是" else "否"
  }

  /** The six fields of one feedback's line; `fmt` is the locale formatting of the timestamp. */
  function Cells(f: FeedbackRow, fmt: string -> string): (cells: seq<string>)
    ensures |cells| == |Header|
  {
    [IntToString(f.satisfactionRating), EfficiencyCell(f.efficiencyRating), WillingnessCell(f.willingnessToPay),
     QuoteField(f.comments.GetOr("")), InterviewCell(f.interviewAvailable), fmt(f.createdAt)]
  }

  /** The lines of the export: the header, then one line per feedback row in order. */
  function CsvLines(fb: seq<FeedbackRow>, fmt: string -> string): (lines: seq<string>)
    ensures |lines| == 1 + |fb|
  {
    [Join(Header, ",")] + seq(|fb|, k requires 0 <= k < |fb| => Join(Cells(fb[k], fmt), ","))
  }

  /** The text `exportFeedback` downloads, before the byte-order mark is put in front. */
  function Csv(fb: seq<FeedbackRow>, fmt: string -> string): (text: string)
    ensures fb == [] ==> text == Join(Header, ",")
    ensures fb != [] ==> Join(Header, ",") + "\n" <= text
  {
    Join(CsvLines(fb, fmt), "\n")
  }

  /** The export button is enabled when there is a feedback row. */
  predicate ExportEnabled(fb: seq<FeedbackRow>) {
    |fb| != 0
  }

  /** The header reads back as its six column names. */
  lemma HeaderColumns()
    ensures Split(Join(Header, ","), ',') == Header && |Header| == 6
  {
    SplitJoin(Header, ',');
  }

  /** No text the user typed and no formatted timestamp holds `c`. */
  predicate TypedTextAvoids(fb: seq<FeedbackRow>, fmt: string -> string, c: char) {
    forall k :: 0 <= k < |fb| ==>
      && c !in fb[k].willingnessToPay.GetOr("") && c !in fb[k].comments.GetOr("") && c !in fmt(fb[k].createdAt)
  }

  lemma CellsAvoid(f: FeedbackRow, fmt: string -> string, c: char)
    requires c != '"' && c != '-' && !IsDigit(c) && c != '是' && c != '否'
    requires c !in f.willingnessToPay.GetOr("") && c !in f.comments.GetOr("") && c !in fmt(f.createdAt)
    ensures forall i :: 0 <= i < |Cells(f, fmt)| ==> c !in Cells(f, fmt)[i]
  {
    var s := f.comments.GetOr("");
    assert QuoteField(s) == "\"" + Escape(s) + "\"";
  }

  /** Splitting a feedback line at its commas gives its six fields back,
      provided the typed text and the timestamp hold no comma. */
  lemma RowColumns(f: FeedbackRow, fmt: string -> string)
    requires ',' !in f.willingnessToPay.GetOr("") && ',' !in f.comments.GetOr("") && ',' !in fmt(f.createdAt)
    ensures Split(Join(Cells(f, fmt), ","), ',') == Cells(f, fmt)
  {
    CellsAvoid(f, fmt, ',');
    SplitJoin(Cells(f, fmt), ',');
  }

  /** Splitting the export at its line feeds gives the header and one line per
      feedback row, provided no typed text and no timestamp holds a line feed. */
  lemma CsvLinesBack(fb: seq<FeedbackRow>, fmt: string -> string)
    requires TypedTextAvoids(fb, fmt, '\n')
    ensures Split(Csv(fb, fmt), '\n') == CsvLines(fb, fmt)
    ensures |Split(Csv(fb, fmt), '\n')| == 1 + |fb|
  {
    var lines := CsvLines(fb, fmt);
    JoinAvoids(Header, ",", '\n');
    forall k | 1 <= k < |lines|
      ensures '\n' !in lines[k]
    {
      CellsAvoid(fb[k - 1], fmt, '\n');
      JoinAvoids(Cells(fb[k - 1], fmt), ",", '\n');
    }
    SplitJoin(lines, '\n');
  }

  /** The export holds a feedback line exactly when the export button is enabled. */
  lemma ExportEnabledIff(fb: seq<FeedbackRow>, fmt: string -> string)
    ensures ExportEnabled(fb) <==> |CsvLines(fb, fmt)| > 1
  {
  }

  /** A feedback as the report page submits it is exported with the values the
      user chose: an unset efficiency or willingness gives an empty field, the
      comment is the quoted text, and the interview flag is "是" or "否". */
  lemma SubmittedFeedbackExport(reportId: string, userId: string, satisfaction: int, efficiency: int,
                                willingness: string, comments: string, interviewAvailable: bool,
                                createdAt: string, fmt: string -> string)
    ensures var f := ReportPage.FeedbackPayload(reportId, userId, satisfaction, efficiency, willingness,
                                               comments, interviewAvailable, createdAt);
      Cells(f, fmt) == [IntToString(satisfaction), if efficiency == 0 then "" else IntToString(efficiency),
                        willingness, QuoteField(comments), if interviewAvailable then "是" else "否", fmt(createdAt)]
  {
  }
}
