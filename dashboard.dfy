/** The user's dashboard: the time left before a contract's retention window
    ends, its status badge, its type label and whether it links to a report.
    The difference between the expiry time and now is passed in as whole
    milliseconds. */
module Dashboard {
  import opened Strings
  import opened Backend
  import opened Badges

  const MillisPerHour := 1000 * 60 * 60
  const MillisPerMinute := 1000 * 60

  /** Whole hours left, and whole minutes left over after the hours, for a positive `diff`. */
  function HoursLeft(diff: int): (h: nat)
    requires diff > 0
    ensures h * MillisPerHour <= diff < (h + 1) * MillisPerHour
  {
    diff / MillisPerHour
  }

  function MinutesLeft(diff: int): (m: nat)
    requires diff > 0
    ensures m < 60
    ensures HoursLeft(diff) * MillisPerHour + m * MillisPerMinute <= diff
    ensures diff < HoursLeft(diff) * MillisPerHour + (m + 1) * MillisPerMinute
  {
    (diff % MillisPerHour) / MillisPerMinute
  }

  /** "<h>小时<m>分钟": the hours, "hours", the minutes, "minutes". */
  function HoursMinutesText(h: nat, m: nat): string {
    NatToString(h) + ("小时" + (NatToString(m) + "分钟"))
  }

  /** `getTimeRemaining`: "expired" once the difference is not positive,
      otherwise "<hours>小时<minutes>分钟" (hours, minutes). */
  function TimeRemaining(diff: int): (text: string)
    ensures text == "已过期" <==> diff <= 0
    ensures diff > 0 ==> text == HoursMinutesText(HoursLeft(diff), MinutesLeft(diff))
  {
    if diff <= 0 then "已过期"
    else IntToString(HoursLeft(diff)) + "小时" + IntToString(MinutesLeft(diff)) + "分钟"
  }

  /** The number of whole minutes left is hours times 60 plus minutes. */
  lemma MinutesTotal(diff: int)
    requires diff > 0
    ensures diff / MillisPerMinute == HoursLeft(diff) * 60 + MinutesLeft(diff)
  {
    var q := HoursLeft(diff) * 60 + MinutesLeft(diff);
    assert q * MillisPerMinute == HoursLeft(diff) * MillisPerHour + MinutesLeft(diff) * MillisPerMinute;
    DivInMinute(diff, q);
  }

  lemma DivInMinute(d: int, q: int)
    requires q * MillisPerMinute <= d < (q + 1) * MillisPerMinute
    ensures d / MillisPerMinute == q
  {
  }

  /** Hours and minutes below 60 are determined by their total in minutes. */
  lemma PairFromTotal(h1: nat, m1: nat, h2: nat, m2: nat)
    requires m1 < 60 && m2 < 60 && h1 * 60 + m1 == h2 * 60 + m2
    ensures h1 == h2 && m1 == m2
  {
  }

  /** Two positive differences give the same text exactly when they fall in the same minute. */
  lemma TimeRemainingSameMinute(d1: int, d2: int)
    requires d1 > 0 && d2 > 0
    ensures TimeRemaining(d1) == TimeRemaining(d2) <==> d1 / MillisPerMinute == d2 / MillisPerMinute
  {
    MinutesTotal(d1);
    MinutesTotal(d2);
    if TimeRemaining(d1) == TimeRemaining(d2) {
      TextDeterminesPair(HoursLeft(d1), MinutesLeft(d1), HoursLeft(d2), MinutesLeft(d2));
    }
    if d1 / MillisPerMinute == d2 / MillisPerMinute {
      PairFromTotal(HoursLeft(d1), MinutesLeft(d1), HoursLeft(d2), MinutesLeft(d2));
    }
  }

  /** The rendering "<h>小时<m>分钟" can be read back: hours and minutes are determined by the text. */
  lemma TextDeterminesPair(h1: nat, m1: nat, h2: nat, m2: nat)
    requires HoursMinutesText(h1, m1) == HoursMinutesText(h2, m2)
    ensures h1 == h2 && m1 == m2
  {
    var s1, s2, r1, r2 := NatToString(h1), NatToString(h2), NatToString(m1), NatToString(m2);
    DigitsPrefixUnique(s1, "小时" + (r1 + "分钟"), s2, "小时" + (r2 + "分钟"));
    assert ("小时" + (r1 + "分钟"))[2..] == r1 + "分钟";
    assert ("小时" + (r2 + "分钟"))[2..] == r2 + "分钟";
    DigitsPrefixUnique(r1, "分钟", r2, "分钟");
    NatToStringInjective(h1, h2);
    NatToStringInjective(m1, m2);
  }

  /** `getStatusBadge`: "expired" and every other status besides
      "completed" and "processing" show the pending badge. */
  lemma StatusBadgeCases(status: string)
    ensures status == Expired ==> BadgeFor(status) == PendingBadge
    ensures BadgeFor(status) != PendingBadge <==> status == Completed || status == Processing
  {
  }

  /** `getContractTypeLabel`: the NDA label exactly for "nda", the trial-agreement label otherwise. */
  function ContractTypeLabel(contractType: string): (text: string)
    ensures text == "保密协议 (NDA)" <==> contractType == "nda"
    ensures text == "试用协议" <==> contractType != "nda"
  {
    if contractType == "nda" then "保密协议 (NDA)" else "试用协议"
  }

  /** The "view report" link is shown exactly for a completed contract. */
  function ShowsReportLink(c: Contract): (shown: bool)
    ensures shown <==> c.status == Completed
    ensures shown ==> BadgeFor(c.status) == CompletedBadge
  {
    c.status == Completed
  }
}
