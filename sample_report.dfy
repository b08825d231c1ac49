/** The public sample report: the fixed sample data, the list of expanded
    risk cards and the icon and badge tier of a risk level. */
module SampleReport {

  /** Every element that differs from `id`, in order. */
  function RemoveAll(prev: seq<int>, id: int): (r: seq<int>)
    ensures id !in r
    ensures forall x :: x != id ==> (x in r <==> x in prev)
    ensures id !in prev ==> r == prev
  {
    if prev == [] then []
    else (if prev[0] == id then [] else [prev[0]]) + RemoveAll(prev[1..], id)
  }

  lemma {:induction false} RemoveAllAppend(a: seq<int>, b: seq<int>, id: int)
    ensures RemoveAll(a + b, id) == RemoveAll(a, id) + RemoveAll(b, id)
  {
    if a == [] {
      assert a + b == b;
    } else {
      assert (a + b)[0] == a[0] && (a + b)[1..] == a[1..] + b;
      RemoveAllAppend(a[1..], b, id);
    }
  }

  /** `toggleRisk`: an expanded card is collapsed (every occurrence of its
      id is removed), a collapsed one is expanded (its id is appended). */
  function Toggle(prev: seq<int>, id: int): (next: seq<int>)
    ensures id in next <==> id !in prev
  {
    if id in prev then RemoveAll(prev, id) else prev + [id]
  }

  /** Toggling flips whether `id` is expanded and leaves every other card as it was. */
  lemma ToggleFlips(prev: seq<int>, id: int)
    ensures id in Toggle(prev, id) <==> id !in prev
    ensures forall x :: x != id ==> (x in Toggle(prev, id) <==> x in prev)
  {
  }

  /** Expanding a collapsed card and collapsing it again gives back the list exactly. */
  lemma ToggleTwiceRestores(prev: seq<int>, id: int)
    requires id !in prev
    ensures Toggle(Toggle(prev, id), id) == prev
  {
    RemoveAllAppend(prev, [id], id);
    assert RemoveAll([id], id) == [];
  }

  /** Cards 1 and 2 start expanded. */
  const InitialExpanded: seq<int> := [1, 2]

  datatype SampleRisk = SampleRisk(id: int, level: string, title: string)

  /** The six risks of the sample report, in the order they are listed. */
  const Risks: seq<SampleRisk> := [
    SampleRisk(1, "high", "保密期限过长"),
    SampleRisk(2, "high", "违约金条款过高"),
    SampleRisk(3, "medium", "保密信息定义过于宽泛"),
    SampleRisk(4, "medium", "单方解除权不平等"),
    SampleRisk(5, "medium", "争议解决条款不利"),
    SampleRisk(6, "low", "通知送达方式可优化")
  ]

  datatype Distribution = Distribution(high: nat, medium: nat, low: nat)

  /** The `riskDistribution` the summary bars show. */
  const RiskDistribution := Distribution(2, 3, 1)

  /** The divisor of a bar's width. */
  const BarTotal := 6

  function CountLevel(rs: seq<SampleRisk>, level: string): (n: nat)
    ensures n <= |rs|
  {
    if rs == [] then 0 else (if rs[0].level == level then 1 else 0) + CountLevel(rs[1..], level)
  }

  /** The sample data agrees with itself: the distribution counts the risks of
      each level, its total is the bar divisor and the number of risks, the ids
      are 1 to 6 without repetition, and the initially expanded ids are ids of risks. */
  lemma SampleDataConsistent()
    ensures CountLevel(Risks, "high") == RiskDistribution.high
    ensures CountLevel(Risks, "medium") == RiskDistribution.medium
    ensures CountLevel(Risks, "low") == RiskDistribution.low
    ensures RiskDistribution.high + RiskDistribution.medium + RiskDistribution.low == BarTotal == |Risks|
    ensures forall k :: 0 <= k < |Risks| ==> Risks[k].id == k + 1
    ensures forall i :: 0 <= i < |InitialExpanded| ==> 1 <= InitialExpanded[i] <= |Risks|
  {
    assert Risks[1..][1..][1..][1..][1..][1..] == [];
  }

  /** The icon and badge of a risk level. */
  datatype Tier = HighTier | MediumTier | LowTier

  /** `getRiskIcon` and `getRiskBadge` share this switch: "high" and
      "medium" have their own tier, every other level falls to the low one. */
  function RiskTier(level: string): (t: Tier)
    ensures t == HighTier <==> level == "high"
    ensures t == MediumTier <==> level == "medium"
    ensures t == LowTier <==> level != "high" && level != "medium"
  {
    match level
    case "high" => HighTier
    case "medium" => MediumTier
    case _ => LowTier
  }

  /** Every sample risk is drawn in the tier of its own level, and the tiers
      of the sample report cover all three. */
  lemma SampleTiers()
    ensures forall k :: 0 <= k < |Risks| ==> Risks[k].level in {"high", "medium", "low"}
    ensures RiskTier(Risks[0].level) == HighTier && RiskTier(Risks[2].level) == MediumTier
    ensures RiskTier(Risks[5].level) == LowTier
  {
  }
}
