/** The operator queue: the role gate in front of it and the three tabs the
    fetched contracts are split into. */
module AdminQueue {
  import opened Wrappers
  import opened Backend
  import opened Badges

  predicate IsStaffRole(role: string) {
    role == "admin" || role == "operator"
  }

  /** The first staff role of the user, none when the query returned no data
      or no staff role. */
  function FindRole(roles: Option<seq<string>>): (r: Option<string>)
    ensures r.None? <==> (roles.None? || forall k :: 0 <= k < |roles.value| ==> !IsStaffRole(roles.value[k]))
    ensures r.Some? ==> exists k :: 0 <= k < |roles.value| && roles.value[k] == r.value
                                 && IsStaffRole(r.value) && forall j :: 0 <= j < k ==> !IsStaffRole(roles.value[j])
  {
    if roles.None? then None else FirstStaffRole(roles.value, 0)
  }

  function FirstStaffRole(roles: seq<string>, from: nat): (r: Option<string>)
    requires from <= |roles|
    ensures r.None? <==> forall k :: from <= k < |roles| ==> !IsStaffRole(roles[k])
    ensures r.Some? ==> exists k :: from <= k < |roles| && roles[k] == r.value
                                 && IsStaffRole(r.value) && forall j :: from <= j < k ==> !IsStaffRole(roles[j])
    decreases |roles| - from
  {
    if from == |roles| then None
    else if IsStaffRole(roles[from]) then Some(roles[from])
    else FirstStaffRole(roles, from + 1)
  }

  /** The contracts of one status, in the order they were fetched. */
  function WithStatus(cs: seq<Contract>, status: string): (r: seq<Contract>)
    ensures |r| <= |cs|
    ensures forall k :: 0 <= k < |r| ==> r[k].status == status
    ensures forall c :: c in r <==> c in cs && c.status == status
  {
    if cs == [] then []
    else (if cs[0].status == status then [cs[0]] else []) + WithStatus(cs[1..], status)
  }

  /** The three tabs of the queue. */
  datatype Tabs = Tabs(pending: seq<Contract>, processing: seq<Contract>, completed: seq<Contract>)

  /** Each tab holds exactly the fetched contracts of its status. */
  function Partition(cs: seq<Contract>): (tabs: Tabs)
    ensures forall c :: c in tabs.pending <==> c in cs && c.status == Pending
    ensures forall c :: c in tabs.processing <==> c in cs && c.status == Processing
    ensures forall c :: c in tabs.completed <==> c in cs && c.status == Completed
  {
    Tabs(WithStatus(cs, Pending), WithStatus(cs, Processing), WithStatus(cs, Completed))
  }

  /** What `checkRoleAndFetch` leads to: a user without a staff role is sent
      to the dashboard and no contracts are fetched; otherwise the fetched
      contracts (none when the query returned no data) fill the tabs. */
  datatype Access = RedirectToDashboard | Granted(role: string, tabs: Tabs)

  function CheckRoleAndFetch(roles: Option<seq<string>>, fetched: Option<seq<Contract>>): (a: Access)
    ensures a.RedirectToDashboard? <==> FindRole(roles).None?
    ensures a.Granted? ==> IsStaffRole(a.role) && roles.Some? && a.role in roles.value
    ensures a.Granted? ==> a.tabs == Partition(fetched.GetOr([]))
  {
    match FindRole(roles)
    case None => RedirectToDashboard
    case Some(role) => Granted(role, Partition(fetched.GetOr([])))
  }

  /** Access is granted exactly when some role of the user is "admin" or "operator". */
  lemma AccessIff(roles: Option<seq<string>>, fetched: Option<seq<Contract>>)
    ensures CheckRoleAndFetch(roles, fetched).Granted? <==>
      roles.Some? && ("admin" in roles.value || "operator" in roles.value)
  {
    if roles.Some? && ("admin" in roles.value || "operator" in roles.value) {
      var k :| 0 <= k < |roles.value| && IsStaffRole(roles.value[k]);
    }
  }

  /** Each tab keeps the fetched order: filtering a list made of two parts
      gives the filtered first part followed by the filtered second part. */
  lemma {:induction false} WithStatusAppend(a: seq<Contract>, b: seq<Contract>, status: string)
    ensures WithStatus(a + b, status) == WithStatus(a, status) + WithStatus(b, status)
  {
    if a == [] {
      assert a + b == b;
    } else {
      assert (a + b)[0] == a[0] && (a + b)[1..] == a[1..] + b;
      WithStatusAppend(a[1..], b, status);
    }
  }

  /** The four status filters together never hold more rows than were fetched: no contract is counted twice. */
  lemma {:induction false} WithStatusLengths(cs: seq<Contract>)
    ensures |WithStatus(cs, Pending)| + |WithStatus(cs, Processing)| + |WithStatus(cs, Completed)|
            + |WithStatus(cs, Expired)| <= |cs|
  {
    if cs != [] {
      WithStatusLengths(cs[1..]);
    }
  }

  /** The tabs are pairwise disjoint, hold every pending, processing or
      completed contract and no other, together hold at most the fetched
      contracts, and an "expired" contract is in none of them. */
  lemma PartitionProperties(cs: seq<Contract>)
    ensures var t := Partition(cs);
      && (forall c :: c in t.pending ==> c !in t.processing && c !in t.completed)
      && (forall c :: c in t.processing ==> c !in t.completed)
      && (forall c :: c in cs ==> (c in t.pending || c in t.processing || c in t.completed
                                   <==> c.status in {Pending, Processing, Completed}))
      && |t.pending| + |t.processing| + |t.completed| <= |cs|
      && (forall c :: c in cs && c.status == Expired ==> c !in t.pending && c !in t.processing && c !in t.completed)
  {
    WithStatusLengths(cs);
  }

  /** The button of a queue entry reads "view report" for a completed
      contract and "fill in report" for every other. */
  function ActionLabel(status: string): (text: string)
    ensures text == "查看报告" <==> status == Completed
    ensures text == "填写报告" <==> status != Completed
  {
    if status == Completed then "查看报告" else "填写报告"
  }
}
