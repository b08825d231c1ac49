/** The status badge the operator queue and the user's dashboard draw for a
    contract: a completed badge, a processing badge, and the pending badge for
    every other status. */
module Badges {
  import opened Backend

  datatype StatusBadge = CompletedBadge | ProcessingBadge | PendingBadge

  /** The `switch` on the status: only "completed" and "processing" have a badge of their own. */
  function BadgeFor(status: string): (b: StatusBadge)
    ensures b == CompletedBadge <==> status == Completed
    ensures b == ProcessingBadge <==> status == Processing
    ensures b == PendingBadge <==> status != Completed && status != Processing
  {
    match status
    case "completed" => CompletedBadge
    case "processing" => ProcessingBadge
    case _ => PendingBadge
  }
}
