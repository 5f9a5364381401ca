/**
 * What the order lists share: the one action button a listed order offers, which
 * moves it one step along the pickup workflow, and the colour of its status badge
 * (the same table appears in the orders list, the dashboard and the tracking page).
 */
module OrderActions {
  import opened Common
  import opened Records
  import opened Formatters

  /** The status the action button of a listed order moves it to, if there is a button. */
  function NextStatus(status: string): (r: Option<string>)
    ensures r == Some(Completed) <==> status == Pending
    ensures r == Some(PickedUp) <==> status == Completed
    ensures r.None? <==> status != Pending && status != Completed
  {
    if status == Pending then Some(Completed)
    else if status == Completed then Some(PickedUp)
    else None
  }

  /** The place of a status on the pickup workflow; `cancelled` and unknown text have none. */
  function Stage(status: string): Option<nat>
  {
    if status == Pending then Some(0)
    else if status == Completed then Some(1)
    else if status == PickedUp then Some(2)
    else None
  }

  /**
   * A button always moves an order exactly one stage forward: never back to
   * `pending`, never to `cancelled`, never to the status it already has.
   */
  lemma NextStatusAdvances(status: string)
    ensures NextStatus(status).Some? ==>
      && Stage(status).Some? && Stage(NextStatus(status).value).Some?
      && Stage(NextStatus(status).value).value == Stage(status).value + 1
    ensures NextStatus(status) != Some(Pending) && NextStatus(status) != Some(Cancelled)
  {
  }

  /** Following the buttons from any status ends after at most two presses. */
  lemma WorkflowEnds(status: string)
    ensures NextStatus(status).Some? && NextStatus(NextStatus(status).value).Some? ==>
      && status == Pending
      && NextStatus(NextStatus(status).value).value == PickedUp
      && NextStatus(NextStatus(NextStatus(status).value).value).None?
  {
  }

  const GrayBadge: string := "bg-gray-100 text-gray-800"

  /** `getStatusBadgeColor`: a colour per known status, gray for anything else. */
  function BadgeColor(status: string): (r: string)
    ensures r == GrayBadge <==> !IsKnownStatus(status)
  {
    if status == Pending then "bg-yellow-100 text-yellow-800"
    else if status == Completed then "bg-green-100 text-green-800"
    else if status == PickedUp then "bg-blue-100 text-blue-800"
    else if status == Cancelled then "bg-red-100 text-red-800"
    else GrayBadge
  }

  /** The badge tells the four statuses apart. */
  lemma BadgeColorsDistinct(a: string, b: string)
    requires IsKnownStatus(a) && IsKnownStatus(b) && a != b
    ensures BadgeColor(a) != BadgeColor(b)
  {
  }
}
