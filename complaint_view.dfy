/** The complaint detail component: the status badge, the actions each
    status offers, and its own assign and drop dialogs. The `onAssign` and
    `onDrop` callbacks become the requests it returns. */
module ComplaintView {
  import opened Optional
  import opened Text

  /** The badge colours. */
  datatype Badge = YellowBadge | BlueBadge | GreenBadge | GrayBadge | RedBadge

  /** `getStatusBadgeClass`: chosen on the lowered status, gray for any
      status it does not know. */
  function StatusBadge(status: string): Badge {
    var s := Lower(status);
    if s == "pending" then YellowBadge
    else if s == "assigned" then BlueBadge
    else if s == "resolved" then GreenBadge
    else if s == "closed" then GrayBadge
    else if s == "dropped" then RedBadge
    else GrayBadge
  }

  /** The badge ignores case. */
  lemma BadgeIgnoresCase(status: string)
    ensures StatusBadge(status) == StatusBadge(Lower(status))
  {
    LowerIdempotent(status);
  }

  /** The buttons of the Actions card. */
  datatype Action = AssignToStaff | DropComplaint | MarkClosed

  /** The actions for a status, compared exactly. */
  function Actions(status: string): seq<Action> {
    if status == "pending" then [AssignToStaff, DropComplaint]
    else if status == "assigned" then [DropComplaint]
    else if status == "resolved" then [MarkClosed]
    else []
  }

  /** The actions table: only a pending complaint can be assigned, pending
      and assigned ones can be dropped, only a resolved one can be closed,
      and nothing else offers anything. */
  lemma ActionsTable(status: string)
    ensures AssignToStaff in Actions(status) <==> status == "pending"
    ensures DropComplaint in Actions(status) <==> status == "pending" || status == "assigned"
    ensures MarkClosed in Actions(status) <==> status == "resolved"
    ensures Actions(status) == [] <==> status != "pending" && status != "assigned" && status != "resolved"
  {
  }

  /** Every status that offers an action shows a coloured badge, but the
      badge lowers the status and the actions do not: 'Pending' is yellow
      and offers nothing. */
  lemma ActionsAreCaseSensitive(status: string)
    ensures Actions(status) != [] ==> StatusBadge(status) in {YellowBadge, BlueBadge, GreenBadge}
    ensures StatusBadge("Pending") == YellowBadge && Actions("Pending") == []
  {
    assert Lower("pending") == "pending";
    assert Lower("assigned") == "assigned";
    assert Lower("resolved") == "resolved";
    assert Lower("Pending") == "pending";
  }

  /** What the component asks of its parent. */
  datatype Request = AssignRequest(complaintId: string, staffId: string) | DropRequest(complaintId: string, reason: string)

  /** The string 'Mark as Closed' passes as the staff id. */
  const CloseMarker := "close"

  class ComplaintDetailView {
    var showAssignModal: bool
    var showDropModal: bool
    var dropReason: string
    var selectedStaffId: string

    constructor ()
      ensures !showAssignModal && !showDropModal && dropReason == "" && selectedStaffId == ""
    {
      showAssignModal := false;
      showDropModal := false;
      dropReason := "";
      selectedStaffId := "";
    }

    /** A click on one of the offered buttons: assign and drop open their
        dialogs, 'Mark as Closed' asks for an assignment to 'close'. */
    method Perform(complaintId: string, status: string, action: Action) returns (request: Option<Request>)
      requires action in Actions(status)
      modifies this
      ensures action == AssignToStaff ==> request.None? && showAssignModal && showDropModal == old(showDropModal)
      ensures action == DropComplaint ==> request.None? && showDropModal && showAssignModal == old(showAssignModal)
      ensures action == MarkClosed ==>
        request == Some(AssignRequest(complaintId, CloseMarker))
        && showAssignModal == old(showAssignModal) && showDropModal == old(showDropModal)
      ensures dropReason == old(dropReason) && selectedStaffId == old(selectedStaffId)
    {
      match action {
        case AssignToStaff =>
          showAssignModal := true;
          request := None;
        case DropComplaint =>
          showDropModal := true;
          request := None;
        case MarkClosed =>
          request := Some(AssignRequest(complaintId, CloseMarker));
      }
    }

    method SelectStaff(staffId: string)
      modifies this
      ensures selectedStaffId == staffId
      ensures showAssignModal == old(showAssignModal) && showDropModal == old(showDropModal) && dropReason == old(dropReason)
    {
      selectedStaffId := staffId;
    }

    method SetDropReason(text: string)
      modifies this
      ensures dropReason == text
      ensures showAssignModal == old(showAssignModal) && showDropModal == old(showDropModal) && selectedStaffId == old(selectedStaffId)
    {
      dropReason := text;
    }

    /** `handleAssignSubmit`: with a selection, asks for the assignment and
        closes the dialog; without one, does nothing. */
    method HandleAssignSubmit(complaintId: string) returns (request: Option<Request>)
      modifies this
      ensures request.Some? <==> selectedStaffId != ""
      ensures request.Some? ==> request.value == AssignRequest(complaintId, selectedStaffId) && !showAssignModal
      ensures request.None? ==> showAssignModal == old(showAssignModal)
      ensures showDropModal == old(showDropModal) && dropReason == old(dropReason) && selectedStaffId == old(selectedStaffId)
    {
      request := None;
      if selectedStaffId != "" {
        request := Some(AssignRequest(complaintId, selectedStaffId));
        showAssignModal := false;
      }
    }

    /** `handleDropSubmit`: any non-empty reason, blank or not, is sent as
        typed and closes the dialog; an empty one does nothing. */
    method HandleDropSubmit(complaintId: string) returns (request: Option<Request>)
      modifies this
      ensures request.Some? <==> dropReason != ""
      ensures request.Some? ==> request.value == DropRequest(complaintId, dropReason) && !showDropModal
      ensures request.None? ==> showDropModal == old(showDropModal)
      ensures showAssignModal == old(showAssignModal) && dropReason == old(dropReason) && selectedStaffId == old(selectedStaffId)
    {
      request := None;
      if dropReason != "" {
        request := Some(DropRequest(complaintId, dropReason));
        showDropModal := false;
      }
    }

    method CloseAssignModal()
      modifies this
      ensures !showAssignModal
      ensures showDropModal == old(showDropModal) && dropReason == old(dropReason) && selectedStaffId == old(selectedStaffId)
    {
      showAssignModal := false;
    }

    method CloseDropModal()
      modifies this
      ensures !showDropModal
      ensures showAssignModal == old(showAssignModal) && dropReason == old(dropReason) && selectedStaffId == old(selectedStaffId)
    {
      showDropModal := false;
    }
  }
}
