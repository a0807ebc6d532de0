/** The complaint detail page: it loads one complaint, offers assign and
    drop while the complaint is pending, and updates its local copy when
    the server accepts an action. Each API call becomes its outcome, passed
    in; the timer that clears the success message is one `ClearSuccess`. */
module ComplaintPage {
  import opened Optional
  import opened Text
  import opened AssignModal

  datatype Complaint = Complaint(id: string, title: string, status: string,
                                 assignedTo: Option<StaffMember>, dropReason: Option<string>)

  const StaffShown := 3

  /** `data.slice(0, 3)`: the first three staff returned, or all of them. */
  function TopStaff(data: seq<StaffMember>): (r: seq<StaffMember>)
    ensures |r| == if |data| < StaffShown then |data| else StaffShown
    ensures r == data[..|r|]
  {
    if |data| < StaffShown then data else data[..StaffShown]
  }

  /** `staffList.find(staff => staff.id === staffId)`; an undefined id
      matches no entry. */
  function FindStaff(staffList: seq<StaffMember>, staffId: Option<string>): (r: Option<StaffMember>)
    ensures staffId.None? ==> r.None?
    ensures r.Some? ==> r.value in staffList && staffId == Some(r.value.id)
    ensures r.Some? ==> exists k :: (0 <= k < |staffList| && staffList[k] == r.value
      && forall j :: 0 <= j < k ==> staffId != Some(staffList[j].id))
    ensures (exists s :: s in staffList && staffId == Some(s.id)) ==> r.Some?
    decreases |staffList|
  {
    if staffList == [] then None
    else if staffId == Some(staffList[0].id) then Some(staffList[0])
    else FindStaff(staffList[1..], staffId)
  }

  const AssignedMessage := "Complaint assigned successfully"
  const DroppedMessage := "Complaint dropped successfully"
  const FetchFailedMessage := "Failed to fetch complaint details"
  const StaffFailedMessage := "Failed to load staff list"
  const AssignFailedMessage := "Failed to assign complaint"
  const DropFailedMessage := "Failed to drop complaint"
  const ReasonMissingMessage := "Please provide a reason for dropping the complaint"

  class ComplaintDetailPage {
    /** The route's `id`. */
    const id: string
    var complaint: Option<Complaint>
    var loading: bool
    var error: Option<string>
    var staffList: seq<StaffMember>
    var loadingStaff: bool
    var showAssignModal: bool
    var showDropModal: bool
    var dropReason: string
    var processing: bool
    var actionSuccess: string
    var actionError: string

    constructor (id: string)
      ensures this.id == id && complaint.None? && loading && error.None?
      ensures staffList == [] && !loadingStaff && !showAssignModal && !showDropModal
      ensures dropReason == "" && !processing && actionSuccess == "" && actionError == ""
    {
      this.id := id;
      complaint := None;
      loading := true;
      error := None;
      staffList := [];
      loadingStaff := false;
      showAssignModal := false;
      showDropModal := false;
      dropReason := "";
      processing := false;
      actionSuccess := "";
      actionError := "";
    }

    /** The Assign and Drop buttons are rendered exactly when the loaded
        complaint is pending. */
    predicate ShowsActions()
      reads this
    {
      !loading && error.None? && complaint.Some? && complaint.value.status == "pending"
    }

    /** The fetch effect, given what `getComplaintById` returned (None when it threw). */
    method FetchDetails(data: Option<Complaint>)
      modifies this
      ensures !loading
      ensures data.Some? ==> complaint == data && error == old(error)
      ensures data.None? ==> complaint == old(complaint) && error == Some(FetchFailedMessage)
      ensures staffList == old(staffList) && actionError == old(actionError) && actionSuccess == old(actionSuccess)
      ensures showAssignModal == old(showAssignModal) && showDropModal == old(showDropModal)
      ensures dropReason == old(dropReason) && processing == old(processing) && loadingStaff == old(loadingStaff)
    {
      loading := true;
      if data.Some? {
        complaint := data;
      } else {
        error := Some(FetchFailedMessage);
      }
      loading := false;
    }

    /** `loadStaffList`, given what `getStaffList` returned (None when it threw). */
    method LoadStaffList(data: Option<seq<StaffMember>>)
      modifies this
      ensures !loadingStaff
      ensures data.Some? ==> staffList == TopStaff(data.value) && actionError == old(actionError)
      ensures data.None? ==> staffList == old(staffList) && actionError == StaffFailedMessage
      ensures complaint == old(complaint) && loading == old(loading) && error == old(error)
      ensures showAssignModal == old(showAssignModal) && showDropModal == old(showDropModal)
      ensures dropReason == old(dropReason) && processing == old(processing) && actionSuccess == old(actionSuccess)
    {
      loadingStaff := true;
      if data.Some? {
        staffList := TopStaff(data.value);
      } else {
        actionError := StaffFailedMessage;
      }
      loadingStaff := false;
    }

    /** 'Assign Complaint': loads the staff and opens the modal. */
    method HandleAssignClick(data: Option<seq<StaffMember>>)
      modifies this
      ensures showAssignModal && !loadingStaff
      ensures data.Some? ==> staffList == TopStaff(data.value) && actionError == old(actionError)
      ensures data.None? ==> staffList == old(staffList) && actionError == StaffFailedMessage
      ensures complaint == old(complaint) && showDropModal == old(showDropModal) && dropReason == old(dropReason)
    {
      LoadStaffList(data);
      showAssignModal := true;
    }

    method HandleDropClick()
      modifies this
      ensures showDropModal
      ensures complaint == old(complaint) && showAssignModal == old(showAssignModal) && dropReason == old(dropReason)
      ensures actionError == old(actionError) && actionSuccess == old(actionSuccess) && processing == old(processing)
    {
      showDropModal := true;
    }

    method SetDropReason(text: string)
      modifies this
      ensures dropReason == text
      ensures complaint == old(complaint) && showDropModal == old(showDropModal) && actionError == old(actionError)
    {
      dropReason := text;
    }

    /** `handleAssignSubmit(staffId)`, given whether `assignComplaint(id,
        staffId)` succeeded. Success marks the copy assigned to the listed
        member with that id (if any), keeps every other field, and closes
        the modal; failure leaves the copy alone. */
    method HandleAssignSubmit(staffId: Option<string>, succeeded: bool)
      requires complaint.Some?
      modifies this
      ensures !processing
      ensures succeeded ==>
        && complaint == Some(old(complaint).value.(status := "assigned", assignedTo := FindStaff(staffList, staffId)))
        && actionSuccess == AssignedMessage && !showAssignModal && actionError == old(actionError)
      ensures !succeeded ==>
        && complaint == old(complaint) && actionError == AssignFailedMessage
        && actionSuccess == old(actionSuccess) && showAssignModal == old(showAssignModal)
      ensures staffList == old(staffList) && showDropModal == old(showDropModal) && dropReason == old(dropReason)
    {
      processing := true;
      if succeeded {
        actionSuccess := AssignedMessage;
        showAssignModal := false;
        complaint := Some(complaint.value.(status := "assigned", assignedTo := FindStaff(staffList, staffId)));
      } else {
        actionError := AssignFailedMessage;
      }
      processing := false;
    }

    /** `handleDropSubmit`, given whether `dropComplaint` succeeded: a blank
        reason (empty once trimmed) only sets the error and sends nothing;
        otherwise the reason goes out as typed, as `SendDrop` says. */
    method HandleDropSubmit(succeeded: bool) returns (sentReason: Option<string>)
      requires complaint.Some?
      modifies this
      ensures sentReason.None? <==> Trim(old(dropReason)) == ""
      ensures sentReason.None? ==>
        && actionError == ReasonMissingMessage && complaint == old(complaint) && dropReason == old(dropReason)
        && showDropModal == old(showDropModal) && processing == old(processing) && actionSuccess == old(actionSuccess)
      ensures sentReason.Some? ==> sentReason.value == old(dropReason) && !processing
      ensures sentReason.Some? && succeeded ==>
        && complaint == Some(old(complaint).value.(status := "dropped", dropReason := Some(old(dropReason))))
        && actionSuccess == DroppedMessage && !showDropModal && dropReason == "" && actionError == old(actionError)
      ensures sentReason.Some? && !succeeded ==>
        && complaint == old(complaint) && actionError == DropFailedMessage && dropReason == old(dropReason)
        && showDropModal == old(showDropModal) && actionSuccess == old(actionSuccess)
      ensures staffList == old(staffList) && showAssignModal == old(showAssignModal)
    {
      if Trim(dropReason) == "" {
        actionError := ReasonMissingMessage;
        return None;
      }
      sentReason := Some(dropReason);
      SendDrop(succeeded);
    }

    /** The part of `handleDropSubmit` after the reason check. Success marks
        the copy dropped with the reason, closes the modal and empties the
        input; failure leaves the copy and the input alone. */
    method SendDrop(succeeded: bool)
      requires complaint.Some?
      modifies this
      ensures !processing
      ensures succeeded ==>
        && complaint == Some(old(complaint).value.(status := "dropped", dropReason := Some(old(dropReason))))
        && actionSuccess == DroppedMessage && !showDropModal && dropReason == "" && actionError == old(actionError)
      ensures !succeeded ==>
        && complaint == old(complaint) && actionError == DropFailedMessage && dropReason == old(dropReason)
        && showDropModal == old(showDropModal) && actionSuccess == old(actionSuccess)
      ensures staffList == old(staffList) && showAssignModal == old(showAssignModal)
    {
      processing := true;
      if succeeded {
        actionSuccess := DroppedMessage;
        showDropModal := false;
        complaint := Some(complaint.value.(status := "dropped", dropReason := Some(dropReason)));
        processing := false;
        dropReason := "";
      } else {
        actionError := DropFailedMessage;
        processing := false;
      }
    }

    /** The close button on the error banner. */
    method DismissError()
      modifies this
      ensures actionError == "" && complaint == old(complaint) && actionSuccess == old(actionSuccess)
    {
      actionError := "";
    }

    /** The three-second timer after a successful action. */
    method ClearSuccess()
      modifies this
      ensures actionSuccess == "" && complaint == old(complaint) && actionError == old(actionError)
    {
      actionSuccess := "";
    }

    method CloseAssignModal()
      modifies this
      ensures !showAssignModal && complaint == old(complaint) && showDropModal == old(showDropModal)
    {
      showAssignModal := false;
    }

    method CloseDropModal()
      modifies this
      ensures !showDropModal && complaint == old(complaint) && showAssignModal == old(showAssignModal)
      ensures dropReason == old(dropReason)
    {
      showDropModal := false;
    }

    /** The modal's `onAssign` as the page wires it: the page's handler takes
        one parameter, so it receives the modal's first argument, the
        `complaintId` prop, which the page does not pass. */
    method AssignFromModalAsWritten(request: AssignRequest, succeeded: bool)
      requires complaint.Some?
      modifies this
      ensures succeeded ==>
        complaint == Some(old(complaint).value.(status := "assigned", assignedTo := FindStaff(staffList, WiredStaffId(request))))
      ensures succeeded && request.complaintId.None? ==> complaint.value.assignedTo.None?
      ensures !succeeded ==> complaint == old(complaint)
    {
      HandleAssignSubmit(WiredStaffId(request), succeeded);
    }

    /** The wiring the modal expects: the selected staff id is the one
        assigned. */
    method AssignFromModal(request: AssignRequest, succeeded: bool)
      requires complaint.Some?
      modifies this
      ensures succeeded ==>
        complaint == Some(old(complaint).value.(status := "assigned", assignedTo := FindStaff(staffList, Some(request.staffId))))
      ensures succeeded && (exists s :: s in staffList && s.id == request.staffId) ==>
        && complaint.value.assignedTo.Some?
        && complaint.value.assignedTo.value in staffList
        && complaint.value.assignedTo.value.id == request.staffId
      ensures !succeeded ==> complaint == old(complaint) && actionError == AssignFailedMessage
    {
      HandleAssignSubmit(Some(request.staffId), succeeded);
    }
  }

  /** The staff id the page's one-parameter handler receives from the
      modal's two-argument call. */
  function WiredStaffId(request: AssignRequest): Option<string> {
    request.complaintId
  }

  /** As rendered, the modal has no `complaintId`, so whatever is selected
      the page assigns to no one; the intended wiring finds the selected
      member. */
  lemma WiredAssignLosesSelection(staffList: seq<StaffMember>, selected: StaffMember)
    requires selected in staffList
    ensures FindStaff(staffList, WiredStaffId(AssignRequest(None, selected.id))).None?
    ensures FindStaff(staffList, Some(AssignRequest(None, selected.id).staffId)).Some?
  {
  }

  /** A concrete case: one listed member with id '7', selected. */
  lemma WiredAssignExample()
    ensures var s := StaffMember("7", "Ann", "ann@x.io", "IT", 0, 100);
      && FindStaff([s], WiredStaffId(AssignRequest(None, "7"))) == None
      && FindStaff([s], Some("7")) == Some(s)
  {
  }

  /** The page trims the drop reason, the component does not: a reason of
      one space is refused here but passes the component's check. */
  lemma DropReasonTrimmed()
    ensures Trim(" ") == "" && " " != ""
  {
    assert IsWhitespace(' ');
  }
}
