/** The modal that assigns a complaint to a staff member: the search over
    the staff list, the selection, the reset when it opens, the guarded
    assign action, and the colour of the two badges on each entry. The
    `onAssign` and `onClose` callbacks become what the modal asks for. */
module AssignModal {
  import opened Optional
  import opened Text
  import Lists

  /** One entry of `staffList`, with the fields the modal reads. */
  datatype StaffMember = StaffMember(id: string, name: string, email: string, department: string,
                                     activeComplaints: int, responseRate: int)

  /** The lowered term occurs in the lowered name, email or department. */
  predicate MatchesLowered(needle: string, s: StaffMember) {
    Contains(Lower(s.name), needle) || Contains(Lower(s.email), needle) || Contains(Lower(s.department), needle)
  }

  function Matcher(needle: string): StaffMember -> bool {
    (s: StaffMember) => MatchesLowered(needle, s)
  }

  /** The search test, ignoring the case of letters on both sides. */
  predicate Matches(term: string, s: StaffMember) {
    MatchesLowered(Lower(term), s)
  }

  /** What the filter effect shows for a term: the whole list when the
      term is empty, the matching entries otherwise. */
  function Filtered(staffList: seq<StaffMember>, term: string): seq<StaffMember> {
    if term == "" then staffList else Lists.Filter(staffList, Matcher(Lower(term)))
  }

  /** The shown entries keep the list's order; with an empty term they are
      the whole list, otherwise exactly the listed members that match. */
  lemma FilteredMeaning(staffList: seq<StaffMember>, term: string)
    ensures Lists.IsSubsequence(Filtered(staffList, term), staffList)
    ensures term == "" ==> Filtered(staffList, term) == staffList
    ensures term != "" ==> forall s :: s in Filtered(staffList, term) <==> s in staffList && Matches(term, s)
  {
    if term == "" {
      Lists.SubsequenceReflexive(staffList);
    } else {
      Lists.FilterIsSubsequence(staffList, Matcher(Lower(term)));
    }
  }

  /** The search ignores case: a term and its lowered form show the same entries. */
  lemma FilterIgnoresCase(staffList: seq<StaffMember>, term: string)
    ensures Filtered(staffList, term) == Filtered(staffList, Lower(term))
  {
    LowerIdempotent(term);
    assert term == "" <==> Lower(term) == "";
  }

  /** Searching for a member's own (non-empty) name finds that member. */
  lemma SearchFindsOwnName(staffList: seq<StaffMember>, s: StaffMember)
    requires s in staffList && s.name != ""
    ensures s in Filtered(staffList, s.name)
  {
    assert OccursAt(Lower(s.name), Lower(s.name), 0);
    FilteredMeaning(staffList, s.name);
  }

  /** The badge colours. */
  datatype Tone = Green | Yellow | Red

  function Severity(t: Tone): nat {
    match t
    case Green => 0
    case Yellow => 1
    case Red => 2
  }

  /** The workload badge: under three active complaints green, under six
      yellow, red from six on. */
  function WorkloadTone(activeComplaints: int): Tone {
    if activeComplaints < 3 then Green else if activeComplaints < 6 then Yellow else Red
  }

  /** The response-rate badge: green from 80, yellow from 60, red below. */
  function RateTone(responseRate: int): Tone {
    if responseRate >= 80 then Green else if responseRate >= 60 then Yellow else Red
  }

  /** More active complaints never make the workload badge look better, and
      a higher response rate never makes its badge look worse; the
      boundaries are at 3 and 6, and at 60 and 80. */
  lemma TonesMonotone(a: int, b: int)
    requires a <= b
    ensures Severity(WorkloadTone(a)) <= Severity(WorkloadTone(b))
    ensures Severity(RateTone(a)) >= Severity(RateTone(b))
    ensures WorkloadTone(2) == Green && WorkloadTone(3) == Yellow && WorkloadTone(5) == Yellow && WorkloadTone(6) == Red
    ensures RateTone(80) == Green && RateTone(79) == Yellow && RateTone(60) == Yellow && RateTone(59) == Red
  {
  }

  /** The Assign button is disabled with nothing selected or while loading. */
  predicate AssignDisabled(selectedStaffId: string, isLoading: bool) {
    selectedStaffId == "" || isLoading
  }

  /** What `handleAssign` passes to `onAssign`: the `complaintId` prop,
      which a parent may leave out (undefined), and the selected id. */
  datatype AssignRequest = AssignRequest(complaintId: Option<string>, staffId: string)

  class AssignModalView {
    var selectedStaffId: string
    var searchTerm: string
    var filteredStaff: seq<StaffMember>

    constructor ()
      ensures selectedStaffId == "" && searchTerm == "" && filteredStaff == []
    {
      selectedStaffId := "";
      searchTerm := "";
      filteredStaff := [];
    }

    /** The filter effect, run when the list or the term changes; without a
        list the shown entries stay as they were. */
    method SyncFilter(staffList: Option<seq<StaffMember>>)
      modifies this
      ensures staffList.Some? ==> filteredStaff == Filtered(staffList.value, searchTerm)
      ensures staffList.None? ==> filteredStaff == old(filteredStaff)
      ensures selectedStaffId == old(selectedStaffId) && searchTerm == old(searchTerm)
    {
      if staffList.Some? {
        if searchTerm != "" {
          filteredStaff := Lists.Filter(staffList.value, Matcher(Lower(searchTerm)));
        } else {
          filteredStaff := staffList.value;
        }
      }
    }

    /** The reset effect when `isOpen` becomes true. */
    method Open()
      modifies this
      ensures selectedStaffId == "" && searchTerm == "" && filteredStaff == old(filteredStaff)
    {
      selectedStaffId := "";
      searchTerm := "";
    }

    /** Typing in the search box. */
    method SetSearchTerm(term: string)
      modifies this
      ensures searchTerm == term && selectedStaffId == old(selectedStaffId) && filteredStaff == old(filteredStaff)
    {
      searchTerm := term;
    }

    /** Clicking an entry selects it. */
    method Select(s: StaffMember)
      modifies this
      ensures selectedStaffId == s.id && searchTerm == old(searchTerm) && filteredStaff == old(filteredStaff)
    {
      selectedStaffId := s.id;
    }

    /** `handleAssign`: with a selection, asks for the assignment and then
        for the modal to close; without one, asks for nothing. */
    method HandleAssign(complaintId: Option<string>) returns (request: Option<AssignRequest>, close: bool)
      ensures request.Some? <==> selectedStaffId != ""
      ensures close <==> request.Some?
      ensures request.Some? ==> request.value == AssignRequest(complaintId, selectedStaffId)
    {
      if selectedStaffId != "" {
        return Some(AssignRequest(complaintId, selectedStaffId)), true;
      }
      return None, false;
    }
  }

  /** Right after opening, once the filter effect has run on a list, the
      whole list is shown and nothing is selected, so Assign is disabled. */
  lemma OpenShowsEverything(staffList: seq<StaffMember>, isLoading: bool)
    ensures Filtered(staffList, "") == staffList
    ensures AssignDisabled("", isLoading)
  {
  }
}
