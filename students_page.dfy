/** The student list page: paging, search, and the activate, deactivate
    and delete actions applied to the local list once the server accepts
    them. Each API call becomes its outcome, passed in; the confirmation
    dialog before a delete is a boolean; the timers that clear the success
    message are left out. */
module StudentsPage {
  import Lists

  /** One row of the list, with the fields the page reads or writes. */
  datatype Student = Student(id: string, name: string, email: string, isActive: bool)

  const PageSize := 10

  /** What a list request returned: the page of data, an error field in
      the response, or a thrown error. A message may be empty (undefined). */
  datatype FetchOutcome =
    | Fetched(data: seq<Student>, totalPages: int)
    | FetchRefused(message: string)
    | FetchThrew(message: string)

  /** What an action request returned. */
  datatype ActionOutcome = Done | Refused(message: string) | Threw(message: string)

  /** The arguments of `getStudents`. */
  datatype Query = Query(page: int, limit: int, search: string, activeFilter: int)

  /** `message || fallback`. */
  function MessageOr(message: string, fallback: string): (r: string)
    ensures fallback != "" ==> r != ""
    ensures message != "" ==> r == message
  {
    if message != "" then message else fallback
  }

  function HasId(id: string): Student -> bool {
    (s: Student) => s.id == id
  }

  function OtherId(id: string): Student -> bool {
    (s: Student) => s.id != id
  }

  function WithActive(active: bool): Student -> Student {
    (s: Student) => s.(isActive := active)
  }

  /** The list after a successful activate or deactivate. */
  function SetActive(students: seq<Student>, id: string, active: bool): seq<Student> {
    Lists.MapWhere(students, HasId(id), WithActive(active))
  }

  /** The list after a successful delete. */
  function Removed(students: seq<Student>, id: string): seq<Student> {
    Lists.Filter(students, OtherId(id))
  }

  /** Activating or deactivating touches only the students with that id,
      and only their flag; the list keeps its length and order. */
  lemma SetActiveMeaning(students: seq<Student>, id: string, active: bool)
    ensures |SetActive(students, id, active)| == |students|
    ensures forall i :: 0 <= i < |students| && students[i].id == id ==>
      SetActive(students, id, active)[i] == students[i].(isActive := active)
    ensures forall i :: 0 <= i < |students| && students[i].id != id ==>
      SetActive(students, id, active)[i] == students[i]
  {
    Lists.MapWhereShape(students, HasId(id), WithActive(active));
  }

  /** The last of several activations and deactivations of one student is
      the one that counts. */
  lemma SetActiveLastWins(students: seq<Student>, id: string, first: bool, second: bool)
    ensures SetActive(SetActive(students, id, first), id, second) == SetActive(students, id, second)
  {
    SetActiveMeaning(students, id, first);
    SetActiveMeaning(SetActive(students, id, first), id, second);
    SetActiveMeaning(students, id, second);
  }

  /** A delete keeps every other student, in order, and none with that id. */
  lemma RemovedMeaning(students: seq<Student>, id: string)
    ensures Lists.IsSubsequence(Removed(students, id), students)
    ensures forall s :: s in Removed(students, id) <==> s in students && s.id != id
  {
    Lists.FilterIsSubsequence(students, OtherId(id));
  }

  /** Deleting an id no student has changes nothing. */
  lemma RemoveAbsent(students: seq<Student>, id: string)
    requires forall i :: 0 <= i < |students| ==> students[i].id != id
    ensures Removed(students, id) == students
  {
    Lists.FilterAllKept(students, OtherId(id));
  }

  /** `handlePageChange`'s guard. */
  predicate AcceptsPage(newPage: int, totalPages: int) {
    newPage > 0 && newPage <= totalPages
  }

  /** When the page is in range, the Previous and Next buttons are enabled
      exactly when the guard accepts the page they ask for. */
  lemma ButtonsAgreeWithGuard(page: int, totalPages: int)
    requires 1 <= page <= totalPages
    ensures (page != 1) == AcceptsPage(page - 1, totalPages)
    ensures (page != totalPages) == AcceptsPage(page + 1, totalPages)
  {
  }

  class StudentsListPage {
    var students: seq<Student>
    var loading: bool
    var error: string
    var successMessage: string
    var page: int
    var totalPages: int
    var searchTerm: string
    var activeFilter: int

    constructor ()
      ensures students == [] && loading && error == "" && successMessage == ""
      ensures page == 1 && totalPages == 1 && searchTerm == "" && activeFilter == -1
    {
      students := [];
      loading := true;
      error := "";
      successMessage := "";
      page := 1;
      totalPages := 1;
      searchTerm := "";
      activeFilter := -1;
    }

    /** `fetchStudents`: asks for the current page, ten to a page, with the
        search and filter; a response with data replaces the list and the
        page count, anything else only sets the error. */
    method FetchStudents(outcome: FetchOutcome) returns (query: Query)
      modifies this
      ensures query == Query(page, PageSize, searchTerm, activeFilter)
      ensures !loading
      ensures outcome.Fetched? ==> students == outcome.data && totalPages == outcome.totalPages && error == ""
      ensures outcome.FetchRefused? ==>
        students == old(students) && totalPages == old(totalPages) && error == MessageOr(outcome.message, "Failed to fetch students")
      ensures outcome.FetchThrew? ==>
        students == old(students) && totalPages == old(totalPages)
        && error == MessageOr(outcome.message, "An error occurred while fetching students")
      ensures page == old(page) && searchTerm == old(searchTerm) && activeFilter == old(activeFilter)
      ensures successMessage == old(successMessage)
    {
      loading := true;
      error := "";
      query := Query(page, PageSize, searchTerm, activeFilter);
      match outcome {
        case Fetched(data, pages) =>
          students := data;
          totalPages := pages;
        case FetchRefused(message) =>
          error := MessageOr(message, "Failed to fetch students");
        case FetchThrew(message) =>
          error := MessageOr(message, "An error occurred while fetching students");
      }
      loading := false;
    }

    /** `handlePageChange`: only a page between 1 and the page count is taken. */
    method HandlePageChange(newPage: int)
      modifies this
      ensures AcceptsPage(newPage, totalPages) ==> page == newPage
      ensures !AcceptsPage(newPage, totalPages) ==> page == old(page)
      ensures students == old(students) && totalPages == old(totalPages) && error == old(error)
      ensures searchTerm == old(searchTerm) && activeFilter == old(activeFilter)
    {
      if newPage > 0 && newPage <= totalPages {
        page := newPage;
      }
    }

    method SetSearchTerm(term: string)
      modifies this
      ensures searchTerm == term && page == old(page) && students == old(students)
    {
      searchTerm := term;
    }

    /** The status filter: -1 all, 1 active, 0 inactive. */
    method SetActiveFilter(filter: int)
      modifies this
      ensures activeFilter == filter && page == old(page) && students == old(students)
    {
      activeFilter := filter;
    }

    /** `handleSearch`: back to the first page. */
    method HandleSearch()
      modifies this
      ensures page == 1
      ensures students == old(students) && totalPages == old(totalPages) && searchTerm == old(searchTerm)
      ensures activeFilter == old(activeFilter) && error == old(error)
    {
      page := 1;
    }

    /** Shared by activate and deactivate: on success the flag of the
        students with that id is set and the message shown; otherwise the
        list stays and the error is set. */
    method ApplyActive(id: string, active: bool, outcome: ActionOutcome,
                       done: string, refused: string, threw: string)
      modifies this
      ensures outcome.Done? ==> students == SetActive(old(students), id, active) && successMessage == done && error == old(error)
      ensures outcome.Refused? ==>
        students == old(students) && error == MessageOr(outcome.message, refused)
        && successMessage == old(successMessage)
      ensures outcome.Threw? ==>
        students == old(students) && error == MessageOr(outcome.message, threw)
        && successMessage == old(successMessage)
      ensures page == old(page) && totalPages == old(totalPages) && searchTerm == old(searchTerm)
      ensures activeFilter == old(activeFilter)
    {
      match outcome {
        case Done =>
          successMessage := done;
          students := Lists.MapWhere(students, HasId(id), WithActive(active));
        case Refused(message) =>
          error := MessageOr(message, refused);
        case Threw(message) =>
          error := MessageOr(message, threw);
      }
    }

    method HandleActivate(id: string, outcome: ActionOutcome)
      modifies this
      ensures outcome.Done? ==>
        students == SetActive(old(students), id, true)
        && successMessage == "Student activated successfully"
      ensures outcome.Refused? ==> students == old(students) && error == MessageOr(outcome.message, "Failed to activate student")
      ensures outcome.Threw? ==>
        students == old(students)
        && error == MessageOr(outcome.message, "An error occurred while activating student")
      ensures page == old(page) && totalPages == old(totalPages)
    {
      ApplyActive(id, true, outcome, "Student activated successfully",
                  "Failed to activate student", "An error occurred while activating student");
    }

    method HandleDeactivate(id: string, outcome: ActionOutcome)
      modifies this
      ensures outcome.Done? ==>
        students == SetActive(old(students), id, false)
        && successMessage == "Student deactivated successfully"
      ensures outcome.Refused? ==> students == old(students) && error == MessageOr(outcome.message, "Failed to deactivate student")
      ensures outcome.Threw? ==>
        students == old(students)
        && error == MessageOr(outcome.message, "An error occurred while deactivating student")
      ensures page == old(page) && totalPages == old(totalPages)
    {
      ApplyActive(id, false, outcome, "Student deactivated successfully",
                  "Failed to deactivate student", "An error occurred while deactivating student");
    }

    /** `handleDelete`: nothing without confirmation; on success the
        students with that id leave the list; otherwise the error is set. */
    method HandleDelete(id: string, confirmed: bool, outcome: ActionOutcome) returns (requested: bool)
      modifies this
      ensures requested == confirmed
      ensures !confirmed ==> students == old(students) && error == old(error) && successMessage == old(successMessage)
      ensures confirmed && outcome.Done? ==>
        students == Removed(old(students), id)
        && successMessage == "Student deleted successfully" && error == old(error)
      ensures confirmed && outcome.Refused? ==>
        students == old(students)
        && error == MessageOr(outcome.message, "Failed to delete student")
      ensures confirmed && outcome.Threw? ==>
        students == old(students)
        && error == MessageOr(outcome.message, "An error occurred while deleting student")
      ensures page == old(page) && totalPages == old(totalPages)
    {
      if !confirmed {
        return false;
      }
      requested := true;
      match outcome {
        case Done =>
          successMessage := "Student deleted successfully";
          students := Lists.Filter(students, OtherId(id));
        case Refused(message) =>
          error := MessageOr(message, "Failed to delete student");
        case Threw(message) =>
          error := MessageOr(message, "An error occurred while deleting student");
      }
    }
  }
}
