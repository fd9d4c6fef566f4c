/**
 * The dashboard's client state: the employee list refreshed wholesale from
 * the server and sorted newest first, the search filter over it, the
 * delete-result classification, and the view selection made of three
 * show-flags, the selected employee and the current page.
 *
 * Network responses come in as parameters (`FetchOutcome`, `DeleteOutcome`);
 * a refresh that a handler starts is given its outcome as well.
 */
module Dashboard {
  import opened Wrappers
  import opened Text
  import opened Sequences
  import opened Records
  import EmployeeRoutes

  const FetchError := "Error fetching employees"
  const DeleteSuccess := "Employee deleted successfully"
  const DeleteFailed := "Failed to delete employee"
  const DeleteError := "Error deleting employee"
  /** The initial `currentPage`; the navigation links pass "dashboard", "list" and "create". */
  const LandingPage := "Dashboard"

  // ---------------------------------------------------------------------
  // Newest-first ordering: `sort((a, b) => b.createdAt - a.createdAt)`.
  // The built-in sort is stable, so records created at the same time keep
  // the order the server sent them in.
  // ---------------------------------------------------------------------

  predicate NewestFirst(s: seq<Employee>) {
    forall i, j :: 0 <= i < j < |s| ==> s[i].createdAt >= s[j].createdAt
  }

  lemma TailNewestFirst(s: seq<Employee>)
    requires s != [] && NewestFirst(s)
    ensures NewestFirst(s[1..])
  {
    forall i, j | 0 <= i < j < |s[1..]| ensures s[1..][i].createdAt >= s[1..][j].createdAt {
      assert s[1..][i] == s[i + 1] && s[1..][j] == s[j + 1];
    }
  }

  lemma PrependNewestFirst(x: Employee, s: seq<Employee>)
    requires NewestFirst(s) && (s == [] || x.createdAt >= s[0].createdAt)
    ensures NewestFirst([x] + s)
  {
    var r := [x] + s;
    forall i, j | 0 <= i < j < |r| ensures r[i].createdAt >= r[j].createdAt {
      assert r[j] == s[j - 1];
      if i > 0 {
        assert r[i] == s[i - 1];
      }
    }
  }

  /** Places `e` before the first record that is not newer than it. */
  function InsertNewestFirst(e: Employee, s: seq<Employee>): (r: seq<Employee>)
    requires NewestFirst(s)
    ensures NewestFirst(r)
    ensures multiset(r) == multiset(s) + multiset{e}
    ensures r != [] && (r[0] == e || (s != [] && r[0] == s[0]))
  {
    if s == [] || s[0].createdAt <= e.createdAt then
      PrependNewestFirst(e, s);
      [e] + s
    else
      TailNewestFirst(s);
      var rest := InsertNewestFirst(e, s[1..]);
      assert s == [s[0]] + s[1..];
      PrependNewestFirst(s[0], rest);
      [s[0]] + rest
  }

  /** The refreshed list: the server's records, newest first. */
  function SortNewestFirst(s: seq<Employee>): (r: seq<Employee>)
    ensures NewestFirst(r)
    ensures multiset(r) == multiset(s)
  {
    if s == [] then []
    else
      assert s == [s[0]] + s[1..];
      InsertNewestFirst(s[0], SortNewestFirst(s[1..]))
  }

  /** The records of `s` created at time `t`, in their order in `s`. */
  function CreatedAt(s: seq<Employee>, t: int): seq<Employee> {
    if s == [] then []
    else (if s[0].createdAt == t then [s[0]] else []) + CreatedAt(s[1..], t)
  }

  lemma {:induction false} InsertKeepsTies(e: Employee, s: seq<Employee>, t: int)
    requires NewestFirst(s)
    ensures CreatedAt(InsertNewestFirst(e, s), t) == (if e.createdAt == t then [e] else []) + CreatedAt(s, t)
  {
    if s == [] || s[0].createdAt <= e.createdAt {
      assert InsertNewestFirst(e, s) == [e] + s;
      assert ([e] + s)[1..] == s;
    } else {
      var tail := s[1..];
      assert NewestFirst(tail) by {
        forall i, j | 0 <= i < j < |tail| ensures tail[i].createdAt >= tail[j].createdAt {
          assert tail[i] == s[i + 1] && tail[j] == s[j + 1];
        }
      }
      var rest := InsertNewestFirst(e, tail);
      InsertKeepsTies(e, tail, t);
      assert InsertNewestFirst(e, s) == [s[0]] + rest;
      assert ([s[0]] + rest)[1..] == rest;
      assert CreatedAt([s[0]] + rest, t) == (if s[0].createdAt == t then [s[0]] else []) + CreatedAt(rest, t);
      assert CreatedAt(s, t) == (if s[0].createdAt == t then [s[0]] else []) + CreatedAt(tail, t);
    }
  }

  /** Stability: records created at the same time keep their relative order. */
  lemma {:induction false} SortIsStable(s: seq<Employee>, t: int)
    ensures CreatedAt(SortNewestFirst(s), t) == CreatedAt(s, t)
  {
    if s != [] {
      SortIsStable(s[1..], t);
      InsertKeepsTies(s[0], SortNewestFirst(s[1..]), t);
    }
  }

  // ---------------------------------------------------------------------
  // Search filter
  // ---------------------------------------------------------------------

  /** The lower-cased term is a substring of the lower-cased name, email, mobile or designation. */
  predicate MatchesSearch(e: Employee, term: string) {
    var t := Lower(term);
    Includes(Lower(e.name), t) || Includes(Lower(e.email), t)
    || Includes(Lower(e.mobile), t) || Includes(Lower(e.designation), t)
  }

  /** `employees.filter(...)`: the matching records, in list order, each as often as in the list. */
  function FilterBySearch(es: seq<Employee>, term: string): (r: seq<Employee>)
    ensures IsSubsequence(r, es)
    ensures forall e :: multiset(r)[e] == if MatchesSearch(e, term) then multiset(es)[e] else 0
  {
    if es == [] then []
    else
      assert es == [es[0]] + es[1..];
      var rest := FilterBySearch(es[1..], term);
      if MatchesSearch(es[0], term) then [es[0]] + rest
      else
        SubsequencePrepend(rest, es[1..], es[0]);
        rest
  }

  /** An empty search term keeps every employee. */
  lemma {:induction false} EmptyTermKeepsAll(es: seq<Employee>)
    ensures FilterBySearch(es, "") == es
  {
    if es != [] {
      IncludesEmpty(Lower(es[0].name));
      EmptyTermKeepsAll(es[1..]);
    }
  }

  /** The search is case-insensitive: a term and its lower-case form select the same employees. */
  lemma {:induction false} SearchIgnoresCase(es: seq<Employee>, term: string)
    ensures FilterBySearch(es, term) == FilterBySearch(es, Lower(term))
  {
    LowerIdempotent(term);
    if es != [] {
      SearchIgnoresCase(es[1..], term);
    }
  }

  /** When exactly one record matches, the filter yields exactly that record. */
  lemma {:induction false} SingleMatch(es: seq<Employee>, term: string, k: nat)
    requires k < |es|
    requires forall i :: 0 <= i < |es| ==> (MatchesSearch(es[i], term) <==> i == k)
    ensures FilterBySearch(es, term) == [es[k]]
  {
    if k == 0 {
      NoMatch(es[1..], term);
    } else {
      SingleMatch(es[1..], term, k - 1);
    }
  }

  /** "No employees found." is shown exactly when no record matches. */
  lemma {:induction false} NoMatch(es: seq<Employee>, term: string)
    ensures FilterBySearch(es, term) == [] <==> forall i :: 0 <= i < |es| ==> !MatchesSearch(es[i], term)
  {
    if es != [] {
      NoMatch(es[1..], term);
      if forall i :: 0 <= i < |es| ==> !MatchesSearch(es[i], term) {
        assert forall i :: 0 <= i < |es[1..]| ==> !MatchesSearch(es[1..][i], term) by {
          forall i | 0 <= i < |es[1..]| ensures !MatchesSearch(es[1..][i], term) {
            assert es[1..][i] == es[i + 1];
          }
        }
      } else {
        var i :| 0 <= i < |es| && MatchesSearch(es[i], term);
        if i > 0 {
          assert es[1..][i - 1] == es[i];
        }
      }
    }
  }

  // ---------------------------------------------------------------------
  // Client state
  // ---------------------------------------------------------------------

  /** The page sections that can be rendered, in page order. */
  datatype Section = Landing | EmployeeList | CreateForm | UpdateForm

  /** The result of `GET /list` as the client sees it. */
  datatype FetchOutcome = Fetched(employees: seq<Employee>) | FetchFailed

  /** The result of `DELETE /delete/:id`: a 2xx body's `message` (absent when missing), or a thrown error. */
  datatype DeleteOutcome = DeleteAnswered(message: Option<string>) | DeleteThrew

  /** The delete handler's classification: success only on the exact success message. */
  function DeleteMessage(outcome: DeleteOutcome): (m: string)
    ensures m == DeleteSuccess <==> outcome == DeleteAnswered(Some(DeleteSuccess))
    ensures outcome.DeleteThrew? <==> m == DeleteError
    ensures outcome.DeleteAnswered? && outcome.message != Some(DeleteSuccess) <==> m == DeleteFailed
  {
    match outcome
    case DeleteAnswered(msg) => if msg == Some(DeleteSuccess) then DeleteSuccess else DeleteFailed
    case DeleteThrew => DeleteError
  }

  /** A response body's `message` field, absent from the bodies that carry none. */
  function BodyMessage(body: EmployeeRoutes.Payload): (m: Option<string>)
    ensures m.None? <==> body.ErrorBody? || body.ListBody?
    ensures m.Some? ==> m.value == body.message
  {
    match body
    case MessageBody(msg) => Some(msg)
    case MessageAndError(msg, _) => Some(msg)
    case UpdatedBody(msg, _) => Some(msg)
    case _ => None
  }

  /** What the HTTP client hands to the delete handler: a 2xx body's `message`, or a thrown error. */
  function ObserveDelete(resp: EmployeeRoutes.Response): (outcome: DeleteOutcome)
    ensures outcome.DeleteThrew? <==> !(200 <= resp.status < 300)
    ensures outcome.DeleteAnswered? ==> outcome.message == BodyMessage(resp.body)
  {
    if 200 <= resp.status < 300 then DeleteAnswered(BodyMessage(resp.body)) else DeleteThrew
  }

  /**
   * The client's success string is the server's: against the delete handler's
   * responses, the exact-message check succeeds exactly on status 200.
   */
  lemma DeleteClassificationAgrees(resp: EmployeeRoutes.Response)
    requires 200 <= resp.status < 300 ==>
      resp == EmployeeRoutes.Response(200, EmployeeRoutes.MessageBody(EmployeeRoutes.Deleted))
    ensures DeleteMessage(ObserveDelete(resp)) == DeleteSuccess <==> resp.status == 200
    ensures resp.status == 400 || resp.status == 404 ==> DeleteMessage(ObserveDelete(resp)) == DeleteError
  {
  }

  /**
   * A delete sent to the delete handler and classified by the client: the
   * client reports success exactly when the handler answered 200, which is
   * exactly when the id was non-empty, the store did not fail and the record
   * existed.
   */
  method DeleteAndClassify(store: EmployeeRoutes.EmployeeStore, id: string, fault: Option<string>)
    returns (resp: EmployeeRoutes.Response, shown: string)
    requires store.Valid()
    modifies store
    ensures store.Valid()
    ensures shown == DeleteMessage(ObserveDelete(resp))
    ensures shown == DeleteSuccess <==> resp.status == 200
    ensures shown == DeleteSuccess <==> id != "" && fault.None? && id in old(store.records)
    ensures shown == DeleteSuccess ==> store.records == old(store.records) - {id}
    ensures shown != DeleteSuccess ==> shown == DeleteError && store.records == old(store.records)
  {
    resp := store.Delete(id, fault);
    DeleteClassificationAgrees(resp);
    shown := DeleteMessage(ObserveDelete(resp));
  }

  class DashboardState {
    var employees: seq<Employee>
    var searchTerm: string
    var message: string
    var showEmployeeList: bool
    var showEmployeeForm: bool
    var showUpdateForm: bool
    var selectedEmployee: Option<Employee>
    var showWelcomeMessage: bool
    var currentPage: string

    /**
     * At most one of the three flags is set, the update flag only with a
     * selected employee, and none of them while the landing page is current.
     */
    ghost predicate Valid()
      reads this
    {
      && (showEmployeeList ==> !showEmployeeForm && !showUpdateForm)
      && (showEmployeeForm ==> !showUpdateForm)
      && (showUpdateForm ==> selectedEmployee.Some?)
      && (currentPage == LandingPage ==> !showEmployeeList && !showEmployeeForm && !showUpdateForm)
    }

    /** The sections rendered for this state, in page order. */
    function Sections(): seq<Section>
      reads this
    {
      (if currentPage == LandingPage then [Landing] else [])
      + (if showEmployeeList then [EmployeeList] else [])
      + (if showEmployeeForm then [CreateForm] else [])
      + (if showUpdateForm && selectedEmployee.Some? then [UpdateForm] else [])
    }

    /** The list the table shows; its length is the displayed total. */
    function Filtered(): seq<Employee>
      reads this
    {
      FilterBySearch(employees, searchTerm)
    }

    /** The table shows "No employees found." exactly when no employee matches the search term. */
    lemma NoEmployeesFound()
      ensures Filtered() == [] <==> forall i :: 0 <= i < |employees| ==> !MatchesSearch(employees[i], searchTerm)
    {
      NoMatch(employees, searchTerm);
    }

    lemma AtMostOneSection()
      requires Valid()
      ensures |Sections()| <= 1
    {
    }

    /** Mounting: the initial state, then the mount effect's fetch. */
    constructor (initial: FetchOutcome)
      ensures Valid()
      ensures Sections() == [Landing] && showWelcomeMessage
      ensures searchTerm == "" && selectedEmployee == None
      ensures initial.Fetched? ==> employees == SortNewestFirst(initial.employees) && message == ""
      ensures initial.FetchFailed? ==> employees == [] && message == FetchError
    {
      searchTerm := "";
      showEmployeeList, showEmployeeForm, showUpdateForm := false, false, false;
      selectedEmployee := None;
      showWelcomeMessage := true;
      currentPage := LandingPage;
      match initial
      case Fetched(list) =>
        employees := SortNewestFirst(list);
        message := "";
      case FetchFailed =>
        employees := [];
        message := FetchError;
    }

    /** `fetchEmployees`: replace the list wholesale, or report the failure and keep the list. */
    method FetchEmployees(outcome: FetchOutcome)
      modifies this`employees, this`message
      ensures outcome.Fetched? ==>
        employees == SortNewestFirst(outcome.employees) && message == old(message)
      ensures outcome.FetchFailed? ==> employees == old(employees) && message == FetchError
    {
      match outcome
      case Fetched(list) =>
        employees := SortNewestFirst(list);
      case FetchFailed =>
        message := FetchError;
    }

    /** `handleDelete`: only the exact success message counts as success and refreshes the list. */
    method HandleDelete(outcome: DeleteOutcome, refresh: FetchOutcome)
      modifies this`employees, this`message
      ensures outcome == DeleteAnswered(Some(DeleteSuccess)) ==>
        && (refresh.Fetched? ==> employees == SortNewestFirst(refresh.employees) && message == DeleteSuccess)
        && (refresh.FetchFailed? ==> employees == old(employees) && message == FetchError)
      ensures outcome != DeleteAnswered(Some(DeleteSuccess)) ==>
        employees == old(employees) && message == DeleteMessage(outcome)
    {
      message := DeleteMessage(outcome);
      if outcome == DeleteAnswered(Some(DeleteSuccess)) {
        FetchEmployees(refresh);
      }
    }

    /** `handleEdit`, reached from a row's Update button inside the list section. */
    method HandleEdit(e: Employee)
      requires Valid() && showEmployeeList
      modifies this`selectedEmployee, this`showEmployeeList, this`showEmployeeForm, this`showUpdateForm, this`message
      ensures Valid()
      ensures selectedEmployee == Some(e) && message == ""
      ensures Sections() == [UpdateForm]
    {
      selectedEmployee := Some(e);
      showEmployeeList := false;
      showEmployeeForm := false;
      showUpdateForm := true;
      message := "";
    }

    /** `handleNavigationClick`: "list" and "create" select their section; anything else hides all three. */
    method HandleNavigationClick(view: string)
      requires Valid()
      modifies this`showWelcomeMessage, this`currentPage, this`showEmployeeList, this`showEmployeeForm, this`showUpdateForm
      ensures Valid()
      ensures !showWelcomeMessage && currentPage == view
      ensures showEmployeeList == (view == "list")
      ensures showEmployeeForm == (view == "create")
      ensures !showUpdateForm
      ensures Sections() ==
        if view == "list" then [EmployeeList]
        else if view == "create" then [CreateForm]
        else if view == LandingPage then [Landing]
        else []
    {
      showWelcomeMessage := false;
      currentPage := view;
      if view == "list" {
        showEmployeeList := true;
        showEmployeeForm := false;
        showUpdateForm := false;
      } else if view == "create" {
        showEmployeeForm := true;
        showEmployeeList := false;
        showUpdateForm := false;
      } else {
        showEmployeeList := false;
        showEmployeeForm := false;
        showUpdateForm := false;
      }
    }

    /** The search box's `onChange`. */
    method SetSearchTerm(term: string)
      modifies this`searchTerm
      ensures searchTerm == term
    {
      searchTerm := term;
    }

    /** The create form's `onSuccess`: back to the list, then a refresh. */
    method CreateSucceeded(refresh: FetchOutcome)
      requires Valid() && showEmployeeForm
      modifies this`showEmployeeList, this`showEmployeeForm, this`employees, this`message
      ensures Valid()
      ensures Sections() == [EmployeeList]
      ensures refresh.Fetched? ==> employees == SortNewestFirst(refresh.employees) && message == old(message)
      ensures refresh.FetchFailed? ==> employees == old(employees) && message == FetchError
    {
      showEmployeeList := true;
      showEmployeeForm := false;
      FetchEmployees(refresh);
    }

    /** The update form's `onUpdate`: back to the list, then a refresh. */
    method UpdateSucceeded(refresh: FetchOutcome)
      requires Valid() && showUpdateForm && selectedEmployee.Some?
      modifies this`showEmployeeList, this`showUpdateForm, this`employees, this`message
      ensures Valid()
      ensures Sections() == [EmployeeList]
      ensures refresh.Fetched? ==> employees == SortNewestFirst(refresh.employees) && message == old(message)
      ensures refresh.FetchFailed? ==> employees == old(employees) && message == FetchError
    {
      showEmployeeList := true;
      showUpdateForm := false;
      FetchEmployees(refresh);
    }
  }
}
