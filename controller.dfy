/**
 * The browser client's TaskManager object (script.js): the fields its event
 * handlers update in place, and each handler as a method proved against the
 * query-state step function of module Frontend. Page rendering, toasts and
 * the fetch calls themselves stay outside; a handler returns the list URL it
 * would fetch, and the reply of an API call it makes is a parameter.
 */
module Controller {
  import opened Wrappers
  import opened Text
  import opened Frontend

  /** What addTask did: refused the title without sending anything, or sent
      a POST with this body, which then succeeded or left this message. */
  datatype AddOutcome =
    | Blocked(message: string)
    | Posted(title: string, priority: string, error: Option<string>)

  /** What editTask did: the dialog was cancelled, or a PUT was sent. */
  datatype EditOutcome =
    | Cancelled
    | Put(id: int, form: EditForm, error: Option<string>)

  /** What deleteTask did: the confirmation was declined, or a DELETE was sent. */
  datatype DeleteOutcome =
    | Declined
    | Deleted(id: int, error: Option<string>)

  class TaskManager {
    var currentFilter: string
    var currentPage: int
    var perPage: int
    var searchQuery: string
    /** Stands for searchTimeout: the value to search for once the
        scheduled timer fires, None when no timer is pending. */
    var pendingSearch: Option<string>
    /** The add form's title box and priority select. */
    var titleValue: string
    var priorityValue: string

    function State(): QueryState
      reads this
    {
      QueryState(currentFilter, currentPage, perPage, searchQuery, pendingSearch)
    }

    ghost predicate Valid()
      reads this
    {
      currentPage >= 1 && perPage == PerPage && |titleValue| <= TitleInputMax
    }

    /** The select's initial option comes from the page's markup, which is
        not part of this model, hence the parameter. */
    constructor (initialPriority: string)
      ensures Valid()
      ensures State() == Initial
      ensures titleValue == "" && priorityValue == initialPriority
    {
      currentFilter := "all";
      currentPage := 1;
      perPage := PerPage;
      searchQuery := "";
      pendingSearch := None;
      titleValue := "";
      priorityValue := initialPriority;
    }

    /** loadTasks up to its fetch: the URL, built by successive appends. */
    method LoadTasks() returns (url: string)
      ensures url == ListUrl(State())
    {
      url := BaseUrl + "/tasks?page=" + IntText(currentPage) + "&per_page=" + IntText(perPage);
      ghost var start := url;
      if currentFilter != "all" {
        url := url + "&priority=" + currentFilter;
      }
      ghost var middle := url;
      if searchQuery != "" {
        url := url + "&search=" + EncodeComponent(searchQuery);
      }
      ListUrlSpelledOut(State(), start, middle, url);
    }

    /** The character counter's input handler on the title box. */
    method OnTitleInput(value: string) returns (count: int)
      requires Valid()
      modifies this`titleValue
      ensures Valid()
      ensures titleValue == TruncateTitleInput(value)
      ensures count == |titleValue|
    {
      titleValue := value;
      count := |value|;
      if count > TitleInputMax {
        titleValue := value[..TitleInputMax];
        count := TitleInputMax;
      }
    }

    /** A filter button was clicked. */
    method OnFilterClick(dataPriority: Option<string>) returns (request: Option<string>)
      requires Valid()
      modifies this`currentFilter, this`currentPage
      ensures Valid()
      ensures currentFilter == FilterOf(dataPriority) && currentPage == 1
      ensures State() == Step(old(State()), FilterClicked(dataPriority)).state
      ensures request == Some(ListUrl(State()))
    {
      var priority := if dataPriority.Some? && dataPriority.value != "" then dataPriority.value else "all";
      currentFilter := priority;
      currentPage := 1;
      var url := LoadTasks();
      request := Some(url);
    }

    /** An input event on the search box: any pending search is replaced. */
    method OnSearchInput(value: string)
      requires Valid()
      modifies this`pendingSearch
      ensures Valid()
      ensures pendingSearch == Some(value)
      ensures State() == Step(old(State()), SearchTyped(value)).state
    {
      pendingSearch := Some(value);
    }

    /** The pending search timer fires. */
    method OnSearchTimer() returns (request: Option<string>)
      requires Valid()
      modifies this`searchQuery, this`currentPage, this`pendingSearch
      ensures Valid()
      ensures old(pendingSearch).Some? ==>
                searchQuery == Trim(old(pendingSearch).value, Js) && currentPage == 1
                && pendingSearch == None && request == Some(ListUrl(State()))
      ensures old(pendingSearch).None? ==> State() == old(State()) && request == None
      ensures State() == Step(old(State()), SearchTimerFired).state
      ensures request.Some? == Step(old(State()), SearchTimerFired).loads
    {
      request := None;
      if pendingSearch.Some? {
        searchQuery := Trim(pendingSearch.value, Js);
        currentPage := 1;
        pendingSearch := None;
        var url := LoadTasks();
        request := Some(url);
      }
    }

    /** The Prev button: nothing at page 1, otherwise one page back. */
    method OnPrev() returns (request: Option<string>)
      requires Valid()
      modifies this`currentPage
      ensures Valid()
      ensures old(currentPage) > 1 ==> currentPage == old(currentPage) - 1 && request == Some(ListUrl(State()))
      ensures old(currentPage) <= 1 ==> currentPage == old(currentPage) && request == None
      ensures State() == Step(old(State()), PrevClicked).state
      ensures request.Some? == Step(old(State()), PrevClicked).loads
    {
      request := None;
      if currentPage > 1 {
        currentPage := currentPage - 1;
        var url := LoadTasks();
        request := Some(url);
      }
    }

    /** The Next button: one page on, whatever the page count. */
    method OnNext() returns (request: Option<string>)
      requires Valid()
      modifies this`currentPage
      ensures Valid()
      ensures currentPage == old(currentPage) + 1
      ensures request == Some(ListUrl(State()))
      ensures State() == Step(old(State()), NextClicked).state
    {
      currentPage := currentPage + 1;
      var url := LoadTasks();
      request := Some(url);
    }

    /**
     * Submitting the add form. A title the client rule refuses sends nothing
     * and changes nothing. Otherwise the POST is sent; on success the form is
     * reset, the page goes back to 1 and the list reloads; on failure the
     * form keeps what the user typed.
     */
    method AddTask(reply: Reply) returns (outcome: AddOutcome, request: Option<string>)
      requires Valid()
      modifies this`titleValue, this`priorityValue, this`currentPage
      ensures Valid()
      ensures outcome.Blocked? <==> !CheckTitle(old(titleValue)).Accepted?
      ensures outcome.Blocked? ==> outcome.message == TitleMessage(CheckTitle(old(titleValue)))
      ensures outcome.Posted? ==> outcome.title == Trim(old(titleValue), Js) && outcome.priority == old(priorityValue)
      ensures outcome.Posted? && !reply.Succeeded? ==>
                outcome.error == Some(FailureMessage(reply, "Error al agregar la tarea"))
      ensures request.Some? <==> outcome.Posted? && reply.Succeeded?
      ensures request.Some? ==>
                && titleValue == "" && priorityValue == "baja" && currentPage == 1
                && outcome.error == None && request == Some(ListUrl(State()))
                && State() == Step(old(State()), TaskAdded).state
      ensures request.None? ==> titleValue == old(titleValue) && priorityValue == old(priorityValue) && State() == old(State())
    {
      var check := CheckTitle(titleValue);
      if !check.Accepted? {
        outcome := Blocked(TitleMessage(check));
        request := None;
        return;
      }
      var title, priority := check.title, priorityValue;
      if reply.Succeeded? {
        var url := ResetAfterAdd();
        outcome, request := Posted(title, priority, None), Some(url);
      } else {
        outcome, request := Posted(title, priority, Some(FailureMessage(reply, "Error al agregar la tarea"))), None;
      }
    }

    /** A successful add: the form is cleared, the select goes back to
        'baja' and the list reloads from page 1. */
    method ResetAfterAdd() returns (url: string)
      requires Valid()
      modifies this`titleValue, this`priorityValue, this`currentPage
      ensures Valid()
      ensures titleValue == "" && priorityValue == "baja" && currentPage == 1
      ensures State() == Step(old(State()), TaskAdded).state
      ensures url == ListUrl(State())
    {
      titleValue := "";
      priorityValue := "baja";
      currentPage := 1;
      url := LoadTasks();
    }

    /**
     * The edit button: the dialog, then a PUT of the fields it closed with;
     * a success reloads the list at the current page.
     */
    method EditTask(taskId: int, attempts: seq<EditForm>, reply: Reply) returns (outcome: EditOutcome, request: Option<string>)
      ensures outcome.Cancelled? <==> DialogResult(attempts).None?
      ensures outcome.Put? ==> outcome.id == taskId && Some(outcome.form) == DialogResult(attempts)
      ensures outcome.Put? ==>
                outcome.error == if reply.Succeeded? then None else Some(FailureMessage(reply, "Error al actualizar la tarea"))
      ensures request.Some? <==> outcome.Put? && reply.Succeeded?
      ensures request.Some? ==> request == Some(ListUrl(State()))
    {
      var formValues := DialogResult(attempts);
      outcome, request := Cancelled, None;
      if formValues.Some? {
        if reply.Succeeded? {
          var url := LoadTasks();
          outcome, request := Put(taskId, formValues.value, None), Some(url);
        } else {
          outcome := Put(taskId, formValues.value, Some(FailureMessage(reply, "Error al actualizar la tarea")));
        }
      }
    }

    /**
     * The delete button: nothing at all unless the user confirms; then a
     * DELETE, and a reload when it succeeds. The error message is fixed.
     */
    method DeleteTask(taskId: int, confirmed: bool, reply: Reply) returns (outcome: DeleteOutcome, request: Option<string>)
      ensures outcome.Declined? <==> !confirmed
      ensures outcome.Deleted? ==> outcome.id == taskId
      ensures outcome.Deleted? ==>
                outcome.error == if reply.Succeeded? then None else Some("Error al eliminar la tarea")
      ensures request.Some? <==> confirmed && reply.Succeeded?
      ensures request.Some? ==> request == Some(ListUrl(State()))
    {
      if !confirmed {
        return Declined, None;
      }
      if reply.Succeeded? {
        var url := LoadTasks();
        outcome, request := Deleted(taskId, None), Some(url);
      } else {
        outcome, request := Deleted(taskId, Some("Error al eliminar la tarea")), None;
      }
    }
  }
}
