/**
 * Properties of the client and the server together: what the server reads
 * from the list URL the client builds, how the client's pager reacts to the
 * server's pagination record, and how the client's title check relates to
 * the server's.
 */
module Wire {
  import opened Wrappers
  import opened Text
  import Frontend
  import Backend

  /** The get_tasks arguments `request.args` gives for the pieces of a
      query string: names and values decoded, and `get` taking the first
      value under a name. */
  function ArgsOf(ps: seq<Frontend.Param>): Backend.ListArgs {
    var decoded := Frontend.DecodeParams(ps);
    Backend.ListArgs(Frontend.Lookup(decoded, "priority"), Frontend.Lookup(decoded, "search"),
                     Frontend.Lookup(decoded, "page"), Frontend.Lookup(decoded, "per_page"))
  }

  /** The names of the list query hold no '%' and no '+', so decoding
      leaves them as they are. */
  lemma NamesDecodeUnchanged(ps: seq<Frontend.Param>)
    requires forall k :: 0 <= k < |ps| ==> ps[k].name in {"page", "per_page", "priority", "search"}
    ensures forall k :: 0 <= k < |ps| ==> Frontend.DecodeComponent(ps[k].name) == ps[k].name
  {
    forall k | 0 <= k < |ps| ensures Frontend.DecodeComponent(ps[k].name) == ps[k].name {
      PlainName(ps[k].name);
      Frontend.DecodePlain(ps[k].name);
    }
  }

  lemma PlainName(name: string)
    requires name in {"page", "per_page", "priority", "search"}
    ensures '%' !in name && '+' !in name
  {
  }

  /** The server reads back exactly the page, the page size, the filter and
      the search text the client put in the list URL, and accepts both
      numbers. The filter is decoded like any value, which changes none of
      the values the filter buttons carry. */
  lemma ServerReadsClientQuery(q: Frontend.QueryState)
    requires '&' !in q.filter
    ensures var args := ArgsOf(Frontend.ParseQuery(Frontend.RenderQuery(Frontend.ListParams(q))));
            && Backend.ListRequestValid(args)
            && Backend.PageArg(args) == q.page
            && Backend.PerPageArg(args) == q.perPage
            && args.priority == (if q.filter != "all" then Some(Frontend.DecodeComponent(q.filter)) else None)
            && ('%' !in q.filter && '+' !in q.filter ==>
                  args.priority == if q.filter != "all" then Some(q.filter) else None)
            && args.search == (if q.search != "" then Some(q.search) else None)
            && Backend.SearchArg(args) == Trim(q.search, Py)
  {
    var ps := Frontend.ListParams(q);
    Frontend.ListQueryReadsBack(q);
    NamesDecodeUnchanged(ps);
    Frontend.LookupDecoded(ps, "page");
    Frontend.LookupDecoded(ps, "per_page");
    Frontend.LookupDecoded(ps, "priority");
    Frontend.LookupDecoded(ps, "search");
    Frontend.NumeralIsPlain(q.page);
    Frontend.NumeralIsPlain(q.perPage);
    Frontend.DecodePlain(IntText(q.page));
    Frontend.DecodePlain(IntText(q.perPage));
    IntTextRoundTrip(q.page);
    IntTextRoundTrip(q.perPage);
    Frontend.ComponentRoundTrip(q.search);
    if '%' !in q.filter && '+' !in q.filter {
      Frontend.DecodePlain(q.filter);
    }
  }

  /** The client's filter buttons name exactly the priorities the server
      filters on; any other filter value lists every task. */
  lemma FilterButtonsMatchServer(tasks: seq<Backend.Task>, filter: string, search: string)
    ensures Backend.IsPriority(filter) ==>
              forall t :: t in Backend.Selected(tasks, Some(filter), search) ==> t.priority == filter
    ensures !Backend.IsPriority(filter) ==>
              Backend.Selected(tasks, Some(filter), search) == Backend.Selected(tasks, None, search)
  {
  }

  /** The pager drawn from a pagination record. */
  function PageInfoOf(p: Backend.PageRecord): Frontend.PageInfo {
    Frontend.PageInfo(p.currentPage, p.totalPages, p.hasPrev, p.hasNext)
  }

  /**
   * Under the assumed paginate: the pager is hidden exactly when all
   * matching rows fit on one page; when shown, "previous" is disabled
   * exactly on page 1, and the two buttons are never both disabled.
   */
  lemma PagerFollowsPagination(rows: seq<Backend.Task>, page: int, perPage: int)
    ensures var r := Backend.Paginate(rows, page, perPage).1;
            var v := Frontend.RenderPagination(PageInfoOf(r));
            && (v.Hidden? <==> |rows| <= r.perPage)
            && (v.Shown? ==> (v.prevDisabled <==> r.currentPage == 1))
            && (v.Shown? ==> !(v.prevDisabled && v.nextDisabled))
  {
    var r := Backend.Paginate(rows, page, perPage).1;
    OnePageExactly(|rows|, r.totalPages, r.perPage);
    assert r.hasPrev <==> r.currentPage > 1;
    assert r.hasNext <==> r.currentPage < r.totalPages;
  }

  /** With pages = ceil(total / size), there is at most one page exactly
      when the total fits in one. */
  lemma OnePageExactly(total: nat, pages: int, size: int)
    requires size >= 1
    requires pages * size >= total > (pages - 1) * size
    ensures pages <= 1 <==> total <= size
  {
    if pages <= 1 {
      MulMonotone(pages, 1, size);
    } else {
      MulMonotone(1, pages - 1, size);
    }
  }

  lemma MulMonotone(a: int, b: int, c: int)
    requires a <= b && c >= 0
    ensures a * c <= b * c
  {
    assert b * c - a * c == (b - a) * c;
  }

  /** The client shows the server's own messages for the two title errors
      it catches first. */
  lemma ClientMessagesMatchServer()
    ensures Frontend.TitleMessage(Frontend.Required) == Backend.MsgRequired
    ensures Frontend.TitleMessage(Frontend.TooShort) == Backend.MsgTooShort
  {
  }

  /** The tasks of a list reply as the client receives them. */
  function ClientTasks(ts: seq<Backend.Task>): (r: seq<Frontend.ClientTask>)
    ensures |r| == |ts|
  {
    seq(|ts|, i requires 0 <= i < |ts| => Frontend.ClientTask(ts[i].id, ts[i].title, ts[i].priority))
  }

  /**
   * As written: after a delete the client reloads the page it is on. When
   * the deleted task was the only one on the last page (7 tasks at 6 per
   * page, the 7th deleted from page 2), that page is now past the end: the
   * reply has no items, the list shows its empty state although tasks
   * remain, and when the rest fit on one page the pager, Prev included, is
   * hidden.
   */
  lemma ReloadPastLastPageShowsEmpty(s: Frontend.QueryState, rows: seq<Backend.Task>)
    requires s.perPage == Frontend.PerPage && s.page >= 2
    requires 1 <= |rows| <= (s.page - 1) * s.perPage
    ensures Frontend.Step(s, Frontend.TaskChanged) == Frontend.Transition(s, true)
    ensures var r := Backend.Paginate(rows, s.page, s.perPage);
            && r.0 == []
            && Frontend.RenderTasks(ClientTasks(r.0)) == Frontend.EmptyState
            && (|rows| <= s.perPage ==> Frontend.RenderPagination(PageInfoOf(r.1)) == Frontend.Hidden)
  {
    var r := Backend.Paginate(rows, s.page, s.perPage);
    assert Backend.PageOffset(s.page, s.perPage) >= |rows|;
    if |rows| <= s.perPage {
      OnePageExactly(|rows|, r.1.totalPages, r.1.perPage);
    }
  }

  /** Corrected: when the reply's page is past the end and rows remain, the
      client loads the last page that exists instead, which shows tasks. */
  lemma ReloadWithinPagesShowsTasks(s: Frontend.QueryState, rows: seq<Backend.Task>)
    requires s.perPage == Frontend.PerPage && s.page >= 1 && |rows| >= 1
    ensures var pages := Backend.Paginate(rows, s.page, s.perPage).1.totalPages;
            var p := Frontend.PageWithin(s.page, pages);
            && (s.page <= pages ==> p == s.page)
            && Backend.Paginate(rows, p, s.perPage).0 != []
            && Frontend.RenderTasks(ClientTasks(Backend.Paginate(rows, p, s.perPage).0)).Rows?
  {
    var pages := Backend.Paginate(rows, s.page, s.perPage).1.totalPages;
    var p := Frontend.PageWithin(s.page, pages);
    assert pages >= 1 by {
      if pages < 1 {
        MulMonotone(pages, 0, s.perPage);
      }
    }
    MulMonotone(p - 1, pages - 1, s.perPage);
    assert Backend.PageOffset(p, s.perPage) < |rows|;
  }

  /** A title the client accepts from the 100-character input is never
      refused by the server as too long. */
  lemma AcceptedTitleNotTooLong(tasks: seq<Backend.Task>, raw: string, priority: Option<Backend.Json>)
    requires |raw| <= Frontend.TitleInputMax
    requires Frontend.CheckTitle(raw).Accepted?
    ensures Backend.CheckCreate(tasks, Some(Backend.Payload(Some(Backend.JString(Frontend.CheckTitle(raw).title)), priority)))
            != Err(Backend.Failure(400, Backend.MsgTooLong))
  {
    var t := Frontend.CheckTitle(raw).title;
    assert |Trim(t, Py)| <= |t| <= |raw|;
  }

  /** When the accepted title does not end in a character only Python
      strips, the server's title checks pass on the very same title. */
  lemma AcceptedTitlePassesServerChecks(raw: string)
    requires |raw| <= Frontend.TitleInputMax
    requires Frontend.CheckTitle(raw).Accepted?
    requires IsTrimmed(Frontend.CheckTitle(raw).title, Py)
    ensures var t := Frontend.CheckTitle(raw).title;
            Trim(t, Py) == t && Backend.TitleProblem(t).None?
  {
    var t := Frontend.CheckTitle(raw).title;
    TrimOfTrimmed(t, Py);
    assert |t| <= |raw|;
  }

  /** The two checks can disagree: "ab" followed by U+001F passes the
      client's trim (which keeps U+001F) but Python's strip removes it,
      leaving a title the server finds too short. */
  lemma ClientAndServerTrimDiffer(tasks: seq<Backend.Task>)
    ensures Frontend.CheckTitle("ab\U{1F}") == Frontend.Accepted("ab\U{1F}")
    ensures Backend.CheckCreate(tasks, Some(Backend.Payload(Some(Backend.JString("ab\U{1F}")), None)))
            == Err(Backend.Failure(400, Backend.MsgTooShort))
  {
    var s := "ab\U{1F}";
    assert IsTrimmed(s, Js);
    TrimOfTrimmed(s, Js);
    assert |Trim(s, Py)| < 3 by {
      assert IsSpace(s[2], Py);
      assert s[|s| - 1] == s[2];
      assert !IsTrimmed(s, Py);
      assert Trim(s, Py) != s;
      assert s[0..|s|] == s;
    }
    assert |Trim(s, Py)| >= 1 by {
      assert !AllSpace(s, Py) by { assert !IsSpace(s[0], Py); }
    }
  }
}
