/**
 * The decisions the browser client (script.js, class TaskManager) makes
 * without touching the page: the list query it sends, how its query state
 * answers each user event, the title rules of the add form and the edit
 * dialog, and what the list and the pagination controls show for a reply.
 */
module Frontend {
  import opened Wrappers
  import opened Text

  const BaseUrl := "http://localhost:5000/api"
  /** Tasks per page the client asks for. */
  const PerPage := 6
  /** The title box never holds more than this many characters. */
  const TitleInputMax := 100
  /** Shortest title, after trimming, that the client lets through. */
  const TitleMin := 3

  // ----- Query state and the events that change it -----

  /**
   * The fields of TaskManager that drive the list request. `pending` stands
   * for the debounce timer held in searchTimeout: the search box's value at
   * the last input event, while a timer is scheduled and has not fired.
   */
  datatype QueryState = QueryState(
    filter: string,
    page: int,
    perPage: int,
    search: string,
    pending: Option<string>)

  const Initial := QueryState("all", 1, PerPage, "", None)

  datatype Event =
    | FilterClicked(dataPriority: Option<string>)  // the button's data-priority, if it has one
    | SearchTyped(value: string)                    // an input event; value is the box's content
    | SearchTimerFired                              // the 500 ms timer runs out
    | PrevClicked
    | NextClicked
    | TaskAdded                                     // addTask received a successful reply
    | TaskChanged                                   // editTask or deleteTask received one

  /** The state after an event, and whether the event calls loadTasks. */
  datatype Transition = Transition(state: QueryState, loads: bool)

  /** The filter a button selects: `dataset.priority || 'all'`. */
  function FilterOf(dataPriority: Option<string>): (f: string)
    ensures f != ""
    ensures f == "all" <==> dataPriority.None? || dataPriority.value in {"", "all"}
    ensures f != "all" ==> dataPriority == Some(f)
  {
    if dataPriority.Some? && dataPriority.value != "" then dataPriority.value else "all"
  }

  /** One event handler of TaskManager, as a function of the query state.
      The page size never changes, the page never drops below 1, and an
      event that loads nothing leaves the list query as it was. */
  function Step(s: QueryState, e: Event): (t: Transition)
    ensures t.state.perPage == s.perPage
    ensures s.page >= 1 ==> t.state.page >= 1
    ensures !t.loads ==> t.state.filter == s.filter && t.state.page == s.page && t.state.search == s.search
  {
    match e
    case FilterClicked(dp) => Transition(s.(filter := FilterOf(dp), page := 1), true)
    case SearchTyped(v) => Transition(s.(pending := Some(v)), false)
    case SearchTimerFired =>
      if s.pending.Some? then
        Transition(s.(search := Trim(s.pending.value, Js), page := 1, pending := None), true)
      else
        Transition(s, false)
    case PrevClicked =>
      if s.page > 1 then Transition(s.(page := s.page - 1), true) else Transition(s, false)
    case NextClicked => Transition(s.(page := s.page + 1), true)
    case TaskAdded => Transition(s.(page := 1), true)
    case TaskChanged => Transition(s, true)
  }

  /** The end state of a run of events, and the state each list request was
      issued for, in issue order. */
  datatype Trace = Trace(state: QueryState, issued: seq<QueryState>)

  function Run(s: QueryState, es: seq<Event>): (tr: Trace)
    ensures tr.state.perPage == s.perPage
    ensures forall k :: 0 <= k < |tr.issued| ==> tr.issued[k].perPage == s.perPage
    ensures |tr.issued| <= |es|
    decreases |es|
  {
    if es == [] then Trace(s, [])
    else
      var t := Step(s, es[0]);
      var rest := Run(t.state, es[1..]);
      Trace(rest.state, (if t.loads then [t.state] else []) + rest.issued)
  }

  lemma {:induction false} RunAppend(s: QueryState, a: seq<Event>, b: seq<Event>)
    ensures var first := Run(s, a);
            var second := Run(first.state, b);
            Run(s, a + b) == Trace(second.state, first.issued + second.issued)
    decreases |a|
  {
    if a == [] {
      assert a + b == b;
    } else {
      assert (a + b)[1..] == a[1..] + b;
      RunAppend(Step(s, a[0]).state, a[1..], b);
    }
  }

  /** page >= 1 holds in every state every run reaches and in every request
      it issues, since only Prev decrements and only from page 2 or more. */
  lemma {:induction false} RunKeepsPagePositive(s: QueryState, es: seq<Event>)
    requires s.page >= 1
    ensures Run(s, es).state.page >= 1
    ensures forall k :: 0 <= k < |Run(s, es).issued| ==> Run(s, es).issued[k].page >= 1
    decreases |es|
  {
    if es != [] {
      RunKeepsPagePositive(Step(s, es[0]).state, es[1..]);
    }
  }

  /** An input event on the search box for each value, in order. */
  function Typing(vs: seq<string>): (es: seq<Event>)
    ensures |es| == |vs|
  {
    seq(|vs|, i requires 0 <= i < |vs| => SearchTyped(vs[i]))
  }

  /** Keystrokes alone issue no request; each replaces the pending value. */
  lemma {:induction false} KeystrokesIssueNothing(s: QueryState, vs: seq<string>)
    requires |vs| >= 1
    ensures Run(s, Typing(vs)) == Trace(s.(pending := Some(vs[|vs| - 1])), [])
    decreases |vs|
  {
    if |vs| > 1 {
      assert Typing(vs)[1..] == Typing(vs[1..]);
      KeystrokesIssueNothing(s.(pending := Some(vs[0])), vs[1..]);
    }
  }

  /** Debounce: a burst of keystrokes followed by the timer firing issues
      exactly one list request, for page 1 and the trimmed last value. */
  lemma DebouncedSearch(s: QueryState, vs: seq<string>)
    requires |vs| >= 1
    ensures var q := s.(search := Trim(vs[|vs| - 1], Js), page := 1, pending := None);
            Run(s, Typing(vs) + [SearchTimerFired]) == Trace(q, [q])
  {
    RunAppend(s, Typing(vs), [SearchTimerFired]);
    KeystrokesIssueNothing(s, vs);
  }

  // ----- The list request of loadTasks -----

  datatype Param = Param(name: string, value: string)

  /** The value of the first parameter called name. */
  function Lookup(ps: seq<Param>, name: string): Option<string> {
    if ps == [] then None
    else if ps[0].name == name then Some(ps[0].value)
    else Lookup(ps[1..], name)
  }

  /** Characters encodeURIComponent leaves as they are. */
  predicate IsUnreserved(c: char) {
    || ('A' <= c <= 'Z') || ('a' <= c <= 'z') || ('0' <= c <= '9')
    || c == '-' || c == '_' || c == '.' || c == '!' || c == '~' || c == '*'
    || c == '\'' || c == '(' || c == ')'
  }

  predicate IsUpperHex(c: char) {
    ('0' <= c <= '9') || ('A' <= c <= 'F')
  }

  function HexDigit(d: nat): (c: char)
    requires d < 16
    ensures IsUpperHex(c)
  {
    if d < 10 then ('0' as int + d) as char else ('A' as int + d - 10) as char
  }

  /** The UTF-8 encoding of a Unicode scalar value. */
  function Utf8(c: char): (bytes: seq<nat>)
    ensures 1 <= |bytes| <= 4
    ensures forall k :: 0 <= k < |bytes| ==> bytes[k] < 256
  {
    var cp := c as int;
    if cp < 0x80 then [cp]
    else if cp < 0x800 then [0xC0 + cp / 64, 0x80 + cp % 64]
    else if cp < 0x10000 then [0xE0 + cp / 4096, 0x80 + (cp / 64) % 64, 0x80 + cp % 64]
    else [0xF0 + cp / 262144, 0x80 + (cp / 4096) % 64, 0x80 + (cp / 64) % 64, 0x80 + cp % 64]
  }

  function PercentEscapes(bytes: seq<nat>): (r: string)
    requires forall k :: 0 <= k < |bytes| ==> bytes[k] < 256
    ensures |r| == 3 * |bytes|
    ensures forall k :: 0 <= k < |r| ==> r[k] == '%' || IsUpperHex(r[k])
  {
    if bytes == [] then ""
    else ['%', HexDigit(bytes[0] / 16), HexDigit(bytes[0] % 16)] + PercentEscapes(bytes[1..])
  }

  function EncodeChar(c: char): (r: string)
    ensures 1 <= |r| && (forall k :: 0 <= k < |r| ==> IsUnreserved(r[k]) || r[k] == '%' || IsUpperHex(r[k]))
  {
    if IsUnreserved(c) then [c] else PercentEscapes(Utf8(c))
  }

  /** encodeURIComponent on a string of Unicode scalar values: unreserved
      characters as they are, every other character as the %XX escapes of
      its UTF-8 bytes (Utf8RoundTrip); the server's decoding gives the
      string back (ComponentRoundTrip). */
  function EncodeComponent(s: string): (r: string)
    ensures forall k :: 0 <= k < |r| ==> IsUnreserved(r[k]) || r[k] == '%' || IsUpperHex(r[k])
    ensures (forall k :: 0 <= k < |s| ==> IsUnreserved(s[k])) ==> r == s
    ensures |r| >= |s|
  {
    if s == [] then "" else EncodeChar(s[0]) + EncodeComponent(s[1..])
  }

  // ----- Reading a component back, as the server's query parser does -----

  predicate IsHexDigit(c: char) {
    ('0' <= c <= '9') || ('A' <= c <= 'F') || ('a' <= c <= 'f')
  }

  function HexValue(c: char): (d: nat)
    requires IsHexDigit(c)
    ensures d < 16
  {
    if '0' <= c <= '9' then c as int - '0' as int
    else if 'A' <= c <= 'F' then c as int - 'A' as int + 10
    else c as int - 'a' as int + 10
  }

  /** The byte written "%XY" at the start of s, if s starts with one. */
  function EscapedByte(s: string): (b: Option<nat>)
    ensures b.Some? ==> |s| >= 3 && b.value < 256
  {
    if |s| >= 3 && s[0] == '%' && IsHexDigit(s[1]) && IsHexDigit(s[2])
    then Some(16 * HexValue(s[1]) + HexValue(s[2]))
    else None
  }

  /** The n bytes escaped one after another at the start of s. */
  function EscapedBytes(s: string, n: nat): (bs: Option<seq<nat>>)
    ensures bs.Some? ==> |bs.value| == n && 3 * n <= |s|
  {
    if n == 0 then Some([])
    else match EscapedByte(s)
      case None => None
      case Some(b) =>
        match EscapedBytes(s[3..], n - 1)
        case None => None
        case Some(rest) => Some([b] + rest)
  }

  /** The length of the UTF-8 sequence a byte starts; 0 when it starts none. */
  function Utf8Length(b: nat): nat {
    if b < 0x80 then 1
    else if b < 0xC0 then 0
    else if b < 0xE0 then 2
    else if b < 0xF0 then 3
    else if b < 0xF8 then 4
    else 0
  }

  predicate IsContinuation(b: nat) {
    0x80 <= b < 0xC0
  }

  /** cp as a character, when it is a Unicode scalar value of at least min
      (an encoding longer than needed is refused). */
  function ScalarAtLeast(cp: int, min: int): Option<char> {
    if min <= cp && (0 <= cp < 0xD800 || 0xE000 <= cp < 0x110000) then Some(cp as char) else None
  }

  /** The character a UTF-8 byte sequence encodes, if it encodes exactly one. */
  function Utf8Decode(bs: seq<nat>): Option<char> {
    if |bs| == 1 && bs[0] < 0x80 then Some(bs[0] as char)
    else if |bs| == 2 && 0xC0 <= bs[0] < 0xE0 && IsContinuation(bs[1]) then
      ScalarAtLeast((bs[0] - 0xC0) * 64 + (bs[1] - 0x80), 0x80)
    else if |bs| == 3 && 0xE0 <= bs[0] < 0xF0 && IsContinuation(bs[1]) && IsContinuation(bs[2]) then
      ScalarAtLeast((bs[0] - 0xE0) * 4096 + (bs[1] - 0x80) * 64 + (bs[2] - 0x80), 0x800)
    else if |bs| == 4 && 0xF0 <= bs[0] < 0xF8 && IsContinuation(bs[1]) && IsContinuation(bs[2]) && IsContinuation(bs[3]) then
      ScalarAtLeast((bs[0] - 0xF0) * 262144 + (bs[1] - 0x80) * 4096 + (bs[2] - 0x80) * 64 + (bs[3] - 0x80), 0x10000)
    else None
  }

  /** The character spelled by the escapes at the start of s, and how many
      characters of s they take. */
  function DecodeEscape(s: string): (r: Option<(char, nat)>)
    ensures r.Some? ==> 3 <= r.value.1 <= |s|
  {
    match EscapedByte(s)
    case None => None
    case Some(b) =>
      var n := Utf8Length(b);
      if n == 0 then None
      else match EscapedBytes(s, n)
        case None => None
        case Some(bs) =>
          match Utf8Decode(bs)
          case None => None
          case Some(c) => Some((c, 3 * n))
  }

  /**
   * werkzeug's unquote_plus on a query string name or value: '+' is a
   * space, escapes that spell a UTF-8 character are that character, an
   * escaped byte that starts no character is U+FFFD, and everything else
   * is kept.
   */
  function DecodeComponent(s: string): string
    decreases |s|
  {
    if s == [] then ""
    else match DecodeEscape(s)
      case Some((c, n)) => [c] + DecodeComponent(s[n..])
      case None =>
        if EscapedByte(s).Some? then "\U{FFFD}" + DecodeComponent(s[3..])
        else [if s[0] == '+' then ' ' else s[0]] + DecodeComponent(s[1..])
  }

  lemma HexRoundTrip(d: nat)
    requires d < 16
    ensures IsHexDigit(HexDigit(d)) && HexValue(HexDigit(d)) == d
  {
  }

  lemma ByteRoundTrip(b: nat, rest: string)
    requires b < 256
    ensures EscapedByte(['%', HexDigit(b / 16), HexDigit(b % 16)] + rest) == Some(b)
  {
    HexRoundTrip(b / 16);
    HexRoundTrip(b % 16);
  }

  /** Escaped bytes read back as those bytes. */
  lemma {:induction false} EscapesRoundTrip(bytes: seq<nat>, rest: string)
    requires forall k :: 0 <= k < |bytes| ==> bytes[k] < 256
    ensures EscapedBytes(PercentEscapes(bytes) + rest, |bytes|) == Some(bytes)
    decreases |bytes|
  {
    if bytes != [] {
      var head := ['%', HexDigit(bytes[0] / 16), HexDigit(bytes[0] % 16)];
      var s := PercentEscapes(bytes) + rest;
      assert s == head + (PercentEscapes(bytes[1..]) + rest);
      ByteRoundTrip(bytes[0], PercentEscapes(bytes[1..]) + rest);
      assert s[3..] == PercentEscapes(bytes[1..]) + rest;
      EscapesRoundTrip(bytes[1..], rest);
      assert [bytes[0]] + bytes[1..] == bytes;
    }
  }

  /** The bytes Utf8 produces are the UTF-8 encoding of the character: a
      UTF-8 decoder reads them back as it, and the first byte announces
      their number. */
  lemma Utf8RoundTrip(c: char)
    ensures Utf8Length(Utf8(c)[0]) == |Utf8(c)|
    ensures Utf8Decode(Utf8(c)) == Some(c)
  {
    var cp := c as int;
    var bs := Utf8(c);
    if cp < 0x80 {
    } else if cp < 0x800 {
      assert bs[0] - 0xC0 == cp / 64 && bs[1] - 0x80 == cp % 64;
    } else if cp < 0x10000 {
      Utf8Three(cp);
    } else {
      Utf8Four(cp);
    }
  }

  lemma Utf8Three(cp: int)
    requires 0x800 <= cp < 0x10000
    ensures (cp / 4096) * 4096 + ((cp / 64) % 64) * 64 + cp % 64 == cp
  {
    var a := cp / 64;
    assert cp == a * 64 + cp % 64;
    assert a == (a / 64) * 64 + a % 64;
    assert cp / 4096 == a / 64;
  }

  lemma Utf8Four(cp: int)
    requires 0x10000 <= cp < 0x110000
    ensures 0xF0 + cp / 262144 < 0xF8
    ensures (cp / 262144) * 262144 + ((cp / 4096) % 64) * 4096 + ((cp / 64) % 64) * 64 + cp % 64 == cp
  {
    var a := cp / 64;
    var b := a / 64;
    assert cp == a * 64 + cp % 64;
    assert a == b * 64 + a % 64;
    assert b == (b / 64) * 64 + b % 64;
    assert cp / 4096 == b;
    assert cp / 262144 == b / 64;
  }

  /** Decoding undoes the encoding of one character. */
  lemma EncodeCharDecodes(c: char, rest: string)
    ensures DecodeComponent(EncodeChar(c) + rest) == [c] + DecodeComponent(rest)
  {
    var s := EncodeChar(c) + rest;
    if IsUnreserved(c) {
      assert s[0] == c && s[1..] == rest;
    } else {
      EscapesDecode(c, rest);
      assert s[3 * |Utf8(c)|..] == rest;
    }
  }

  /** The escapes of a character's UTF-8 bytes read back as that character. */
  lemma EscapesDecode(c: char, rest: string)
    ensures DecodeEscape(PercentEscapes(Utf8(c)) + rest) == Some((c, 3 * |Utf8(c)|))
  {
    var bs := Utf8(c);
    var s := PercentEscapes(bs) + rest;
    Utf8RoundTrip(c);
    EscapesRoundTrip(bs, rest);
    assert s == ['%', HexDigit(bs[0] / 16), HexDigit(bs[0] % 16)] + (PercentEscapes(bs[1..]) + rest);
    ByteRoundTrip(bs[0], PercentEscapes(bs[1..]) + rest);
    assert EscapedByte(s) == Some(bs[0]);
  }

  /** Round trip: the server decodes an encodeURIComponent value back to
      the string the client encoded. */
  lemma {:induction false} ComponentRoundTrip(s: string)
    ensures DecodeComponent(EncodeComponent(s)) == s
    decreases |s|
  {
    if s != [] {
      EncodeCharDecodes(s[0], EncodeComponent(s[1..]));
      ComponentRoundTrip(s[1..]);
      assert [s[0]] + s[1..] == s;
    }
  }

  /** Text without '%' and '+' decodes as it is. */
  lemma {:induction false} DecodePlain(s: string)
    requires '%' !in s && '+' !in s
    ensures DecodeComponent(s) == s
    decreases |s|
  {
    if s != [] {
      assert s[0] != '%' && s[0] != '+';
      assert '%' !in s[1..] && '+' !in s[1..] by {
        forall c | c in s[1..] ensures c != '%' && c != '+' {
          assert c in s;
        }
      }
      DecodePlain(s[1..]);
      assert [s[0]] + s[1..] == s;
    }
  }

  function DecodeParam(p: Param): Param {
    Param(DecodeComponent(p.name), DecodeComponent(p.value))
  }

  /** The parameters with names and values decoded. */
  function DecodeParams(ps: seq<Param>): (r: seq<Param>)
    ensures |r| == |ps|
    ensures forall k :: 0 <= k < |ps| ==> r[k] == DecodeParam(ps[k])
  {
    seq(|ps|, i requires 0 <= i < |ps| => DecodeParam(ps[i]))
  }

  /** When no name changes under decoding, looking a name up among the
      decoded parameters finds the decoded value of the raw lookup. */
  lemma {:induction false} LookupDecoded(ps: seq<Param>, name: string)
    requires forall k :: 0 <= k < |ps| ==> DecodeComponent(ps[k].name) == ps[k].name
    ensures Lookup(DecodeParams(ps), name)
            == if Lookup(ps, name).Some? then Some(DecodeComponent(Lookup(ps, name).value)) else None
    decreases |ps|
  {
    if ps != [] {
      assert DecodeParams(ps)[1..] == DecodeParams(ps[1..]);
      LookupDecoded(ps[1..], name);
    }
  }

  /** The parameters loadTasks puts in the list URL, in order. */
  function ListParams(q: QueryState): (ps: seq<Param>)
    ensures |ps| >= 2
    ensures Lookup(ps, "page") == Some(IntText(q.page))
    ensures Lookup(ps, "per_page") == Some(IntText(q.perPage))
    ensures Lookup(ps, "priority") == (if q.filter != "all" then Some(q.filter) else None)
    ensures Lookup(ps, "search") == (if q.search != "" then Some(EncodeComponent(q.search)) else None)
    ensures forall k :: 0 <= k < |ps| ==> ps[k].name in {"page", "per_page", "priority", "search"}
  {
    var tail := PriorityPart(q) + SearchPart(q);
    var ps := [Param("page", IntText(q.page)), Param("per_page", IntText(q.perPage))] + tail;
    TailLookups(q);
    assert ps[1..][1..] == tail;
    ps
  }

  function PriorityPart(q: QueryState): seq<Param> {
    if q.filter != "all" then [Param("priority", q.filter)] else []
  }

  function SearchPart(q: QueryState): seq<Param> {
    if q.search != "" then [Param("search", EncodeComponent(q.search))] else []
  }

  /** The optional parameters of the list URL, looked up. */
  lemma TailLookups(q: QueryState)
    ensures var tail := PriorityPart(q) + SearchPart(q);
            && Lookup(tail, "page") == None && Lookup(tail, "per_page") == None
            && Lookup(tail, "priority") == (if q.filter != "all" then Some(q.filter) else None)
            && Lookup(tail, "search") == (if q.search != "" then Some(EncodeComponent(q.search)) else None)
            && forall k :: 0 <= k < |tail| ==> tail[k].name in {"priority", "search"}
  {
    var tail := PriorityPart(q) + SearchPart(q);
    var s := SearchPart(q);
    assert "search" != "page" && "search" != "per_page" && "search" != "priority";
    assert "priority" != "page" && "priority" != "per_page" && "priority" != "search";
    if s != [] {
      LookupSingle(s[0], "page");
      LookupSingle(s[0], "per_page");
      LookupSingle(s[0], "priority");
      assert s == [s[0]];
    }
    if q.filter != "all" {
      assert tail[1..] == s;
    } else {
      assert tail == s;
    }
  }

  /** A single parameter of another name is not found. */
  lemma LookupSingle(p: Param, name: string)
    requires p.name != name
    ensures Lookup([p], name) == None
  {
    assert [p][1..] == [];
  }

  function RenderParam(p: Param): string {
    p.name + "=" + p.value
  }

  function RenderQuery(ps: seq<Param>): string
    requires |ps| >= 1
  {
    Join(seq(|ps|, i requires 0 <= i < |ps| => RenderParam(ps[i])), '&')
  }

  lemma {:induction false} JoinSnoc(parts: seq<string>, x: string, sep: char)
    requires |parts| >= 1
    ensures Join(parts + [x], sep) == Join(parts, sep) + [sep] + x
    decreases |parts|
  {
    if |parts| > 1 {
      assert (parts + [x])[1..] == parts[1..] + [x];
      JoinSnoc(parts[1..], x, sep);
    } else {
      assert parts + [x] == [parts[0], x];
      assert [parts[0], x][1..] == [x];
    }
  }

  /** Appending a parameter appends "&name=value" to the rendered query. */
  lemma RenderQuerySnoc(ps: seq<Param>, p: Param)
    requires |ps| >= 1
    ensures RenderQuery(ps + [p]) == RenderQuery(ps) + "&" + RenderParam(p)
  {
    var parts := seq(|ps|, i requires 0 <= i < |ps| => RenderParam(ps[i]));
    var parts' := seq(|ps + [p]|, i requires 0 <= i < |ps + [p]| => RenderParam((ps + [p])[i]));
    assert parts' == parts + [RenderParam(p)];
    JoinSnoc(parts, RenderParam(p), '&');
  }

  /** The URL loadTasks fetches for query state q. */
  function ListUrl(q: QueryState): string {
    BaseUrl + "/tasks?" + RenderQuery(ListParams(q))
  }

  /** ListUrl written out as loadTasks builds it: the page and size first,
      then "&priority=" unless the filter is 'all', then "&search=" unless
      the search text is empty. */
  lemma ListUrlSpelledOut(q: QueryState, start: string, middle: string, url: string)
    requires start == BaseUrl + "/tasks?page=" + IntText(q.page) + "&per_page=" + IntText(q.perPage)
    requires middle == if q.filter != "all" then start + "&priority=" + q.filter else start
    requires url == if q.search != "" then middle + "&search=" + EncodeComponent(q.search) else middle
    ensures url == ListUrl(q)
  {
    var head := [Param("page", IntText(q.page)), Param("per_page", IntText(q.perPage))];
    ListParamsParts(q);
    UrlHead(q, start);
    AppendsSpelledOut(head, q.filter != "all", q.filter, q.search != "", EncodeComponent(q.search), start, middle, url);
  }

  /** The two conditional appends of loadTasks, on any head and values. */
  lemma AppendsSpelledOut(head: seq<Param>, withPriority: bool, priority: string, withSearch: bool, search: string,
                          start: string, middle: string, url: string)
    requires |head| >= 1 && start == BaseUrl + "/tasks?" + RenderQuery(head)
    requires middle == if withPriority then start + "&priority=" + priority else start
    requires url == if withSearch then middle + "&search=" + search else middle
    ensures url == BaseUrl + "/tasks?" + RenderQuery(head + (if withPriority then [Param("priority", priority)] else [])
                                                        + (if withSearch then [Param("search", search)] else []))
  {
    var ps := head + (if withPriority then [Param("priority", priority)] else []);
    assert "&priority=" == "&" + "priority" + "=";
    UrlAppendWhen(withPriority, head, "&priority=", "priority", priority, BaseUrl + "/tasks?", start, middle);
    assert "&search=" == "&" + "search" + "=";
    UrlAppendWhen(withSearch, ps, "&search=", "search", search, BaseUrl + "/tasks?", middle, url);
  }

  lemma UrlHead(q: QueryState, start: string)
    requires start == BaseUrl + "/tasks?page=" + IntText(q.page) + "&per_page=" + IntText(q.perPage)
    ensures start == BaseUrl + "/tasks?" + RenderQuery([Param("page", IntText(q.page)), Param("per_page", IntText(q.perPage))])
  {
    var head := [Param("page", IntText(q.page)), Param("per_page", IntText(q.perPage))];
    assert BaseUrl + "/tasks?page=" == BaseUrl + "/tasks?" + "page=";
    RenderQuerySnoc([head[0]], head[1]);
    assert [head[0]] + [head[1]] == head;
  }

  /** One conditional `url += literal + value` step of loadTasks. */
  lemma UrlAppendWhen(cond: bool, ps: seq<Param>, literal: string, name: string, value: string,
                      prefix: string, before: string, after: string)
    requires |ps| >= 1 && before == prefix + RenderQuery(ps)
    requires literal == "&" + name + "="
    requires after == if cond then before + literal + value else before
    ensures after == prefix + RenderQuery(ps + (if cond then [Param(name, value)] else []))
  {
    if cond {
      RenderQuerySnoc(ps, Param(name, value));
      assert literal + value == "&" + RenderParam(Param(name, value));
      assert (prefix + RenderQuery(ps)) + (literal + value) == prefix + (RenderQuery(ps) + (literal + value));
      assert (before + literal) + value == before + (literal + value);
    } else {
      assert ps + [] == ps;
    }
  }

  lemma ListParamsParts(q: QueryState)
    ensures ListParams(q)
            == [Param("page", IntText(q.page)), Param("per_page", IntText(q.perPage))]
               + (if q.filter != "all" then [Param("priority", q.filter)] else [])
               + (if q.search != "" then [Param("search", EncodeComponent(q.search))] else [])
  {
    assert [Param("page", IntText(q.page)), Param("per_page", IntText(q.perPage))] + (PriorityPart(q) + SearchPart(q))
           == [Param("page", IntText(q.page)), Param("per_page", IntText(q.perPage))] + PriorityPart(q) + SearchPart(q);
  }

  /** Reading a query string back: split on '&', each piece at its first '='. */
  function ParseParam(piece: string): Param {
    match FirstIndex(piece, '=')
    case None => Param(piece, "")
    case Some(k) => Param(piece[..k], piece[k + 1..])
  }

  function ParseQuery(query: string): seq<Param> {
    var pieces := Split(query, '&');
    seq(|pieces|, i requires 0 <= i < |pieces| => ParseParam(pieces[i]))
  }

  predicate WellFormedParams(ps: seq<Param>) {
    forall k :: 0 <= k < |ps| ==> '&' !in ps[k].name && '=' !in ps[k].name && '&' !in ps[k].value
  }

  lemma ParseRenderedParam(p: Param)
    requires '=' !in p.name
    ensures ParseParam(RenderParam(p)) == p
  {
    var s := RenderParam(p);
    assert s[|p.name|] == '=';
    assert s[..|p.name|] == p.name;
    assert s[|p.name| + 1..] == p.value;
  }

  /** Round trip: parsing a rendered query gives back its parameters. */
  lemma QueryRoundTrip(ps: seq<Param>)
    requires |ps| >= 1 && WellFormedParams(ps)
    ensures ParseQuery(RenderQuery(ps)) == ps
  {
    var pieces := seq(|ps|, i requires 0 <= i < |ps| => RenderParam(ps[i]));
    forall k | 0 <= k < |pieces| ensures '&' !in pieces[k] {
      assert pieces[k] == ps[k].name + "=" + ps[k].value;
    }
    SplitJoin(pieces, '&');
    forall k | 0 <= k < |ps| ensures ParseParam(pieces[k]) == ps[k] {
      ParseRenderedParam(ps[k]);
    }
  }

  /** Whatever the search text, the list URL reads back as exactly the
      parameters of ListParams; only a filter holding '&' could break it. */
  lemma ListQueryReadsBack(q: QueryState)
    requires '&' !in q.filter
    ensures ParseQuery(RenderQuery(ListParams(q))) == ListParams(q)
  {
    ListParamsWellFormed(q);
    QueryRoundTrip(ListParams(q));
  }

  lemma ListParamsWellFormed(q: QueryState)
    requires '&' !in q.filter
    ensures WellFormedParams(ListParams(q))
  {
    var head := [Param("page", IntText(q.page)), Param("per_page", IntText(q.perPage))];
    NumeralIsPlain(q.page);
    NumeralIsPlain(q.perPage);
    TailWellFormed(q);
    WellFormedAppend(head, PriorityPart(q) + SearchPart(q));
    assert ListParams(q) == head + (PriorityPart(q) + SearchPart(q));
  }

  lemma TailWellFormed(q: QueryState)
    requires '&' !in q.filter
    ensures WellFormedParams(PriorityPart(q) + SearchPart(q))
  {
    PriorityPartWellFormed(q);
    SearchPartWellFormed(q);
    WellFormedAppend(PriorityPart(q), SearchPart(q));
  }

  lemma PriorityPartWellFormed(q: QueryState)
    requires '&' !in q.filter
    ensures WellFormedParams(PriorityPart(q))
  {
    assert '&' !in "priority" && '=' !in "priority";
  }

  lemma SearchPartWellFormed(q: QueryState)
    ensures WellFormedParams(SearchPart(q))
  {
    NoAmpersandInEncoded(q.search);
    assert '&' !in "search" && '=' !in "search";
  }

  lemma WellFormedAppend(a: seq<Param>, b: seq<Param>)
    requires WellFormedParams(a) && WellFormedParams(b)
    ensures WellFormedParams(a + b)
  {
    forall k | 0 <= k < |a + b| ensures '&' !in (a + b)[k].name && '=' !in (a + b)[k].name && '&' !in (a + b)[k].value {
      if k < |a| { assert (a + b)[k] == a[k]; } else { assert (a + b)[k] == b[k - |a|]; }
    }
  }

  /** A numeral holds only digits and a sign: no '&', '%' or '+'. */
  lemma NumeralIsPlain(i: int)
    ensures '&' !in IntText(i) && '%' !in IntText(i) && '+' !in IntText(i)
  {
    var r := IntText(i);
    if i < 0 {
      assert r == "-" + Decimal(-i);
      assert forall j :: 1 <= j < |r| ==> r[j] == Decimal(-i)[j - 1];
    }
  }

  lemma NoAmpersandInEncoded(s: string)
    ensures '&' !in EncodeComponent(s)
  {
    var r := EncodeComponent(s);
    assert forall j :: 0 <= j < |r| ==> r[j] != '&';
  }

  // ----- Title rules of addTask and of the edit dialog's preConfirm -----

  datatype TitleCheck = Accepted(title: string) | Required | TooShort

  /** Both the add form and the edit dialog trim the title, refuse an empty
      one, then refuse one shorter than three characters. */
  function CheckTitle(raw: string): (c: TitleCheck)
    ensures c.Accepted? <==> |Trim(raw, Js)| >= TitleMin
    ensures c.Accepted? ==> c.title == Trim(raw, Js)
    ensures c == Required <==> AllSpace(raw, Js)
    ensures c == TooShort <==> 1 <= |Trim(raw, Js)| < TitleMin
  {
    var title := Trim(raw, Js);
    if title == "" then Required
    else if |title| < TitleMin then TooShort
    else Accepted(title)
  }

  function TitleMessage(c: TitleCheck): string
    requires !c.Accepted?
  {
    if c == Required then "El título es obligatorio"
    else "El título debe tener al menos 3 caracteres"
  }

  /** The title box after an input event: at most 100 characters, and an
      overlong value cut to its first 100. */
  function TruncateTitleInput(v: string): (r: string)
    ensures |r| == if |v| > TitleInputMax then TitleInputMax else |v|
    ensures r == v[..|r|]
  {
    if |v| > TitleInputMax then v[..TitleInputMax] else v
  }

  lemma TruncateIdempotent(v: string)
    ensures TruncateTitleInput(TruncateTitleInput(v)) == TruncateTitleInput(v)
  {
  }

  datatype EditForm = EditForm(title: string, priority: string)

  predicate Confirmable(f: EditForm) {
    CheckTitle(f.title).Accepted?
  }

  /** The position of the first element of xs that satisfies p. */
  function FirstWhere<T>(xs: seq<T>, p: T -> bool): (r: Option<nat>)
    ensures r.None? <==> forall i :: 0 <= i < |xs| ==> !p(xs[i])
    ensures r.Some? ==> r.value < |xs| && p(xs[r.value])
    ensures r.Some? ==> forall j :: 0 <= j < r.value ==> !p(xs[j])
  {
    if xs == [] then None
    else if p(xs[0]) then Some(0)
    else
      var rest := FirstWhere(xs[1..], p);
      assert forall i :: 1 <= i < |xs| ==> xs[i] == xs[1..][i - 1];
      if rest.None? then None else Some(rest.value + 1)
  }

  /**
   * The edit dialog keeps itself open while preConfirm refuses the fields;
   * given the fields at each press of the confirm button, it closes with the
   * first set the title rule accepts, its title trimmed. None: the user
   * cancelled without ever confirming acceptable fields.
   */
  function DialogResult(attempts: seq<EditForm>): (r: Option<EditForm>)
    ensures r.None? <==> forall i :: 0 <= i < |attempts| ==> !Confirmable(attempts[i])
    ensures r.Some? ==> CheckTitle(r.value.title) == Accepted(r.value.title)
    ensures r.Some? ==>
              exists i :: 0 <= i < |attempts| && Confirmable(attempts[i])
                && (forall j :: 0 <= j < i ==> !Confirmable(attempts[j]))
                && r.value == EditForm(Trim(attempts[i].title, Js), attempts[i].priority)
  {
    match FirstWhere(attempts, Confirmable)
    case None => None
    case Some(i) =>
      TrimIdempotent(attempts[i].title, Js);
      Some(EditForm(Trim(attempts[i].title, Js), attempts[i].priority))
  }

  // ----- How a reply is shown -----

  /** The fields of the server's pagination record that renderPagination reads. */
  datatype PageInfo = PageInfo(currentPage: int, totalPages: int, hasPrev: bool, hasNext: bool)

  /** The pagination bar: hidden, or showing page numbers and which buttons
      are disabled (and dimmed; the two always go together). */
  datatype Pager = Hidden | Shown(current: int, total: int, prevDisabled: bool, nextDisabled: bool)

  function RenderPagination(p: PageInfo): (v: Pager)
    ensures v.Hidden? <==> p.totalPages <= 1
    ensures v.Shown? ==> v.current == p.currentPage && v.total == p.totalPages
    ensures v.Shown? ==> (v.prevDisabled <==> !p.hasPrev) && (v.nextDisabled <==> !p.hasNext)
  {
    if p.totalPages <= 1 then Hidden
    else Shown(p.currentPage, p.totalPages, !p.hasPrev, !p.hasNext)
  }

  /** The page a reload should show: the requested one, or the last page
      when the requested one is past the end and some page exists. This is
      the correction of reloading a page that a delete has emptied. */
  function PageWithin(page: int, totalPages: int): (p: int)
    ensures page <= totalPages ==> p == page
    ensures page >= 1 ==> 1 <= p
    ensures totalPages >= 1 && page >= 1 ==> p <= totalPages
  {
    if totalPages >= 1 && page > totalPages then totalPages else page
  }

  /** A task as the client receives it. */
  datatype ClientTask = ClientTask(id: int, title: string, priority: string)

  datatype Marker = Red | Yellow | Green

  function MarkerOf(priority: string): Marker {
    if priority == "alta" then Red else if priority == "media" then Yellow else Green
  }

  function UpperAscii(c: char): char {
    if 'a' <= c <= 'z' then (c as int - 32) as char else c
  }

  /** The text of the priority badge: the value capitalised, then " Prioridad". */
  function PriorityLabel(priority: string): string {
    (if priority == "" then "" else [UpperAscii(priority[0])] + priority[1..]) + " Prioridad"
  }

  datatype Row = Row(id: int, title: string, marker: Marker, badge: string)

  datatype ListView = EmptyState | Rows(rows: seq<Row>)

  /** renderTasks: the empty-state placeholder for no tasks, otherwise one
      row per task, in the order received. */
  function RenderTasks(tasks: seq<ClientTask>): (v: ListView)
    ensures v.EmptyState? <==> tasks == []
    ensures v.Rows? ==> |v.rows| == |tasks|
    ensures v.Rows? ==> forall i :: 0 <= i < |tasks| ==>
              v.rows[i].id == tasks[i].id && v.rows[i].title == tasks[i].title
              && (v.rows[i].marker == Red <==> tasks[i].priority == "alta")
              && (v.rows[i].marker == Yellow <==> tasks[i].priority == "media")
  {
    if tasks == [] then EmptyState
    else Rows(seq(|tasks|, i requires 0 <= i < |tasks| =>
                Row(tasks[i].id, tasks[i].title, MarkerOf(tasks[i].priority), PriorityLabel(tasks[i].priority))))
  }

  // ----- Replies to add, edit and delete -----

  /** How a fetch to the API settled, as the client sees it. */
  datatype Reply =
    | Succeeded                          // response.ok, JSON body read
    | Refused(error: Option<string>)     // non-2xx; the body's error field, if any
    | Failed(reason: string)             // fetch or JSON parsing threw

  /** `responseData.error || fallback` */
  function ErrorText(error: Option<string>, fallback: string): (m: string)
    ensures error.Some? && error.value != "" ==> m == error.value
    ensures error.None? || error.value == "" ==> m == fallback
  {
    if error.Some? && error.value != "" then error.value else fallback
  }

  /** The message shown when an add or edit request does not succeed. */
  function FailureMessage(reply: Reply, fallback: string): (m: string)
    requires !reply.Succeeded?
    ensures reply.Refused? && reply.error.Some? && reply.error.value != "" ==> m == reply.error.value
    ensures reply.Refused? && (reply.error.None? || reply.error.value == "") ==> m == fallback
    ensures reply.Failed? ==> m == reply.reason
  {
    match reply
    case Refused(error) => ErrorText(error, fallback)
    case Failed(reason) => reason
  }
}
