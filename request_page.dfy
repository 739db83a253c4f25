/**
 * The request list page (src/app/request/page.tsx): the fetched records, the
 * "today only" filter over them, and what each card shows for a record's
 * status, identifier and email.
 */
module RequestPage {
  import opened Wrappers
  import opened Seqs
  import opened Text

  /** One row of the `client_request` table as the page reads it. */
  datatype ClientRequest = ClientRequest(
    clientName: string,
    email: string,
    phoneNumber: string,
    requestDate: string,
    status: string,
    description: string,
    reqId: string,
    reqTime: string)

  const FetchErrorMessage := "Failed to fetch requests"
  const EmailFallback := "Not provided"
  const IdShownLength: nat := 8

  // ---------------------------------------------------------------- today filter

  /** `requestDate.split('T')[0]`: the text before the first 'T', or all of it. */
  function DatePart(requestDate: string): (d: string)
    ensures d <= requestDate && 'T' !in d
    ensures |d| < |requestDate| ==> requestDate[|d|] == 'T'
  {
    FirstPiece(requestDate, 'T');
    Split(requestDate, 'T')[0]
  }

  function IsOnDay(today: string): ClientRequest -> bool {
    (r: ClientRequest) => DatePart(r.requestDate) == today
  }

  /** `requests.filter(req => req.request_date.split('T')[0] === today)`. */
  function TodayRequests(requests: seq<ClientRequest>, today: string): (r: seq<ClientRequest>)
    ensures forall x :: x in r <==> x in requests && DatePart(x.requestDate) == today
  {
    Filter(requests, IsOnDay(today))
  }

  /**
   * The filtered list keeps the records of `today` in the fetched order, each as
   * often as it was fetched, and drops every other record.
   */
  lemma TodayRequestsExactly(requests: seq<ClientRequest>, today: string)
    ensures IsSubsequence(TodayRequests(requests, today), requests)
    ensures forall x :: multiset(TodayRequests(requests, today))[x]
                     == if DatePart(x.requestDate) == today then multiset(requests)[x] else 0
  {
    FilterIsSubsequence(requests, IsOnDay(today));
    FilterMultiplicity(requests, IsOnDay(today));
  }

  /** Filtering the filtered list again changes nothing. */
  lemma TodayRequestsIdempotent(requests: seq<ClientRequest>, today: string)
    ensures TodayRequests(TodayRequests(requests, today), today) == TodayRequests(requests, today)
  {
    FilterIdempotent(requests, IsOnDay(today));
  }

  /** The filter hides nothing exactly when every record is from `today`. */
  lemma TodayRequestsAllIff(requests: seq<ClientRequest>, today: string)
    ensures TodayRequests(requests, today) == requests
        <==> forall x :: x in requests ==> DatePart(x.requestDate) == today
  {
    FilterUnchangedIff(requests, IsOnDay(today));
  }

  // ---------------------------------------------------------------- status badge

  const PendingClass := "bg-amber-100 text-amber-800 border-amber-200"
  const CompletedClass := "bg-emerald-100 text-emerald-800 border-emerald-200"
  const ProcessingClass := "bg-blue-100 text-blue-800 border-blue-200"
  const CancelledClass := "bg-red-100 text-red-800 border-red-200"
  const DefaultClass := "bg-gray-100 text-gray-800 border-gray-200"

  /** `statusColors`. */
  const StatusColors: map<string, string> := map[
    "pending" := PendingClass,
    "completed" := CompletedClass,
    "processing" := ProcessingClass,
    "cancelled" := CancelledClass]

  /** The badge class for a status: the listed class for a known status, gray for anything else. */
  function StatusClass(status: string): (c: string)
    ensures c in {PendingClass, CompletedClass, ProcessingClass, CancelledClass, DefaultClass}
    ensures c == PendingClass <==> status == "pending"
    ensures c == CompletedClass <==> status == "completed"
    ensures c == ProcessingClass <==> status == "processing"
    ensures c == CancelledClass <==> status == "cancelled"
    ensures c == DefaultClass <==> status !in StatusColors
  {
    if status in StatusColors then StatusColors[status] else DefaultClass
  }

  /** The value a JavaScript property read can give here. */
  datatype JsValue = Undefined | Str(s: string) | Inherited(key: string)

  /** The keys every object literal inherits from `Object.prototype`; each reads as a truthy object. */
  const ObjectPrototypeKeys: set<string> := {
    "constructor", "hasOwnProperty", "isPrototypeOf", "propertyIsEnumerable",
    "toLocaleString", "toString", "valueOf", "__proto__",
    "__defineGetter__", "__defineSetter__", "__lookupGetter__", "__lookupSetter__"}

  /** `statusColors[status]`: own keys first, then the prototype chain, else `undefined`. */
  function ReadStatusColors(status: string): JsValue {
    if status in StatusColors then Str(StatusColors[status])
    else if status in ObjectPrototypeKeys then Inherited(status)
    else Undefined
  }

  predicate Truthy(v: JsValue) {
    match v
    case Undefined => false
    case Str(s) => s != ""
    case Inherited(_) => true
  }

  /** `statusColors[req.status] || 'bg-gray-…'` as the page evaluates it. */
  function StatusClassAsWritten(status: string): (v: JsValue)
    ensures v.Inherited? <==> status in ObjectPrototypeKeys
  {
    var v := ReadStatusColors(status);
    if Truthy(v) then v else Str(DefaultClass)
  }

  /** The page's lookup agrees with `StatusClass` on every status except the inherited keys. */
  lemma StatusClassAsWrittenAgrees(status: string)
    ensures status !in ObjectPrototypeKeys ==> StatusClassAsWritten(status) == Str(StatusClass(status))
    ensures status in ObjectPrototypeKeys ==> StatusClassAsWritten(status) != Str(StatusClass(status))
  {
  }

  /** A record whose status is "constructor" gets no gray class but the inherited constructor. */
  lemma StatusClassAsWrittenMissesDefault()
    ensures StatusClassAsWritten("constructor") == Inherited("constructor")
    ensures StatusClass("constructor") == DefaultClass
  {
    assert "constructor" in ObjectPrototypeKeys;
  }

  // ---------------------------------------------------------------- card text

  /** `req_id.substring(0, 8)`: the first eight characters, or the whole id if shorter. */
  function DisplayId(reqId: string): (shown: string)
    ensures shown <= reqId
    ensures |shown| == Min(IdShownLength, |reqId|)
  {
    Take(reqId, IdShownLength)
  }

  /** `req.email || 'Not provided'`: never blank, and the email itself whenever there is one. */
  function DisplayEmail(email: string): (shown: string)
    ensures shown != ""
    ensures email != "" ==> shown == email
    ensures email == "" ==> shown == EmailFallback
  {
    if email != "" then email else EmailFallback
  }

  // ---------------------------------------------------------------- page state

  /** What the `client_request` select resolves with: `{ data, error }`. */
  datatype FetchResult = FetchResult(data: Option<seq<ClientRequest>>, error: Option<string>)

  class RequestView {
    var requests: seq<ClientRequest>
    var filteredRequests: seq<ClientRequest>
    var loading: bool
    var error: Option<string>
    var showTodayOnly: bool

    constructor ()
      ensures requests == [] && filteredRequests == []
      ensures loading && error == None && !showTodayOnly
    {
      requests := [];
      filteredRequests := [];
      loading := true;
      error := None;
      showTodayOnly := false;
    }

    /** The list on screen is the one the filter effect derives from the fetched records. */
    ghost predicate ShowsFilterOf(today: string)
      reads this
    {
      filteredRequests == if showTodayOnly then TodayRequests(requests, today) else requests
    }

    /** `fetchRequests`, from `setLoading(true)` through the awaited select to `setLoading(false)`. */
    method FetchRequests(result: FetchResult)
      modifies this`requests, this`filteredRequests, this`loading, this`error
      ensures !loading
      ensures result.error.Some? ==>
        && error == Some(FetchErrorMessage)
        && requests == old(requests) && filteredRequests == old(filteredRequests)
      ensures result.error.None? ==>
        && requests == result.data.GetOr([]) && filteredRequests == requests
        && error == old(error)
    {
      loading := true;
      if result.error.Some? {
        error := Some(FetchErrorMessage);
      } else {
        requests := result.data.GetOr([]);
        filteredRequests := result.data.GetOr([]);
      }
      loading := false;
    }

    /** The effect on `[showTodayOnly, requests]`; `today` is the shifted clock's date. */
    method ApplyTodayFilter(today: string)
      modifies this`filteredRequests
      ensures ShowsFilterOf(today)
      ensures IsSubsequence(filteredRequests, requests)
    {
      if showTodayOnly {
        var todayRequests := TodayRequests(requests, today);
        TodayRequestsExactly(requests, today);
        filteredRequests := todayRequests;
      } else {
        IsSubsequenceReflexive(requests);
        filteredRequests := requests;
      }
    }

    /** `toggleTodayFilter`. */
    method ToggleTodayFilter()
      modifies this`showTodayOnly
      ensures showTodayOnly == !old(showTodayOnly)
    {
      showTodayOnly := !showTodayOnly;
    }
  }
}
