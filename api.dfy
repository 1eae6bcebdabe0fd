/** The boundary to the REST client and the toast surface, as values.
    Each handler receives the outcome of its remote calls as an argument;
    the calls it issues and the toasts it shows are appended to logs. */
module Api {
  import opened Js

  /** A draft form as JavaScript holds it: field name to string value. */
  type Body = map<string, string>

  /** One call on the API client. */
  datatype Request =
    | Get(path: string)
    | Post(path: string, body: Body)
    | Put(path: string, body: Body)
    | Delete(path: string)

  /** `err.response?.data`: `message` and `error` are `None` when absent. */
  datatype ErrorBody = ErrorBody(message: Option<string>, error: Option<string>)

  /** A rejected call; `response` is `None` when no HTTP response came back. */
  datatype Failure = Failure(response: Option<ErrorBody>)

  /** The outcome of a create, update or delete call (its payload is never read). */
  datatype CallResult = Ok | Failed(failure: Failure)

  /** `res.data.data` of a list response: an array of records, or anything else. */
  datatype Payload<T> = Array(items: seq<T>) | NotArray

  /** The outcome of a list call. `ListFailed` also covers a response with no `data`
      body, since reading `res.data.data` then throws inside the same `try`. */
  datatype ListResult<T> = ListFailed | Listed(data: Payload<T>)

  /** A toast. */
  datatype Notice = Success(text: string) | Error(text: string)

  /** `err.response?.data?.message` */
  function ResponseMessage(f: Failure): Option<string>
  {
    if f.response.Some? then f.response.value.message else None
  }

  /** `err.response?.data?.error` */
  function ResponseError(f: Failure): Option<string>
  {
    if f.response.Some? then f.response.value.error else None
  }

  /** The text shown when a create or update fails:
      `message || error || fallback`. */
  function SaveFailureText(f: Failure, fallback: string): (r: string)
    ensures StrTruthy(ResponseMessage(f)) ==> r == ResponseMessage(f).value
    ensures !StrTruthy(ResponseMessage(f)) && StrTruthy(ResponseError(f)) ==> r == ResponseError(f).value
    ensures !StrTruthy(ResponseMessage(f)) && !StrTruthy(ResponseError(f)) ==> r == fallback
    ensures fallback != "" ==> r != ""
  {
    var cs := [ResponseMessage(f), ResponseError(f)];
    assert cs[0] == ResponseMessage(f) && cs[1] == ResponseError(f);
    FirstTruthy(cs, fallback)
  }

  /** The text shown when a delete fails: `message || fallback`; the `error`
      field is not consulted. */
  function DeleteFailureText(f: Failure, fallback: string): (r: string)
    ensures StrTruthy(ResponseMessage(f)) ==> r == ResponseMessage(f).value
    ensures !StrTruthy(ResponseMessage(f)) ==> r == fallback
  {
    var cs := [ResponseMessage(f)];
    assert cs[0] == ResponseMessage(f);
    FirstTruthy(cs, fallback)
  }

  /** `Array.isArray(res.data.data) ? res.data.data : []` */
  function ListedItems<T>(p: Payload<T>): (r: seq<T>)
    ensures p.Array? ==> r == p.items
    ensures forall x | x in r :: p.Array? && x in p.items
  {
    match p
    case Array(items) => items
    case NotArray => []
  }

  /** The collection after a list call whose result is applied: the server's array
      on success, the current collection when the call failed. */
  function Refreshed<T>(current: seq<T>, r: ListResult<T>): (next: seq<T>)
    ensures r.ListFailed? ==> next == current
    ensures r.Listed? ==> forall x | x in next :: r.data.Array? && x in r.data.items
    ensures r.Listed? && r.data.Array? ==> next == r.data.items
  {
    match r
    case ListFailed => current
    case Listed(p) => ListedItems(p)
  }

  /** The toasts a list call shows: one error, only when it failed while live. */
  function ListNotices<T>(live: bool, r: ListResult<T>, failedText: string): (ns: seq<Notice>)
    ensures |ns| <= 1
    ensures |ns| == 1 <==> live && r.ListFailed?
    ensures forall i | 0 <= i < |ns| :: ns[i] == Error(failedText)
  {
    if live && r.ListFailed? then [Error(failedText)] else []
  }

  /** `${base}/${id}` */
  function ItemPath(base: string, id: Id): (path: string)
    ensures |path| > |base| && path[..|base|] == base && path[|base|] == '/'
    ensures path[|base| + 1..] == IdToString(id)
  {
    base + "/" + IdToString(id)
  }

  /** The call a submit issues: an update of the edited record when `editingId`
      is truthy, a create otherwise; either way the draft is the body. */
  function SaveRequest(base: string, editingId: Id, form: Body): (r: Request)
    ensures r.Put? || r.Post?
    ensures r.body == form
    ensures r.Put? <==> IdTruthy(editingId)
    ensures r.Put? ==> r.path == ItemPath(base, editingId)
    ensures r.Post? ==> r.path == base
  {
    if IdTruthy(editingId) then Put(ItemPath(base, editingId), form) else Post(base, form)
  }

  /** Updates of two different numeric ids go to two different paths. */
  lemma ItemPathSeparatesNumericIds(base: string, a: int, b: int)
    requires ItemPath(base, Num(a)) == ItemPath(base, Num(b))
    ensures a == b
  {
    var pa, pb := ItemPath(base, Num(a)), ItemPath(base, Num(b));
    var k := |base| + 1;
    assert pa[k..] == IntToString(a);
    assert pb[k..] == IntToString(b);
    IntToStringInjective(a, b);
  }
}
