/** What the four Lambda handlers see of an API Gateway event and what they
    send back, reduced to values: a response is a status code with either a
    payload or an error message, and a request body is already decoded into
    its JSON fields. */
module Http {

  datatype Option<T> = None | Some(value: T)

  /** A JSON value as `JSON.parse` produces it; numbers are whole numbers here. */
  datatype Json = JNull | JBool(b: bool) | JNumber(n: int) | JString(s: string) | JArray | JObject

  /** The raw `event.body`: absent or empty (both falsy), text that `JSON.parse`
      rejects or whose destructuring throws (`null`), or a decoded value whose
      named fields are `fields` (a non-object value has no fields). */
  datatype Body = NoBody | Unparsable | Decoded(fields: map<string, Json>)

  datatype Request = Request(
    httpMethod: string,
    path: string,
    pathId: Option<string>,           // pathParameters?.id
    query: map<string, string>,       // queryStringParameters
    body: Body)

  /** `createSuccessResponse(data)` is status 200 with `{ data }`;
      `createErrorResponse(code, message)` is `code` with `{ message }`. */
  datatype Response<T> = Success(data: T) | Failure(code: int, message: string) {
    /** The same error answer, for a reply of another type. */
    function PropagateFailure<U>(): (r: Response<U>)
      requires Failure?
    {
      Failure(code, message)
    }
  }

  const RouteNotFound := "Route not found"
  const MissingBody := "Missing request body"
  const InternalError := "Internal server error"
  const NameRequired := "Name is required and must be a string"

  /** JavaScript truthiness of a present JSON value. */
  predicate Truthy(v: Json)
  {
    match v
    case JNull => false
    case JBool(b) => b
    case JNumber(n) => n != 0
    case JString(s) => s != ""
    case _ => true
  }

  /** The guard `if (!x || typeof x !== 'string') return 400`: the field's
      string when the guard lets it through. */
  function RequiredString(fields: map<string, Json>, key: string): (r: Option<string>)
    ensures r.Some? <==> key in fields && fields[key].JString? && fields[key].s != ""
    ensures r.Some? ==> r.value == fields[key].s && r.value != ""
  {
    if key !in fields || !Truthy(fields[key]) || !fields[key].JString? then None
    else Some(fields[key].s)
  }

  /** The guard `if (!x || typeof x !== 'number' || x <= 0) return 400`. */
  function PositiveNumber(fields: map<string, Json>, key: string): (r: Option<int>)
    ensures r.Some? <==> key in fields && fields[key].JNumber? && fields[key].n > 0
    ensures r.Some? ==> r.value == fields[key].n && r.value > 0
  {
    if key !in fields || !Truthy(fields[key]) || !fields[key].JNumber? || fields[key].n <= 0 then None
    else Some(fields[key].n)
  }

  /** `!id` on `pathParameters?.id`: absent and empty ids are both missing. */
  predicate HasId(pathId: Option<string>)
  {
    pathId.Some? && pathId.value != ""
  }

  predicate IsDigit(c: char)
  {
    '0' <= c <= '9'
  }

  /** `\d{n}` for n == |s|. */
  predicate AllDigits(s: string)
  {
    forall i :: 0 <= i < |s| ==> IsDigit(s[i])
  }

  /** The regular expression `^\d{4}-\d{2}-\d{2}$` (no `m` flag, so `$` is the end of input). */
  predicate IsIsoDate(s: string)
  {
    && |s| == 10
    && IsDigit(s[0]) && IsDigit(s[1]) && IsDigit(s[2]) && IsDigit(s[3])
    && s[4] == '-'
    && IsDigit(s[5]) && IsDigit(s[6])
    && s[7] == '-'
    && IsDigit(s[8]) && IsDigit(s[9])
  }

  /** A date passes the format check exactly when it is four digits, a dash,
      two digits, a dash and two digits, and nothing else. */
  lemma IsoDateShape(s: string)
    ensures IsIsoDate(s) <==>
              exists y, m, d :: |y| == 4 && |m| == 2 && |d| == 2 && AllDigits(y) && AllDigits(m) && AllDigits(d)
                                && s == y + "-" + m + "-" + d
  {
    if IsIsoDate(s) {
      var y, m, d := s[..4], s[5..7], s[8..];
      assert AllDigits(y) && AllDigits(m) && AllDigits(d);
      assert s == y + "-" + m + "-" + d;
    }
    if exists y, m, d :: |y| == 4 && |m| == 2 && |d| == 2 && AllDigits(y) && AllDigits(m) && AllDigits(d)
                         && s == y + "-" + m + "-" + d {
      var y, m, d :| |y| == 4 && |m| == 2 && |d| == 2 && AllDigits(y) && AllDigits(m) && AllDigits(d)
                     && s == y + "-" + m + "-" + d;
      IsoDateOfParts(y, m, d);
    }
  }

  lemma IsoDateOfParts(y: string, m: string, d: string)
    requires |y| == 4 && |m| == 2 && |d| == 2 && AllDigits(y) && AllDigits(m) && AllDigits(d)
    ensures IsIsoDate(y + "-" + m + "-" + d)
  {
    var s := y + "-" + m + "-" + d;
    assert s[0] == y[0] && s[1] == y[1] && s[2] == y[2] && s[3] == y[3] && s[4] == '-';
    assert s[5] == m[0] && s[6] == m[1] && s[7] == '-' && s[8] == d[0] && s[9] == d[1];
    assert IsDigit(y[0]) && IsDigit(y[1]) && IsDigit(y[2]) && IsDigit(y[3]);
    assert IsDigit(m[0]) && IsDigit(m[1]) && IsDigit(d[0]) && IsDigit(d[1]);
  }

  predicate IsIdChar(c: char)
  {
    'a' <= c <= 'z' || 'A' <= c <= 'Z' || IsDigit(c) || c == '-'
  }

  /** `[a-zA-Z0-9-]+` for a non-empty `id`. */
  predicate AllIdChars(id: string)
  {
    forall i :: 0 <= i < |id| ==> IsIdChar(id[i])
  }

  /** The regular expression `^<collection>\/[a-zA-Z0-9-]+$`, with
      `collection` such as "/records". */
  predicate IsItemPath(path: string, collection: string)
    ensures IsItemPath(path, collection) ==> path != collection
  {
    && |path| > |collection| + 1
    && path[..|collection| + 1] == collection + "/"
    && forall i :: |collection| + 1 <= i < |path| ==> IsIdChar(path[i])
  }

  /** An item path is exactly the collection, a slash, and a non-empty id of
      letters, digits and dashes. */
  lemma ItemPathShape(path: string, collection: string)
    ensures IsItemPath(path, collection) <==>
              exists id :: id != [] && AllIdChars(id) && path == collection + "/" + id
  {
    var n := |collection| + 1;
    if IsItemPath(path, collection) {
      var id := path[n..];
      assert forall i :: 0 <= i < |id| ==> id[i] == path[n + i];
      assert AllIdChars(id);
      assert path == path[..n] + id;
    }
    if exists id :: id != [] && AllIdChars(id) && path == collection + "/" + id {
      var id :| id != [] && AllIdChars(id) && path == collection + "/" + id;
      assert path[..n] == collection + "/";
      forall i | n <= i < |path|
        ensures IsIdChar(path[i])
      {
        assert path[i] == id[i - n];
      }
    }
  }

  /** The `if` chain every CRUD handler tests, in its order. */
  datatype Route = ListAll | GetOne | CreateOne | UpdateOne | DeleteOne | NoRoute

  function RouteOf(httpMethod: string, path: string, collection: string): (r: Route)
    ensures r == ListAll <==> httpMethod == "GET" && path == collection
    ensures r == GetOne <==> httpMethod == "GET" && IsItemPath(path, collection)
    ensures r == CreateOne <==> httpMethod == "POST" && path == collection
    ensures r == UpdateOne <==> httpMethod == "PUT" && IsItemPath(path, collection)
    ensures r == DeleteOne <==> httpMethod == "DELETE" && IsItemPath(path, collection)
    ensures r.NoRoute? <==>
      !(  (httpMethod == "GET" && (path == collection || IsItemPath(path, collection)))
       || (httpMethod == "POST" && path == collection)
       || (httpMethod in ["PUT", "DELETE"] && IsItemPath(path, collection)))
  {
    if httpMethod == "GET" && path == collection then ListAll
    else if httpMethod == "GET" && IsItemPath(path, collection) then GetOne
    else if httpMethod == "POST" && path == collection then CreateOne
    else if httpMethod == "PUT" && IsItemPath(path, collection) then UpdateOne
    else if httpMethod == "DELETE" && IsItemPath(path, collection) then DeleteOne
    else NoRoute
  }
}
