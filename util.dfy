/** The request and response helpers every API handler goes through: the error-code
    enumeration, the success and failure response shapes, the conversion to an HTTP status,
    the body gates (`require_keys`, `require_item_exist`), `filter_data` and the
    per-method dispatch of `wrapped_api`. */
module Util {
  import opened Wrappers
  import opened Text

  /** The API error codes. */
  datatype ErrorCode =
    | SuccessCode
    | BadRequestError
    | InvalidRequestArgumentError
    | InvalidRequestArgs
    | RefuseAccessError
    | NotFoundError
    | ItemNotFoundError
    | ItemAlreadyExistError
    | DuplicatedError

  /** The enumeration value of each code: HTTP status times 100 plus a detail. */
  function Value(c: ErrorCode): nat {
    match c
    case SuccessCode => 20000
    case BadRequestError => 40000
    case InvalidRequestArgumentError => 40001
    case InvalidRequestArgs => 40002
    case RefuseAccessError => 40300
    case NotFoundError => 40400
    case ItemNotFoundError => 40401
    case ItemAlreadyExistError => 40402
    case DuplicatedError => 40900
  }

  /** The member name of each code. */
  function Name(c: ErrorCode): string {
    match c
    case SuccessCode => "SUCCESS_CODE"
    case BadRequestError => "BAD_REQUEST_ERROR"
    case InvalidRequestArgumentError => "INVALID_REQUEST_ARGUMENT_ERROR"
    case InvalidRequestArgs => "INVALID_REQUEST_ARGS"
    case RefuseAccessError => "REFUSE_ACCESS_ERROR"
    case NotFoundError => "NOT_FOUND_ERROR"
    case ItemNotFoundError => "ITEM_NOT_FOUND_ERROR"
    case ItemAlreadyExistError => "ITEM_ALREADY_EXIST_ERROR"
    case DuplicatedError => "DUPLICATED_ERROR"
  }

  /** `ErrorCode(v)`: the member with value `v`, or `None` where the lookup raises. */
  function FromValue(v: int): (r: Option<ErrorCode>)
    ensures r.Some? ==> Value(r.value) == v
    ensures r.None? ==> forall c: ErrorCode :: Value(c) != v
  {
    if v == 20000 then Some(SuccessCode)
    else if v == 40000 then Some(BadRequestError)
    else if v == 40001 then Some(InvalidRequestArgumentError)
    else if v == 40002 then Some(InvalidRequestArgs)
    else if v == 40300 then Some(RefuseAccessError)
    else if v == 40400 then Some(NotFoundError)
    else if v == 40401 then Some(ItemNotFoundError)
    else if v == 40402 then Some(ItemAlreadyExistError)
    else if v == 40900 then Some(DuplicatedError)
    else None
  }

  /** `ErrorCode[name]`: the member called `name`, or `None` where the lookup raises. */
  function FromName(name: string): (r: Option<ErrorCode>)
    ensures r.Some? ==> Name(r.value) == name
    ensures r.None? ==> forall c: ErrorCode :: Name(c) != name
  {
    if name == "SUCCESS_CODE" then Some(SuccessCode)
    else if name == "BAD_REQUEST_ERROR" then Some(BadRequestError)
    else if name == "INVALID_REQUEST_ARGUMENT_ERROR" then Some(InvalidRequestArgumentError)
    else if name == "INVALID_REQUEST_ARGS" then Some(InvalidRequestArgs)
    else if name == "REFUSE_ACCESS_ERROR" then Some(RefuseAccessError)
    else if name == "NOT_FOUND_ERROR" then Some(NotFoundError)
    else if name == "ITEM_NOT_FOUND_ERROR" then Some(ItemNotFoundError)
    else if name == "ITEM_ALREADY_EXIST_ERROR" then Some(ItemAlreadyExistError)
    else if name == "DUPLICATED_ERROR" then Some(DuplicatedError)
    else None
  }

  /** The enumeration is `@unique`: the value identifies the member. */
  lemma ValueLookupRoundTrip(c: ErrorCode)
    ensures FromValue(Value(c)) == Some(c)
  {
  }

  /** The name identifies the member. */
  lemma NameLookupRoundTrip(c: ErrorCode)
    ensures FromName(Name(c)) == Some(c)
  {
    match c
    case SuccessCode =>
    case BadRequestError =>
    case InvalidRequestArgumentError =>
    case InvalidRequestArgs =>
    case RefuseAccessError =>
    case NotFoundError =>
    case ItemNotFoundError =>
    case ItemAlreadyExistError =>
    case DuplicatedError =>
  }

  /** `str(code)` of an enumeration member. */
  function CodeText(c: ErrorCode): string {
    "ErrorCode." + Name(c)
  }

  /** The three ways a caller may name the code of a failed response. */
  datatype CodeArg = Member(c: ErrorCode) | ByName(name: string) | ByValue(v: int)

  function Resolve(a: CodeArg): Option<ErrorCode> {
    match a
    case Member(c) => Some(c)
    case ByName(n) => FromName(n)
    case ByValue(v) => FromValue(v)
  }

  /** The `data` part of a response: the handler's own data, the `{"success": True}` marker,
      or the error triple of a failure. */
  datatype Payload<T> =
    | Data(value: T)
    | SuccessMarker
    | ErrorInfo(code: int, detailedErrorCode: int, errorMsg: string)

  datatype ApiResponse<T> = ApiResponse(success: bool, data: Payload<T>)

  /** `success_api_response(data)`. */
  function SuccessApiResponse<T>(data: Option<T>): (r: ApiResponse<T>)
    ensures r.success
    ensures data.None? <==> r.data == SuccessMarker
    ensures data.Some? ==> r.data == Data(data.value)
  {
    ApiResponse(true, if data.Some? then Data(data.value) else SuccessMarker)
  }

  /** `failed_api_response(code, msg)` for a code given as a member. */
  function Fail<T>(c: ErrorCode, errorMsg: Option<string>): (r: ApiResponse<T>)
    ensures !r.success && r.data.ErrorInfo?
    ensures r.data.code * 100 <= r.data.detailedErrorCode < r.data.code * 100 + 100
    ensures FromValue(r.data.detailedErrorCode) == Some(c)
    ensures errorMsg.None? ==> r.data.errorMsg == CodeText(c)
    ensures errorMsg.Some? ==> r.data.errorMsg == CodeText(c) + ": " + errorMsg.value
  {
    var msg := if errorMsg.None? then CodeText(c) else CodeText(c) + ": " + errorMsg.value;
    ApiResponse(false, ErrorInfo(Value(c) / 100, Value(c), msg))
  }

  /** `failed_api_response(code, msg)` for a code given as a member, a name or a value;
      `None` where the name or value does not denote a member and the lookup raises. */
  function FailedApiResponse<T>(code: CodeArg, errorMsg: Option<string>): (r: Option<ApiResponse<T>>)
    ensures r.Some? <==> Resolve(code).Some?
    ensures r.Some? ==> r.value == Fail(Resolve(code).value, errorMsg)
  {
    match Resolve(code)
    case Some(c) => Some(Fail(c, errorMsg))
    case None => None
  }

  /** Naming a code by member, by name or by value builds the same response. */
  lemma CodeFormsAgree<T>(c: ErrorCode, errorMsg: Option<string>)
    ensures FailedApiResponse<T>(Member(c), errorMsg) == FailedApiResponse<T>(ByName(Name(c)), errorMsg)
    ensures FailedApiResponse<T>(Member(c), errorMsg) == FailedApiResponse<T>(ByValue(Value(c)), errorMsg)
  {
    NameLookupRoundTrip(c);
    ValueLookupRoundTrip(c);
  }

  /** The HTTP status `response_wrapper` gives a response: 200 for success, otherwise the
      `code` of the error data. */
  function HttpStatus<T>(r: ApiResponse<T>): int {
    if r.success then 200
    else if r.data.ErrorInfo? then r.data.code
    else 500
  }

  /** Every failure carries the HTTP status its code was designed for. */
  lemma FailureStatus<T>(c: ErrorCode, errorMsg: Option<string>)
    ensures HttpStatus(Fail<T>(c, errorMsg)) == Value(c) / 100
    ensures c in {BadRequestError, InvalidRequestArgumentError, InvalidRequestArgs} ==> HttpStatus(Fail<T>(c, errorMsg)) == 400
    ensures c in {NotFoundError, ItemNotFoundError, ItemAlreadyExistError} ==> HttpStatus(Fail<T>(c, errorMsg)) == 404
  {
  }

  /** What a handler ends with: the data of a success, the code and message of a failure,
      or an exception nothing catches (the framework answers 500). */
  datatype ApiResult<T> = Success(data: T) | Failure(code: ErrorCode, message: string) | Uncaught

  /** The response a handler's outcome becomes; `None` stands for the 500 answer. */
  function Respond<T>(r: ApiResult<T>): Option<ApiResponse<T>> {
    match r
    case Success(d) => Some(SuccessApiResponse(Some(d)))
    case Failure(c, m) => Some(Fail(c, Some(m)))
    case Uncaught => None
  }

  /** Outcome of a decorator that checks a request before the handler runs: the handler runs,
      a failure response, or an exception nothing catches. */
  datatype Gate<T> = Proceed | Reject(response: ApiResponse<T>) | Raise

  /** The request body as `parse_data` sees it: bytes that are not UTF-8 (`decode()` raises),
      text that is not JSON (`None`), the JSON `null` (also `None`), another JSON value that is
      not an object, or an object whose values may be `null`. */
  datatype RequestBody<V> = NotUtf8 | NotJson | JsonNull | NotObject | Object(fields: map<string, Option<V>>)

  const MissingFieldsMsg: string := "缺少必要字段"

  /** `require_keys(key_set)`: the body must be an object holding every key with a non-null
      value. A body that is JSON but not an object has no `get`, so the first key looked up
      raises; with no key to look up, nothing does. */
  function RequireKeys<T, V>(body: RequestBody<V>, keySet: set<string>): (r: Gate<T>)
    ensures r.Proceed? <==> (body.Object? && forall k :: k in keySet ==> k in body.fields && body.fields[k].Some?)
                            || (body.NotObject? && keySet == {})
    ensures r.Raise? <==> body.NotUtf8? || (body.NotObject? && keySet != {})
    ensures body.NotJson? || body.JsonNull? <==> r == Reject(Fail(BadRequestError, None))
    ensures body.Object? && r.Reject? ==> r == Reject(Fail(BadRequestError, Some(MissingFieldsMsg)))
  {
    match body
    case NotUtf8 => Raise
    case NotJson => Reject(Fail(BadRequestError, None))
    case JsonNull => Reject(Fail(BadRequestError, None))
    case NotObject => if keySet == {} then Proceed else Raise
    case Object(fields) =>
      if forall k :: k in keySet ==> k in fields && fields[k].Some? then Proceed
      else Reject(Fail(BadRequestError, Some(MissingFieldsMsg)))
  }

  const ItemNotFoundMsg: string := "对象不存在"

  /** Outcome of `require_item_exist`: a failure response, or the call of the handler with the
      item's key removed from the URL arguments and passed positionally. */
  datatype ItemGate<T, K> = ItemMissing(response: ApiResponse<T>) | Forward(itemId: K, rest: map<string, K>)

  /** `require_item_exist(model, field, item)`: the URL argument `item` must name a row, where
      `present` holds the `field` values of the model's rows. */
  function RequireItemExist<T, K>(kwargs: map<string, K>, item: string, present: set<K>): (r: ItemGate<T, K>)
    ensures r.Forward? <==> item in kwargs && kwargs[item] in present
    ensures r.Forward? ==> r.itemId == kwargs[item] && r.rest == kwargs - {item} && item !in r.rest
    ensures r.ItemMissing? ==> r.response == Fail(ItemNotFoundError, Some(ItemNotFoundMsg))
  {
    if item in kwargs && kwargs[item] in present then Forward(kwargs[item], kwargs - {item})
    else ItemMissing(Fail(ItemNotFoundError, Some(ItemNotFoundMsg)))
  }

  /** `filter_data(data, key_set)`: keeps the entries of `data` whose key is in `keySet`. The
      first loop collects the keys to remove, the second removes them. */
  method FilterData<V>(data: map<string, V>, keySet: set<string>) returns (result: map<string, V>)
    ensures result.Keys == data.Keys * keySet
    ensures forall k :: k in result ==> result[k] == data[k]
  {
    var removeKeys: set<string> := {};
    var pending := data.Keys;
    while pending != {}
      invariant pending <= data.Keys
      invariant removeKeys == (data.Keys - pending) - keySet
      decreases pending
    {
      var key :| key in pending;
      if key !in keySet {
        removeKeys := removeKeys + {key};
      }
      pending := pending - {key};
    }
    result := data;
    var toPop := removeKeys;
    while toPop != {}
      invariant toPop <= removeKeys
      invariant result.Keys == data.Keys - (removeKeys - toPop)
      invariant forall k :: k in result ==> result[k] == data[k]
      decreases toPop
    {
      var key :| key in toPop;
      result := result - {key};
      toPop := toPop - {key};
    }
  }

  const HttpMethods: set<string> := {"GET", "POST", "PUT", "DELETE"}

  /** The dictionary comprehension upper-casing the keys of `api_dict`: a later entry whose
      key upper-cases to the same name replaces an earlier one. */
  function UpperKeys<H>(apiDict: seq<(string, H)>): map<string, H>
    decreases |apiDict|
  {
    if |apiDict| == 0 then map[]
    else
      var last := apiDict[|apiDict| - 1];
      UpperKeys(apiDict[..|apiDict| - 1])[Upper(last.0) := last.1]
  }

  /** The upper-cased table has exactly the upper-cased names of the entries as keys. */
  lemma {:induction false} UpperKeysDomain<H>(apiDict: seq<(string, H)>, m: string)
    ensures m in UpperKeys(apiDict) <==> exists i :: 0 <= i < |apiDict| && Upper(apiDict[i].0) == m
    decreases |apiDict|
  {
    if |apiDict| > 0 {
      var init := apiDict[..|apiDict| - 1];
      UpperKeysDomain(init, m);
      assert forall i :: 0 <= i < |init| ==> init[i] == apiDict[i];
      if m in UpperKeys(init) {
        var i :| 0 <= i < |init| && Upper(init[i].0) == m;
        assert Upper(apiDict[i].0) == m;
      }
    }
  }

  /** `wrapped_api(api_dict)`, with the dictionary in its insertion order: the upper-cased table,
      or `None` where the assertion on the method names fails. */
  function WrappedApi<H>(apiDict: seq<(string, H)>): (r: Option<map<string, H>>)
    ensures r.Some? <==> forall i :: 0 <= i < |apiDict| ==> Upper(apiDict[i].0) in HttpMethods
    ensures r.Some? ==> r.value.Keys <= HttpMethods
    ensures r.Some? ==> r.value == UpperKeys(apiDict)
  {
    var table := UpperKeys(apiDict);
    forall m | m in table
      ensures exists i :: 0 <= i < |apiDict| && Upper(apiDict[i].0) == m
    {
      UpperKeysDomain(apiDict, m);
    }
    forall i | 0 <= i < |apiDict|
      ensures Upper(apiDict[i].0) in table
    {
      UpperKeysDomain(apiDict, Upper(apiDict[i].0));
    }
    if table.Keys <= HttpMethods then Some(table) else None
  }

  /** Where a request goes: one of the wrapped handlers, or the 405 answer of
      `require_http_methods`. */
  datatype Route<H> = Handler(h: H) | MethodNotAllowed

  function Dispatch<H>(table: map<string, H>, verb: string): Route<H> {
    if verb in table then Handler(table[verb]) else MethodNotAllowed
  }

  /** A request is handled by the entry listed last among those whose key upper-cases to its
      method, and is refused with 405 when there is none. */
  lemma {:induction false} DispatchPicksLastEntry<H>(apiDict: seq<(string, H)>, verb: string, i: int)
    requires 0 <= i < |apiDict| && Upper(apiDict[i].0) == verb
    requires forall j :: i < j < |apiDict| ==> Upper(apiDict[j].0) != verb
    ensures Dispatch(UpperKeys(apiDict), verb) == Handler(apiDict[i].1)
    decreases |apiDict|
  {
    if i < |apiDict| - 1 {
      var init := apiDict[..|apiDict| - 1];
      assert forall j :: i < j < |init| ==> init[j] == apiDict[j];
      DispatchPicksLastEntry(init, verb, i);
    }
  }

  lemma DispatchRefusesUnlisted<H>(apiDict: seq<(string, H)>, verb: string)
    requires forall i :: 0 <= i < |apiDict| ==> Upper(apiDict[i].0) != verb
    ensures Dispatch(UpperKeys(apiDict), verb) == MethodNotAllowed
  {
    UpperKeysDomain(apiDict, verb);
  }
}
