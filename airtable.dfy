/** The Airtable data client: the query parameters `airtableFetch` puts on the
    request URL, and how it turns the HTTP status and parsed body into either the
    record list or one of three thrown errors. The network request itself is a
    parameter: a function from the query to the response it gets. */
module Airtable {
  import opened Js

  // ---------------------------------------------------------------------------
  // Query parameters

  /** The name-value list behind `URLSearchParams`, in order. */
  type Entries = seq<(string, string)>

  /** A parameter value: string, number, boolean or undefined. */
  type ParamValue = v: Value | v.Undefined? || v.Str? || v.Num? || v.Bool? witness Undefined

  /** The values stored under `name`, in order. */
  function ValuesOf(entries: Entries, name: string): (r: seq<string>)
    ensures |r| <= |entries|
  {
    if entries == [] then []
    else (if entries[0].0 == name then [entries[0].1] else []) + ValuesOf(entries[1..], name)
  }

  /** The entries whose name is not `name`, in order. */
  function Without(entries: Entries, name: string): (r: Entries)
    ensures |r| <= |entries|
  {
    if entries == [] then []
    else if entries[0].0 == name then Without(entries[1..], name)
    else [entries[0]] + Without(entries[1..], name)
  }

  /** The first entry named `name` takes the new value; later ones are removed. */
  function Replace(entries: Entries, name: string, value: string): Entries {
    if entries == [] then []
    else if entries[0].0 == name then [(name, value)] + Without(entries[1..], name)
    else [entries[0]] + Replace(entries[1..], name, value)
  }

  /** `URLSearchParams.set`: replace the first pair with that name and drop the
      others, or append a new pair when there is none. */
  function SetEntry(entries: Entries, name: string, value: string): (r: Entries)
    ensures ValuesOf(r, name) == [value]
    ensures Without(r, name) == Without(entries, name)
  {
    if ValuesOf(entries, name) == [] then
      ValuesOfAppend(entries, [(name, value)], name);
      WithoutAppend(entries, [(name, value)], name);
      entries + [(name, value)]
    else
      ValuesOfReplace(entries, name, value, name);
      WithoutReplace(entries, name, value);
      Replace(entries, name, value)
  }

  /** The query built by the parameter loop: each defined value is set, in turn,
      under its key as `String(v)`; undefined values are skipped. Each key ends up
      holding `String` of the last defined value given for it, or what it held
      before when every value given for it is undefined. */
  function ApplyParams(entries: Entries, params: seq<(string, ParamValue)>): (r: Entries)
    ensures forall k ::
      ValuesOf(r, k) ==
        (match LastDefined(params, k)
         case Some(v) => [ToStr(v)]
         case None => ValuesOf(entries, k))
    decreases |params|
  {
    if params == [] then entries
    else
      var before := ApplyParams(entries, params[..|params| - 1]);
      var (key, v) := params[|params| - 1];
      if v.Undefined? then before
      else
        var after := SetEntry(before, key, ToStr(v));
        assert forall k :: ValuesOf(after, k) == if k == key then [ToStr(v)] else ValuesOf(before, k) by {
          forall k ensures ValuesOf(after, k) == if k == key then [ToStr(v)] else ValuesOf(before, k) {
            ValuesOfSetEntry(before, key, ToStr(v), k);
          }
        }
        after
  }

  /** The last defined value given for `key`, if any. */
  function LastDefined(params: seq<(string, ParamValue)>, key: string): (r: Option<Value>)
    ensures r.Some? ==> !r.value.Undefined? && (key, r.value) in params
    decreases |params|
  {
    if params == [] then None
    else if params[|params| - 1].0 == key && !params[|params| - 1].1.Undefined? then
      Some(params[|params| - 1].1)
    else LastDefined(params[..|params| - 1], key)
  }

  /** The keys of an object's own entries are distinct. */
  predicate DistinctKeys(params: seq<(string, ParamValue)>) {
    forall i, j :: 0 <= i < j < |params| ==> params[i].0 != params[j].0
  }

  /** The search parameters of the request URL, changed in place by `set`. */
  class SearchParams {
    var entries: Entries

    /** A URL built from the base address has no query. */
    constructor ()
      ensures entries == []
    {
      entries := [];
    }

    method Set(name: string, value: string)
      modifies this
      ensures entries == SetEntry(old(entries), name, value)
    {
      entries := SetEntry(entries, name, value);
    }
  }

  /** The `forEach` over `Object.entries(params)`. */
  method AddParams(url: SearchParams, params: seq<(string, ParamValue)>)
    modifies url
    ensures url.entries == ApplyParams(old(url.entries), params)
  {
    var i := 0;
    while i < |params|
      invariant 0 <= i <= |params|
      invariant url.entries == ApplyParams(old(url.entries), params[..i])
    {
      assert params[..i + 1][..i] == params[..i];
      var (k, v) := params[i];
      if !v.Undefined? {
        url.Set(k, ToStr(v));
      }
      i := i + 1;
    }
    assert params[..|params|] == params;
  }

  // ---------------------------------------------------------------------------
  // Query parameter lemmas

  lemma {:induction false} ValuesOfAppend(a: Entries, b: Entries, k: string)
    ensures ValuesOf(a + b, k) == ValuesOf(a, k) + ValuesOf(b, k)
  {
    if a != [] {
      assert (a + b)[1..] == a[1..] + b;
      ValuesOfAppend(a[1..], b, k);
    } else {
      assert a + b == b;
    }
  }

  lemma {:induction false} ValuesOfWithout(e: Entries, name: string, k: string)
    ensures ValuesOf(Without(e, name), k) == if k == name then [] else ValuesOf(e, k)
  {
    if e != [] {
      ValuesOfWithout(e[1..], name, k);
    }
  }

  lemma {:induction false} ValuesOfReplace(e: Entries, name: string, value: string, k: string)
    requires ValuesOf(e, name) != []
    ensures ValuesOf(Replace(e, name, value), k) == if k == name then [value] else ValuesOf(e, k)
  {
    if e[0].0 == name {
      ValuesOfWithout(e[1..], name, k);
    } else {
      ValuesOfReplace(e[1..], name, value, k);
    }
  }

  /** After `set(name, value)` the name holds exactly that one value, and every
      other name keeps the values it had. */
  lemma ValuesOfSetEntry(e: Entries, name: string, value: string, k: string)
    ensures ValuesOf(SetEntry(e, name, value), k) == if k == name then [value] else ValuesOf(e, k)
  {
    if ValuesOf(e, name) == [] {
      ValuesOfAppend(e, [(name, value)], k);
    } else {
      ValuesOfReplace(e, name, value, k);
    }
  }

  lemma {:induction false} WithoutAppend(a: Entries, b: Entries, name: string)
    ensures Without(a + b, name) == Without(a, name) + Without(b, name)
  {
    if a != [] {
      assert (a + b)[1..] == a[1..] + b;
      WithoutAppend(a[1..], b, name);
    } else {
      assert a + b == b;
    }
  }

  lemma {:induction false} WithoutTwice(e: Entries, name: string)
    ensures Without(Without(e, name), name) == Without(e, name)
  {
    if e != [] {
      WithoutTwice(e[1..], name);
    }
  }

  lemma {:induction false} WithoutReplace(e: Entries, name: string, value: string)
    ensures Without(Replace(e, name, value), name) == Without(e, name)
  {
    if e != [] {
      if e[0].0 == name {
        WithoutTwice(e[1..], name);
      } else {
        WithoutReplace(e[1..], name, value);
      }
    }
  }

  lemma {:induction false} LastDefinedAbsent(params: seq<(string, ParamValue)>, k: string)
    requires forall i :: 0 <= i < |params| ==> params[i].0 != k
    ensures LastDefined(params, k) == None
    decreases |params|
  {
    if params != [] {
      LastDefinedAbsent(params[..|params| - 1], k);
    }
  }

  lemma {:induction false} LastDefinedDistinct(params: seq<(string, ParamValue)>, i: nat)
    requires DistinctKeys(params) && i < |params|
    ensures LastDefined(params, params[i].0) ==
      if params[i].1.Undefined? then None else Some(params[i].1)
    decreases |params|
  {
    var n := |params| - 1;
    if i < n {
      assert params[n].0 != params[i].0;
      assert params[..n][i] == params[i];
      LastDefinedDistinct(params[..n], i);
    } else {
      LastDefinedAbsent(params[..n], params[i].0);
    }
  }

  /** On a fresh URL, a parameter whose value is undefined never appears in the
      query, every other key appears exactly once with value `String(v)`, and no
      other name appears. */
  lemma QueryOfParams(params: seq<(string, ParamValue)>, k: string)
    requires DistinctKeys(params)
    ensures forall i :: 0 <= i < |params| && params[i].0 == k ==>
      ValuesOf(ApplyParams([], params), k) ==
        if params[i].1.Undefined? then [] else [ToStr(params[i].1)]
    ensures (forall i :: 0 <= i < |params| ==> params[i].0 != k) ==>
      ValuesOf(ApplyParams([], params), k) == []
  {
    forall i | 0 <= i < |params| && params[i].0 == k
      ensures ValuesOf(ApplyParams([], params), k) ==
        if params[i].1.Undefined? then [] else [ToStr(params[i].1)]
    {
      LastDefinedDistinct(params, i);
    }
    if forall i :: 0 <= i < |params| ==> params[i].0 != k {
      LastDefinedAbsent(params, k);
    }
  }

  // ---------------------------------------------------------------------------
  // Response classification

  /** What `fetch` gives back: the HTTP status and the body parsed as JSON, or
      `None` when the body is not valid JSON. */
  datatype Response = Response(status: nat, body: Option<Value>)

  /** `res.ok`. */
  predicate IsOk(status: nat) {
    200 <= status <= 299
  }

  /** `res.json()`, with a parse failure replaced by `{}`. */
  function Data(res: Response): (r: Value)
    ensures res.body.None? ==> r == Obj(map[])
    ensures res.body.Some? ==> r == res.body.value
  {
    res.body.GetOr(Obj(map[]))
  }

  /** The three ways `airtableFetch` ends: with the records, or by throwing an API
      error (with the HTTP status when the status was not ok) or the
      missing-records error. */
  datatype Outcome =
    | Records(records: seq<Value>)
    | ApiError(status: Option<nat>, errType: string, message: string)
    | Malformed

  const HttpErrorType := "HTTP_ERROR"

  /** The response checks in their order. `stringify` stands for `JSON.stringify`. */
  function Classify(res: Response, stringify: Value -> string): (r: Outcome)
    ensures r.ApiError? && r.status.Some? <==> !IsOk(res.status)
    ensures !IsOk(res.status) ==> r.status == Some(res.status)
    ensures r.Records? ==> IsOk(res.status) && Prop(Data(res), "records") == Arr(r.records)
  {
    var data := Data(res);
    var err := Prop(data, "error");
    if !IsOk(res.status) then
      var errType := Prop(err, "type");
      var message := Prop(err, "message");
      ApiError(Some(res.status),
        if Nullish(errType) then HttpErrorType else ToStr(errType),
        if !Nullish(message) then ToStr(message)
        else if data.Str? then data.s
        else stringify(data))
    else if Truthy(err) then
      ApiError(None, ToStr(Prop(err, "type")), ToStr(Prop(err, "message")))
    else if !Prop(data, "records").Arr? then
      Malformed
    else
      Records(Prop(data, "records").items)
  }

  /** The status check comes first: with a status that is not ok, neither the
      records nor anything in the body besides `error` and its fallbacks matter. */
  lemma ClassifyNotOkIgnoresRecords(res: Response, records: Value, stringify: Value -> string)
    requires !IsOk(res.status)
    requires res.body.Some? && res.body.value.Obj? && "records" !in res.body.value.fields
    requires !Nullish(Prop(Prop(res.body.value, "error"), "message"))
    ensures Classify(res, stringify) ==
      Classify(Response(res.status, Some(Obj(res.body.value.fields["records" := records]))), stringify)
  {
    var data := res.body.value;
    var data' := Obj(data.fields["records" := records]);
    assert Prop(data', "error") == Prop(data, "error");
  }

  /** With a status that is not ok the type is `error.type` or "HTTP_ERROR", and the
      message is `error.message`, or else the body when it is a string, or else its
      serialisation. */
  lemma ClassifyNotOkFields(res: Response, stringify: Value -> string)
    requires !IsOk(res.status)
    ensures var err := Prop(Data(res), "error");
      var o := Classify(res, stringify);
      && (Nullish(Prop(err, "type")) ==> o.errType == HttpErrorType)
      && (!Nullish(Prop(err, "type")) ==> o.errType == ToStr(Prop(err, "type")))
      && (!Nullish(Prop(err, "message")) ==> o.message == ToStr(Prop(err, "message")))
      && (Nullish(Prop(err, "message")) && Data(res).Str? ==> o.message == Data(res).s)
      && (Nullish(Prop(err, "message")) && !Data(res).Str? ==> o.message == stringify(Data(res)))
  {
  }

  /** A body that is not valid JSON is read as `{}`: with a status that is not ok
      the error is typed "HTTP_ERROR" and carries the serialisation of `{}`, and
      with an ok status the records are missing. */
  lemma ClassifyUnparseable(status: nat, stringify: Value -> string)
    ensures !IsOk(status) ==>
      Classify(Response(status, None), stringify) ==
        ApiError(Some(status), HttpErrorType, stringify(Obj(map[])))
    ensures IsOk(status) ==> Classify(Response(status, None), stringify) == Malformed
  {
  }

  /** An ok status with a truthy `error` still fails, before the records are looked
      at; the type and message are rendered as text, "undefined" when absent. */
  lemma ClassifyEmbeddedError(res: Response, stringify: Value -> string)
    requires IsOk(res.status) && Truthy(Prop(Data(res), "error"))
    ensures var err := Prop(Data(res), "error");
      Classify(res, stringify) ==
        ApiError(None, ToStr(Prop(err, "type")), ToStr(Prop(err, "message")))
    ensures Prop(Prop(Data(res), "error"), "type") == Undefined ==>
      Classify(res, stringify).errType == "undefined"
  {
  }

  /** The records come back exactly when the status is ok, there is no error and
      `records` is an array; they are that array, same length and same order. */
  lemma ClassifyRecords(res: Response, stringify: Value -> string)
    ensures Classify(res, stringify).Records? <==>
      IsOk(res.status) && !Truthy(Prop(Data(res), "error")) && Prop(Data(res), "records").Arr?
    ensures Classify(res, stringify).Records? ==>
      Classify(res, stringify).records == Prop(Data(res), "records").items
    ensures Classify(res, stringify).Malformed? <==>
      IsOk(res.status) && !Truthy(Prop(Data(res), "error")) && !Prop(Data(res), "records").Arr?
  {
  }

  /** An ok response whose body is `{ records: [] }` gives no records, not an error. */
  lemma ClassifyEmptyRecords(status: nat, stringify: Value -> string)
    requires IsOk(status)
    ensures Classify(Response(status, Some(Obj(map["records" := Arr([])]))), stringify) == Records([])
  {
  }

  // ---------------------------------------------------------------------------
  // Error messages

  const StatusPrefix := "Airtable API error ("
  const EmbeddedPrefix := "Airtable API error: "
  const MissingRecordsMessage := "Airtable response missing records array"

  /** The message of the `Error` thrown for an outcome, or `None` when the records
      are returned. */
  function Thrown(o: Outcome): (r: Option<string>)
    ensures r.None? <==> o.Records?
  {
    match o
    case Records(_) => None
    case ApiError(Some(status), t, m) => Some(StatusPrefix + Decimal(status) + ") " + t + ": " + m)
    case ApiError(None, t, m) => Some(EmbeddedPrefix + t + " \U{2014} " + m)
    case Malformed => Some(MissingRecordsMessage)
  }

  /** The three kinds of thrown message. */
  datatype Kind = HttpFailure | EmbeddedFailure | MissingRecords | OtherMessage

  /** Reads the kind of failure back from a thrown message. */
  function KindOf(msg: string): Kind {
    if StartsWith(msg, StatusPrefix) then HttpFailure
    else if StartsWith(msg, EmbeddedPrefix) then EmbeddedFailure
    else if msg == MissingRecordsMessage then MissingRecords
    else OtherMessage
  }

  /** Reads the HTTP status back from a thrown message. */
  function StatusOf(msg: string): Option<nat> {
    if StartsWith(msg, StatusPrefix) then
      var digits := LeadingDigits(msg[|StatusPrefix|..]);
      if digits == "" then None else Some(DigitsValue(digits))
    else None
  }

  /** The thrown message tells the three failures apart, and the HTTP status can be
      read back from it exactly. */
  lemma ThrownRoundTrip(o: Outcome)
    requires !o.Records?
    ensures KindOf(Thrown(o).value) ==
      if o.Malformed? then MissingRecords
      else if o.status.Some? then HttpFailure
      else EmbeddedFailure
    ensures StatusOf(Thrown(o).value) == if o.ApiError? then o.status else None
  {
    var msg := Thrown(o).value;
    match o
    case ApiError(Some(status), t, m) =>
      var d := Decimal(status);
      var rest := ") " + t + ": " + m;
      assert msg == StatusPrefix + (d + rest);
      assert msg[..|StatusPrefix|] == StatusPrefix;
      assert msg[|StatusPrefix|..] == d + rest;
      LeadingDigitsOf(d, rest);
      DecimalRoundTrip(status);
    case ApiError(None, t, m) =>
      assert msg[..|EmbeddedPrefix|] == EmbeddedPrefix;
      assert msg[18] != StatusPrefix[18];
    case Malformed =>
      assert msg[9] != StatusPrefix[9] && msg[9] != EmbeddedPrefix[9];
  }

  // ---------------------------------------------------------------------------
  // The whole call

  /** `airtableFetch` with the network abstracted: `server` gives the response to a
      request with the given query. Returns the query sent and the outcome. */
  method AirtableFetch(params: seq<(string, ParamValue)>, server: Entries -> Response,
                       stringify: Value -> string)
    returns (query: Entries, outcome: Outcome)
    ensures query == ApplyParams([], params)
    ensures outcome == Classify(server(query), stringify)
  {
    var url := new SearchParams();
    AddParams(url, params);
    query := url.entries;
    outcome := Classify(server(query), stringify);
  }
}
