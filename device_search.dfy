/** The device lookup of the background worker (background.js:61-182): the
    credential check, the structured device query, the ordered classification of
    the HTTP outcome into an error or a list of items, the flattening of each item
    into a display record, and the best-effort enumeration of all source ids whose
    list is stamped on every record. Network calls are abstract outcomes. */
module DeviceSearch {
  import opened Wrappers
  import opened Strings
  import opened JsValues
  import opened Classifier

  /** Settings read from synced storage; `None` is a key that was never saved. */
  datatype Credentials = Credentials(apiKey: Option<string>, orgId: Option<string>)

  /** A setting is usable when it is truthy: present and not empty. */
  predicate Present(v: Option<string>) {
    v.Some? && v.value != []
  }

  predicate Configured(c: Credentials) {
    Present(c.apiKey) && Present(c.orgId)
  }

  // ---------------------------------------------------------------- request

  datatype Rule = Rule(entityType: string, field: string, operator: string, value: string)
  datatype RuleGroup = RuleGroup(combinator: string, rules: seq<Rule>)
  datatype DeviceQuery = DeviceQuery(combinator: string, groups: seq<RuleGroup>)
  datatype DeviceRequest = DeviceRequest(query: DeviceQuery, limit: nat)

  /** The fixed page size; there is no pagination. */
  const PageLimit: nat := 50

  /** The body sent to the device-search endpoint: one rule nested in one group,
      matching the term exactly against `ips` for an IP and as a substring of
      `hostnames` for a hostname. */
  function BuildDeviceRequest(q: SearchQuery): (req: DeviceRequest)
    ensures req.limit == PageLimit
    ensures req.query.combinator == "and" && |req.query.groups| == 1
    ensures req.query.groups[0].combinator == "and" && |req.query.groups[0].rules| == 1
    ensures var rule := req.query.groups[0].rules[0];
      rule.entityType == "device" && rule.value == q.term
      && (q.kind == Ip <==> rule.field == "ips" && rule.operator == "equals")
      && (q.kind == Hostname <==> rule.field == "hostnames" && rule.operator == "contains")
  {
    var field := if q.kind == Ip then "ips" else "hostnames";
    var operator := if q.kind == Ip then "equals" else "contains";
    DeviceRequest(
      DeviceQuery("and", [RuleGroup("and", [Rule("device", field, operator, q.term)])]),
      PageLimit)
  }

  /** The search a request body asks for, read back from the body alone. */
  function RequestedSearch(req: DeviceRequest): Option<SearchQuery> {
    if |req.query.groups| != 1 || |req.query.groups[0].rules| != 1 then None
    else
      var rule := req.query.groups[0].rules[0];
      if rule.field == "ips" && rule.operator == "equals" then Some(SearchQuery(rule.value, Ip))
      else if rule.field == "hostnames" && rule.operator == "contains" then Some(SearchQuery(rule.value, Hostname))
      else None
  }

  /** The request determines the search: term and kind can be read back from it. */
  lemma RequestRoundTrip(q: SearchQuery)
    ensures RequestedSearch(BuildDeviceRequest(q)) == Some(q)
  {
  }

  // ---------------------------------------------------------------- outcomes

  /** What `fetch` on the device endpoint gave: no response (the call threw), or
      a response with its status, what `text()` yields (`None`: it rejected) and
      what `json()` yields (`None`: the body is not JSON). */
  datatype HttpOutcome =
    | NoResponse
    | Response(status: int, text: Option<string>, body: Option<Json>)

  /** `response.ok`. */
  predicate StatusOk(status: int) {
    200 <= status <= 299
  }

  /** The errors `lookupDevice` throws. `ScriptTypeError` is a TypeError the
      runtime raises on an unexpected body shape, with V8's wording. */
  datatype LookupError =
    | MissingCredentials
    | NetworkFailure
    | AuthFailure
    | EndpointNotFound
    | RequestFailed(status: int, text: string)
    | UnparsableResponse
    | NoDevicesFound(kind: SearchKind, term: string)
    | ScriptTypeError(message: string)

  /** `error.message`, the text the handler stores in the slot. */
  function ErrorMessage(e: LookupError): (m: string)
    ensures !e.ScriptTypeError? ==> m != []
    ensures e.ScriptTypeError? ==> m == e.message
    ensures e.RequestFailed? ==>
      var code := IntToString(e.status);
      |m| == 23 + |code| + |e.text| && m[20..20 + |code|] == code && m[|m| - |e.text|..] == e.text
    ensures e.NoDevicesFound? ==>
      var kind := KindName(e.kind);
      |m| == 25 + |kind| + |e.term| && m[21..21 + |kind|] == kind
      && m[|m| - |e.term| - 1..] == e.term + "\""
  {
    match e
    case RequestFailed(status, text) => RequestFailedMessage(status, text)
    case NoDevicesFound(kind, term) => NoDevicesMessage(kind, term)
    case ScriptTypeError(message) => message
    case _ => FixedMessage(e)
  }

  /** The messages that embed nothing of the request. */
  function FixedMessage(e: LookupError): (m: string)
    requires !(e.RequestFailed? || e.NoDevicesFound? || e.ScriptTypeError?)
    ensures m != []
  {
    match e
    case MissingCredentials => "API key and Organization ID must be configured in extension settings"
    case NetworkFailure => "Network error: Unable to connect to Sevco API"
    case AuthFailure => "Authentication failed. Please check your API key and Organization ID in settings."
    case EndpointNotFound => "API endpoint not found. Please contact support."
    case UnparsableResponse => "Failed to parse API response"
  }

  /** The message of a non-OK response other than 401, 403 and 404. */
  function RequestFailedMessage(status: int, text: string): (m: string)
    ensures var code := IntToString(status);
      |m| == 23 + |code| + |text| && m[20..20 + |code|] == code && m[|m| - |text|..] == text
      && m[..20] == "API request failed (" && m[20 + |code|..23 + |code|] == "): "
  {
    var prefix, code := "API request failed (", IntToString(status);
    var m := prefix + code + "): " + text;
    assert m == (prefix + code + "): ") + text;
    assert m[20..20 + |code|] == code by { assert (prefix + code)[20..] == code; }
    m
  }

  /** The message of a response without items. */
  function NoDevicesMessage(kind: SearchKind, term: string): (m: string)
    ensures var name := KindName(kind);
      |m| == 25 + |name| + |term| && m[21..21 + |name|] == name && m[|m| - |term| - 1..] == term + "\""
      && m[..21] == "No devices found for " && m[21 + |name|..24 + |name|] == ": \""
  {
    var prefix, name := "No devices found for ", KindName(kind);
    var m := prefix + name + ": \"" + term + "\"";
    assert m == (prefix + name + ": \"") + (term + "\"");
    assert m[21..21 + |name|] == name by { assert (prefix + name)[21..] == name; }
    m
  }

  /** V8's message for reading `key` of `null` or `undefined`. */
  function ReadError(v: Json, key: string): (m: string)
    requires Nullish(v)
    ensures m != []
  {
    "Cannot read properties of " + (if v.JNull? then "null" else "undefined") + " (reading '" + key + "')"
  }

  const NotMappable := "data.items.map is not a function"

  /** `!data.items || data.items.length === 0` for a non-nullish body. */
  predicate NoItems(data: Json) {
    var items := Get(data, "items");
    !Truthy(items) || items == JArr([]) || (items.JObj? && Get(items, "length") == JNum(0))
  }

  // ---------------------------------------------------------------- flattening

  /** The properties each flattened record takes from the raw item itself,
      overriding any attribute of the same name. */
  const ItemKeys: seq<string> := ["sources", "source_ids", "last_activity_timestamp", "last_observed_timestamp", "exp_vulns"]

  /** `{id: device.id, ...device.attributes, sources: device.sources, …,
      all_sources: allSources}`: later properties override earlier ones. */
  function FlatRecord(device: Json, allSources: seq<Json>): (r: Record)
    ensures forall k :: k in ItemKeys ==> k in r && r[k] == Get(device, k)
    ensures "all_sources" in r && r["all_sources"] == JArr(allSources)
    ensures var attrs := Spread(Get(device, "attributes"));
      "id" in r && r["id"] == (if "id" in attrs then attrs["id"] else Get(device, "id"))
    ensures var attrs := Spread(Get(device, "attributes"));
      forall k :: k !in ItemKeys && k != "all_sources" && k != "id" ==>
        (k in r <==> k in attrs) && (k in r ==> r[k] == attrs[k])
  {
    ItemFields(device)["all_sources" := JArr(allSources)]
  }

  /** The part of a flattened record that the item alone decides. */
  function ItemFields(device: Json): Record {
    var base := map["id" := Get(device, "id")] + Spread(Get(device, "attributes"));
    base["sources" := Get(device, "sources")]
        ["source_ids" := Get(device, "source_ids")]
        ["last_activity_timestamp" := Get(device, "last_activity_timestamp")]
        ["last_observed_timestamp" := Get(device, "last_observed_timestamp")]
        ["exp_vulns" := Get(device, "exp_vulns")]
  }

  /** Index of the first `null` (or `undefined`) item, or `|xs|` when there is none. */
  function FirstNullish(xs: seq<Json>): (i: nat)
    ensures i <= |xs|
    ensures forall j :: 0 <= j < i ==> !Nullish(xs[j])
    ensures i < |xs| ==> Nullish(xs[i])
  {
    if xs == [] then 0 else if Nullish(xs[0]) then 0 else FirstNullish(xs[1..]) + 1
  }

  /** `items.map(...)`: one record per item in order, or the TypeError of the
      first `null` item. */
  function FlattenAll(xs: seq<Json>, allSources: seq<Json>): (r: Result<seq<Record>, LookupError>)
    ensures r.Success? <==> FirstNullish(xs) == |xs|
    ensures r.Failure? ==> FirstNullish(xs) < |xs| && r.error == ScriptTypeError(ReadError(xs[FirstNullish(xs)], "id"))
    ensures r.Success? ==> |r.value| == |xs|
    ensures r.Success? ==> forall i :: 0 <= i < |xs| ==> r.value[i] == FlatRecord(xs[i], allSources)
  {
    if xs == [] then Success([])
    else if Nullish(xs[0]) then Failure(ScriptTypeError(ReadError(xs[0], "id")))
    else
      var rest := FlattenAll(xs[1..], allSources);
      assert FirstNullish(xs) == FirstNullish(xs[1..]) + 1;
      if rest.Failure? then Failure(rest.error)
      else Success([FlatRecord(xs[0], allSources)] + rest.value)
  }

  // ---------------------------------------------------------------- all sources

  /** What `fetch` on the facet endpoint gave: it threw (a network failure or the
      10-second abort), or a response with its status and what `json()` yields. */
  datatype FacetOutcome =
    | FacetThrew
    | FacetResponse(status: int, body: Option<Json>)

  /** `data.source_ids?.buckets` when the response is usable and it is an array. */
  function FacetBuckets(facet: FacetOutcome): Option<seq<Json>> {
    if facet.FacetThrew? || !StatusOk(facet.status) || facet.body.None? then None
    else
      var data := facet.body.value;
      if Nullish(data) then None
      else
        var ids := Get(data, "source_ids");
        if Nullish(ids) then None
        else
          var buckets := Get(ids, "buckets");
          if buckets.JArr? then Some(buckets.items) else None
  }

  /** `buckets.map(bucket => bucket.key)`, or `None` when a `null` bucket throws. */
  function BucketKeys(bs: seq<Json>): (keys: Option<seq<Json>>)
    ensures keys.Some? <==> forall i :: 0 <= i < |bs| ==> !Nullish(bs[i])
    ensures keys.Some? ==> |keys.value| == |bs| && forall i :: 0 <= i < |bs| ==> keys.value[i] == Get(bs[i], "key")
  {
    if bs == [] then Some([])
    else if Nullish(bs[0]) then None
    else
      var rest := BucketKeys(bs[1..]);
      if rest.None? then None else Some([Get(bs[0], "key")] + rest.value)
  }

  /** `fetchAllSources`: the bucket keys in bucket order, and `[]` whenever
      anything on the way fails; it never throws to its caller. */
  function AllSources(facet: FacetOutcome): (keys: seq<Json>)
    ensures keys != [] ==> facet.FacetResponse? && StatusOk(facet.status) && facet.body.Some?
    ensures FacetBuckets(facet).None? ==> keys == []
    ensures FacetBuckets(facet).Some? ==> var bs := FacetBuckets(facet).value;
      ((forall i :: 0 <= i < |bs| ==> !Nullish(bs[i])) ==>
        |keys| == |bs| && forall i :: 0 <= i < |bs| ==> keys[i] == Get(bs[i], "key"))
      && ((exists i :: 0 <= i < |bs| && Nullish(bs[i])) ==> keys == [])
  {
    match FacetBuckets(facet)
    case None => []
    case Some(bs) => BucketKeys(bs).GetOr([])
  }

  // ---------------------------------------------------------------- lookup

  /** The items of a well-formed, non-empty result. */
  function ItemList(data: Json): Option<seq<Json>> {
    var items := Get(data, "items");
    if items.JArr? && items.items != [] then Some(items.items) else None
  }

  /** A body the lookup turns into records: an object with a non-empty `items`
      array holding no `null` or `undefined` item. */
  predicate WellFormedItems(data: Json) {
    !Nullish(data) && ItemList(data).Some? && FirstNullish(ItemList(data).value) == |ItemList(data).value|
  }

  /** After a successful parse: the TypeError of a `null` body, the no-devices
      error, the TypeError of an `items` that is not an array, or the records. */
  function DevicesFromBody(q: SearchQuery, data: Json, allSources: seq<Json>): (r: Result<seq<Record>, LookupError>)
    ensures r.Success? <==> WellFormedItems(data)
    ensures Nullish(data) ==> r == Failure(ScriptTypeError(ReadError(data, "items")))
    ensures !Nullish(data) && !NoItems(data) && !Get(data, "items").JArr? ==> r == Failure(ScriptTypeError(NotMappable))
    ensures !Nullish(data) && ItemList(data).Some? && !WellFormedItems(data) ==>
      var xs := ItemList(data).value;
      FirstNullish(xs) < |xs| && r == Failure(ScriptTypeError(ReadError(xs[FirstNullish(xs)], "id")))
    ensures r.Failure? ==> r.error.NoDevicesFound? || r.error.ScriptTypeError?
    ensures r.Failure? ==> ErrorMessage(r.error) != []
    ensures r == Failure(NoDevicesFound(q.kind, q.term)) <==> !Nullish(data) && NoItems(data)
    ensures r.Success? ==>
      ItemList(data).Some?
      && var xs := ItemList(data).value;
        |r.value| == |xs| >= 1
        && forall i :: 0 <= i < |xs| ==> r.value[i] == FlatRecord(xs[i], allSources)
  {
    if Nullish(data) then Failure(ScriptTypeError(ReadError(data, "items")))
    else if NoItems(data) then Failure(NoDevicesFound(q.kind, q.term))
    else
      var items := Get(data, "items");
      if items.JArr? then FlattenAll(items.items, allSources)
      else Failure(ScriptTypeError(NotMappable))
  }

  /** `lookupDevice` as an ordered decision: missing credentials, no response,
      401/403, 404, any other non-OK status, a body that does not parse, no items;
      otherwise one record per item, each stamped with the same source list. */
  function LookupDevice(q: SearchQuery, creds: Credentials, http: HttpOutcome, facet: FacetOutcome)
    : (r: Result<seq<Record>, LookupError>)
    ensures r == Failure(MissingCredentials) <==> !Configured(creds)
    ensures r.Failure? ==> ErrorMessage(r.error) != []
    ensures r == Failure(NetworkFailure) <==> Configured(creds) && http.NoResponse?
    ensures r == Failure(AuthFailure) <==>
      Configured(creds) && http.Response? && (http.status == 401 || http.status == 403)
    ensures r == Failure(EndpointNotFound) <==> Configured(creds) && http.Response? && http.status == 404
    ensures (r.Failure? && r.error.RequestFailed?) <==>
      Configured(creds) && http.Response? && !StatusOk(http.status)
      && http.status != 401 && http.status != 403 && http.status != 404
    ensures r.Failure? && r.error.RequestFailed? ==>
      r.error == RequestFailed(http.status, http.text.GetOr("Unknown error"))
    ensures r == Failure(UnparsableResponse) <==>
      Configured(creds) && http.Response? && StatusOk(http.status) && http.body.None?
    ensures r == Failure(NoDevicesFound(q.kind, q.term)) <==>
      Configured(creds) && http.Response? && StatusOk(http.status) && http.body.Some?
      && !Nullish(http.body.value) && NoItems(http.body.value)
    ensures (r.Failure? && r.error.ScriptTypeError?) <==>
      Configured(creds) && http.Response? && StatusOk(http.status) && http.body.Some?
      && !WellFormedItems(http.body.value) && !(!Nullish(http.body.value) && NoItems(http.body.value))
    ensures r.Success? <==>
      Configured(creds) && http.Response? && StatusOk(http.status) && http.body.Some?
      && WellFormedItems(http.body.value)
    ensures r.Success? ==>
      ItemList(http.body.value).Some?
      && var xs := ItemList(http.body.value).value;
        |r.value| == |xs| >= 1
        && forall i :: 0 <= i < |xs| ==> r.value[i] == FlatRecord(xs[i], AllSources(facet))
  {
    if !Configured(creds) then Failure(MissingCredentials)
    else match http
      case NoResponse => Failure(NetworkFailure)
      case Response(status, text, body) =>
        if !StatusOk(status) then
          if status == 401 || status == 403 then Failure(AuthFailure)
          else if status == 404 then Failure(EndpointNotFound)
          else Failure(RequestFailed(status, text.GetOr("Unknown error")))
        else match body
          case None => Failure(UnparsableResponse)
          case Some(data) => DevicesFromBody(q, data, AllSources(facet))
  }

  /** Every record of one lookup carries the identical `all_sources` list. */
  lemma SharedSourceList(q: SearchQuery, creds: Credentials, http: HttpOutcome, facet: FacetOutcome, i: nat, j: nat)
    requires LookupDevice(q, creds, http, facet).Success?
    requires i < |LookupDevice(q, creds, http, facet).value| && j < |LookupDevice(q, creds, http, facet).value|
    ensures var rs := LookupDevice(q, creds, http, facet).value;
      "all_sources" in rs[i] && "all_sources" in rs[j]
      && rs[i]["all_sources"] == rs[j]["all_sources"] == JArr(AllSources(facet))
  {
  }

  /** Removing `all_sources` from a flattened record leaves what the item alone decides. */
  lemma FlatRecordWithoutSources(device: Json, a1: seq<Json>, a2: seq<Json>)
    ensures FlatRecord(device, a1) - {"all_sources"} == FlatRecord(device, a2) - {"all_sources"}
  {
    StampRemoved(ItemFields(device), JArr(a1));
    StampRemoved(ItemFields(device), JArr(a2));
  }

  lemma StampRemoved(m: Record, v: Json)
    ensures m["all_sources" := v] - {"all_sources"} == m - {"all_sources"}
  {
    var l, r := m["all_sources" := v] - {"all_sources"}, m - {"all_sources"};
    assert l.Keys == r.Keys;
  }

  /** The source enumeration never decides the outcome: a lookup fails with the
      same error, or succeeds with records that differ only in `all_sources`,
      whatever the facet call does. */
  lemma FacetNeverFailsLookup(q: SearchQuery, creds: Credentials, http: HttpOutcome, f1: FacetOutcome, f2: FacetOutcome)
    ensures var r1, r2 := LookupDevice(q, creds, http, f1), LookupDevice(q, creds, http, f2);
      r1.Success? == r2.Success?
      && (r1.Failure? ==> r1.error == r2.error)
      && (r1.Success? ==>
            |r1.value| == |r2.value|
            && forall i :: 0 <= i < |r1.value| ==> r1.value[i] - {"all_sources"} == r2.value[i] - {"all_sources"})
  {
    if Configured(creds) && http.Response? && StatusOk(http.status) && http.body.Some? {
      var data := http.body.value;
      var a1, a2 := AllSources(f1), AllSources(f2);
      assert LookupDevice(q, creds, http, f1) == DevicesFromBody(q, data, a1);
      assert LookupDevice(q, creds, http, f2) == DevicesFromBody(q, data, a2);
      if !Nullish(data) && !NoItems(data) && Get(data, "items").JArr? {
        var xs := Get(data, "items").items;
        var r1, r2 := FlattenAll(xs, a1), FlattenAll(xs, a2);
        if r1.Success? {
          forall i | 0 <= i < |xs|
            ensures r1.value[i] - {"all_sources"} == r2.value[i] - {"all_sources"}
          {
            FlatRecordWithoutSources(xs[i], a1, a2);
          }
        }
      }
    }
  }
}
