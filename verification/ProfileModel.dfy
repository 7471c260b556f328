/** Route profiles as values: what clearing, overlaying, extending and inheriting mean. */
module ProfileModel {
  import opened Wrappers
  import opened RouteConfig

  // ----- the configured shapes; None stands for a nil slice, map or pointer ---------------------

  type Names = Option<seq<string>>
  type Parameters = Option<map<string, Parameter>>
  type Statuses = Option<map<string, int>>

  datatype ResponseValue = ResponseValue(mode: string, headers: Names, contentType: string, representations: Names,
                                         negotiateAccept: bool, statuses: Statuses)

  datatype CoreSseValue = CoreSseValue(bufferMessages: int, bufferBytes: int, heartbeatInterval: int, maxDuration: int,
                                       maxConnections: int)

  datatype IdentityValue = IdentityValue(source: string, header: string, maxValueBytes: int)

  datatype SecurityValue = SecurityValue(mechanism: string, maxCredentialBytes: int, maxConnections: int,
                                         idleTimeout: int, maxLifetime: int, identity: Option<IdentityValue>)

  datatype ExtensionsValue = ExtensionsValue(parameters: Parameters, requestHeaders: Names, responseHeaders: Names,
                                             representations: Names, statuses: Statuses)

  datatype RouteValue = RouteValue(name: string, path: string, methods: Names, subject: string, parameters: Parameters,
                                   requestHeaders: Names, timeout: int, maxRequestBodyBytes: int, maxReplyBytes: int,
                                   response: ResponseValue, streamMode: string, coreSse: Option<CoreSseValue>,
                                   security: Option<SecurityValue>, profile: string, clear: FieldNames,
                                   extend: Option<ExtensionsValue>)

  function NoResponse(): ResponseValue { ResponseValue("", None, "", None, false, None) }
  function NoCoreSse(): CoreSseValue { CoreSseValue(0, 0, 0, 0, 0) }
  function NoIdentity(): IdentityValue { IdentityValue("", "", 0) }
  function NoSecurity(): SecurityValue { SecurityValue("", 0, 0, 0, 0, None) }

  /** `Route{}`. */
  function NoRoute(): RouteValue {
    RouteValue("", "", None, "", None, None, 0, 0, 0, NoResponse(), "", None, None, "", None, None)
  }

  // ----- clearing -----------------------------------------------------------------------------

  datatype Field =
    | Subject | ParametersField | RequestHeaders | Timeout | MaxRequestBodyBytes | MaxReplyBytes
    | ResponseField | StreamMode | CoreSseField | SecurityField
    | Mode | Headers | ContentType | Representations | NegotiateAccept | ServiceErrorStatuses
    | BufferMessages | BufferBytes | HeartbeatInterval | MaxDuration | CoreSseConnections
    | Mechanism | MaxCredentialBytes | SecurityConnections | IdleTimeout | MaxLifetime
    | Identity | IdentitySource | IdentityHeader | IdentityBytes

  /** A name in a `clear` list: one of `shareableRouteFields`, or any other string. */
  datatype FieldName = Shared(field: Field) | Other(name: string)

  type FieldNames = Option<seq<FieldName>>

  function GetOr<T>(o: Option<T>, default: T): T {
    match o case None => default case Some(v) => v
  }

  function ClearResponse(r: ResponseValue, f: Field): ResponseValue {
    match f
    case ResponseField => NoResponse()
    case Mode => r.(mode := "")
    case Headers => r.(headers := Some([]))
    case ContentType => r.(contentType := "")
    case Representations => r.(representations := Some([]))
    case NegotiateAccept => r.(negotiateAccept := false)
    case ServiceErrorStatuses => r.(statuses := Some(map[]))
    case _ => r
  }

  /** Clearing a part of an absent object creates the object. */
  function ClearCoreSse(o: Option<CoreSseValue>, f: Field): Option<CoreSseValue> {
    var c := GetOr(o, NoCoreSse());
    match f
    case CoreSseField => None
    case BufferMessages => Some(c.(bufferMessages := 0))
    case BufferBytes => Some(c.(bufferBytes := 0))
    case HeartbeatInterval => Some(c.(heartbeatInterval := 0))
    case MaxDuration => Some(c.(maxDuration := 0))
    case CoreSseConnections => Some(c.(maxConnections := 0))
    case _ => o
  }

  function ClearIdentity(o: Option<IdentityValue>, f: Field): Option<IdentityValue> {
    var i := GetOr(o, NoIdentity());
    match f
    case Identity => None
    case IdentitySource => Some(i.(source := ""))
    case IdentityHeader => Some(i.(header := ""))
    case IdentityBytes => Some(i.(maxValueBytes := 0))
    case _ => o
  }

  function ClearSecurity(o: Option<SecurityValue>, f: Field): Option<SecurityValue> {
    var s := GetOr(o, NoSecurity());
    match f
    case SecurityField => None
    case Mechanism => Some(s.(mechanism := ""))
    case MaxCredentialBytes => Some(s.(maxCredentialBytes := 0))
    case SecurityConnections => Some(s.(maxConnections := 0))
    case IdleTimeout => Some(s.(idleTimeout := 0))
    case MaxLifetime => Some(s.(maxLifetime := 0))
    case Identity => Some(s.(identity := ClearIdentity(s.identity, f)))
    case IdentitySource => Some(s.(identity := ClearIdentity(s.identity, f)))
    case IdentityHeader => Some(s.(identity := ClearIdentity(s.identity, f)))
    case IdentityBytes => Some(s.(identity := ClearIdentity(s.identity, f)))
    case _ => o
  }

  /** `clearRouteField`. */
  function ClearField(r: RouteValue, f: Field): RouteValue {
    match f
    case Subject => r.(subject := "")
    case ParametersField => r.(parameters := None)
    case RequestHeaders => r.(requestHeaders := Some([]))
    case Timeout => r.(timeout := 0)
    case MaxRequestBodyBytes => r.(maxRequestBodyBytes := 0)
    case MaxReplyBytes => r.(maxReplyBytes := 0)
    case StreamMode => r.(streamMode := "")
    case _ => r.(response := ClearResponse(r.response, f), coreSse := ClearCoreSse(r.coreSse, f),
                 security := ClearSecurity(r.security, f))
  }

  datatype MergeError = UnknownField(name: string) | ClearedTwice(field: Field) | DuplicateParameter | DuplicateStatus

  /** Clearing the named fields one after another. */
  function ClearAll(r: RouteValue, names: seq<FieldName>): Result<RouteValue, MergeError> {
    if names == [] then Ok(r)
    else
      var n := |names| - 1;
      match ClearAll(r, names[..n])
      case Err(e) => Err(e)
      case Ok(c) =>
        if names[n].Other? then Err(UnknownField(names[n].name))
        else if names[n] in names[..n] then Err(ClearedTwice(names[n].field))
        else Ok(ClearField(c, names[n].field))
  }

  // ----- overlaying ---------------------------------------------------------------------------

  function Text(o: string, b: string): string { if o != "" then o else b }
  function Number(o: int, b: int): int { if o != 0 then o else b }
  function Present<T>(o: Option<T>, b: Option<T>): Option<T> { if o.Some? then o else b }

  function OverlayResponse(b: ResponseValue, o: ResponseValue): ResponseValue {
    ResponseValue(Text(o.mode, b.mode), Present(o.headers, b.headers), Text(o.contentType, b.contentType),
                  Present(o.representations, b.representations), o.negotiateAccept || b.negotiateAccept,
                  Present(o.statuses, b.statuses))
  }

  /** `mergeCoreSSE`. */
  function OverlayCoreSse(b: CoreSseValue, o: CoreSseValue): CoreSseValue {
    CoreSseValue(Number(o.bufferMessages, b.bufferMessages), Number(o.bufferBytes, b.bufferBytes),
                 Number(o.heartbeatInterval, b.heartbeatInterval), Number(o.maxDuration, b.maxDuration),
                 Number(o.maxConnections, b.maxConnections))
  }

  function OverlayIdentity(b: IdentityValue, o: IdentityValue): IdentityValue {
    IdentityValue(Text(o.source, b.source), Text(o.header, b.header), Number(o.maxValueBytes, b.maxValueBytes))
  }

  /** `mergeSecurityContext`. */
  function OverlaySecurity(b: SecurityValue, o: SecurityValue): SecurityValue {
    SecurityValue(Text(o.mechanism, b.mechanism), Number(o.maxCredentialBytes, b.maxCredentialBytes),
                  Number(o.maxConnections, b.maxConnections), Number(o.idleTimeout, b.idleTimeout),
                  Number(o.maxLifetime, b.maxLifetime),
                  if o.identity.None? then b.identity
                    else Some(OverlayIdentity(GetOr(b.identity, NoIdentity()), o.identity.value)))
  }

  /** What is set in `o` wins; everything else, and the inheritance settings, stay as in `b`. */
  function Overlay(b: RouteValue, o: RouteValue): RouteValue {
    RouteValue(Text(o.name, b.name), Text(o.path, b.path), Present(o.methods, b.methods), Text(o.subject, b.subject),
               Present(o.parameters, b.parameters), Present(o.requestHeaders, b.requestHeaders),
               Number(o.timeout, b.timeout), Number(o.maxRequestBodyBytes, b.maxRequestBodyBytes),
               Number(o.maxReplyBytes, b.maxReplyBytes),
               OverlayResponse(b.response, o.response), Text(o.streamMode, b.streamMode),
               if o.coreSse.None? then b.coreSse
                 else Some(OverlayCoreSse(GetOr(b.coreSse, NoCoreSse()), o.coreSse.value)),
               if o.security.None? then b.security
                 else Some(OverlaySecurity(GetOr(b.security, NoSecurity()), o.security.value)),
               b.profile, b.clear, b.extend)
  }

  // ----- extending ----------------------------------------------------------------------------

  /** `append(names, more...)`: appending nothing to nil leaves nil. */
  function Appended(names: Names, more: Names): Names {
    if names.None? && GetOr(more, []) == [] then None else Some(GetOr(names, []) + GetOr(more, []))
  }

  /** `extendRoute`. */
  function Extend(r: RouteValue, e: ExtensionsValue): Result<RouteValue, MergeError> {
    var parameters, more := GetOr(r.parameters, map[]), GetOr(e.parameters, map[]);
    var statuses, moreStatuses := GetOr(r.response.statuses, map[]), GetOr(e.statuses, map[]);
    if parameters.Keys * more.Keys != {} then Err(DuplicateParameter)
    else if statuses.Keys * moreStatuses.Keys != {} then Err(DuplicateStatus)
    else Ok(r.(parameters := Some(parameters + more), requestHeaders := Appended(r.requestHeaders, e.requestHeaders),
               response := r.response.(headers := Appended(r.response.headers, e.responseHeaders),
                                       representations := Appended(r.response.representations, e.representations),
                                       statuses := Some(statuses + moreStatuses))))
  }

  /** `mergeRoute`: clear, then overlay, then extend. */
  function Merge(base: RouteValue, override: RouteValue): Result<RouteValue, MergeError> {
    match ClearAll(base, GetOr(override.clear, []))
    case Err(e) => Err(e)
    case Ok(cleared) =>
      var merged := Overlay(cleared, override);
      if override.extend.None? then Ok(merged) else Extend(merged, override.extend.value)
  }

  // ----- laws of merging ----------------------------------------------------------------------

  predicate Simple(r: RouteValue) {
    r.clear.None? && r.extend.None?
  }

  /** Overrides that neither clear nor extend can be merged in any grouping. */
  lemma MergeAssociative(a: RouteValue, b: RouteValue, c: RouteValue)
    requires Simple(b) && Simple(c)
    ensures Merge(b, c).Ok? && Simple(Merge(b, c).value) && Merge(a, b).Ok?
    ensures Merge(Merge(a, b).value, c) == Merge(a, Merge(b, c).value)
  {
    var bc := Overlay(b, c);
    assert Merge(b, c) == Ok(bc) && Merge(a, b) == Ok(Overlay(a, b));
    assert OverlayResponse(OverlayResponse(a.response, b.response), c.response) ==
             OverlayResponse(a.response, OverlayResponse(b.response, c.response));
    assert Overlay(Overlay(a, b), c) == Overlay(a, bc);
  }

  /** The last step of resolving a declared route: inheritance settings are dropped. */
  function Settled(r: RouteValue): RouteValue {
    r.(profile := "", clear := None, extend := None)
  }

  /** A route merged onto the profile it names, or onto nothing. */
  function ResolveRoute(base: RouteValue, route: RouteValue): Result<RouteValue, MergeError> {
    match Merge(base.(name := route.name, path := route.path, methods := route.methods), route)
    case Err(e) => Err(e)
    case Ok(r) => Ok(Settled(r))
  }

  /** A resolved route names no profile and resolves to itself. */
  lemma ResolvedAgain(base: RouteValue, route: RouteValue)
    requires ResolveRoute(base, route).Ok?
    ensures var r := ResolveRoute(base, route).value; r.profile == "" && ResolveRoute(NoRoute(), r) == Ok(r)
  {
    var r := ResolveRoute(base, route).value;
    OverlayOntoNothing(r);
  }

  lemma OverlayOntoNothing(r: RouteValue)
    requires r == Settled(r)
    ensures Overlay(NoRoute().(name := r.name, path := r.path, methods := r.methods), r) == r
  {
    var b := NoRoute().(name := r.name, path := r.path, methods := r.methods);
    assert OverlayResponse(b.response, r.response) == r.response;
    if r.coreSse.Some? { assert OverlayCoreSse(NoCoreSse(), r.coreSse.value) == r.coreSse.value; }
    if r.security.Some? {
      var s := r.security.value;
      if s.identity.Some? { assert OverlayIdentity(NoIdentity(), s.identity.value) == s.identity.value; }
      assert OverlaySecurity(NoSecurity(), s) == s;
    }
  }

  // ----- what survives a merge ----------------------------------------------------------------

  predicate Clearable(names: seq<FieldName>) {
    (forall i :: 0 <= i < |names| ==> names[i].Shared?)
      && (forall i, j :: 0 <= i < j < |names| ==> names[i] != names[j])
  }

  lemma ClearableNext(names: seq<FieldName>, n: nat)
    requires n < |names|
    ensures Clearable(names[..n + 1]) <==> Clearable(names[..n]) && names[n].Shared? && names[n] !in names[..n]
  {
    var front := names[..n];
    if Clearable(names[..n + 1]) {
      assert forall i :: 0 <= i < n ==> front[i] == names[..n + 1][i];
      assert names[..n + 1][n] == names[n];
    }
  }

  /** Clearing succeeds exactly for distinct shareable fields. */
  lemma {:induction false} ClearAllOkIff(r: RouteValue, names: seq<FieldName>)
    ensures ClearAll(r, names).Ok? <==> Clearable(names)
  {
    if names != [] {
      var n := |names| - 1;
      ClearAllOkIff(r, names[..n]);
      ClearableNext(names, n);
      assert names[..n + 1] == names;
    }
  }

  /** `f` is among the names. */
  predicate Clears(names: seq<FieldName>, f: Field) {
    Shared(f) in names
  }

  predicate ResetNumbers(c: RouteValue, r: RouteValue, names: seq<FieldName>) {
    && c.timeout == (if Clears(names, Timeout) then 0 else r.timeout)
    && c.maxRequestBodyBytes == (if Clears(names, MaxRequestBodyBytes) then 0 else r.maxRequestBodyBytes)
    && c.maxReplyBytes == (if Clears(names, MaxReplyBytes) then 0 else r.maxReplyBytes)
  }

  predicate ResetTexts(c: RouteValue, r: RouteValue, names: seq<FieldName>) {
    && c.subject == (if Clears(names, Subject) then "" else r.subject)
    && c.streamMode == (if Clears(names, StreamMode) then "" else r.streamMode)
    && c.name == r.name && c.path == r.path
  }

  predicate ResetTables(c: RouteValue, r: RouteValue, names: seq<FieldName>) {
    && c.parameters == (if Clears(names, ParametersField) then None else r.parameters)
    && c.requestHeaders == (if Clears(names, RequestHeaders) then Some([]) else r.requestHeaders)
    && c.methods == r.methods
  }

  /** A field is named, or an object that holds it is. */
  predicate ClearsWithin(names: seq<FieldName>, f: Field, wholes: set<Field>) {
    Clears(names, f) || exists w <- wholes :: Clears(names, w)
  }

  /** `f` is named, and after it no object that holds it. */
  predicate ClearsAfter(names: seq<FieldName>, f: Field, wholes: set<Field>) {
    exists i :: 0 <= i < |names| && names[i] == Shared(f)
      && forall j, w :: i < j < |names| && w in wholes ==> names[j] != Shared(w)
  }

  /** A part of an object is named, and after it not the object: clearing the part makes the object. */
  predicate Makes(names: seq<FieldName>, parts: set<Field>, wholes: set<Field>) {
    exists f <- parts :: ClearsAfter(names, f, wholes)
  }

  /** A list or map of the response: cleared alone it is empty, with the whole response it is absent. */
  function ResetTable<T>(names: seq<FieldName>, f: Field, empty: T, was: Option<T>): Option<T> {
    if ClearsAfter(names, f, {ResponseField}) then Some(empty) else if Clears(names, ResponseField) then None else was
  }

  predicate ResetResponseTexts(c: ResponseValue, r: ResponseValue, names: seq<FieldName>) {
    && c.mode == (if ClearsWithin(names, Mode, {ResponseField}) then "" else r.mode)
    && c.contentType == (if ClearsWithin(names, ContentType, {ResponseField}) then "" else r.contentType)
    && c.negotiateAccept == (!ClearsWithin(names, NegotiateAccept, {ResponseField}) && r.negotiateAccept)
  }

  predicate ResetResponseTables(c: ResponseValue, r: ResponseValue, names: seq<FieldName>) {
    && c.headers == ResetTable(names, Headers, [], r.headers)
    && c.representations == ResetTable(names, Representations, [], r.representations)
    && c.statuses == ResetTable(names, ServiceErrorStatuses, map[], r.statuses)
  }

  /** A number of an object that may be absent. */
  function ResetNumber(names: seq<FieldName>, f: Field, wholes: set<Field>, was: int): int {
    if ClearsWithin(names, f, wholes) then 0 else was
  }

  function ResetText(names: seq<FieldName>, f: Field, wholes: set<Field>, was: string): string {
    if ClearsWithin(names, f, wholes) then "" else was
  }

  /** Whether an object is present: it was and was not cleared, or a part of it was cleared later. */
  predicate Remains(names: seq<FieldName>, parts: set<Field>, wholes: set<Field>, was: bool) {
    Makes(names, parts, wholes) || (was && forall w <- wholes :: !Clears(names, w))
  }

  function CoreSseParts(): set<Field> {
    {BufferMessages, BufferBytes, HeartbeatInterval, MaxDuration, CoreSseConnections}
  }

  function IdentityParts(): set<Field> {
    {IdentitySource, IdentityHeader, IdentityBytes}
  }

  function SecurityParts(): set<Field> {
    {Mechanism, MaxCredentialBytes, SecurityConnections, IdleTimeout, MaxLifetime, Identity} + IdentityParts()
  }

  predicate ResetCoreSse(c: Option<CoreSseValue>, r: Option<CoreSseValue>, names: seq<FieldName>) {
    && (c.Some? <==> Remains(names, CoreSseParts(), {CoreSseField}, r.Some?))
    && ResetCoreSseParts(GetOr(c, NoCoreSse()), GetOr(r, NoCoreSse()), names)
  }

  predicate ResetCoreSseParts(c: CoreSseValue, r: CoreSseValue, names: seq<FieldName>) {
    && c.bufferMessages == ResetNumber(names, BufferMessages, {CoreSseField}, r.bufferMessages)
    && c.bufferBytes == ResetNumber(names, BufferBytes, {CoreSseField}, r.bufferBytes)
    && c.heartbeatInterval == ResetNumber(names, HeartbeatInterval, {CoreSseField}, r.heartbeatInterval)
    && c.maxDuration == ResetNumber(names, MaxDuration, {CoreSseField}, r.maxDuration)
    && c.maxConnections == ResetNumber(names, CoreSseConnections, {CoreSseField}, r.maxConnections)
  }

  predicate ResetSecurity(c: Option<SecurityValue>, r: Option<SecurityValue>, names: seq<FieldName>) {
    && (c.Some? <==> Remains(names, SecurityParts(), {SecurityField}, r.Some?))
    && ResetSecurityParts(GetOr(c, NoSecurity()), GetOr(r, NoSecurity()), names)
  }

  predicate ResetSecurityParts(c: SecurityValue, r: SecurityValue, names: seq<FieldName>) {
    && c.mechanism == ResetText(names, Mechanism, {SecurityField}, r.mechanism)
    && c.maxCredentialBytes == ResetNumber(names, MaxCredentialBytes, {SecurityField}, r.maxCredentialBytes)
    && c.maxConnections == ResetNumber(names, SecurityConnections, {SecurityField}, r.maxConnections)
    && c.idleTimeout == ResetNumber(names, IdleTimeout, {SecurityField}, r.idleTimeout)
    && c.maxLifetime == ResetNumber(names, MaxLifetime, {SecurityField}, r.maxLifetime)
  }

  function IdentityIn(o: Option<SecurityValue>): Option<IdentityValue> {
    GetOr(o, NoSecurity()).identity
  }

  predicate ResetIdentity(c: Option<IdentityValue>, r: Option<IdentityValue>, names: seq<FieldName>) {
    var wholes := {SecurityField, Identity};
    && (c.Some? <==> Remains(names, IdentityParts(), wholes, r.Some?))
    && ResetIdentityParts(GetOr(c, NoIdentity()), GetOr(r, NoIdentity()), names)
  }

  predicate ResetIdentityParts(c: IdentityValue, r: IdentityValue, names: seq<FieldName>) {
    var wholes := {SecurityField, Identity};
    && c.source == ResetText(names, IdentitySource, wholes, r.source)
    && c.header == ResetText(names, IdentityHeader, wholes, r.header)
    && c.maxValueBytes == ResetNumber(names, IdentityBytes, wholes, r.maxValueBytes)
  }

  /** `c` is `r` with the named fields reset and every other one, and what is route-specific, unchanged. */
  predicate Reset(c: RouteValue, r: RouteValue, names: seq<FieldName>) {
    && ResetNumbers(c, r, names) && ResetTexts(c, r, names) && ResetTables(c, r, names)
    && ResetResponseTexts(c.response, r.response, names) && ResetResponseTables(c.response, r.response, names)
    && ResetCoreSse(c.coreSse, r.coreSse, names) && ResetSecurity(c.security, r.security, names)
    && ResetIdentity(IdentityIn(c.security), IdentityIn(r.security), names)
  }

  lemma WithinNext(names: seq<FieldName>, n: nat, f: Field, wholes: set<Field>)
    requires n < |names| && names[n].Shared?
    ensures ClearsWithin(names[..n + 1], f, wholes) <==>
              names[n].field == f || names[n].field in wholes || ClearsWithin(names[..n], f, wholes)
  {
    forall g ensures Clears(names[..n + 1], g) <==> Clears(names[..n], g) || names[n] == Shared(g) {
      ClearsNext(names, n, g);
    }
  }

  lemma AfterStays(names: seq<FieldName>, n: nat, f: Field, wholes: set<Field>)
    requires n < |names| && names[n].Shared? && names[n].field !in wholes && ClearsAfter(names[..n], f, wholes)
    ensures ClearsAfter(names[..n + 1], f, wholes)
  {
    var front, all := names[..n], names[..n + 1];
    var i :| 0 <= i < n && front[i] == Shared(f) && forall j, w :: i < j < n && w in wholes ==> front[j] != Shared(w);
    assert all[i] == Shared(f) && all[n] == names[n];
    forall j, w | i < j < n + 1 && w in wholes ensures all[j] != Shared(w) {
      if j < n { assert all[j] == front[j]; }
    }
  }

  lemma AfterWas(names: seq<FieldName>, n: nat, f: Field, wholes: set<Field>)
    requires n < |names| && names[n].Shared? && names[n].field != f && ClearsAfter(names[..n + 1], f, wholes)
    ensures names[n].field !in wholes && ClearsAfter(names[..n], f, wholes)
  {
    var front, all := names[..n], names[..n + 1];
    var i :| 0 <= i < n + 1 && all[i] == Shared(f)
             && forall j, w :: i < j < n + 1 && w in wholes ==> all[j] != Shared(w);
    assert front[i] == Shared(f) && all[n] == names[n];
    forall j, w | i < j < n && w in wholes ensures front[j] != Shared(w) { assert front[j] == all[j]; }
  }

  lemma AfterNext(names: seq<FieldName>, n: nat, f: Field, wholes: set<Field>)
    requires n < |names| && names[n].Shared? && f !in wholes
    ensures ClearsAfter(names[..n + 1], f, wholes) <==>
              names[n].field == f || (names[n].field !in wholes && ClearsAfter(names[..n], f, wholes))
  {
    if names[n].field == f {
      assert names[..n + 1][n] == Shared(f);
    } else {
      if names[n].field !in wholes && ClearsAfter(names[..n], f, wholes) { AfterStays(names, n, f, wholes); }
      if ClearsAfter(names[..n + 1], f, wholes) { AfterWas(names, n, f, wholes); }
    }
  }

  lemma RemainsNext(names: seq<FieldName>, n: nat, parts: set<Field>, wholes: set<Field>, was: bool)
    requires n < |names| && names[n].Shared? && parts !! wholes
    ensures Remains(names[..n + 1], parts, wholes, was) <==>
              names[n].field in parts || (names[n].field !in wholes && Remains(names[..n], parts, wholes, was))
  {
    forall f | f in parts
      ensures ClearsAfter(names[..n + 1], f, wholes) <==>
                names[n].field == f || (names[n].field !in wholes && ClearsAfter(names[..n], f, wholes))
    {
      AfterNext(names, n, f, wholes);
    }
    forall g ensures Clears(names[..n + 1], g) <==> Clears(names[..n], g) || names[n] == Shared(g) {
      ClearsNext(names, n, g);
    }
  }

  lemma ResetNumbersNext(c: RouteValue, r: RouteValue, names: seq<FieldName>, n: nat)
    requires n < |names| && names[n].Shared? && ResetNumbers(c, r, names[..n])
    ensures ResetNumbers(ClearField(c, names[n].field), r, names[..n + 1])
  {
    forall f ensures Clears(names[..n + 1], f) <==> Clears(names[..n], f) || names[n] == Shared(f) {
      ClearsNext(names, n, f);
    }
  }

  lemma ResetTextsNext(c: RouteValue, r: RouteValue, names: seq<FieldName>, n: nat)
    requires n < |names| && names[n].Shared? && ResetTexts(c, r, names[..n])
    ensures ResetTexts(ClearField(c, names[n].field), r, names[..n + 1])
  {
    forall f ensures Clears(names[..n + 1], f) <==> Clears(names[..n], f) || names[n] == Shared(f) {
      ClearsNext(names, n, f);
    }
  }

  lemma ResetTablesNext(c: RouteValue, r: RouteValue, names: seq<FieldName>, n: nat)
    requires n < |names| && names[n].Shared? && ResetTables(c, r, names[..n])
    ensures ResetTables(ClearField(c, names[n].field), r, names[..n + 1])
  {
    forall f ensures Clears(names[..n + 1], f) <==> Clears(names[..n], f) || names[n] == Shared(f) {
      ClearsNext(names, n, f);
    }
  }

  lemma ResetResponseTextsNext(c: ResponseValue, r: ResponseValue, names: seq<FieldName>, n: nat)
    requires n < |names| && names[n].Shared? && ResetResponseTexts(c, r, names[..n])
    ensures ResetResponseTexts(ClearResponse(c, names[n].field), r, names[..n + 1])
  {
    WithinNext(names, n, Mode, {ResponseField});
    WithinNext(names, n, ContentType, {ResponseField});
    WithinNext(names, n, NegotiateAccept, {ResponseField});
  }

  lemma ResetTableNext<T>(names: seq<FieldName>, n: nat, f: Field, empty: T, was: Option<T>)
    requires n < |names| && names[n].Shared? && f != ResponseField
    ensures ResetTable(names[..n + 1], f, empty, was) ==
            if names[n].field == f then Some(empty) else if names[n].field == ResponseField then None
            else ResetTable(names[..n], f, empty, was)
  {
    AfterNext(names, n, f, {ResponseField});
    ClearsNext(names, n, ResponseField);
  }

  lemma ResetResponseTablesNext(c: ResponseValue, r: ResponseValue, names: seq<FieldName>, n: nat)
    requires n < |names| && names[n].Shared? && ResetResponseTables(c, r, names[..n])
    ensures ResetResponseTables(ClearResponse(c, names[n].field), r, names[..n + 1])
  {
    ResetTableNext(names, n, Headers, [], r.headers);
    ResetTableNext(names, n, Representations, [], r.representations);
    ResetTableNext(names, n, ServiceErrorStatuses, map[], r.statuses);
  }

  lemma ResetCoreSseNext(c: Option<CoreSseValue>, r: Option<CoreSseValue>, names: seq<FieldName>, n: nat)
    requires n < |names| && names[n].Shared? && ResetCoreSse(c, r, names[..n])
    ensures ResetCoreSse(ClearCoreSse(c, names[n].field), r, names[..n + 1])
  {
    RemainsNext(names, n, CoreSseParts(), {CoreSseField}, r.Some?);
    ClearedCoreSse(c, names[n].field);
    ResetCoreSsePartsNext(c, GetOr(r, NoCoreSse()), names, n);
  }

  lemma ClearedCoreSse(c: Option<CoreSseValue>, f: Field)
    ensures ClearCoreSse(c, f).Some? <==> f in CoreSseParts() || (f != CoreSseField && c.Some?)
  {
  }

  lemma ResetNumberNext(names: seq<FieldName>, n: nat, f: Field, wholes: set<Field>, was: int)
    requires n < |names| && names[n].Shared?
    ensures ResetNumber(names[..n + 1], f, wholes, was) ==
              if names[n].field == f || names[n].field in wholes then 0 else ResetNumber(names[..n], f, wholes, was)
  {
    WithinNext(names, n, f, wholes);
  }

  lemma ResetTextNext(names: seq<FieldName>, n: nat, f: Field, wholes: set<Field>, was: string)
    requires n < |names| && names[n].Shared?
    ensures ResetText(names[..n + 1], f, wholes, was) ==
              if names[n].field == f || names[n].field in wholes then "" else ResetText(names[..n], f, wholes, was)
  {
    WithinNext(names, n, f, wholes);
  }

  lemma ResetCoreSsePartsNext(c: Option<CoreSseValue>, r: CoreSseValue, names: seq<FieldName>, n: nat)
    requires n < |names| && names[n].Shared? && ResetCoreSseParts(GetOr(c, NoCoreSse()), r, names[..n])
    ensures ResetCoreSseParts(GetOr(ClearCoreSse(c, names[n].field), NoCoreSse()), r, names[..n + 1])
  {
    ResetNumberNext(names, n, BufferMessages, {CoreSseField}, r.bufferMessages);
    ResetNumberNext(names, n, BufferBytes, {CoreSseField}, r.bufferBytes);
    ResetNumberNext(names, n, HeartbeatInterval, {CoreSseField}, r.heartbeatInterval);
    ResetNumberNext(names, n, MaxDuration, {CoreSseField}, r.maxDuration);
    ResetNumberNext(names, n, CoreSseConnections, {CoreSseField}, r.maxConnections);
  }

  lemma ResetSecurityNext(c: Option<SecurityValue>, r: Option<SecurityValue>, names: seq<FieldName>, n: nat)
    requires n < |names| && names[n].Shared? && ResetSecurity(c, r, names[..n])
    ensures ResetSecurity(ClearSecurity(c, names[n].field), r, names[..n + 1])
  {
    RemainsNext(names, n, SecurityParts(), {SecurityField}, r.Some?);
    ClearedSecurity(c, names[n].field);
    ResetSecurityPartsNext(c, GetOr(r, NoSecurity()), names, n);
  }

  lemma ClearedSecurity(c: Option<SecurityValue>, f: Field)
    ensures ClearSecurity(c, f).Some? <==> f in SecurityParts() || (f != SecurityField && c.Some?)
  {
  }

  lemma ResetSecurityPartsNext(c: Option<SecurityValue>, r: SecurityValue, names: seq<FieldName>, n: nat)
    requires n < |names| && names[n].Shared? && ResetSecurityParts(GetOr(c, NoSecurity()), r, names[..n])
    ensures ResetSecurityParts(GetOr(ClearSecurity(c, names[n].field), NoSecurity()), r, names[..n + 1])
  {
    ResetTextNext(names, n, Mechanism, {SecurityField}, r.mechanism);
    ResetNumberNext(names, n, MaxCredentialBytes, {SecurityField}, r.maxCredentialBytes);
    ResetNumberNext(names, n, SecurityConnections, {SecurityField}, r.maxConnections);
    ResetNumberNext(names, n, IdleTimeout, {SecurityField}, r.idleTimeout);
    ResetNumberNext(names, n, MaxLifetime, {SecurityField}, r.maxLifetime);
  }

  lemma ResetIdentityNext(c: Option<SecurityValue>, r: Option<IdentityValue>, names: seq<FieldName>, n: nat)
    requires n < |names| && names[n].Shared? && ResetIdentity(IdentityIn(c), r, names[..n])
    ensures ResetIdentity(IdentityIn(ClearSecurity(c, names[n].field)), r, names[..n + 1])
  {
    RemainsNext(names, n, IdentityParts(), {SecurityField, Identity}, r.Some?);
    ClearedIdentity(c, names[n].field);
    ResetIdentityPartsNext(IdentityIn(c), GetOr(r, NoIdentity()), names, n);
  }

  /** What clearing a field does to the identity within the security context. */
  function ClearIdentityIn(o: Option<IdentityValue>, f: Field): Option<IdentityValue> {
    if f == SecurityField then None else ClearIdentity(o, f)
  }

  lemma ClearedIdentity(c: Option<SecurityValue>, f: Field)
    ensures IdentityIn(ClearSecurity(c, f)) == ClearIdentityIn(IdentityIn(c), f)
    ensures ClearIdentityIn(IdentityIn(c), f).Some? <==>
              f in IdentityParts() || (f != SecurityField && f != Identity && IdentityIn(c).Some?)
  {
  }

  lemma ResetIdentityPartsNext(c: Option<IdentityValue>, r: IdentityValue, names: seq<FieldName>, n: nat)
    requires n < |names| && names[n].Shared? && ResetIdentityParts(GetOr(c, NoIdentity()), r, names[..n])
    ensures ResetIdentityParts(GetOr(ClearIdentityIn(c, names[n].field), NoIdentity()), r, names[..n + 1])
  {
    var wholes := {SecurityField, Identity};
    ResetTextNext(names, n, IdentitySource, wholes, r.source);
    ResetTextNext(names, n, IdentityHeader, wholes, r.header);
    ResetNumberNext(names, n, IdentityBytes, wholes, r.maxValueBytes);
  }

  /** A field of one object is no part of the others. */
  lemma ClearFieldParts(r: RouteValue, f: Field)
    ensures ClearField(r, f).response == ClearResponse(r.response, f)
    ensures ClearField(r, f).coreSse == ClearCoreSse(r.coreSse, f)
            && ClearField(r, f).security == ClearSecurity(r.security, f)
  {
  }

  lemma ResetObjectsNext(c: RouteValue, r: RouteValue, names: seq<FieldName>, n: nat)
    requires n < |names| && names[n].Shared? && Reset(c, r, names[..n])
    ensures var d := ClearField(c, names[n].field);
            && ResetResponseTexts(d.response, r.response, names[..n + 1])
            && ResetResponseTables(d.response, r.response, names[..n + 1])
            && ResetCoreSse(d.coreSse, r.coreSse, names[..n + 1])
               && ResetSecurity(d.security, r.security, names[..n + 1])
            && ResetIdentity(IdentityIn(d.security), IdentityIn(r.security), names[..n + 1])
  {
    ClearFieldParts(c, names[n].field);
    ResetResponseTextsNext(c.response, r.response, names, n);
    ResetResponseTablesNext(c.response, r.response, names, n);
    ResetCoreSseNext(c.coreSse, r.coreSse, names, n);
    ResetSecurityNext(c.security, r.security, names, n);
    ResetIdentityNext(c.security, IdentityIn(r.security), names, n);
  }

  lemma ResetNothing(r: RouteValue)
    ensures Reset(r, r, [])
  {
  }

  /** Clearing resets what is named and leaves the rest. */
  lemma {:induction false} ClearedFields(r: RouteValue, names: seq<FieldName>)
    requires ClearAll(r, names).Ok?
    ensures Reset(ClearAll(r, names).value, r, names)
  {
    if names == [] {
      ResetNothing(r);
    } else {
      var n := |names| - 1;
      ClearedFields(r, names[..n]);
      var c := ClearAll(r, names[..n]).value;
      ResetNumbersNext(c, r, names, n);
      ResetTextsNext(c, r, names, n);
      ResetTablesNext(c, r, names, n);
      ResetObjectsNext(c, r, names, n);
      assert names[..n + 1] == names;
    }
  }

  lemma ClearsNext(names: seq<FieldName>, n: nat, f: Field)
    requires n < |names|
    ensures Clears(names[..n + 1], f) <==> Clears(names[..n], f) || names[n] == Shared(f)
  {
    assert names[..n + 1] == names[..n] + [names[n]];
  }

  function ClearedNames(r: RouteValue): seq<FieldName> {
    GetOr(r.clear, [])
  }

  /** The parameters a merge extends: the override's own, else the inherited ones unless cleared. */
  function ParametersBefore(base: RouteValue, o: RouteValue): map<string, Parameter> {
    if o.parameters.Some? then o.parameters.value
    else if Clears(ClearedNames(o), ParametersField) then map[]
    else GetOr(base.parameters, map[])
  }

  /** The statuses a merge extends, likewise. */
  function StatusesBefore(base: RouteValue, o: RouteValue): map<string, int> {
    if o.response.statuses.Some? then o.response.statuses.value
    else if ClearsWithin(ClearedNames(o), ServiceErrorStatuses, {ResponseField}) then map[]
    else GetOr(base.response.statuses, map[])
  }

  /** What the override sets wins, else what is cleared is zero, else the field is inherited. */
  function Wins<T(==)>(own: T, zero: T, cleared: bool, inherited: T): T {
    if own != zero then own else if cleared then zero else inherited
  }

  /** What is route-specific cannot be cleared. */
  predicate MergedNames(m: RouteValue, base: RouteValue, o: RouteValue) {
    && m.name == Wins(o.name, "", false, base.name) && m.path == Wins(o.path, "", false, base.path)
    && m.methods == Wins(o.methods, None, false, base.methods)
  }

  predicate MergedOwn(m: RouteValue, base: RouteValue, o: RouteValue) {
    var names := ClearedNames(o);
    && m.subject == Wins(o.subject, "", Clears(names, Subject), base.subject)
    && m.streamMode == Wins(o.streamMode, "", Clears(names, StreamMode), base.streamMode)
    && m.timeout == Wins(o.timeout, 0, Clears(names, Timeout), base.timeout)
    && m.maxRequestBodyBytes == Wins(o.maxRequestBodyBytes, 0, Clears(names, MaxRequestBodyBytes),
                                     base.maxRequestBodyBytes)
    && m.maxReplyBytes == Wins(o.maxReplyBytes, 0, Clears(names, MaxReplyBytes), base.maxReplyBytes)
  }

  predicate MergedResponse(m: ResponseValue, base: ResponseValue, o: ResponseValue, names: seq<FieldName>) {
    var whole := {ResponseField};
    && m.mode == Wins(o.mode, "", ClearsWithin(names, Mode, whole), base.mode)
    && m.contentType == Wins(o.contentType, "", ClearsWithin(names, ContentType, whole), base.contentType)
    && m.negotiateAccept == Wins(o.negotiateAccept, false, ClearsWithin(names, NegotiateAccept, whole),
                                 base.negotiateAccept)
  }

  /** The lists of a merge: the override's, else what clearing leaves, and then what the extension adds. */
  predicate MergedLists(m: RouteValue, base: RouteValue, o: RouteValue) {
    var names, e := ClearedNames(o), GetOr(o.extend, ExtensionsValue(None, None, None, None, None));
    && m.requestHeaders == Appended(Present(o.requestHeaders, if Clears(names, RequestHeaders) then Some([])
                                            else base.requestHeaders),
                                    e.requestHeaders)
    && m.response.headers == Appended(Present(o.response.headers,
                                              ResetTable(names, Headers, [], base.response.headers)),
                                      e.responseHeaders)
    && m.response.representations ==
         Appended(Present(o.response.representations,
                          ResetTable(names, Representations, [], base.response.representations)),
                  e.representations)
  }

  /** The maps of a merge: the extension's entries are added to what it extends. */
  predicate MergedMaps(m: RouteValue, base: RouteValue, o: RouteValue) {
    var e := GetOr(o.extend, ExtensionsValue(None, None, None, None, None));
    && GetOr(m.parameters, map[]) == ParametersBefore(base, o) + GetOr(e.parameters, map[])
    && GetOr(m.response.statuses, map[]) == StatusesBefore(base, o) + GetOr(e.statuses, map[])
    && (m.parameters.None? ==> o.extend.None? && o.parameters.None?)
  }

  predicate MergedCoreSse(m: Option<CoreSseValue>, base: Option<CoreSseValue>, o: Option<CoreSseValue>,
                          names: seq<FieldName>) {
    && (m.Some? <==> o.Some? || Remains(names, CoreSseParts(), {CoreSseField}, base.Some?))
    && var v, u, w := GetOr(m, NoCoreSse()), GetOr(o, NoCoreSse()), GetOr(base, NoCoreSse());
       && v.bufferMessages == Number(u.bufferMessages,
                                     ResetNumber(names, BufferMessages, {CoreSseField}, w.bufferMessages))
       && v.bufferBytes == Number(u.bufferBytes, ResetNumber(names, BufferBytes, {CoreSseField}, w.bufferBytes))
       && v.heartbeatInterval ==
            Number(u.heartbeatInterval, ResetNumber(names, HeartbeatInterval, {CoreSseField}, w.heartbeatInterval))
       && v.maxDuration == Number(u.maxDuration, ResetNumber(names, MaxDuration, {CoreSseField}, w.maxDuration))
       && v.maxConnections == Number(u.maxConnections,
                                     ResetNumber(names, CoreSseConnections, {CoreSseField}, w.maxConnections))
  }

  predicate MergedSecurity(m: Option<SecurityValue>, base: Option<SecurityValue>, o: Option<SecurityValue>,
                           names: seq<FieldName>) {
    && (m.Some? <==> o.Some? || Remains(names, SecurityParts(), {SecurityField}, base.Some?))
    && var v, u, w := GetOr(m, NoSecurity()), GetOr(o, NoSecurity()), GetOr(base, NoSecurity());
       && v.mechanism == Text(u.mechanism, ResetText(names, Mechanism, {SecurityField}, w.mechanism))
       && v.maxCredentialBytes ==
            Number(u.maxCredentialBytes, ResetNumber(names, MaxCredentialBytes, {SecurityField}, w.maxCredentialBytes))
       && v.maxConnections == Number(u.maxConnections,
                                     ResetNumber(names, SecurityConnections, {SecurityField}, w.maxConnections))
       && v.idleTimeout == Number(u.idleTimeout, ResetNumber(names, IdleTimeout, {SecurityField}, w.idleTimeout))
       && v.maxLifetime == Number(u.maxLifetime, ResetNumber(names, MaxLifetime, {SecurityField}, w.maxLifetime))
  }

  predicate MergedIdentity(m: Option<IdentityValue>, base: Option<IdentityValue>, o: Option<IdentityValue>,
                           names: seq<FieldName>) {
    var wholes := {SecurityField, Identity};
    && (m.Some? <==> o.Some? || Remains(names, IdentityParts(), wholes, base.Some?))
    && var v, u, w := GetOr(m, NoIdentity()), GetOr(o, NoIdentity()), GetOr(base, NoIdentity());
       && v.source == Text(u.source, ResetText(names, IdentitySource, wholes, w.source))
       && v.header == Text(u.header, ResetText(names, IdentityHeader, wholes, w.header))
       && v.maxValueBytes == Number(u.maxValueBytes, ResetNumber(names, IdentityBytes, wholes, w.maxValueBytes))
  }

  /** Every shareable field of `m` is `o`'s if set there, else zero if `o` clears it, else `base`'s; and extended. */
  predicate MergedInto(m: RouteValue, base: RouteValue, o: RouteValue) {
    var names := ClearedNames(o);
    && MergedOwn(m, base, o) && MergedLists(m, base, o) && MergedMaps(m, base, o)
    && MergedResponse(m.response, base.response, o.response, names)
    && MergedCoreSse(m.coreSse, base.coreSse, o.coreSse, names)
    && MergedSecurity(m.security, base.security, o.security, names)
    && MergedIdentity(IdentityIn(m.security), IdentityIn(base.security), IdentityIn(o.security), names)
  }

  lemma MergedCoreSseNext(c: Option<CoreSseValue>, m: Option<CoreSseValue>, base: Option<CoreSseValue>,
                          o: Option<CoreSseValue>, names: seq<FieldName>)
    requires ResetCoreSse(c, base, names)
    requires m == if o.None? then c else Some(OverlayCoreSse(GetOr(c, NoCoreSse()), o.value))
    ensures MergedCoreSse(m, base, o, names)
  {
  }

  lemma MergedSecurityNext(c: Option<SecurityValue>, m: Option<SecurityValue>, base: Option<SecurityValue>,
                           o: Option<SecurityValue>, names: seq<FieldName>)
    requires ResetSecurity(c, base, names)
    requires m == if o.None? then c else Some(OverlaySecurity(GetOr(c, NoSecurity()), o.value))
    ensures MergedSecurity(m, base, o, names)
  {
  }

  lemma MergedIdentityNext(c: Option<IdentityValue>, m: Option<IdentityValue>, base: Option<IdentityValue>,
                           o: Option<IdentityValue>, names: seq<FieldName>)
    requires ResetIdentity(c, base, names)
    requires m == if o.None? then c else Some(OverlayIdentity(GetOr(c, NoIdentity()), o.value))
    ensures MergedIdentity(m, base, o, names)
  {
  }

  /** The parts of a merge that an extension does not touch. */
  lemma MergedObjects(base: RouteValue, o: RouteValue)
    requires Merge(base, o).Ok?
    ensures var m, names := Merge(base, o).value, ClearedNames(o);
            && MergedCoreSse(m.coreSse, base.coreSse, o.coreSse, names)
            && MergedSecurity(m.security, base.security, o.security, names)
            && MergedIdentity(IdentityIn(m.security), IdentityIn(base.security), IdentityIn(o.security), names)
  {
    var m, names := Merge(base, o).value, ClearedNames(o);
    var c := ClearAll(base, names).value;
    ClearedFields(base, names);
    MergedCoreSseNext(c.coreSse, m.coreSse, base.coreSse, o.coreSse, names);
    MergedSecurityNext(c.security, m.security, base.security, o.security, names);
    MergedIdentityNext(IdentityIn(c.security), IdentityIn(m.security), IdentityIn(base.security),
                       IdentityIn(o.security), names);
  }

  lemma ClearedTables(r: RouteValue, names: seq<FieldName>)
    requires ClearAll(r, names).Ok?
    ensures var c := ClearAll(r, names).value;
            ResetTables(c, r, names) && ResetResponseTables(c.response, r.response, names)
  {
    ClearedFields(r, names);
  }

  lemma MergedLengths(base: RouteValue, o: RouteValue)
    requires Merge(base, o).Ok?
    ensures MergedLists(Merge(base, o).value, base, o)
  {
    var c := ClearAll(base, ClearedNames(o)).value;
    ClearedTables(base, ClearedNames(o));
    AppendNothing(Present(o.requestHeaders, c.requestHeaders));
    AppendNothing(Present(o.response.headers, c.response.headers));
    AppendNothing(Present(o.response.representations, c.response.representations));
  }

  lemma AddNothing<V>(was: map<string, V>)
    ensures was + map[] == was
  {
  }

  lemma MergedEntries(base: RouteValue, o: RouteValue)
    requires Merge(base, o).Ok?
    ensures MergedMaps(Merge(base, o).value, base, o)
  {
    ExtendsBefore(base, o);
    AddNothing(ParametersBefore(base, o));
    AddNothing(StatusesBefore(base, o));
  }

  lemma AppendNothing(names: Names)
    ensures Appended(names, None) == names
  {
    if names.Some? { assert names.value + [] == names.value; }
  }

  /** What a successful merge makes of every field of the route: set, else cleared, else inherited; and extended. */
  lemma MergedFields(base: RouteValue, o: RouteValue)
    requires Merge(base, o).Ok?
    ensures var m := Merge(base, o).value;
            && MergedInto(m, base, o) && MergedNames(m, base, o)
            && m.profile == base.profile && m.clear == base.clear && m.extend == base.extend
  {
    MergedOwnFields(base, o);
    MergedResponseFields(base, o);
    MergedInheritance(base, o);
    MergedLengths(base, o);
    MergedEntries(base, o);
    MergedObjects(base, o);
  }

  lemma {:induction false} ClearKeepsInheritance(r: RouteValue, names: seq<FieldName>)
    requires ClearAll(r, names).Ok?
    ensures var c := ClearAll(r, names).value; c.profile == r.profile && c.clear == r.clear && c.extend == r.extend
  {
    if names != [] { ClearKeepsInheritance(r, names[..|names| - 1]); }
  }

  /** An extension leaves the rest of the overlaid route alone. */
  lemma MergeIsOverlay(base: RouteValue, o: RouteValue)
    requires Merge(base, o).Ok?
    ensures ClearAll(base, ClearedNames(o)).Ok?
    ensures var m, v := Merge(base, o).value, Overlay(ClearAll(base, ClearedNames(o)).value, o);
            m == v.(parameters := m.parameters, requestHeaders := m.requestHeaders,
                    response := v.response.(headers := m.response.headers,
                                            representations := m.response.representations,
                                            statuses := m.response.statuses))
  {
  }

  lemma MergedOwnFields(base: RouteValue, o: RouteValue)
    requires Merge(base, o).Ok?
    ensures MergedOwn(Merge(base, o).value, base, o) && MergedNames(Merge(base, o).value, base, o)
  {
    MergeIsOverlay(base, o);
    ClearedTexts(base, ClearedNames(o));
  }

  lemma MergedResponseFields(base: RouteValue, o: RouteValue)
    requires Merge(base, o).Ok?
    ensures MergedResponse(Merge(base, o).value.response, base.response, o.response, ClearedNames(o))
  {
    MergeIsOverlay(base, o);
    ClearedTexts(base, ClearedNames(o));
  }

  lemma MergedInheritance(base: RouteValue, o: RouteValue)
    requires Merge(base, o).Ok?
    ensures var m := Merge(base, o).value; m.profile == base.profile && m.clear == base.clear && m.extend == base.extend
  {
    MergeIsOverlay(base, o);
    ClearKeepsInheritance(base, ClearedNames(o));
  }

  lemma ClearedTexts(r: RouteValue, names: seq<FieldName>)
    requires ClearAll(r, names).Ok?
    ensures var c := ClearAll(r, names).value;
            && ResetNumbers(c, r, names) && ResetTexts(c, r, names) && c.methods == r.methods
            && ResetResponseTexts(c.response, r.response, names)
  {
    ClearedFields(r, names);
  }

  /** A merge with no extension fails exactly when its clear list is not acceptable. */
  lemma MergeOkIff(base: RouteValue, o: RouteValue)
    requires o.extend.None?
    ensures Merge(base, o).Ok? <==> Clearable(ClearedNames(o))
  {
    ClearAllOkIff(base, ClearedNames(o));
  }

  /** Some key of the extension is there already. */
  predicate Repeats<V>(before: map<string, V>, more: map<string, V>) {
    exists k :: k in before && k in more
  }

  lemma RepeatsIff<V>(before: map<string, V>, more: map<string, V>)
    ensures before.Keys * more.Keys != {} <==> Repeats(before, more)
  {
    if before.Keys * more.Keys != {} { var k :| k in before.Keys * more.Keys; }
    if k :| k in before && k in more { assert k in before.Keys * more.Keys; }
  }

  lemma ExtendsBefore(base: RouteValue, o: RouteValue)
    requires ClearAll(base, ClearedNames(o)).Ok?
    ensures var m := Overlay(ClearAll(base, ClearedNames(o)).value, o);
            GetOr(m.parameters, map[]) == ParametersBefore(base, o)
              && GetOr(m.response.statuses, map[]) == StatusesBefore(base, o)
  {
    ClearedTables(base, ClearedNames(o));
  }

  /**
   A merge whose clear list is acceptable fails on a parameter exactly when an extension repeats a
   key it would extend.
   */
  lemma DuplicateParameterIff(base: RouteValue, o: RouteValue)
    requires Clearable(ClearedNames(o)) && o.extend.Some?
    ensures Merge(base, o) == Err(DuplicateParameter) <==>
              Repeats(ParametersBefore(base, o), GetOr(o.extend.value.parameters, map[]))
  {
    ClearAllOkIff(base, ClearedNames(o));
    ExtendsBefore(base, o);
    RepeatsIff(ParametersBefore(base, o), GetOr(o.extend.value.parameters, map[]));
  }

  /** It fails on a status exactly when no parameter but some status is repeated. */
  lemma DuplicateStatusIff(base: RouteValue, o: RouteValue)
    requires Clearable(ClearedNames(o)) && o.extend.Some?
    ensures Merge(base, o) == Err(DuplicateStatus) <==>
              && !Repeats(ParametersBefore(base, o), GetOr(o.extend.value.parameters, map[]))
              && Repeats(StatusesBefore(base, o), GetOr(o.extend.value.statuses, map[]))
  {
    ClearAllOkIff(base, ClearedNames(o));
    ExtendsBefore(base, o);
    RepeatsIff(ParametersBefore(base, o), GetOr(o.extend.value.parameters, map[]));
    RepeatsIff(StatusesBefore(base, o), GetOr(o.extend.value.statuses, map[]));
  }

  /** An extending merge succeeds exactly when the clear list is acceptable and no key is repeated. */
  lemma ExtendingMergeOkIff(base: RouteValue, o: RouteValue)
    requires o.extend.Some?
    ensures Merge(base, o).Ok? <==>
              && Clearable(ClearedNames(o))
              && !Repeats(ParametersBefore(base, o), GetOr(o.extend.value.parameters, map[]))
              && !Repeats(StatusesBefore(base, o), GetOr(o.extend.value.statuses, map[]))
  {
    ClearAllOkIff(base, ClearedNames(o));
    if Clearable(ClearedNames(o)) {
      DuplicateParameterIff(base, o);
      DuplicateStatusIff(base, o);
    }
  }

  // ----- what a declared route inherits -------------------------------------------------------

  /**
   `out` is the declared route on what it inherits: its name, path and methods are
   its own, every shareable field is its own if set, else zero if cleared, else
   `base`'s, then extended; and no inheritance setting is left.
   */
  predicate InheritedFrom(out: RouteValue, base: RouteValue, route: RouteValue) {
    && out.name == route.name && out.path == route.path && out.methods == route.methods
    && MergedInto(out, base, route)
    && out.profile == "" && out.clear == None && out.extend == None
  }

  lemma MergedIntoNamed(m: RouteValue, named: RouteValue, base: RouteValue, o: RouteValue)
    requires named == base.(name := o.name, path := o.path, methods := o.methods) && MergedInto(m, named, o)
    ensures MergedInto(Settled(m), base, o)
  {
  }

  lemma ResolvedFields(base: RouteValue, route: RouteValue)
    requires ResolveRoute(base, route).Ok?
    ensures InheritedFrom(ResolveRoute(base, route).value, base, route)
  {
    var named := base.(name := route.name, path := route.path, methods := route.methods);
    MergedFields(named, route);
    MergedIntoNamed(Merge(named, route).value, named, base, route);
  }

  /** The clear list is acceptable, and no key that is extended is there already. */
  predicate Mergeable(base: RouteValue, o: RouteValue) {
    && Clearable(ClearedNames(o))
    && (o.extend.Some? ==>
          && !Repeats(ParametersBefore(base, o), GetOr(o.extend.value.parameters, map[]))
          && !Repeats(StatusesBefore(base, o), GetOr(o.extend.value.statuses, map[])))
  }

  lemma ResolveOkIff(base: RouteValue, route: RouteValue)
    ensures ResolveRoute(base, route).Ok? <==> Mergeable(base, route)
  {
    var named := base.(name := route.name, path := route.path, methods := route.methods);
    if route.extend.None? { MergeOkIff(named, route); } else { ExtendingMergeOkIff(named, route); }
  }
}
