/** Merging one route onto another, in storage of its own. */
module RouteMerge {
  import opened Wrappers
  import opened ProfileModel
  import opened RouteShapes
  import RouteConfig

  // ----- the parts of the specification -------------------------------------------------------

  function ClearSettings(s: Settings, f: Field): Settings {
    match f
    case Subject => s.(subject := "")
    case Timeout => s.(timeout := 0)
    case MaxRequestBodyBytes => s.(maxRequestBodyBytes := 0)
    case MaxReplyBytes => s.(maxReplyBytes := 0)
    case StreamMode => s.(streamMode := "")
    case _ => s
  }

  function ClearTablesValue(t: TablesValue, f: Field): TablesValue {
    match f
    case ParametersField => t.(parameters := None)
    case RequestHeaders => t.(requestHeaders := Some([]))
    case _ => t.(response := ClearResponse(t.response, f))
  }

  function OverlaySettings(b: Settings, o: Settings): Settings {
    Settings(Text(o.name, b.name), Text(o.path, b.path), Text(o.subject, b.subject), Number(o.timeout, b.timeout),
             Number(o.maxRequestBodyBytes, b.maxRequestBodyBytes), Number(o.maxReplyBytes, b.maxReplyBytes),
             Text(o.streamMode, b.streamMode), b.profile, b.clear, b.extend)
  }

  function OverlayTablesValue(b: TablesValue, o: TablesValue): TablesValue {
    TablesValue(Present(o.methods, b.methods), Present(o.requestHeaders, b.requestHeaders),
                Present(o.parameters, b.parameters),
                OverlayResponse(b.response, o.response))
  }

  function OverlayCoreSseOption(b: Option<CoreSseValue>, o: Option<CoreSseValue>): Option<CoreSseValue> {
    if o.None? then b else Some(OverlayCoreSse(GetOr(b, NoCoreSse()), o.value))
  }

  function OverlayIdentityOption(b: Option<IdentityValue>, o: Option<IdentityValue>): Option<IdentityValue> {
    if o.None? then b else Some(OverlayIdentity(GetOr(b, NoIdentity()), o.value))
  }

  function OverlaySecurityOption(b: Option<SecurityValue>, o: Option<SecurityValue>): Option<SecurityValue> {
    if o.None? then b else Some(OverlaySecurity(GetOr(b, NoSecurity()), o.value))
  }

  function ExtendTablesValue(t: TablesValue, e: ExtensionsValue): Result<TablesValue, MergeError> {
    var parameters, more := GetOr(t.parameters, map[]), GetOr(e.parameters, map[]);
    var statuses, moreStatuses := GetOr(t.response.statuses, map[]), GetOr(e.statuses, map[]);
    if parameters.Keys * more.Keys != {} then Err(DuplicateParameter)
    else if statuses.Keys * moreStatuses.Keys != {} then Err(DuplicateStatus)
    else Ok(TablesValue(t.methods, Appended(t.requestHeaders, e.requestHeaders), Some(parameters + more),
                        t.response.(headers := Appended(t.response.headers, e.responseHeaders),
                                    representations := Appended(t.response.representations, e.representations),
                                    statuses := Some(statuses + moreStatuses))))
  }

  lemma ClearParts(s: Settings, t: TablesValue, c: Option<CoreSseValue>, x: Option<SecurityValue>, f: Field)
    ensures ClearField(Assemble(s, t, c, x), f) ==
              Assemble(ClearSettings(s, f), ClearTablesValue(t, f), ClearCoreSse(c, f), ClearSecurity(x, f))
  {
  }

  lemma OverlayParts(s: Settings, t: TablesValue, c: Option<CoreSseValue>, x: Option<SecurityValue>,
                     s': Settings, t': TablesValue, c': Option<CoreSseValue>, x': Option<SecurityValue>)
    ensures Overlay(Assemble(s, t, c, x), Assemble(s', t', c', x')) ==
              Assemble(OverlaySettings(s, s'), OverlayTablesValue(t, t'), OverlayCoreSseOption(c, c'),
                       OverlaySecurityOption(x, x'))
  {
  }

  lemma ExtendParts(s: Settings, t: TablesValue, c: Option<CoreSseValue>, x: Option<SecurityValue>, e: ExtensionsValue)
    ensures Extend(Assemble(s, t, c, x), e) ==
              match ExtendTablesValue(t, e) case Err(err) => Err(err) case Ok(t') => Ok(Assemble(s, t', c, x))
  {
  }

  // ----- clearing -----------------------------------------------------------------------------

  method EmptySlice() returns (c: StringSlice)
    ensures Items(c) == Some([]) && fresh(Store(c))
  {
    var store := new Backing([]);
    c := Slice(store, 0);
  }

  method ResetResponse(r: Response, f: Field) returns (c: Response)
    ensures ResponseOf(c) == ClearResponse(old(ResponseOf(r)), f)
    ensures Store(c.headers) == {} || Store(c.headers) == Store(r.headers) || fresh(Store(c.headers))
    ensures Store(c.representations) == {} || Store(c.representations) == Store(r.representations)
            || fresh(Store(c.representations))
    ensures Store(c.headers) !! Store(c.representations)
            || (c.headers == r.headers && c.representations == r.representations)
    ensures Ref(c.statuses) == {} || Ref(c.statuses) == Ref(r.statuses) || fresh(Ref(c.statuses))
  {
    match f
    case ResponseField => c := Response("", Slice(null, 0), "", Slice(null, 0), false, null);
    case Mode => c := r.(mode := "");
    case Headers =>
      var empty := EmptySlice();
      c := r.(headers := empty);
    case ContentType => c := r.(contentType := "");
    case Representations =>
      var empty := EmptySlice();
      c := r.(representations := empty);
    case NegotiateAccept => c := r.(negotiateAccept := false);
    case ServiceErrorStatuses =>
      var empty := new StatusMap(map[]);
      c := r.(statuses := empty);
    case _ => c := r;
  }

  method ResetTablesResponse(t: Tables, f: Field, ghost before: set<object?>) returns (c: Tables)
    requires Apart(t) && TablesApartFrom(t, before) && null !in before
    ensures TablesOf(c) == old(TablesOf(t)).(response := ClearResponse(old(ResponseOf(t.response)), f))
    ensures Apart(c) && TablesApartFrom(c, before)
  {
    var response := ResetResponse(t.response, f);
    c := t.(response := response);
  }

  method ResetRequestHeaders(t: Tables, ghost before: set<object?>) returns (c: Tables)
    requires Apart(t) && TablesApartFrom(t, before)
    ensures TablesOf(c) == old(TablesOf(t)).(requestHeaders := Some([]))
    ensures Apart(c) && TablesApartFrom(c, before)
  {
    var empty := EmptySlice();
    c := t.(requestHeaders := empty);
  }

  method ResetTables(t: Tables, f: Field, ghost before: set<object?>) returns (c: Tables)
    requires Apart(t) && TablesApartFrom(t, before) && null !in before
    ensures TablesOf(c) == ClearTablesValue(old(TablesOf(t)), f)
    ensures Apart(c) && TablesApartFrom(c, before)
  {
    match f
    case ParametersField => c := t.(parameters := null);
    case RequestHeaders => c := ResetRequestHeaders(t, before);
    case _ => c := ResetTablesResponse(t, f, before);
  }

  method EnsureCoreSse(c: CoreSSE?) returns (d: CoreSSE)
    ensures Some(d.Value()) == Some(GetOr(old(CoreSseOf(c)), NoCoreSse()))
    ensures if c == null then fresh(d) else d == c
  {
    if c == null { d := new CoreSSE(NoCoreSse()); } else { d := c; }
  }

  method ResetCoreSse(c: CoreSSE?, f: Field) returns (d: CoreSSE?)
    modifies c
    ensures CoreSseOf(d) == ClearCoreSse(old(CoreSseOf(c)), f)
    ensures d == null || d == c || fresh(d)
  {
    match f
    case CoreSseField => return null;
    case BufferMessages =>
      var e := EnsureCoreSse(c);
      e.bufferMessages := 0;
      d := e;
    case BufferBytes =>
      var e := EnsureCoreSse(c);
      e.bufferBytes := 0;
      d := e;
    case HeartbeatInterval =>
      var e := EnsureCoreSse(c);
      e.heartbeatInterval := 0;
      d := e;
    case MaxDuration =>
      var e := EnsureCoreSse(c);
      e.maxDuration := 0;
      d := e;
    case CoreSseConnections =>
      var e := EnsureCoreSse(c);
      e.maxConnections := 0;
      d := e;
    case _ => d := c;
  }

  method EnsureIdentity(c: DownstreamIdentity?) returns (d: DownstreamIdentity)
    ensures d.Value() == GetOr(old(IdentityOf(c)), NoIdentity())
    ensures if c == null then fresh(d) else d == c
  {
    if c == null { d := new DownstreamIdentity(NoIdentity()); } else { d := c; }
  }

  method ResetIdentity(c: DownstreamIdentity?, f: Field) returns (d: DownstreamIdentity?)
    modifies c
    ensures IdentityOf(d) == ClearIdentity(old(IdentityOf(c)), f)
    ensures d == null || d == c || fresh(d)
  {
    match f
    case Identity => return null;
    case IdentitySource =>
      var e := EnsureIdentity(c);
      e.source := "";
      d := e;
    case IdentityHeader =>
      var e := EnsureIdentity(c);
      e.header := "";
      d := e;
    case IdentityBytes =>
      var e := EnsureIdentity(c);
      e.maxValueBytes := 0;
      d := e;
    case _ => d := c;
  }

  method EnsureSecurity(c: SecurityContext?) returns (d: SecurityContext)
    ensures d.Value() == GetOr(old(SecurityOf(c)), NoSecurity())
    ensures if c == null then fresh(d) && d.identity == null else d == c && d.identity == old(c.identity)
  {
    if c == null { d := new SecurityContext(NoSecurity(), null); } else { d := c; }
  }

  /** The five plain fields of a security context. */
  method ResetSecurityField(e: SecurityContext, f: Field)
    modifies e
    ensures e.identity == old(e.identity)
    ensures IsSecurityField(f) ==>
              Some(e.Value()) == ClearSecurity(Some(old(e.Value())), f)
  {
    match f
    case Mechanism => e.mechanism := "";
    case MaxCredentialBytes => e.maxCredentialBytes := 0;
    case SecurityConnections => e.maxConnections := 0;
    case IdleTimeout => e.idleTimeout := 0;
    case MaxLifetime => e.maxLifetime := 0;
    case _ =>
  }

  method ResetSecurityIdentity(e: SecurityContext, f: Field)
    modifies e, e.identity
    ensures e.Value() == old(e.Value()).(identity := ClearIdentity(old(IdentityOf(e.identity)), f))
    ensures e.identity == null || e.identity == old(e.identity) || fresh(e.identity)
  {
    var identity := ResetIdentity(e.identity, f);
    e.identity := identity;
  }

  predicate IsSecurityField(f: Field) {
    f in {Mechanism, MaxCredentialBytes, SecurityConnections, IdleTimeout, MaxLifetime}
  }

  predicate IsIdentityField(f: Field) {
    f in {Identity, IdentitySource, IdentityHeader, IdentityBytes}
  }

  method ResetWithin(e: SecurityContext, f: Field)
    requires IsSecurityField(f) || IsIdentityField(f)
    modifies e, e.identity
    ensures Some(e.Value()) == ClearSecurity(Some(old(e.Value())), f)
    ensures e.identity == null || e.identity == old(e.identity) || fresh(e.identity)
  {
    if IsSecurityField(f) { ResetSecurityField(e, f); } else { ResetSecurityIdentity(e, f); }
  }

  lemma ClearEnsured(s: Option<SecurityValue>, f: Field)
    requires IsSecurityField(f) || IsIdentityField(f)
    ensures ClearSecurity(s, f) == ClearSecurity(Some(GetOr(s, NoSecurity())), f)
  {
  }

  method ResetSecurity(c: SecurityContext?, f: Field) returns (d: SecurityContext?)
    modifies c, if c == null then null else c.identity
    ensures SecurityOf(d) == ClearSecurity(old(SecurityOf(c)), f)
    ensures d == null || d == c || fresh(d)
    ensures d == null || d.identity == null || (c != null && d.identity == old(c.identity)) || fresh(d.identity)
  {
    if f == SecurityField { return null; }
    if !IsSecurityField(f) && !IsIdentityField(f) { return c; }
    ClearEnsured(SecurityOf(c), f);
    var e := EnsureSecurity(c);
    ResetWithin(e, f);
    d := e;
  }

  method ResetPointers(c: CoreSSE?, s: SecurityContext?, f: Field) returns (d: CoreSSE?, t: SecurityContext?)
    modifies c, s, if s == null then null else s.identity
    ensures CoreSseOf(d) == ClearCoreSse(old(CoreSseOf(c)), f) && SecurityOf(t) == ClearSecurity(old(SecurityOf(s)), f)
    ensures d == null || d == c || fresh(d)
    ensures t == null || t == s || fresh(t)
    ensures t == null || t.identity == null || (s != null && t.identity == old(s.identity)) || fresh(t.identity)
  {
    d := ResetCoreSse(c, f);
    t := ResetSecurity(s, f);
  }

  /** `clearRouteField`, writing through the route's own pointers. */
  method ResetPointersApart(r: Route, f: Field, ghost tables: Tables) returns (c: CoreSSE?, x: SecurityContext?)
    modifies r.coreSse, r.security, if r.security == null then null else r.security.identity
    ensures TablesOf(tables) == old(TablesOf(tables))
    ensures CoreSseOf(c) == ClearCoreSse(old(CoreSseOf(r.coreSse)), f)
    ensures SecurityOf(x) == ClearSecurity(old(SecurityOf(r.security)), f)
    ensures (c == null || c == r.coreSse || fresh(c)) && (x == null || x == r.security || fresh(x))
    ensures x == null || x.identity == null || (r.security != null && x.identity == old(r.security.identity))
            || fresh(x.identity)
  {
    c, x := ResetPointers(r.coreSse, r.security, f);
  }

  method ResetTablesApart(r: Route, f: Field, ghost before: set<object?>) returns (c: Tables)
    requires Apart(r.tables) && TablesApartFrom(r.tables, before) && null !in before
    ensures TablesOf(c) == ClearTablesValue(old(TablesOf(r.tables)), f) && Apart(c) && TablesApartFrom(c, before)
    ensures CoreSseOf(r.coreSse) == old(CoreSseOf(r.coreSse)) && SecurityOf(r.security) == old(SecurityOf(r.security))
  {
    c := ResetTables(r.tables, f, before);
  }

  method ClearRouteField(r: Route, f: Field, ghost before: set<object?>) returns (c: Route)
    requires Apart(r.tables) && TablesApartFrom(r.tables, before) && null !in before
    modifies r.coreSse, r.security, if r.security == null then null else r.security.identity
    ensures ValueOf(c) == ClearField(old(ValueOf(r)), f)
    ensures Apart(c.tables) && TablesApartFrom(c.tables, before)
    ensures c.coreSse == null || c.coreSse == r.coreSse || fresh(c.coreSse)
    ensures c.security == null || c.security == r.security || fresh(c.security)
    ensures c.security == null || c.security.identity == null
            || (r.security != null && c.security.identity == old(r.security.identity)) || fresh(c.security.identity)
  {
    ghost var t, k, x := TablesOf(r.tables), CoreSseOf(r.coreSse), SecurityOf(r.security);
    ClearParts(r.settings, t, k, x, f);
    var tables := ResetTablesApart(r, f, before);
    var coreSse, security := ResetPointersApart(r, f, tables);
    c := Route(ClearSettings(r.settings, f), tables, coreSse, security);
  }

  lemma ClearAllNext(v: RouteValue, names: seq<FieldName>, i: nat)
    requires i < |names| && ClearAll(v, names[..i]).Ok?
    ensures ClearAll(v, names[..i + 1]) == ClearNext(ClearAll(v, names[..i]).value, names[i], names[..i])
  {
    assert names[..i + 1][..i] == names[..i];
  }

  /** Clearing one more field after the ones in `cleared`. */
  function ClearNext(v: RouteValue, name: FieldName, cleared: seq<FieldName>): Result<RouteValue, MergeError> {
    if name.Other? then Err(UnknownField(name.name))
    else if name in cleared then Err(ClearedTwice(name.field))
    else Ok(ClearField(v, name.field))
  }

  method ClearOne(r: Route, name: FieldName, cleared: seq<FieldName>, ghost before: set<object?>)
    returns (res: Result<Route, MergeError>)
    requires Apart(r.tables) && TablesApartFrom(r.tables, before) && null !in before
    modifies r.coreSse, r.security, if r.security == null then null else r.security.identity
    ensures ClearNext(old(ValueOf(r)), name, cleared) == (match res case Err(e) => Err(e) case Ok(c) => Ok(ValueOf(c)))
    ensures res.Ok? ==> Apart(res.value.tables) && TablesApartFrom(res.value.tables, before)
    ensures res.Ok? ==> var d := res.value.coreSse; d == null || d == r.coreSse || fresh(d)
    ensures res.Ok? ==> var d := res.value.security; d == null || d == r.security || fresh(d)
    ensures res.Ok? && res.value.security != null ==>
              var d := res.value.security.identity;
              d == null || (r.security != null && d == old(r.security.identity)) || fresh(d)
  {
    if name.Other? { return Err(UnknownField(name.name)); }
    if name in cleared { return Err(ClearedTwice(name.field)); }
    var c := ClearRouteField(r, name.field, before);
    res := Ok(c);
  }

  /** The loop of `mergeRoute` over the fields to clear. */
  method ClearFields(r: Route, names: seq<FieldName>, ghost before: set<object?>)
    returns (res: Result<Route, MergeError>)
    requires Apart(r.tables) && TablesApartFrom(r.tables, before) && null !in before
    modifies r.coreSse, r.security, if r.security == null then null else r.security.identity
    ensures ClearAll(old(ValueOf(r)), names) == (match res case Err(e) => Err(e) case Ok(c) => Ok(ValueOf(c)))
    ensures res.Ok? ==> Apart(res.value.tables) && TablesApartFrom(res.value.tables, before)
    ensures res.Ok? ==> var d := res.value.coreSse; d == null || d == r.coreSse || fresh(d)
    ensures res.Ok? ==> var d := res.value.security; d == null || d == r.security || fresh(d)
    ensures res.Ok? && res.value.security != null ==>
              var d := res.value.security.identity;
              d == null || (r.security != null && d == old(r.security.identity)) || fresh(d)
  {
    var out := r;
    ghost var was := ValueOf(r);
    for i := 0 to |names|
      invariant ClearAll(was, names[..i]) == Ok(ValueOf(out))
      invariant Apart(out.tables) && TablesApartFrom(out.tables, before)
      invariant out.coreSse == null || out.coreSse == r.coreSse || fresh(out.coreSse)
      invariant out.security == null || out.security == r.security || fresh(out.security)
      invariant out.security != null ==>
                  var d := out.security.identity;
                  d == null || (r.security != null && d == old(r.security.identity)) || fresh(d)
    {
      ClearAllNext(was, names, i);
      var step := ClearOne(out, names[i], names[..i], before);
      if step.Err? {
        ClearStops(was, names, i + 1);
        return step;
      }
      out := step.value;
    }
    assert names[..|names|] == names;
    res := Ok(out);
  }

  /** The first failure decides. */
  lemma {:induction false} ClearStops(v: RouteValue, names: seq<FieldName>, i: nat)
    requires i <= |names| && ClearAll(v, names[..i]).Err?
    ensures ClearAll(v, names) == ClearAll(v, names[..i])
    decreases |names|
  {
    if i == |names| {
      assert names[..i] == names;
    } else {
      assert names[..|names| - 1][..i] == names[..i];
      ClearStops(v, names[..|names| - 1], i);
    }
  }

  // ----- overlaying ---------------------------------------------------------------------------

  /** The override's slice, copied, or the base's. */
  method PreferSlice(b: StringSlice, o: StringSlice) returns (c: StringSlice)
    ensures Items(c) == Present(old(Items(o)), old(Items(b)))
    ensures Store(c) == Store(b) || fresh(Store(c))
  {
    if o.store == null { c := b; } else { c := CloneSlice(o); }
  }

  method PreferStatuses(b: StatusMap?, o: StatusMap?) returns (c: StatusMap?)
    ensures StatusesOf(c) == Present(old(StatusesOf(o)), old(StatusesOf(b)))
    ensures c == b || fresh(Ref(c))
  {
    if o == null { c := b; } else { c := CloneStatuses(o); }
  }

  method PreferParameters(b: ParameterMap?, o: ParameterMap?) returns (c: ParameterMap?)
    ensures ParametersOf(c) == Present(old(ParametersOf(o)), old(ParametersOf(b)))
    ensures c == b || fresh(Ref(c))
  {
    if o == null { c := b; } else { c := CloneParameters(o); }
  }

  method PreferLists(b: StringSlice, o: StringSlice, b': StringSlice, o': StringSlice)
    returns (c: StringSlice, c': StringSlice)
    requires Store(b) !! Store(b')
    ensures Items(c) == Present(old(Items(o)), old(Items(b))) && Items(c') == Present(old(Items(o')), old(Items(b')))
    ensures Store(c) == Store(b) || fresh(Store(c))
    ensures Store(c') == Store(b') || fresh(Store(c'))
    ensures Store(c) !! Store(c')
  {
    c := PreferSlice(b, o);
    c' := PreferSlice(b', o');
  }

  /** `mergeResponse`. */
  method MergeResponse(b: Response, o: Response) returns (c: Response)
    requires Store(b.headers) !! Store(b.representations)
    ensures ResponseOf(c) == OverlayResponse(old(ResponseOf(b)), old(ResponseOf(o)))
    ensures Store(c.headers) == Store(b.headers) || fresh(Store(c.headers))
    ensures Store(c.representations) == Store(b.representations) || fresh(Store(c.representations))
    ensures Store(c.headers) !! Store(c.representations)
    ensures c.statuses == b.statuses || fresh(Ref(c.statuses))
  {
    var headers, representations := PreferLists(b.headers, o.headers, b.representations, o.representations);
    var statuses := PreferStatuses(b.statuses, o.statuses);
    c := Response(Text(o.mode, b.mode), headers, Text(o.contentType, b.contentType), representations,
                  o.negotiateAccept || b.negotiateAccept, statuses);
  }

  method PreferFirst(b: Tables, o: Tables) returns (methods: StringSlice, requestHeaders: StringSlice,
                                                    parameters: ParameterMap?)
    requires Store(b.methods) !! Store(b.requestHeaders)
    ensures Items(methods) == Present(old(Items(o.methods)), old(Items(b.methods)))
    ensures Items(requestHeaders) == Present(old(Items(o.requestHeaders)), old(Items(b.requestHeaders)))
    ensures ParametersOf(parameters) == Present(old(ParametersOf(o.parameters)), old(ParametersOf(b.parameters)))
    ensures Store(methods) == Store(b.methods) || fresh(Store(methods))
    ensures Store(requestHeaders) == Store(b.requestHeaders) || fresh(Store(requestHeaders))
    ensures Store(methods) !! Store(requestHeaders) && (parameters == b.parameters || fresh(Ref(parameters)))
    ensures ResponseOf(b.response) == old(ResponseOf(b.response))
            && ResponseOf(o.response) == old(ResponseOf(o.response))
  {
    methods, requestHeaders := PreferLists(b.methods, o.methods, b.requestHeaders, o.requestHeaders);
    parameters := PreferParameters(b.parameters, o.parameters);
  }

  /** The slices and maps of a merged route: the override's, copied, where it has them. */
  method MergeTables(b: Tables, o: Tables, ghost before: set<object?>) returns (c: Tables)
    requires Apart(b) && TablesApartFrom(b, before) && null !in before
    ensures TablesOf(c) == OverlayTablesValue(old(TablesOf(b)), old(TablesOf(o)))
    ensures Apart(c) && TablesApartFrom(c, before)
  {
    var methods, requestHeaders, parameters := PreferFirst(b, o);
    var response := MergeResponse(b.response, o.response);
    c := Tables(methods, requestHeaders, parameters, response);
  }

  /** `mergeCoreSSE`, in place. */
  method MergeCoreSse(b: CoreSSE, o: CoreSseValue)
    modifies b
    ensures b.Value() == OverlayCoreSse(old(b.Value()), o)
  {
    if o.bufferMessages != 0 { b.bufferMessages := o.bufferMessages; }
    if o.bufferBytes != 0 { b.bufferBytes := o.bufferBytes; }
    if o.heartbeatInterval != 0 { b.heartbeatInterval := o.heartbeatInterval; }
    if o.maxDuration != 0 { b.maxDuration := o.maxDuration; }
    if o.maxConnections != 0 { b.maxConnections := o.maxConnections; }
  }

  method MergeCoreSsePointer(b: CoreSSE?, o: CoreSSE?) returns (c: CoreSSE?)
    modifies b
    ensures CoreSseOf(c) == OverlayCoreSseOption(old(CoreSseOf(b)), old(CoreSseOf(o)))
    ensures c == null || c == b || fresh(c)
  {
    if o == null { return b; }
    var settings := o.Value();
    var d := EnsureCoreSse(b);
    MergeCoreSse(d, settings);
    c := d;
  }

  method MergeIdentity(b: DownstreamIdentity, o: IdentityValue)
    modifies b
    ensures b.Value() == OverlayIdentity(old(b.Value()), o)
  {
    if o.source != "" { b.source := o.source; }
    if o.header != "" { b.header := o.header; }
    if o.maxValueBytes != 0 { b.maxValueBytes := o.maxValueBytes; }
  }

  method MergeIdentityPointer(b: DownstreamIdentity?, o: Option<IdentityValue>) returns (c: DownstreamIdentity?)
    modifies b
    ensures IdentityOf(c) == OverlayIdentityOption(old(IdentityOf(b)), o)
    ensures c == null || c == b || fresh(c)
  {
    if o.None? { return b; }
    var d := EnsureIdentity(b);
    MergeIdentity(d, o.value);
    c := d;
  }

  method MergeSecurityFields(b: SecurityContext, o: SecurityValue)
    modifies b
    ensures b.identity == old(b.identity)
    ensures b.Value() == OverlaySecurity(old(b.Value()), o.(identity := None))
  {
    if o.mechanism != "" { b.mechanism := o.mechanism; }
    if o.maxCredentialBytes != 0 { b.maxCredentialBytes := o.maxCredentialBytes; }
    if o.maxConnections != 0 { b.maxConnections := o.maxConnections; }
    if o.idleTimeout != 0 { b.idleTimeout := o.idleTimeout; }
    if o.maxLifetime != 0 { b.maxLifetime := o.maxLifetime; }
  }

  /** `mergeSecurityContext`, in place. */
  method MergeSecurityContext(b: SecurityContext, o: SecurityValue)
    modifies b, b.identity
    ensures b.Value() == OverlaySecurity(old(b.Value()), o)
    ensures b.identity == null || b.identity == old(b.identity) || fresh(b.identity)
  {
    MergeSecurityFields(b, o);
    var identity := MergeIdentityPointer(b.identity, o.identity);
    b.identity := identity;
  }

  method MergeSecurityPointer(b: SecurityContext?, o: SecurityContext?) returns (c: SecurityContext?)
    modifies b, if b == null then null else b.identity
    ensures SecurityOf(c) == OverlaySecurityOption(old(SecurityOf(b)), old(SecurityOf(o)))
    ensures c == null || c == b || fresh(c)
    ensures c == null || c.identity == null || (b != null && c.identity == old(b.identity)) || fresh(c.identity)
  {
    if o == null { return b; }
    var settings := o.Value();
    var d := EnsureSecurity(b);
    MergeSecurityContext(d, settings);
    c := d;
  }

  method MergePointers(b: CoreSSE?, s: SecurityContext?, o: CoreSSE?, p: SecurityContext?)
    returns (c: CoreSSE?, t: SecurityContext?)
    requires o != b || o == null
    requires p == null || s == null || (p != s && (p.identity == null || p.identity != s.identity))
    modifies b, s, if s == null then null else s.identity
    ensures CoreSseOf(c) == OverlayCoreSseOption(old(CoreSseOf(b)), old(CoreSseOf(o)))
    ensures SecurityOf(t) == OverlaySecurityOption(old(SecurityOf(s)), old(SecurityOf(p)))
    ensures c == null || c == b || fresh(c)
    ensures t == null || t == s || fresh(t)
    ensures t == null || t.identity == null || (s != null && t.identity == old(s.identity)) || fresh(t.identity)
  {
    c := MergeCoreSsePointer(b, o);
    t := MergeSecurityPointer(s, p);
  }

  /** The settings are merged elsewhere than the tables are stored. */
  method MergePointersApart(b: Route, o: Route, ghost tables: Tables) returns (c: CoreSSE?, t: SecurityContext?)
    requires o.coreSse != b.coreSse || o.coreSse == null
    requires o.security == null || b.security == null
             || (o.security != b.security && (o.security.identity == null
                                              || o.security.identity != b.security.identity))
    modifies b.coreSse, b.security, if b.security == null then null else b.security.identity
    ensures TablesOf(tables) == old(TablesOf(tables))
    ensures CoreSseOf(c) == OverlayCoreSseOption(old(CoreSseOf(b.coreSse)), old(CoreSseOf(o.coreSse)))
    ensures SecurityOf(t) == OverlaySecurityOption(old(SecurityOf(b.security)), old(SecurityOf(o.security)))
    ensures (c == null || c == b.coreSse || fresh(c)) && (t == null || t == b.security || fresh(t))
    ensures t == null || t.identity == null || (b.security != null && t.identity == old(b.security.identity))
            || fresh(t.identity)
  {
    c, t := MergePointers(b.coreSse, b.security, o.coreSse, o.security);
  }

  method MergeTablesApart(b: Route, o: Route, ghost before: set<object?>) returns (c: Tables)
    requires Apart(b.tables) && TablesApartFrom(b.tables, before) && null !in before
    ensures TablesOf(c) == OverlayTablesValue(old(TablesOf(b.tables)), old(TablesOf(o.tables)))
    ensures Apart(c) && TablesApartFrom(c, before)
    ensures CoreSseOf(b.coreSse) == old(CoreSseOf(b.coreSse)) && CoreSseOf(o.coreSse) == old(CoreSseOf(o.coreSse))
    ensures SecurityOf(b.security) == old(SecurityOf(b.security))
            && SecurityOf(o.security) == old(SecurityOf(o.security))
  {
    c := MergeTables(b.tables, o.tables, before);
  }

  /** The middle part of `mergeRoute`: what the override sets wins. */
  method OverlayRoute(b: Route, o: Route, ghost before: set<object?>) returns (c: Route)
    requires Apart(b.tables) && TablesApartFrom(b.tables, before) && null !in before
    requires o.coreSse != b.coreSse || o.coreSse == null
    requires o.security == null || b.security == null
             || (o.security != b.security && (o.security.identity == null
                                              || o.security.identity != b.security.identity))
    modifies b.coreSse, b.security, if b.security == null then null else b.security.identity
    ensures ValueOf(c) == Overlay(old(ValueOf(b)), old(ValueOf(o)))
    ensures Apart(c.tables) && TablesApartFrom(c.tables, before)
    ensures c.coreSse == null || c.coreSse == b.coreSse || fresh(c.coreSse)
    ensures c.security == null || c.security == b.security || fresh(c.security)
    ensures c.security == null || c.security.identity == null
            || (b.security != null && c.security.identity == old(b.security.identity)) || fresh(c.security.identity)
  {
    ghost var t, t' := TablesOf(b.tables), TablesOf(o.tables);
    ghost var k, k' := CoreSseOf(b.coreSse), CoreSseOf(o.coreSse);
    ghost var x, x' := SecurityOf(b.security), SecurityOf(o.security);
    var tables := MergeTablesApart(b, o, before);
    var coreSse, security := MergePointersApart(b, o, tables);
    c := Route(OverlaySettings(b.settings, o.settings), tables, coreSse, security);
    OverlayParts(b.settings, t, k, x, o.settings, t', k', x');
  }

  // ----- extending ----------------------------------------------------------------------------

  /** The entries of `more` outside `left`, added to `was`. */
  ghost function Added<V>(was: map<string, V>, more: map<string, V>, left: set<string>): map<string, V> {
    was + (map k | k in more && k !in left :: more[k])
  }

  ghost predicate NoneShared<V>(was: map<string, V>, more: map<string, V>, left: set<string>) {
    forall k <- more :: k !in left ==> k !in was
  }

  lemma AddedHas<V>(was: map<string, V>, more: map<string, V>, left: set<string>, k: string)
    requires left <= more.Keys && k in left && NoneShared(was, more, left)
    ensures k in Added(was, more, left) ==> was.Keys * more.Keys != {}
    ensures k !in Added(was, more, left) ==> Added(was, more, left)[k := more[k]] == Added(was, more, left - {k})
    ensures k !in Added(was, more, left) ==> NoneShared(was, more, left - {k})
  {
    if k in was { assert k in was.Keys * more.Keys; }
  }

  lemma AddedAll<V>(was: map<string, V>, more: map<string, V>)
    requires NoneShared(was, more, {})
    ensures was.Keys * more.Keys == {} && Added(was, more, {}) == was + more
  {
    assert (map k | k in more && k !in {} :: more[k]) == more;
  }

  /** The loop of `extendRoute` over the parameters, in any order, writing into the map. */
  method ExtendParameters(m: ParameterMap, more: map<string, RouteConfig.Parameter>) returns (ok: bool)
    modifies m
    ensures ok <==> old(m.entries).Keys * more.Keys == {}
    ensures ok ==> m.entries == old(m.entries) + more
  {
    ghost var was := m.entries;
    var left := more.Keys;
    while left != {}
      invariant left <= more.Keys && m.entries == Added(was, more, left) && NoneShared(was, more, left)
      decreases |left|
    {
      var k :| k in left;
      AddedHas(was, more, left, k);
      if k in m.entries { return false; }
      m.entries := m.entries[k := more[k]];
      left := left - {k};
    }
    AddedAll(was, more);
    ok := true;
  }

  method ExtendStatuses(m: StatusMap, more: map<string, int>) returns (ok: bool)
    modifies m
    ensures ok <==> old(m.entries).Keys * more.Keys == {}
    ensures ok ==> m.entries == old(m.entries) + more
  {
    ghost var was := m.entries;
    var left := more.Keys;
    while left != {}
      invariant left <= more.Keys && m.entries == Added(was, more, left) && NoneShared(was, more, left)
      decreases |left|
    {
      var k :| k in left;
      AddedHas(was, more, left, k);
      if k in m.entries { return false; }
      m.entries := m.entries[k := more[k]];
      left := left - {k};
    }
    AddedAll(was, more);
    ok := true;
  }

  method ExtendParametersPointer(m: ParameterMap?, more: Parameters) returns (d: ParameterMap, ok: bool)
    modifies m
    ensures ok <==> GetOr(old(ParametersOf(m)), map[]).Keys * GetOr(more, map[]).Keys == {}
    ensures ok ==> d.entries == GetOr(old(ParametersOf(m)), map[]) + GetOr(more, map[])
    ensures d == m || fresh(d)
  {
    if m == null { d := new ParameterMap(map[]); } else { d := m; }
    ok := ExtendParameters(d, GetOr(more, map[]));
  }

  method ExtendStatusesPointer(m: StatusMap?, more: Statuses) returns (d: StatusMap, ok: bool)
    modifies m
    ensures ok <==> GetOr(old(StatusesOf(m)), map[]).Keys * GetOr(more, map[]).Keys == {}
    ensures ok ==> d.entries == GetOr(old(StatusesOf(m)), map[]) + GetOr(more, map[])
    ensures d == m || fresh(d)
  {
    if m == null { d := new StatusMap(map[]); } else { d := m; }
    ok := ExtendStatuses(d, GetOr(more, map[]));
  }

  /** The three appends of `extendRoute`, each possibly in place. */
  method ExtendLists(a: StringSlice, b: StringSlice, c: StringSlice, e: ExtensionsValue)
    returns (a': StringSlice, b': StringSlice, c': StringSlice)
    requires Store(a) !! Store(b) !! Store(c)
    modifies a.store, b.store, c.store
    ensures Items(a') == Appended(old(Items(a)), e.requestHeaders)
    ensures Items(b') == Appended(old(Items(b)), e.responseHeaders)
    ensures Items(c') == Appended(old(Items(c)), e.representations)
    ensures (a'.store == null || a'.store == a.store || fresh(a'.store))
            && (b'.store == null || b'.store == b.store || fresh(b'.store))
    ensures c'.store == null || c'.store == c.store || fresh(c'.store)
  {
    a' := Append(a, e.requestHeaders);
    b' := Append(b, e.responseHeaders);
    c' := Append(c, e.representations);
  }

  /** The tables with the extension's lists appended and its statuses added. */
  function Lengthened(t: TablesValue, e: ExtensionsValue): TablesValue {
    var r := t.response;
    TablesValue(t.methods, Appended(t.requestHeaders, e.requestHeaders), t.parameters,
                r.(headers := Appended(r.headers, e.responseHeaders),
                   representations := Appended(r.representations, e.representations),
                   statuses := Some(GetOr(r.statuses, map[]) + GetOr(e.statuses, map[]))))
  }

  method ExtendListsApart(t: Tables, parameters: ParameterMap, e: ExtensionsValue)
    returns (requestHeaders: StringSlice, headers: StringSlice, representations: StringSlice)
    requires Apart(t)
    modifies t.requestHeaders.store, t.response.headers.store, t.response.representations.store
    ensures Items(requestHeaders) == Appended(old(Items(t.requestHeaders)), e.requestHeaders)
    ensures Items(headers) == Appended(old(Items(t.response.headers)), e.responseHeaders)
    ensures Items(representations) == Appended(old(Items(t.response.representations)), e.representations)
    ensures requestHeaders.store == null || requestHeaders.store == t.requestHeaders.store
            || fresh(requestHeaders.store)
    ensures headers.store == null || headers.store == t.response.headers.store || fresh(headers.store)
    ensures representations.store == null || representations.store == t.response.representations.store
            || fresh(representations.store)
    ensures Items(t.methods) == old(Items(t.methods)) && parameters.entries == old(parameters.entries)
    ensures StatusesOf(t.response.statuses) == old(StatusesOf(t.response.statuses))
  {
    requestHeaders, headers, representations :=
      ExtendLists(t.requestHeaders, t.response.headers, t.response.representations, e);
  }

  /** `extendRoute` after the parameters: the appends and the statuses. */
  method ExtendRest(t: Tables, parameters: ParameterMap, e: ExtensionsValue, ghost before: set<object?>)
    returns (res: Option<Tables>)
    requires Apart(t) && TablesApartFrom(t, before) && null !in before && parameters !in before
    modifies t.requestHeaders.store, t.response.headers.store, t.response.representations.store, t.response.statuses
    ensures res.None? <==> GetOr(old(StatusesOf(t.response.statuses)), map[]).Keys * GetOr(e.statuses, map[]).Keys != {}
    ensures res.Some? ==>
              TablesOf(res.value) == Lengthened(old(TablesOf(t)), e).(parameters := Some(old(parameters.entries)))
    ensures res.Some? ==> TablesApartFrom(res.value, before)
  {
    ghost var methods, ps := Items(t.methods), parameters.entries;
    var requestHeaders, headers, representations := ExtendListsApart(t, parameters, e);
    var statuses, ok := ExtendStatusesPointer(t.response.statuses, e.statuses);
    if !ok { return None; }
    assert Items(t.methods) == methods && parameters.entries == ps;
    res := Some(Tables(t.methods, requestHeaders, parameters,
                       t.response.(headers := headers, representations := representations, statuses := statuses)));
  }

  /** `extendRoute`. */
  method ExtendTables(t: Tables, e: ExtensionsValue, ghost before: set<object?>)
    returns (res: Result<Tables, MergeError>)
    requires Apart(t) && TablesApartFrom(t, before) && null !in before
    modifies t.requestHeaders.store, t.response.headers.store, t.response.representations.store, t.parameters,
             t.response.statuses
    ensures ExtendTablesValue(old(TablesOf(t)), e) ==
              (match res case Err(err) => Err(err) case Ok(c) => Ok(TablesOf(c)))
    ensures res.Ok? ==> TablesApartFrom(res.value, before)
  {
    ghost var was := TablesOf(t);
    var parameters, ok := ExtendParametersPointer(t.parameters, e.parameters);
    if !ok { return Err(DuplicateParameter); }
    assert TablesOf(t).(parameters := was.parameters) == was;
    var rest := ExtendRest(t, parameters, e, before);
    res := if rest.Some? then Ok(rest.value) else Err(DuplicateStatus);
  }

  // ----- merging ------------------------------------------------------------------------------

  /** Any object; the set of all allocated objects is written with it. */
  ghost predicate Known(o: object) { true }

  method ExtendTablesApart(r: Route, e: ExtensionsValue, ghost before: set<object?>)
    returns (res: Result<Tables, MergeError>)
    requires Apart(r.tables) && TablesApartFrom(r.tables, before) && null !in before
    modifies r.tables.requestHeaders.store, r.tables.response.headers.store, r.tables.response.representations.store
    modifies r.tables.parameters, r.tables.response.statuses
    ensures ExtendTablesValue(old(TablesOf(r.tables)), e) ==
              (match res case Err(err) => Err(err) case Ok(c) => Ok(TablesOf(c)))
    ensures res.Ok? ==> TablesApartFrom(res.value, before)
    ensures CoreSseOf(r.coreSse) == old(CoreSseOf(r.coreSse)) && SecurityOf(r.security) == old(SecurityOf(r.security))
  {
    res := ExtendTables(r.tables, e, before);
  }

  method ExtendRoute(r: Route, e: Option<ExtensionsValue>, ghost before: set<object?>)
    returns (res: Result<Route, MergeError>)
    requires Apart(r.tables) && TablesApartFrom(r.tables, before) && null !in before
    modifies r.tables.requestHeaders.store, r.tables.response.headers.store, r.tables.response.representations.store
    modifies r.tables.parameters, r.tables.response.statuses
    ensures (if e.None? then Ok(old(ValueOf(r))) else Extend(old(ValueOf(r)), e.value)) ==
              match res case Err(err) => Err(err) case Ok(c) => Ok(ValueOf(c))
    ensures res.Ok? ==> TablesApartFrom(res.value.tables, before)
    ensures res.Ok? ==> res.value.coreSse == r.coreSse && res.value.security == r.security
  {
    if e.None? { return Ok(r); }
    ghost var k, x := CoreSseOf(r.coreSse), SecurityOf(r.security);
    ExtendParts(r.settings, TablesOf(r.tables), k, x, e.value);
    var tables := ExtendTablesApart(r, e.value, before);
    if tables.Err? { return Err(tables.error); }
    res := Ok(r.(tables := tables.value));
  }

  /** The first part of `mergeRoute`: a copy of the base with the fields cleared. */
  method ClearedCopy(base: Route, names: seq<FieldName>, ghost before: set<object?>)
    returns (res: Result<Route, MergeError>)
    requires null !in before
    ensures ClearAll(old(ValueOf(base)), names) == match res case Err(e) => Err(e) case Ok(c) => Ok(ValueOf(c))
    ensures res.Ok? ==> Apart(res.value.tables) && TablesApartFrom(res.value.tables, before)
    ensures res.Ok? ==> res.value.coreSse == null || fresh(res.value.coreSse)
    ensures res.Ok? ==> res.value.security == null || fresh(res.value.security)
    ensures res.Ok? && res.value.security != null ==>
              res.value.security.identity == null || fresh(res.value.security.identity)
  {
    var out := CloneRoute(base);
    assert TablesApartFrom(out.tables, before);
    res := ClearFields(out, names, before);
  }

  method ClearedCopyApart(base: Route, o: Route, ghost before: set<object?>) returns (res: Result<Route, MergeError>)
    requires null !in before
    ensures ValueOf(o) == old(ValueOf(o))
    ensures ClearAll(old(ValueOf(base)), GetOr(o.settings.clear, [])) ==
              match res case Err(e) => Err(e) case Ok(c) => Ok(ValueOf(c))
    ensures res.Ok? ==> Apart(res.value.tables) && TablesApartFrom(res.value.tables, before)
    ensures res.Ok? ==> res.value.coreSse == null || fresh(res.value.coreSse)
    ensures res.Ok? ==> res.value.security == null || fresh(res.value.security)
    ensures res.Ok? && res.value.security != null ==>
              res.value.security.identity == null || fresh(res.value.security.identity)
  {
    res := ClearedCopy(base, GetOr(o.settings.clear, []), before);
  }

  /** The first two parts of `mergeRoute`: the override laid over the cleared copy. */
  method OverlaidCopy(base: Route, o: Route, ghost before: set<object?>) returns (res: Result<Route, MergeError>)
    requires null !in before
    ensures MergeUnextended(old(ValueOf(base)), old(ValueOf(o))) ==
              match res case Err(e) => Err(e) case Ok(c) => Ok(ValueOf(c))
    ensures res.Ok? ==> Apart(res.value.tables) && TablesApartFrom(res.value.tables, before)
    ensures res.Ok? ==> res.value.coreSse == null || fresh(res.value.coreSse)
    ensures res.Ok? ==> res.value.security == null || fresh(res.value.security)
    ensures res.Ok? && res.value.security != null ==>
              res.value.security.identity == null || fresh(res.value.security.identity)
  {
    var cleared := ClearedCopyApart(base, o, before);
    if cleared.Err? { return cleared; }
    var out := OverlayRoute(cleared.value, o, before);
    res := Ok(out);
  }

  function MergeUnextended(base: RouteValue, o: RouteValue): Result<RouteValue, MergeError> {
    match ClearAll(base, GetOr(o.clear, []))
    case Err(e) => Err(e)
    case Ok(cleared) => Ok(Overlay(cleared, o))
  }

  /** The tables share nothing with what existed: the form in which it is proved. */
  method MergeParts(base: Route, override: Route) returns (res: Result<Route, MergeError>, ghost before: set<object?>)
    ensures Merge(old(ValueOf(base)), old(ValueOf(override))) ==
              match res case Err(e) => Err(e) case Ok(r) => Ok(ValueOf(r))
    ensures forall o: object :: old(allocated(o)) && Known(o) ==> o in before
    ensures res.Ok? ==> TablesApartFrom(res.value.tables, before)
    ensures res.Ok? ==> res.value.coreSse == null || fresh(res.value.coreSse)
    ensures res.Ok? ==> res.value.security == null || fresh(res.value.security)
    ensures res.Ok? && res.value.security != null ==>
              res.value.security.identity == null || fresh(res.value.security.identity)
  {
    before := set o: object | allocated(o) && Known(o);
    var out := OverlaidCopy(base, override, before);
    if out.Err? { return out, before; }
    res := ExtendRoute(out.value, override.settings.extend, before);
  }

  lemma TablesNotIn(t: Tables, before: set<object?>)
    requires TablesApartFrom(t, before)
    ensures forall o <- TablesFootprint(t) :: o !in before && Known(o)
  {
  }

  method MergeTablesNew(base: Route, override: Route) returns (res: Result<Route, MergeError>)
    ensures Merge(old(ValueOf(base)), old(ValueOf(override))) ==
              match res case Err(e) => Err(e) case Ok(r) => Ok(ValueOf(r))
    ensures res.Ok? ==> fresh(TablesFootprint(res.value.tables))
    ensures res.Ok? ==> res.value.coreSse == null || fresh(res.value.coreSse)
    ensures res.Ok? ==> res.value.security == null || fresh(res.value.security)
    ensures res.Ok? && res.value.security != null ==>
              res.value.security.identity == null || fresh(res.value.security.identity)
  {
    ghost var before;
    res, before := MergeParts(base, override);
    if res.Ok? { TablesNotIn(res.value.tables, before); }
  }

  /**
   `mergeRoute`.  Nothing that existed before the call is written, and whatever
   can be written through the merged route is new: it shares no storage with the
   base, with the override or with any other route.
   */
  method MergeRoute(base: Route, override: Route) returns (res: Result<Route, MergeError>)
    ensures Merge(old(ValueOf(base)), old(ValueOf(override))) ==
              match res case Err(e) => Err(e) case Ok(r) => Ok(ValueOf(r))
    ensures res.Ok? ==> fresh(Footprint(res.value))
  {
    res := MergeTablesNew(base, override);
  }
}
