/**
 Routes as the configuration holds them: structs with slices, maps and pointers,
 so that two routes may share storage.  `ValueOf` reads a route as a value and
 `Footprint` is everything that can be written through it.

 Clear lists and extension blocks are values here: nothing writes through them.
 */
module RouteShapes {
  import opened Wrappers
  import RouteConfig
  import opened ProfileModel

  /** A backing array; its length is its capacity. */
  class Backing {
    var cells: seq<string>
    constructor (cells: seq<string>)
      ensures this.cells == cells
    {
      this.cells := cells;
    }
  }

  /**
   A slice of strings, nil without a backing array: the front of a backing array, whose spare room
   `append` may write into.
   */
  datatype StringSlice = Slice(store: Backing?, len: nat)

  class ParameterMap {
    var entries: map<string, RouteConfig.Parameter>
    constructor (entries: map<string, RouteConfig.Parameter>)
      ensures this.entries == entries
    {
      this.entries := entries;
    }
  }

  class StatusMap {
    var entries: map<string, int>
    constructor (entries: map<string, int>)
      ensures this.entries == entries
    {
      this.entries := entries;
    }
  }

  class CoreSSE {
    var bufferMessages: int
    var bufferBytes: int
    var heartbeatInterval: int
    var maxDuration: int
    var maxConnections: int

    function Value(): CoreSseValue
      reads this
    {
      CoreSseValue(bufferMessages, bufferBytes, heartbeatInterval, maxDuration, maxConnections)
    }

    constructor (v: CoreSseValue)
      ensures Value() == v
    {
      bufferMessages, bufferBytes, heartbeatInterval := v.bufferMessages, v.bufferBytes, v.heartbeatInterval;
      maxDuration, maxConnections := v.maxDuration, v.maxConnections;
    }
  }

  class DownstreamIdentity {
    var source: string
    var header: string
    var maxValueBytes: int

    function Value(): IdentityValue
      reads this
    {
      IdentityValue(source, header, maxValueBytes)
    }

    constructor (v: IdentityValue)
      ensures Value() == v
    {
      source, header, maxValueBytes := v.source, v.header, v.maxValueBytes;
    }
  }

  class SecurityContext {
    var mechanism: string
    var maxCredentialBytes: int
    var maxConnections: int
    var idleTimeout: int
    var maxLifetime: int
    var identity: DownstreamIdentity?

    function Value(): SecurityValue
      reads this, identity
    {
      SecurityValue(mechanism, maxCredentialBytes, maxConnections, idleTimeout, maxLifetime, IdentityOf(identity))
    }

    constructor (v: SecurityValue, identity: DownstreamIdentity?)
      ensures mechanism == v.mechanism && maxCredentialBytes == v.maxCredentialBytes
              && maxConnections == v.maxConnections
      ensures idleTimeout == v.idleTimeout && maxLifetime == v.maxLifetime && this.identity == identity
    {
      mechanism, maxCredentialBytes, maxConnections := v.mechanism, v.maxCredentialBytes, v.maxConnections;
      idleTimeout, maxLifetime, this.identity := v.idleTimeout, v.maxLifetime, identity;
    }
  }

  datatype Response = Response(mode: string, headers: StringSlice, contentType: string, representations: StringSlice,
                               negotiateAccept: bool, statuses: StatusMap?)

  /** The slices and maps of a route. */
  datatype Tables = Tables(methods: StringSlice, requestHeaders: StringSlice, parameters: ParameterMap?,
                           response: Response)

  /** The strings and numbers of a route, and how it inherits. */
  datatype Settings = Settings(name: string, path: string, subject: string, timeout: int, maxRequestBodyBytes: int,
                               maxReplyBytes: int, streamMode: string, profile: string, clear: FieldNames,
                               extend: Option<ExtensionsValue>)

  datatype Route = Route(settings: Settings, tables: Tables, coreSse: CoreSSE?, security: SecurityContext?)

  // ----- reading ------------------------------------------------------------------------------

  function Front(cells: seq<string>, n: nat): seq<string> {
    if n <= |cells| then cells[..n] else cells
  }

  function Items(s: StringSlice): Names
    reads s.store
  {
    if s.store == null then None else Some(Front(s.store.cells, s.len))
  }

  function ParametersOf(m: ParameterMap?): Parameters
    reads m
  {
    if m == null then None else Some(m.entries)
  }

  function StatusesOf(m: StatusMap?): Statuses
    reads m
  {
    if m == null then None else Some(m.entries)
  }

  function CoreSseOf(c: CoreSSE?): Option<CoreSseValue>
    reads c
  {
    if c == null then None else Some(c.Value())
  }

  function IdentityOf(i: DownstreamIdentity?): Option<IdentityValue>
    reads i
  {
    if i == null then None else Some(i.Value())
  }

  function SecurityOf(s: SecurityContext?): Option<SecurityValue>
    reads s, if s == null then null else s.identity
  {
    if s == null then None else Some(s.Value())
  }

  function ResponseOf(r: Response): ResponseValue
    reads r.headers.store, r.representations.store, r.statuses
  {
    ResponseValue(r.mode, Items(r.headers), r.contentType, Items(r.representations), r.negotiateAccept,
                  StatusesOf(r.statuses))
  }

  datatype TablesValue = TablesValue(methods: Names, requestHeaders: Names, parameters: Parameters,
                                     response: ResponseValue)

  function TablesOf(t: Tables): TablesValue
    reads t.methods.store, t.requestHeaders.store, t.parameters
    reads t.response.headers.store, t.response.representations.store, t.response.statuses
  {
    TablesValue(Items(t.methods), Items(t.requestHeaders), ParametersOf(t.parameters), ResponseOf(t.response))
  }

  function Assemble(s: Settings, t: TablesValue, c: Option<CoreSseValue>, x: Option<SecurityValue>): RouteValue {
    RouteValue(s.name, s.path, t.methods, s.subject, t.parameters, t.requestHeaders, s.timeout, s.maxRequestBodyBytes,
               s.maxReplyBytes, t.response, s.streamMode, c, x, s.profile, s.clear, s.extend)
  }

  function ValueOf(r: Route): RouteValue
    reads r.tables.methods.store, r.tables.requestHeaders.store, r.tables.parameters
    reads r.tables.response.headers.store, r.tables.response.representations.store, r.tables.response.statuses
    reads r.coreSse, r.security, if r.security == null then null else r.security.identity
  {
    Assemble(r.settings, TablesOf(r.tables), CoreSseOf(r.coreSse), SecurityOf(r.security))
  }

  // ----- what can be written through ----------------------------------------------------------

  function Ref(o: object?): set<object> {
    if o == null then {} else {o}
  }

  function Store(s: StringSlice): set<object> {
    Ref(s.store)
  }

  function SecurityFootprint(s: SecurityContext?): set<object>
    reads s
  {
    if s == null then {} else {s} + Ref(s.identity)
  }

  function ResponseFootprint(r: Response): set<object> {
    Store(r.headers) + Store(r.representations) + Ref(r.statuses)
  }

  function TablesFootprint(t: Tables): set<object> {
    Store(t.methods) + Store(t.requestHeaders) + Ref(t.parameters) + ResponseFootprint(t.response)
  }

  function Footprint(r: Route): set<object>
    reads r.security
  {
    TablesFootprint(r.tables) + Ref(r.coreSse) + SecurityFootprint(r.security)
  }

  /** Nothing that can be written through the tables is in `before`. */
  predicate TablesApartFrom(t: Tables, before: set<object?>) {
    && t.methods.store !in before && t.requestHeaders.store !in before && t.parameters !in before
    && t.response.headers.store !in before && t.response.representations.store !in before
       && t.response.statuses !in before
  }

  /** The slices share no backing array. */
  predicate Apart(t: Tables) {
    Store(t.requestHeaders) !! Store(t.response.headers) !! Store(t.response.representations) !! Store(t.methods)
  }

  // ----- cloning ------------------------------------------------------------------------------

  /** Spare room: any number of empty cells. */
  method Spare() returns (cells: seq<string>)
  {
    var n: nat :| n >= 0;
    cells := seq(n, _ => "");
  }

  /** `slices.Clone`: the copy may have spare room. */
  method CloneSlice(s: StringSlice) returns (c: StringSlice)
    ensures Items(c) == old(Items(s)) && fresh(Store(c))
  {
    if s.store == null { return Slice(null, 0); }
    var items := Front(s.store.cells, s.len);
    var spare := Spare();
    var store := new Backing(items + spare);
    c := Slice(store, |items|);
  }

  /** `append`: in place when the elements fit into the backing array, else into a new one. */
  method Append(s: StringSlice, more: Names) returns (r: StringSlice)
    modifies Store(s)
    ensures Items(r) == Appended(old(Items(s)), more)
    ensures Store(r) == Store(s) || fresh(Store(r))
  {
    var extra := GetOr(more, []);
    var items := GetOr(Items(s), []);
    if extra == [] {
      assert items + [] == items;
      return s;
    }
    var n := |items| + |extra|;
    if s.store != null && n <= |s.store.cells| {
      s.store.cells := items + extra + s.store.cells[n..];
      r := Slice(s.store, n);
    } else {
      var spare := Spare();
      var store := new Backing(items + extra + spare);
      r := Slice(store, n);
    }
  }

  method CloneParameters(m: ParameterMap?) returns (c: ParameterMap?)
    ensures ParametersOf(c) == old(ParametersOf(m)) && fresh(Ref(c))
  {
    if m == null { return null; }
    c := new ParameterMap(m.entries);
  }

  method CloneStatuses(m: StatusMap?) returns (c: StatusMap?)
    ensures StatusesOf(c) == old(StatusesOf(m)) && fresh(Ref(c))
  {
    if m == null { return null; }
    c := new StatusMap(m.entries);
  }

  method CloneResponse(r: Response) returns (c: Response)
    ensures ResponseOf(c) == old(ResponseOf(r)) && fresh(ResponseFootprint(c))
            && Store(c.headers) !! Store(c.representations)
  {
    var headers := CloneSlice(r.headers);
    var representations := CloneSlice(r.representations);
    var statuses := CloneStatuses(r.statuses);
    c := r.(headers := headers, representations := representations, statuses := statuses);
  }

  method CloneCoreSse(s: CoreSSE?) returns (c: CoreSSE?)
    ensures CoreSseOf(c) == old(CoreSseOf(s)) && fresh(Ref(c))
  {
    if s == null { return null; }
    c := new CoreSSE(s.Value());
  }

  method CloneSecurity(s: SecurityContext?) returns (c: SecurityContext?)
    ensures SecurityOf(c) == old(SecurityOf(s)) && fresh(SecurityFootprint(c))
  {
    if s == null { return null; }
    var identity: DownstreamIdentity? := null;
    if s.identity != null { identity := new DownstreamIdentity(s.identity.Value()); }
    c := new SecurityContext(s.Value(), identity);
  }

  method CloneLists(a: StringSlice, b: StringSlice) returns (c: StringSlice, d: StringSlice)
    ensures Items(c) == old(Items(a)) && Items(d) == old(Items(b)) && fresh(Store(c)) && fresh(Store(d))
            && Store(c) !! Store(d)
  {
    c := CloneSlice(a);
    d := CloneSlice(b);
  }

  method CloneTables(t: Tables) returns (c: Tables)
    ensures TablesOf(c) == old(TablesOf(t)) && fresh(TablesFootprint(c)) && Apart(c)
  {
    var methods, requestHeaders := CloneLists(t.methods, t.requestHeaders);
    var parameters := CloneParameters(t.parameters);
    var response := CloneResponse(t.response);
    c := Tables(methods, requestHeaders, parameters, response);
  }

  method ClonePointers(s: CoreSSE?, x: SecurityContext?, ghost t: Tables) returns (c: CoreSSE?, d: SecurityContext?)
    ensures CoreSseOf(c) == old(CoreSseOf(s)) && SecurityOf(d) == old(SecurityOf(x))
    ensures fresh(Ref(c)) && fresh(SecurityFootprint(d)) && TablesOf(t) == old(TablesOf(t))
  {
    c := CloneCoreSse(s);
    d := CloneSecurity(x);
  }

  /** `cloneRoute`: an equal route in storage of its own. */
  method CloneRoute(r: Route) returns (c: Route)
    ensures ValueOf(c) == old(ValueOf(r)) && fresh(Footprint(c)) && Apart(c.tables)
  {
    var tables := CloneTables(r.tables);
    var coreSse, security := ClonePointers(r.coreSse, r.security, tables);
    c := Route(r.settings, tables, coreSse, security);
  }
}
