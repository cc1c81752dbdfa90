/**
 * The worker's `incomingEvent` job: it decides whether an event opens a new session or joins the open one,
 * keeps the delayed `createSessionEnd` job in step, and builds the event rows to create. Job lookups, the
 * event buffer, stored events, the clock, `uuid` and the parsers are inputs; the side effects are returned
 * in the order the job performs them.
 */
module IncomingEvent {
  import opened Wrappers
  import opened JsonValues
  import opened JsStrings
  import opened ListStore
  import opened Events

  const GLOBAL_PROPERTIES: seq<string> := ["__path", "__referrer"]
  const SESSION_TIMEOUT: int := 1000 * 60 * 30
  const SESSION_END_TIMEOUT: int := SESSION_TIMEOUT + 1000
  /** How far before the event its generated `session_start` is dated, in milliseconds. */
  const SESSION_START_OFFSET: int := 100

  // ---------------------------------------------------------------------------------------------
  // Inputs

  datatype Geo = Geo(country: Option<string>, city: Option<string>, region: Option<string>, longitude: Json, latitude: Json)

  /** The tracked event as posted: `timestamp` already as milliseconds since the epoch. */
  datatype Body = Body(name: string, profileId: Json, timestamp: int, properties: Option<seq<Field>>)

  /** The job payload. `ua` is the `ua` header, `None` when absent. */
  datatype Payload = Payload(
    geo: Geo,
    body: Body,
    ua: Option<string>,
    projectId: string,
    currentDeviceId: string,
    previousDeviceId: string,
    currentDeviceIdDeprecated: string,
    previousDeviceIdDeprecated: string)

  /** A delayed `createSessionEnd` job: `timestamp` is when it was added. */
  datatype Job = Job(id: string, timestamp: int)

  datatype SessionEnd = SessionEnd(deviceId: string, job: Job)

  /** The device and client columns of an event. */
  datatype Client = Client(os: string, osVersion: string, browser: string, browserVersion: string,
                           device: string, brand: string, model: string)

  /** What `parseUserAgent` returns; any field may be missing. */
  datatype UaInfo = UaInfo(os: Option<string>, osVersion: Option<string>, browser: Option<string>,
                           browserVersion: Option<string>, device: Option<string>, brand: Option<string>,
                           model: Option<string>)

  /** An event read back from the buffer or the store, as far as this job uses it. */
  datatype Stored = Stored(deviceId: string, sessionId: string, country: string, city: string, region: string,
                           client: Client, path: string, origin: string, referrer: string,
                           referrerName: string, referrerType: string)

  datatype Referrer = Referrer(url: string, name: string, kind: string)

  datatype PathParts = PathParts(path: string, hash: Json, query: Json, origin: string)

  /** The foreign parsers the job calls. */
  datatype Parsers = Parsers(
    parsePath: Option<Json> -> PathParts,
    isSameDomain: (Option<Json>, Option<Json>) -> bool,
    parseReferrer: Option<Json> -> Referrer,
    referrerWithQuery: Json -> Option<Referrer>,
    parseUserAgent: string -> UaInfo,
    isUserAgentSet: string -> bool)

  /**
   * The world the job reads: the event buffer's list and its decoder (`bufferReadOk` false when the read
   * fails), the store's newest matching events, the session-end jobs found by key prefix, the clock and the
   * id `uuid()` would return.
   */
  datatype World = World(
    bufferReadOk: bool,
    buffer: seq<string>,
    decode: string -> Option<Event>,
    transformEvent: Event -> Stored,
    lastScreenView: (string, string) -> Option<Stored>,
    lastSessionStart: (string, string) -> Option<Stored>,
    findJob: string -> Option<Job>,
    now: nat,
    uuid: string)

  // ---------------------------------------------------------------------------------------------
  // Outputs

  /** An event to create. `referrer` is `None` where the source leaves it undefined. */
  datatype NewEvent = NewEvent(
    name: string,
    deviceId: string,
    sessionId: string,
    profileId: string,
    projectId: string,
    properties: seq<Field>,
    createdAt: int,
    country: Option<string>,
    city: Option<string>,
    region: Option<string>,
    longitude: Json,
    latitude: Json,
    client: Client,
    duration: int,
    path: string,
    origin: string,
    referrer: Option<string>,
    referrerName: string,
    referrerType: string)

  /** The side effects, in the order the job performs them. */
  datatype Effect =
    | EnqueueSessionEnd(deviceId: string, delay: int, jobId: string)
    | ChangeDelay(job: Job, delay: int)
    | CreateEvent(event: NewEvent)

  // ---------------------------------------------------------------------------------------------
  // Small JavaScript operators

  /** `a || b` on an optional string: an absent or empty `a` falls through. */
  function OrElse(a: Option<string>, b: string): (r: string)
    ensures r == b || (a.Some? && r == a.value && r != "")
    ensures a.Some? && a.value != "" ==> r == a.value
  {
    if a.Some? && a.value != "" then a.value else b
  }

  /** `String(v)`. */
  function JsString(v: Json): string
    decreases v
  {
    match v
    case JStr(s) => s
    case JNull => "null"
    case JUndefined => "undefined"
    case JBool(b) => if b then "true" else "false"
    case JNum(n) => IntToString(n)
    case JArr(es) => JoinElems(es)
    case JObj(_) => "[object Object]"
  }

  /** `es.join(',')`, where `null` and `undefined` elements print as nothing. */
  function JoinElems(es: seq<Json>): string
    decreases es
  {
    if es == [] then ""
    else
      var head := if IsNil(es[0]) then "" else JsString(es[0]);
      if |es| == 1 then head else head + "," + JoinElems(es[1..])
  }

  /** `body.profileId ? String(body.profileId) : ''`. */
  function ProfileIdOf(body: Body): string {
    if Truthy(body.profileId) then JsString(body.profileId) else ""
  }

  // ---------------------------------------------------------------------------------------------
  // Properties

  /** `getProperty(name)`: the property if truthy, else the older name without its first `__`; null reads as absent. */
  function GetProperty(props: seq<Field>, name: string): (r: Option<Json>)
    ensures r.Some? ==> r.value != JNull && r.value != JUndefined
    ensures var a := Get(props, name); a.Some? && Truthy(a.value) ==> r == a
  {
    var a := Get(props, name);
    if a.Some? && Truthy(a.value) then a
    else
      var b := Get(props, ReplaceFirst(name, "__", ""));
      if b.None? || IsNil(b.value) then None else b
  }

  /** A prefixed property name falls back to the bare name older SDKs sent. */
  lemma GetPropertyFallback(props: seq<Field>, bare: string)
    requires var a := Get(props, "__" + bare); a.None? || !Truthy(a.value)
    ensures var b := Get(props, bare);
      GetProperty(props, "__" + bare) == if b.Some? && !IsNil(b.value) then b else None
  {
    DropLeadingMarker(bare);
  }

  lemma DropLeadingMarker(bare: string)
    ensures ReplaceFirst("__" + bare, "__", "") == bare
  {
    var s := "__" + bare;
    assert OccursAt(s, "__", 0);
    assert IndexOf(s, "__", 0) == 0;
    assert s[..0] + "" + s[2..] == bare;
  }

  /** `omit(names, props)`: every field whose key is not listed, in order. */
  function Omit(props: seq<Field>, names: seq<string>): (r: seq<Field>)
    ensures forall k :: 0 <= k < |r| ==> r[k].key !in names
    decreases |props|
  {
    if props == [] then []
    else (if props[0].key in names then [] else [props[0]]) + Omit(props[1..], names)
  }

  /** Omitting keys leaves every other key's value as it was. */
  lemma {:induction false} OmitGet(props: seq<Field>, names: seq<string>, key: string)
    requires key !in names
    ensures Get(Omit(props, names), key) == Get(props, key)
    decreases |props|
  {
    if props != [] {
      var rest := Omit(props[1..], names);
      OmitGet(props[1..], names, key);
      if props[0].key in names {
        assert Omit(props, names) == rest;
      } else {
        var r := [props[0]] + rest;
        assert Omit(props, names) == r;
        assert r[0] == props[0] && r[1..] == rest;
      }
    }
  }

  /** The properties a server event is stored with: `body.properties` without the page properties. */
  function ServerProperties(body: Body): seq<Field> {
    Omit(body.properties.GetOr([]), GLOBAL_PROPERTIES)
  }

  /** The properties a browser event is stored with: the page properties replaced by `__hash` and `__query`. */
  function BrowserProperties(body: Body, parts: PathParts): seq<Field> {
    Put(Put(ServerProperties(body), "__hash", parts.hash), "__query", parts.query)
  }

  /** A server event's stored properties are the posted ones without `__path` and `__referrer`. */
  lemma ServerPropertiesFacts(body: Body, key: string)
    ensures Get(ServerProperties(body), "__path").None? && Get(ServerProperties(body), "__referrer").None?
    ensures key !in GLOBAL_PROPERTIES ==> Get(ServerProperties(body), key) == Get(body.properties.GetOr([]), key)
  {
    var s := ServerProperties(body);
    assert "__path" !in Keys(s) && "__referrer" !in Keys(s) by {
      forall k | 0 <= k < |s| ensures Keys(s)[k] !in GLOBAL_PROPERTIES {
        assert s[k].key !in GLOBAL_PROPERTIES;
      }
    }
    if key !in GLOBAL_PROPERTIES {
      OmitGet(body.properties.GetOr([]), GLOBAL_PROPERTIES, key);
    }
  }

  /**
   * A browser event's stored properties are the posted ones with `__path` and `__referrer` dropped and
   * `__hash` and `__query` set to the parsed page's.
   */
  lemma BrowserPropertiesFacts(body: Body, parts: PathParts, key: string)
    ensures var r := BrowserProperties(body, parts);
      Get(r, "__path").None? && Get(r, "__referrer").None? &&
      Get(r, "__hash") == Some(parts.hash) && Get(r, "__query") == Some(parts.query)
    ensures key !in GLOBAL_PROPERTIES + ["__hash", "__query"] ==>
      Get(BrowserProperties(body, parts), key) == Get(body.properties.GetOr([]), key)
  {
    var s := ServerProperties(body);
    var h := Put(s, "__hash", parts.hash);
    ServerPropertiesFacts(body, key);
    PutOther(s, "__hash", parts.hash, "__path");
    PutOther(s, "__hash", parts.hash, "__referrer");
    PutOther(h, "__query", parts.query, "__path");
    PutOther(h, "__query", parts.query, "__referrer");
    PutOther(h, "__query", parts.query, "__hash");
    if key !in GLOBAL_PROPERTIES + ["__hash", "__query"] {
      PutOther(s, "__hash", parts.hash, key);
      PutOther(h, "__query", parts.query, key);
    }
  }

  // ---------------------------------------------------------------------------------------------
  // getSessionEnd

  /** The jobId prefix `sessionEnd:<projectId>:<deviceId>:`. */
  function SessionEndPrefix(projectId: string, deviceId: string): string {
    "sessionEnd:" + projectId + ":" + deviceId + ":"
  }

  /** The device ids in the order they are tried. */
  function DeviceIds(p: Payload): (ids: seq<string>)
    ensures |ids| == 4
  {
    [p.currentDeviceId, p.previousDeviceId, p.currentDeviceIdDeprecated, p.previousDeviceIdDeprecated]
  }

  /**
   * `getSessionEnd`: the open session-end job of the first device id, in the order current, previous,
   * current deprecated, previous deprecated, that has one; `None` when none has.
   */
  function GetSessionEnd(p: Payload, findJob: string -> Option<Job>): (r: Option<SessionEnd>)
    ensures r.Some? ==> r.value.deviceId in DeviceIds(p)
  {
    var current := findJob(SessionEndPrefix(p.projectId, p.currentDeviceId));
    if current.Some? then Some(SessionEnd(p.currentDeviceId, current.value))
    else
      var previous := findJob(SessionEndPrefix(p.projectId, p.previousDeviceId));
      if previous.Some? then Some(SessionEnd(p.previousDeviceId, previous.value))
      else
        var currentDeprecated := findJob(SessionEndPrefix(p.projectId, p.currentDeviceIdDeprecated));
        if currentDeprecated.Some? then Some(SessionEnd(p.currentDeviceIdDeprecated, currentDeprecated.value))
        else
          var previousDeprecated := findJob(SessionEndPrefix(p.projectId, p.previousDeviceIdDeprecated));
          if previousDeprecated.Some? then Some(SessionEnd(p.previousDeviceIdDeprecated, previousDeprecated.value))
          else None
  }

  /** The job of device id `k` in lookup order, if it has one. */
  function JobOf(p: Payload, findJob: string -> Option<Job>, k: nat): Option<Job>
    requires k < 4
  {
    findJob(SessionEndPrefix(p.projectId, DeviceIds(p)[k]))
  }

  /** `getSessionEnd` returns the job of the first device id that has one, and `None` exactly when none has. */
  lemma GetSessionEndPrecedence(p: Payload, findJob: string -> Option<Job>)
    ensures GetSessionEnd(p, findJob).None? <==> forall k :: 0 <= k < 4 ==> JobOf(p, findJob, k).None?
    ensures var r := GetSessionEnd(p, findJob);
      r.Some? ==> exists k: nat :: (k < 4 && JobOf(p, findJob, k).Some? &&
                                    r.value == SessionEnd(DeviceIds(p)[k], JobOf(p, findJob, k).value) &&
                                    (forall j :: 0 <= j < k ==> JobOf(p, findJob, j).None?))
  {
    var r := GetSessionEnd(p, findJob);
    var ids := DeviceIds(p);
    if JobOf(p, findJob, 0).Some? {
      assert r.value == SessionEnd(ids[0], JobOf(p, findJob, 0).value);
    } else if JobOf(p, findJob, 1).Some? {
      assert r.value == SessionEnd(ids[1], JobOf(p, findJob, 1).value);
    } else if JobOf(p, findJob, 2).Some? {
      assert r.value == SessionEnd(ids[2], JobOf(p, findJob, 2).value);
    } else if JobOf(p, findJob, 3).Some? {
      assert r.value == SessionEnd(ids[3], JobOf(p, findJob, 3).value);
    } else {
      forall k | 0 <= k < 4 ensures JobOf(p, findJob, k).None? {
        assert k == 0 || k == 1 || k == 2 || k == 3;
      }
    }
  }

  /** The jobId of a new session's `createSessionEnd` job. */
  function SessionEndJobId(projectId: string, deviceId: string, now: nat): string {
    SessionEndPrefix(projectId, deviceId) + NatToString(now)
  }

  /** The job a new session enqueues carries the prefix the next `getSessionEnd` for that device looks for. */
  lemma JobIdHasPrefix(projectId: string, deviceId: string, now: nat)
    ensures var prefix := SessionEndPrefix(projectId, deviceId);
      |prefix| < |SessionEndJobId(projectId, deviceId, now)| &&
      SessionEndJobId(projectId, deviceId, now)[..|prefix|] == prefix
  {
  }

  /**
   * The delay an open session-end job is moved to: the job's age plus the session-end timeout. Counted from
   * the job's creation, that delay would end `SESSION_END_TIMEOUT` after now.
   */
  function ExtendedDelay(job: Job, now: int): (delay: int)
    ensures job.timestamp + delay == now + SESSION_END_TIMEOUT
  {
    (now - job.timestamp) + SESSION_END_TIMEOUT
  }

  /** When a delayed job fires after `changeDelay(delay)` is called at `callTime`: the delay counts from the call. */
  function FireTime(callTime: int, delay: int): int {
    callTime + delay
  }

  /**
   * A continued session's job, moved at `now`, fires `SESSION_END_TIMEOUT` after now plus the job's age, so
   * later the older the session's job is.
   */
  lemma ExtendedFireTime(job: Job, now: int)
    ensures FireTime(now, ExtendedDelay(job, now)) == now + SESSION_END_TIMEOUT + (now - job.timestamp)
    ensures job.timestamp < now ==> FireTime(now, ExtendedDelay(job, now)) > now + SESSION_END_TIMEOUT
  {
  }

  // ---------------------------------------------------------------------------------------------
  // The events the job creates

  /** `isServerEvent`: no `ua` header, or one that is not a browser's. */
  predicate IsServerEvent(p: Payload, parsers: Parsers) {
    p.ua.None? || p.ua.value == "" || !parsers.isUserAgentSet(p.ua.value)
  }

  function ClientOf(s: Option<Stored>): Client {
    if s.Some? then s.value.client else Client("", "", "", "", "", "", "")
  }

  function StoredField(s: Option<Stored>, f: Stored -> string): Option<string> {
    if s.Some? then Some(f(s.value)) else None
  }

  /** The server event's row: session and device copied from the profile's last `screen_view`, if any. */
  function ServerEvent(p: Payload, last: Option<Stored>): (e: NewEvent)
    ensures e.deviceId == (if last.Some? then last.value.deviceId else "")
    ensures e.sessionId == (if last.Some? then last.value.sessionId else "")
    ensures e.duration == 0 && e.createdAt == p.body.timestamp && e.projectId == p.projectId
  {
    NewEvent(
      p.body.name,
      OrElse(StoredField(last, (s: Stored) => s.deviceId), ""),
      OrElse(StoredField(last, (s: Stored) => s.sessionId), ""),
      ProfileIdOf(p.body),
      p.projectId,
      ServerProperties(p.body),
      p.body.timestamp,
      Some(OrElse(StoredField(last, (s: Stored) => s.country), OrElse(p.geo.country, ""))),
      Some(OrElse(StoredField(last, (s: Stored) => s.city), OrElse(p.geo.city, ""))),
      Some(OrElse(StoredField(last, (s: Stored) => s.region), OrElse(p.geo.region, ""))),
      p.geo.longitude,
      p.geo.latitude,
      ClientOf(last),
      0,
      StoredField(last, (s: Stored) => s.path).GetOr(""),
      StoredField(last, (s: Stored) => s.origin).GetOr(""),
      Some(StoredField(last, (s: Stored) => s.referrer).GetOr("")),
      StoredField(last, (s: Stored) => s.referrerName).GetOr(""),
      StoredField(last, (s: Stored) => s.referrerType).GetOr(""))
  }

  /** A server event's location: the last view's if non-empty, else the geo lookup's if non-empty, else `''`. */
  lemma ServerGeoFallback(p: Payload, last: Option<Stored>)
    ensures var e := ServerEvent(p, last);
      e.country.Some? && e.city.Some? && e.region.Some? &&
      (last.Some? && last.value.country != "" ==> e.country.value == last.value.country) &&
      ((last.None? || last.value.country == "") && p.geo.country.Some? ==> e.country.value == p.geo.country.value) &&
      ((last.None? || last.value.country == "") && (p.geo.country.None? || p.geo.country.value == "") ==> e.country.value == "") &&
      (last.Some? && last.value.city != "" ==> e.city.value == last.value.city) &&
      ((last.None? || last.value.city == "") && p.geo.city.Some? ==> e.city.value == p.geo.city.value) &&
      ((last.None? || last.value.city == "") && (p.geo.city.None? || p.geo.city.value == "") ==> e.city.value == "") &&
      (last.Some? && last.value.region != "" ==> e.region.value == last.value.region) &&
      ((last.None? || last.value.region == "") && p.geo.region.Some? ==> e.region.value == p.geo.region.value) &&
      ((last.None? || last.value.region == "") && (p.geo.region.None? || p.geo.region.value == "") ==> e.region.value == "")
  {
  }

  function ClientFrom(ua: UaInfo): Client {
    Client(ua.os.GetOr(""), ua.osVersion.GetOr(""), ua.browser.GetOr(""), ua.browserVersion.GetOr(""),
           ua.device.GetOr(""), ua.brand.GetOr(""), ua.model.GetOr(""))
  }

  /** What a browser event's row takes from its own page: the parsed path, the referrer and the client. */
  datatype Page = Page(properties: seq<Field>, path: string, origin: string, referrer: Option<string>,
                       referrerName: string, referrerType: string, client: Client)

  /**
   * The page columns of a browser event with user agent `ua`: the referrer is dropped when it is on the
   * page's own domain, and its name and type fall back to the ones the page's query names.
   */
  function PageOf(p: Payload, parsers: Parsers, ua: string): Page {
    var props := p.body.properties.GetOr([]);
    var url := GetProperty(props, "__path");
    var parts := parsers.parsePath(url);
    var referrer: Option<Referrer> :=
      if parsers.isSameDomain(GetProperty(props, "__referrer"), url) then None
      else Some(parsers.parseReferrer(GetProperty(props, "__referrer")));
    var utm := parsers.referrerWithQuery(parts.query);
    Page(
      BrowserProperties(p.body, parts),
      parts.path,
      parts.origin,
      if referrer.Some? then Some(referrer.value.url) else None,
      OrElse(if referrer.Some? then Some(referrer.value.name) else None,
             OrElse(if utm.Some? then Some(utm.value.name) else None, "")),
      OrElse(if referrer.Some? then Some(referrer.value.kind) else None,
             OrElse(if utm.Some? then Some(utm.value.kind) else None, "")),
      ClientFrom(parsers.parseUserAgent(ua)))
  }

  /**
   * The browser event's row for device `deviceId` in session `sessionId`; `start` is the session's
   * `session_start` as found, whose origin stands in when the page has none.
   */
  function BrowserEvent(p: Payload, page: Page, deviceId: string, sessionId: string, start: Option<Stored>): (e: NewEvent)
    ensures e.deviceId == deviceId && e.sessionId == sessionId && e.duration == 0
    ensures e.createdAt == p.body.timestamp && e.projectId == p.projectId && e.profileId == ProfileIdOf(p.body)
  {
    NewEvent(
      p.body.name,
      deviceId,
      sessionId,
      ProfileIdOf(p.body),
      p.projectId,
      page.properties,
      p.body.timestamp,
      p.geo.country,
      p.geo.city,
      p.geo.region,
      p.geo.longitude,
      p.geo.latitude,
      page.client,
      0,
      page.path,
      OrElse(Some(page.origin), OrElse(StoredField(start, (s: Stored) => s.origin), "")),
      page.referrer,
      page.referrerName,
      page.referrerType)
  }

  /** The `session_start` created for a new session: the main row renamed and dated 100 ms earlier. */
  function SessionStart(main: NewEvent): (e: NewEvent)
    ensures main.createdAt - e.createdAt == SESSION_START_OFFSET && e.name == SESSION_START
    ensures e.(name := main.name, createdAt := main.createdAt) == main
  {
    main.(name := SESSION_START, createdAt := main.createdAt - SESSION_START_OFFSET)
  }

  /** The buffer's `find` for the device's `session_start` in this project. */
  function IsSessionStartOf(deviceId: string, projectId: string): QueueItem<Event> -> bool {
    (item: QueueItem<Event>) => item.event.name == SESSION_START && item.event.deviceId == deviceId
      && item.event.projectId == projectId
  }

  /** The session's `session_start`: from the buffer first, else the newest one stored. */
  function FindSessionStart(w: World, deviceId: string, projectId: string): (r: Option<Stored>)
    ensures var b := Find(w.bufferReadOk, w.buffer, w.decode, IsSessionStartOf(deviceId, projectId), w.transformEvent);
      b.Some? ==> r == b
    ensures var b := Find(w.bufferReadOk, w.buffer, w.decode, IsSessionStartOf(deviceId, projectId), w.transformEvent);
      b.None? ==> r == w.lastSessionStart(deviceId, projectId)
    ensures r.None? ==> Find(w.bufferReadOk, w.buffer, w.decode, IsSessionStartOf(deviceId, projectId), w.transformEvent).None?
  {
    var buffered := Find(w.bufferReadOk, w.buffer, w.decode, IsSessionStartOf(deviceId, projectId), w.transformEvent);
    if buffered.Some? then buffered else w.lastSessionStart(deviceId, projectId)
  }

  /** `sessionStartEvent?.sessionId ?? ''`. */
  function ContinuedSessionId(start: Option<Stored>): string {
    if start.Some? then start.value.sessionId else ""
  }

  // ---------------------------------------------------------------------------------------------
  // incomingEvent

  /**
   * `incomingEvent(job)`. A server event creates one row joined to the profile's last view and touches no
   * session job. Otherwise, with no open session-end job a new session starts on the current device: a
   * session-end job is enqueued and a `session_start` is created before the row, which carries the fresh
   * session id; with an open job its delay is extended and the row joins the session of the job's device.
   */
  method IncomingEventJob(p: Payload, parsers: Parsers, w: World) returns (effects: seq<Effect>)
    ensures IsServerEvent(p, parsers) ==>
      |effects| == 1 && effects[0] == CreateEvent(ServerEvent(p, w.lastScreenView(ProfileIdOf(p.body), p.projectId)))
    ensures !IsServerEvent(p, parsers) && GetSessionEnd(p, w.findJob).None? ==>
      var main := BrowserEvent(p, PageOf(p, parsers, p.ua.value), p.currentDeviceId, w.uuid,
                               FindSessionStart(w, p.currentDeviceId, p.projectId));
      |effects| == 3 && effects[0] == EnqueueSessionEnd(p.currentDeviceId, SESSION_END_TIMEOUT, SessionEndJobId(p.projectId, p.currentDeviceId, w.now)) &&
                  effects[1] == CreateEvent(SessionStart(main)) &&
                  effects[2] == CreateEvent(main)
    ensures !IsServerEvent(p, parsers) && GetSessionEnd(p, w.findJob).Some? ==>
      var se := GetSessionEnd(p, w.findJob).value;
      var start := FindSessionStart(w, se.deviceId, p.projectId);
      |effects| == 2 && effects[0] == ChangeDelay(se.job, ExtendedDelay(se.job, w.now)) &&
                  effects[1] == CreateEvent(BrowserEvent(p, PageOf(p, parsers, p.ua.value), se.deviceId, ContinuedSessionId(start), start))
  {
    if IsServerEvent(p, parsers) {
      var event := w.lastScreenView(ProfileIdOf(p.body), p.projectId);
      effects := [CreateEvent(ServerEvent(p, event))];
      return;
    }
    var ua := p.ua.value;
    var sessionEnd := GetSessionEnd(p, w.findJob);
    var createSessionStart := sessionEnd.None?;
    var deviceId: string;
    var jobEffect: Effect;
    if createSessionStart {
      deviceId := p.currentDeviceId;
      jobEffect := EnqueueSessionEnd(deviceId, SESSION_END_TIMEOUT, SessionEndJobId(p.projectId, deviceId, w.now));
    } else {
      deviceId := sessionEnd.value.deviceId;
      var diff := w.now - sessionEnd.value.job.timestamp;
      jobEffect := ChangeDelay(sessionEnd.value.job, diff + SESSION_END_TIMEOUT);
    }
    effects := CreateRows(p, PageOf(p, parsers, ua), w, deviceId, createSessionStart, jobEffect);
  }

  /** The rest of `incomingEvent` once the device is chosen: the `session_start` lookup and the rows created. */
  method CreateRows(p: Payload, page: Page, w: World, deviceId: string, createSessionStart: bool,
                    jobEffect: Effect)
    returns (effects: seq<Effect>)
    ensures createSessionStart ==>
      var main := BrowserEvent(p, page, deviceId, w.uuid, FindSessionStart(w, deviceId, p.projectId));
      |effects| == 3 && effects[0] == jobEffect && effects[1] == CreateEvent(SessionStart(main)) && effects[2] == CreateEvent(main)
    ensures !createSessionStart ==>
      var start := FindSessionStart(w, deviceId, p.projectId);
      |effects| == 2 && effects[0] == jobEffect && effects[1] == CreateEvent(BrowserEvent(p, page, deviceId, ContinuedSessionId(start), start))
  {
    var sessionStartEvent := Find(w.bufferReadOk, w.buffer, w.decode, IsSessionStartOf(deviceId, p.projectId), w.transformEvent);
    if sessionStartEvent.None? {
      sessionStartEvent := w.lastSessionStart(deviceId, p.projectId);
    }
    var sessionId := if createSessionStart then w.uuid else ContinuedSessionId(sessionStartEvent);
    var payload := BrowserEvent(p, page, deviceId, sessionId, sessionStartEvent);
    if createSessionStart {
      effects := [jobEffect, CreateEvent(SessionStart(payload)), CreateEvent(payload)];
    } else {
      effects := [jobEffect, CreateEvent(payload)];
    }
  }
}
