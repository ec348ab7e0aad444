/** The values of `apps/api/src/realtime.ts`: sessions, hints, requests and the checks on them. */
module RealtimeTypes {
  import opened Common
  import opened Strings

  const PERMISSION: string := "realtime:subscribe"
  const MAX_SAFE_INTEGER := 9007199254740991

  predicate IsLower(c: char) { 'a' <= c <= 'z' }
  predicate IsUpper(c: char) { 'A' <= c <= 'Z' }
  predicate IsHexDigit(c: char) { IsDigit(c) || 'a' <= c <= 'f' || 'A' <= c <= 'F' }

  /** Whether position `i` of `s` may hold what it holds in UUID_V7. */
  predicate UuidCharAt(s: string, i: nat)
    requires i < |s|
  {
    if i == 8 || i == 13 || i == 18 || i == 23 then s[i] == '-'
    else if i == 14 then s[i] == '7'
    else if i == 19 then s[i] in "89abAB"
    else IsHexDigit(s[i])
  }

  /** UUID_V7, which ignores case. */
  predicate IsUuidV7(s: string) { |s| == 36 && forall i | 0 <= i < |s| :: UuidCharAt(s, i) }

  predicate IsKeyChar(c: char) { IsLower(c) || IsUpper(c) || IsDigit(c) || c in "._:-" }

  /** OPAQUE_KEY */
  predicate IsOpaqueKey(s: string) { 1 <= |s| <= 128 && forall c <- s :: IsKeyChar(c) }

  /** The states of an automaton that reads HINT_TYPE. */
  datatype HintTypeState = Start | First | Dot | Rest | Dead

  function HintTypeStep(q: HintTypeState, c: char): HintTypeState {
    match q
    case Start => if IsLower(c) then First else Dead
    case First => if IsLower(c) || IsDigit(c) then First else if c == '.' then Dot else Dead
    case Dot => if IsLower(c) then Rest else Dead
    case Rest => if IsLower(c) || IsDigit(c) || c == '-' then Rest else if c == '.' then Dot else Dead
    case Dead => Dead
  }

  function HintTypeRun(s: string): HintTypeState {
    if s == "" then Start else HintTypeStep(HintTypeRun(s[..|s| - 1]), s[|s| - 1])
  }

  /** HINT_TYPE: dotted lower-case words, at least two of them. */
  predicate IsHintType(s: string) { HintTypeRun(s) == Rest }

  /** RESOURCE_TYPE */
  predicate IsResourceType(s: string) {
    && 1 <= |s| <= 64
    && IsLower(s[0])
    && forall i | 0 <= i < |s| :: IsLower(s[i]) || IsUpper(s[i]) || IsDigit(s[i])
  }

  predicate IsPositiveInteger(n: int) { 0 < n <= MAX_SAFE_INTEGER }

  datatype SessionKind = Merchant | Guest

  datatype Session = Session(
    active: bool,
    brandId: string,
    kind: SessionKind,
    permissions: seq<string>,
    revision: string,
    sessionKey: string,
    storeId: Option<string>)

  predicate IsSafeSession(s: Session) {
    && s.active
    && IsOpaqueKey(s.sessionKey)
    && IsOpaqueKey(s.revision)
    && IsUuidV7(s.brandId)
    && (s.storeId.Some? ==> IsUuidV7(s.storeId.value))
    && |s.permissions| <= 32
    && forall p <- s.permissions :: IsOpaqueKey(p)
  }

  predicate SameAuthorization(left: Session, right: Session) {
    && IsSafeSession(right)
    && right.kind == left.kind
    && right.sessionKey == left.sessionKey
    && right.brandId == left.brandId
    && right.storeId == left.storeId
    && right.revision == left.revision
    && PERMISSION in right.permissions
  }

  /** What the authorizer's promise settles to. */
  datatype Answer = Threw | Unauthenticated | Forbidden | Authorized(session: Session)

  /**
   * A hint. `occurredAtIsCanonical` is the verdict of the date test on `occurredAt`;
   * `json` is the text that JSON.stringify makes of the whole object.
   */
  datatype Hint = Hint(
    messageId: string,
    hintType: string,
    version: int,
    occurredAtIsCanonical: bool,
    brandId: string,
    storeId: Option<string>,
    resourceType: string,
    resourceId: string,
    projectionVersion: int,
    json: string)

  predicate IsSafeHint(h: Hint) {
    && IsUuidV7(h.messageId)
    && IsHintType(h.hintType)
    && !("system." <= h.hintType)
    && IsPositiveInteger(h.version)
    && h.occurredAtIsCanonical
    && IsUuidV7(h.brandId)
    && (h.storeId.Some? ==> IsUuidV7(h.storeId.value))
    && IsResourceType(h.resourceType)
    && IsUuidV7(h.resourceId)
    && IsPositiveInteger(h.projectionVersion)
  }

  /** Text that JSON.stringify can produce: control characters inside strings are escaped. */
  predicate IsJsonText(s: string) { '\n' !in s && '\r' !in s }

  /** A hint belongs to a session: same brand, and a missing store matches only a missing store. */
  predicate InScope(session: Session, h: Hint) {
    session.brandId == h.brandId && session.storeId == h.storeId
  }

  /** A query parameter is a plain string, or what the query parser makes of repetition and nesting. */
  datatype QueryValue = Text(text: string) | Structured

  datatype Request = Request(
    origin: Option<string>,
    fetchSite: Option<string>,
    fetchMode: Option<string>,
    query: map<string, QueryValue>,
    lastEventId: Option<string>)

  predicate HasControlCharacter(s: string) {
    exists i | 0 <= i < |s| :: s[i] <= 31 as char || s[i] == 127 as char
  }

  datatype Denial = Denial(status: nat, code: string)

  const DRAINING := Denial(503, "realtime_draining")
  const ORIGIN_DENIED := Denial(403, "realtime_origin_denied")
  const QUERY_DENIED := Denial(400, "realtime_query_denied")
  const CURSOR_INVALID := Denial(400, "realtime_cursor_invalid")
  const AUTHORIZER_UNAVAILABLE := Denial(503, "realtime_authorizer_unavailable")
  const UNAUTHENTICATED := Denial(401, "realtime_unauthenticated")
  const FORBIDDEN := Denial(403, "realtime_forbidden")
  const SCOPE_DENIED := Denial(403, "realtime_scope_denied")
  const REGISTRY_UNAVAILABLE := Denial(503, "realtime_registry_unavailable")
  const CONNECTION_LIMIT := Denial(429, "realtime_connection_limit")

  /** The checks made before the authorizer is asked; `None` lets the request pass. */
  function Gate(request: Request, expectedOrigin: string): Option<Denial> {
    if request.origin != Some(expectedOrigin) || request.fetchSite != Some("same-origin")
       || request.fetchMode != Some("cors") then
      Some(ORIGIN_DENIED)
    else if request.query.Keys - {"storeId"} != {} then
      Some(QUERY_DENIED)
    else if request.lastEventId.Some? &&
            (|request.lastEventId.value| > 128 || HasControlCharacter(request.lastEventId.value)) then
      Some(CURSOR_INVALID)
    else
      None
  }

  /** The checks made on the authorizer's answer, ending with the session the stream will keep. */
  function Admitted(request: Request, answer: Answer): Result<Session, Denial> {
    match answer
    case Threw => Err(AUTHORIZER_UNAVAILABLE)
    case Unauthenticated => Err(UNAUTHENTICATED)
    case Forbidden => Err(FORBIDDEN)
    case Authorized(session) =>
      if !IsSafeSession(session) || session.kind != Merchant || PERMISSION !in session.permissions then
        Err(FORBIDDEN)
      else if "storeId" in request.query &&
              var wanted := request.query["storeId"];
              (!wanted.Text? || !IsUuidV7(wanted.text) || session.storeId != Some(wanted.text)) then
        Err(SCOPE_DENIED)
      else
        Ok(session)
  }
}
