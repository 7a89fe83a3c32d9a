/**
 * `NotificationListCursorCodec`: a page position is handed to the client as a signed token and read back. The
 * JSON parser, the HMAC and the text forms of timestamps and ids are parameters of the codec.
 */
module NotificationCursor {
  import opened Dicts
  import opened Base64Url
  import opened NotificationClaims

  /** Microseconds of the years 1 to 9999, which is what a `datetime` can be. */
  type Instant = t: int | 0 <= t < 315_537_897_600_000_000

  /** The 128 bits of a UUID. */
  type EventId = n: int | 0 <= n < 0x1_0000_0000_0000_0000_0000_0000_0000_0000

  /** `NotificationPosition` */
  datatype Position = Position(count: int, occurredAt: Instant, eventId: EventId)

  /** `loads` answers None for anything that is not an object with exactly the six keys and their types. */
  datatype Codec = Codec(
    mac: string -> seq<Byte>, loads: seq<Byte> -> Option<Claims>,
    stamp: Instant -> string, instant: string -> Option<Instant>,
    idText: EventId -> string, idValue: string -> Option<EventId>)

  /**
   * Reading back what was printed gives the same value; a signature has the 32 bytes of SHA-256, a timestamp the 32
   * characters of ISO 8601 with microseconds and offset, an id the 36 of a UUID.
   */
  ghost predicate Sane(c: Codec) {
    && (forall m: string :: |c.mac(m)| == 32)
    && (forall v :: c.loads(Json(v)) == Some(v))
    && (forall t: Instant :: |c.stamp(t)| == 32 && c.instant(c.stamp(t)) == Some(t))
    && (forall n: EventId :: |c.idText(n)| == 36 && c.idValue(c.idText(n)) == Some(n))
  }

  const MAX_TOKEN := 4096

  predicate ValidPosition(p: Position) {
    0 < p.count <= MAX_COUNT && p.eventId != 0
  }

  function Payload(c: Codec, scope: Scope, limit: int, p: Position): string {
    Encode(Json(Claims(1, scope, limit, p.count, c.stamp(p.occurredAt), c.idText(p.eventId))))
  }

  function Issue(c: Codec, scope: Scope, limit: int, p: Position): string {
    var payload := Payload(c, scope, limit, p);
    payload + "." + Encode(c.mac(payload))
  }

  function Find(text: string, ch: char): nat
    ensures Find(text, ch) <= |text|
  {
    if text == "" || text[0] == ch then 0 else 1 + Find(text[1..], ch)
  }

  /** `payload, signature = token.split(".")` succeeds when there is exactly one dot. */
  function Split(token: string): Option<(string, string)> {
    var i := Find(token, '.');
    if i == |token| || '.' in token[i + 1..] then None else Some((token[..i], token[i + 1..]))
  }

  /** The checks on the claims, in the order of the program. */
  function Check(c: Codec, raw: seq<Byte>, scope: Scope, limit: int): Option<Position> {
    match c.loads(raw)
    case None => None
    case Some(v) =>
      if Json(v) != raw || v.version != 1 then None
      else if v.scope != scope || v.limit != limit then None
      else if !(0 < v.count <= MAX_COUNT) then None
      else
        match (c.instant(v.at), c.idValue(v.id))
        case (Some(at), Some(id)) =>
          if c.stamp(at) == v.at && c.idText(id) == v.id && id != 0 then Some(Position(v.count, at, id)) else None
        case _ => None
  }

  function Parse(c: Codec, token: string, scope: Scope, limit: int): Option<Position> {
    if !(0 < |token| <= MAX_TOKEN) then None else
      match Split(token)
      case None => None
      case Some((payload, signature)) =>
        if Decode(signature) != Some(c.mac(payload)) then None else
          match Decode(payload)
          case None => None
          case Some(raw) => Check(c, raw, scope, limit)
  }

  lemma {:induction false} FindFirst(text: string, ch: char)
    ensures forall i :: 0 <= i < Find(text, ch) ==> text[i] != ch
    ensures Find(text, ch) < |text| ==> text[Find(text, ch)] == ch
  {
    if text != "" && text[0] != ch {
      FindFirst(text[1..], ch);
      assert forall i :: 0 < i < Find(text, ch) ==> text[i] == text[1..][i - 1];
    }
  }

  lemma SplitJoins(a: string, b: string)
    requires '.' !in a && '.' !in b
    ensures Split(a + "." + b) == Some((a, b))
  {
    var token := a + "." + b;
    FindFirst(token, '.');
    assert token[|a|] == '.';
    assert forall i :: 0 <= i < |a| ==> token[i] == a[i] && a[i] in a;
    assert token[..|a|] == a && token[|a| + 1..] == b;
  }

  lemma SplitInverse(token: string)
    requires Split(token).Some?
    ensures token == Split(token).value.0 + "." + Split(token).value.1
  {
    FindFirst(token, '.');
  }

  lemma NoDot(b: seq<Byte>)
    requires b != []
    ensures '.' !in Encode(b)
  {
    RoundTrip(b);
  }

  lemma IssuedSplits(c: Codec, scope: Scope, limit: int, p: Position)
    requires Sane(c)
    ensures var payload := Payload(c, scope, limit, p);
      Split(Issue(c, scope, limit, p)) == Some((payload, Encode(c.mac(payload))))
  {
    var payload := Payload(c, scope, limit, p);
    var claims := Claims(1, scope, limit, p.count, c.stamp(p.occurredAt), c.idText(p.eventId));
    NoDot(Json(claims));
    NoDot(c.mac(payload));
    SplitJoins(payload, Encode(c.mac(payload)));
  }

  /** No token of the service is too long to be read back: the columns of its scope see to that. */
  lemma TokenSize(c: Codec, scope: Scope, limit: int, p: Position)
    requires Sane(c) && ValidScope(scope) && 1 <= limit <= 100 && ValidPosition(p)
    ensures |Issue(c, scope, limit, p)| < MAX_TOKEN
  {
    var claims := Claims(1, scope, limit, p.count, c.stamp(p.occurredAt), c.idText(p.eventId));
    JsonSize(claims);
    EncodedSize(Json(claims));
    EncodedSize(c.mac(Payload(c, scope, limit, p)));
  }

  /** Reading an issued token back under the same scope and limit. */
  lemma IssuedIsParsed(c: Codec, scope: Scope, limit: int, p: Position)
    requires Sane(c) && ValidScope(scope) && 1 <= limit <= 100 && ValidPosition(p)
    ensures Parse(c, Issue(c, scope, limit, p), scope, limit) == Some(p)
  {
    var claims := Claims(1, scope, limit, p.count, c.stamp(p.occurredAt), c.idText(p.eventId));
    var payload := Payload(c, scope, limit, p);
    TokenSize(c, scope, limit, p);
    IssuedSplits(c, scope, limit, p);
    RoundTrip(Json(claims));
    RoundTrip(c.mac(payload));
    ClaimsCheckOut(c, scope, limit, p, Json(claims));
  }

  lemma ClaimsCheckOut(c: Codec, scope: Scope, limit: int, p: Position, raw: seq<Byte>)
    requires Sane(c) && ValidPosition(p)
    requires raw == Json(Claims(1, scope, limit, p.count, c.stamp(p.occurredAt), c.idText(p.eventId)))
    ensures Check(c, raw, scope, limit) == Some(p)
  {
    var claims := Claims(1, scope, limit, p.count, c.stamp(p.occurredAt), c.idText(p.eventId));
    assert c.loads(raw) == Some(claims);
    assert c.instant(claims.at) == Some(p.occurredAt) && c.idValue(claims.id) == Some(p.eventId);
  }

  /** A token that is accepted is, character by character, the token issued for the position it yields. */
  lemma ParsedWasIssued(c: Codec, token: string, scope: Scope, limit: int)
    requires Parse(c, token, scope, limit).Some?
    ensures var p := Parse(c, token, scope, limit).value;
      ValidPosition(p) && token == Issue(c, scope, limit, p) && |token| <= MAX_TOKEN
  {
    SplitInverse(token);
    var (payload, signature) := Split(token).value;
    var raw := Decode(payload).value;
    var v := c.loads(raw).value;
    var p := Parse(c, token, scope, limit).value;
    assert v == Claims(1, scope, limit, p.count, c.stamp(p.occurredAt), c.idText(p.eventId));
    assert payload == Encode(raw) && signature == Encode(c.mac(payload));
  }

  /** Exactly the issued tokens of valid positions are accepted. */
  lemma AcceptsExactlyIssued(c: Codec, token: string, scope: Scope, limit: int, p: Position)
    requires Sane(c) && ValidScope(scope) && 1 <= limit <= 100
    ensures Parse(c, token, scope, limit) == Some(p) <==> token == Issue(c, scope, limit, p) && ValidPosition(p)
  {
    if Parse(c, token, scope, limit) == Some(p) {
      ParsedWasIssued(c, token, scope, limit);
    }
    if token == Issue(c, scope, limit, p) && ValidPosition(p) {
      IssuedIsParsed(c, scope, limit, p);
    }
  }

  lemma PayloadInjective(c: Codec, v: Claims, v': Claims)
    requires Sane(c) && Encode(Json(v)) == Encode(Json(v'))
    ensures v == v'
  {
    EncodeInjective(Json(v), Json(v'));
    assert c.loads(Json(v)) == Some(v) && c.loads(Json(v')) == Some(v');
  }

  /** A token of another reader, session, account or page size is refused. */
  lemma OtherScopeRefused(c: Codec, scope: Scope, limit: int, p: Position, scope': Scope, limit': int)
    requires Sane(c) && (scope != scope' || limit != limit')
    ensures Parse(c, Issue(c, scope, limit, p), scope', limit') == None
  {
    var token := Issue(c, scope, limit, p);
    if Parse(c, token, scope', limit').Some? {
      var p' := Parse(c, token, scope', limit').value;
      ParsedWasIssued(c, token, scope', limit');
      IssuedSplits(c, scope, limit, p);
      IssuedSplits(c, scope', limit', p');
      var v := Claims(1, scope, limit, p.count, c.stamp(p.occurredAt), c.idText(p.eventId));
      var v' := Claims(1, scope', limit', p'.count, c.stamp(p'.occurredAt), c.idText(p'.eventId));
      PayloadInjective(c, v, v');
    }
  }
}
