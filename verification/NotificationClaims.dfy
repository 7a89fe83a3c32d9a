/**
 * The contents of a page token, and `_json`: keys sorted, no spaces, and everything outside printable ASCII
 * escaped. The size of what is printed follows from the sizes of the columns its texts come from.
 */
module NotificationClaims {
  import opened Base64Url
  import opened Keys

  datatype Scope = Scope(
    organization: int, user: string, session: string, member: int, account: int, marketplace: string)

  /** The fields of a token; timestamp and id in text form. */
  datatype Claims = Claims(version: int, scope: Scope, limit: int, count: int, at: string, id: string)

  /** A text of ASCII characters. */
  function Ascii(text: string): (bytes: seq<Byte>)
    ensures |bytes| == |text|
  {
    seq(|text|, i requires 0 <= i < |text| => text[i] as int % 256)
  }

  function Hex(d: int): Byte
    requires 0 <= d < 16
  {
    if d < 10 then 48 + d else 87 + d
  }

  /** `\uXXXX` */
  function UnicodeEscape(n: int): seq<Byte>
    requires 0 <= n < 0x10000
  {
    [92, 117, Hex(n / 4096), Hex(n / 256 % 16), Hex(n / 16 % 16), Hex(n % 16)]
  }

  function EscapedChar(c: char): (bytes: seq<Byte>)
    ensures 1 <= |bytes| <= 12
  {
    var n := c as int;
    if c == '\"' then [92, 34]
    else if c == '\\' then [92, 92]
    else if c == '\n' then [92, 110]
    else if c == '\r' then [92, 114]
    else if c == '\t' then [92, 116]
    else if n == 8 then [92, 98]
    else if n == 12 then [92, 102]
    else if 32 <= n <= 126 then [n]
    else if n < 0x10000 then UnicodeEscape(n)
    else UnicodeEscape(0xD800 + (n - 0x10000) / 1024) + UnicodeEscape(0xDC00 + (n - 0x10000) % 1024)
  }

  function Escaped(text: string): seq<Byte> {
    if text == "" then [] else Escaped(text[..|text| - 1]) + EscapedChar(text[|text| - 1])
  }

  function Quoted(text: string): seq<Byte> {
    [34] + Escaped(text) + [34]
  }

  function Integer(n: int): seq<Byte> {
    if n < 0 then [45] + Ascii(Decimal(-n)) else Ascii(Decimal(n))
  }

  function ScopeJson(s: Scope): seq<Byte> {
    Ascii("[") + Integer(s.organization) + Ascii(",") + Quoted(s.user) + Ascii(",") + Quoted(s.session)
    + Ascii(",") + Integer(s.member) + Ascii(",") + Integer(s.account) + Ascii(",") + Quoted(s.marketplace) + Ascii("]")
  }

  /** `json.dumps(..., sort_keys=True, separators=(",", ":"), ensure_ascii=True)` */
  function Json(v: Claims): (bytes: seq<Byte>)
    ensures bytes != []
  {
    Ascii("{\"at\":") + Quoted(v.at) + Ascii(",\"count\":") + Integer(v.count) + Ascii(",\"id\":") + Quoted(v.id)
    + Ascii(",\"limit\":") + Integer(v.limit) + Ascii(",\"scope\":") + ScopeJson(v.scope)
    + Ascii(",\"v\":") + Integer(v.version) + Ascii("}")
  }

  // ---- How long a token can get ----

  const MAX_ID := 0x7fff_ffff

  const MAX_COUNT := 0x7fff_ffff_ffff_ffff

  /** What the columns can hold: 32-bit ids, users and sessions of 64 characters, marketplaces of 16. */
  predicate ValidScope(s: Scope) {
    && 0 < s.organization <= MAX_ID && 0 < s.member <= MAX_ID && 0 < s.account <= MAX_ID
    && |s.user| <= 64 && |s.session| <= 64 && |s.marketplace| <= 16
  }

  lemma {:induction false} EscapedSize(text: string)
    ensures |Escaped(text)| <= 12 * |text|
  {
    if text != "" {
      EscapedSize(text[..|text| - 1]);
    }
  }

  lemma IntegerSize(n: int)
    requires 0 <= n <= MAX_COUNT
    ensures |Integer(n)| <= 19
  {
    NineteenDigits();
    DecimalBelow(n, 19);
  }

  lemma ScopeSize(s: Scope)
    requires ValidScope(s)
    ensures |ScopeJson(s)| <= 1798
  {
    IntegerSize(s.organization);
    IntegerSize(s.member);
    IntegerSize(s.account);
    EscapedSize(s.user);
    EscapedSize(s.session);
    EscapedSize(s.marketplace);
  }

  /** With texts of at most 32 and 36 characters for the timestamp and the id. */
  lemma JsonSize(v: Claims)
    requires ValidScope(v.scope) && v.version == 1 && 0 <= v.limit <= 100 && 0 <= v.count <= MAX_COUNT
    requires |v.at| <= 32 && |v.id| <= 36
    ensures |Json(v)| <= 2716
  {
    ScopeSize(v.scope);
    IntegerSize(v.version);
    IntegerSize(v.limit);
    IntegerSize(v.count);
    EscapedSize(v.at);
    EscapedSize(v.id);
  }
}
