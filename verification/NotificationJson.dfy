/**
 * The JSON of a page token can be read back: no two contents are printed alike. So a parser as the codec assumes it
 * exists, and with it a whole codec.
 */
module NotificationJson {
  import opened Dicts
  import opened Keys
  import opened Base64Url
  import opened NotificationClaims
  import opened NotificationCursor

  lemma SamePrefix(p: seq<Byte>, x: seq<Byte>, y: seq<Byte>)
    requires p + x == p + y
    ensures x == y
  {
    assert (p + x)[|p|..] == x && (p + y)[|p|..] == y;
  }

  // ---- Texts ----

  /** What follows a printed piece is read off unchanged. */
  lemma UnicodeReads(n: int, m: int, r: seq<Byte>, r': seq<Byte>)
    requires 0 <= n < 0x10000 && 0 <= m < 0x10000 && UnicodeEscape(n) + r == UnicodeEscape(m) + r'
    ensures n == m && r == r'
  {
    UnicodeBytes(n, r);
    UnicodeBytes(m, r');
    HexInjective(n / 4096, m / 4096);
    HexInjective(n / 256 % 16, m / 256 % 16);
    HexInjective(n / 16 % 16, m / 16 % 16);
    HexInjective(n % 16, m % 16);
    FourDigits(n);
    FourDigits(m);
    SamePrefix(UnicodeEscape(n), r, r');
  }

  lemma UnicodeBytes(n: int, r: seq<Byte>)
    requires 0 <= n < 0x10000
    ensures (UnicodeEscape(n) + r)[2..6] == [Hex(n / 4096), Hex(n / 256 % 16), Hex(n / 16 % 16), Hex(n % 16)]
    ensures var x := (UnicodeEscape(n) + r)[2..6];
      x[0] == Hex(n / 4096) && x[1] == Hex(n / 256 % 16) && x[2] == Hex(n / 16 % 16) && x[3] == Hex(n % 16)
  {
  }

  lemma HexInjective(d: int, e: int)
    requires 0 <= d < 16 && 0 <= e < 16
    ensures Hex(d) == Hex(e) ==> d == e
  {
  }

  lemma FourDigits(n: int)
    requires 0 <= n < 0x10000
    ensures n == 4096 * (n / 4096) + 256 * (n / 256 % 16) + 16 * (n / 16 % 16) + n % 16
  {
    LastDigit(n, 16);
    LastDigit(n, 256);
  }

  /** What n / u is made of: the next digit, and what lies above it. */
  lemma LastDigit(n: nat, u: nat)
    requires u == 16 || u == 256
    ensures n / u == 16 * (n / (16 * u)) + n / u % 16
  {
    var q := n / (16 * u);
    assert n / u == 16 * q + (n - 16 * u * q) / u;
  }

  /** The characters that are printed as themselves, and those with an escape of two bytes. */
  predicate Plain(c: char) {
    c != '\"' && c != '\\' && 32 <= c as int <= 126
  }

  predicate Short(c: char) {
    c in {'\"', '\\', '\n', '\r', '\t'} || c as int in {8, 12}
  }

  lemma CharForms(c: char)
    ensures EscapedChar(c)[0] != 34
    ensures Plain(c) <==> EscapedChar(c)[0] != 92
    ensures Plain(c) ==> EscapedChar(c) == [c as int]
    ensures !Plain(c) ==> |EscapedChar(c)| >= 2 && (Short(c) <==> EscapedChar(c)[1] != 117)
    ensures Short(c) ==> |EscapedChar(c)| == 2
    ensures !Plain(c) && !Short(c) && c as int < 0x10000 ==> EscapedChar(c) == UnicodeEscape(c as int)
    ensures c as int >= 0x10000 ==> EscapedChar(c) == UnicodeEscape(High(c)) + UnicodeEscape(Low(c))
  {
  }

  /** The surrogate pair of a character outside the basic plane. */
  function High(c: char): (n: int)
    requires c as int >= 0x10000
    ensures 0xD800 <= n < 0xDC00
  {
    0xD800 + (c as int - 0x10000) / 1024
  }

  function Low(c: char): (n: int)
    requires c as int >= 0x10000
    ensures 0xDC00 <= n < 0xE000
  {
    0xDC00 + (c as int - 0x10000) % 1024
  }

  lemma CharReads(a: char, b: char, r: seq<Byte>, r': seq<Byte>)
    requires EscapedChar(a) + r == EscapedChar(b) + r'
    ensures a == b && r == r'
  {
    CharForms(a);
    CharForms(b);
    var x, y := EscapedChar(a) + r, EscapedChar(b) + r';
    assert x[0] == EscapedChar(a)[0] && y[0] == EscapedChar(b)[0];
    if !Plain(a) {
      assert x[1] == EscapedChar(a)[1] && y[1] == EscapedChar(b)[1];
      if !Short(a) {
        LongReads(a, b, r, r');
      }
    }
    SamePrefix(EscapedChar(a), r, r');
  }

  lemma LongReads(a: char, b: char, r: seq<Byte>, r': seq<Byte>)
    requires !Plain(a) && !Short(a) && !Plain(b) && !Short(b)
    requires EscapedChar(a) + r == EscapedChar(b) + r'
    ensures a == b
  {
    CharForms(a);
    CharForms(b);
    var (n, x) := FirstUnit(a, r);
    var (m, y) := FirstUnit(b, r');
    UnicodeReads(n, m, x, y);
    if a as int >= 0x10000 {
      UnicodeReads(Low(a), Low(b), r, r');
    }
  }

  /** The first UTF-16 unit of a long escape, and what follows it. */
  ghost function FirstUnit(c: char, r: seq<Byte>): (u: (int, seq<Byte>))
    requires !Plain(c) && !Short(c)
    ensures 0 <= u.0 < 0x10000 && EscapedChar(c) + r == UnicodeEscape(u.0) + u.1
    ensures if c as int < 0x10000 then u == (c as int, r) else u == (High(c), UnicodeEscape(Low(c)) + r)
  {
    CharForms(c);
    if c as int < 0x10000 then (c as int, r) else
      Regroup(UnicodeEscape(High(c)), UnicodeEscape(Low(c)), r);
      (High(c), UnicodeEscape(Low(c)) + r)
  }

  lemma {:induction false} EscapedFront(text: string)
    requires text != ""
    ensures Escaped(text) == EscapedChar(text[0]) + Escaped(text[1..])
  {
    var front, last := text[..|text| - 1], text[|text| - 1];
    if front == "" {
      assert text[1..] == "" && text[0] == last;
    } else {
      EscapedFront(front);
      assert text[1..][..|text[1..]| - 1] == front[1..] && text[1..][|text[1..]| - 1] == last;
      Regroup(EscapedChar(text[0]), Escaped(front[1..]), EscapedChar(last));
    }
  }

  /** A text and its closing quote: the quote alone, or a character that begins with another byte, and the rest. */
  lemma TextForms(text: string, r: seq<Byte>)
    ensures text == "" ==> Escaped(text) + r == r
    ensures text != "" ==>
      && Escaped(text) + r == EscapedChar(text[0]) + (Escaped(text[1..]) + r)
      && (Escaped(text) + r)[0] != 34
  {
    if text != "" {
      EscapedFront(text);
      CharForms(text[0]);
      Regroup(EscapedChar(text[0]), Escaped(text[1..]), r);
    }
  }

  lemma {:induction false} TextReads(a: string, b: string, r: seq<Byte>, r': seq<Byte>)
    requires r != [] && r' != [] && r[0] == 34 && r'[0] == 34 && Escaped(a) + r == Escaped(b) + r'
    ensures a == b && r == r'
  {
    TextForms(a, r);
    TextForms(b, r');
    if a != "" && b != "" {
      CharReads(a[0], b[0], Escaped(a[1..]) + r, Escaped(b[1..]) + r');
      TextReads(a[1..], b[1..], r, r');
      assert a == [a[0]] + a[1..] && b == [b[0]] + b[1..];
    }
  }

  lemma QuotedReads(a: string, b: string, r: seq<Byte>, r': seq<Byte>)
    requires Quoted(a) + r == Quoted(b) + r'
    ensures a == b && r == r'
  {
    QuotedNested(a, r);
    QuotedNested(b, r');
    SamePrefix([34], Escaped(a) + ([34] + r), Escaped(b) + ([34] + r'));
    TextReads(a, b, [34] + r, [34] + r');
    SamePrefix([34], r, r');
  }

  lemma QuotedNested(a: string, r: seq<Byte>)
    ensures Quoted(a) + r == [34] + (Escaped(a) + ([34] + r))
  {
    Regroup([34] + Escaped(a), [34], r);
    Regroup([34], Escaped(a), [34] + r);
  }

  // ---- Numbers ----

  predicate Ends(r: seq<Byte>) {
    r != [] && !(48 <= r[0] <= 57)
  }

  lemma DigitsRead(s: string, t: string, r: seq<Byte>, r': seq<Byte>)
    requires AllDigits(s) && AllDigits(t) && Ends(r) && Ends(r') && Ascii(s) + r == Ascii(t) + r'
    ensures s == t && r == r'
  {
    var x, y := Ascii(s) + r, Ascii(t) + r';
    assert forall i :: 0 <= i < |s| ==> x[i] == s[i] as int;
    assert forall i :: 0 <= i < |t| ==> y[i] == t[i] as int;
    assert x[|s|] == r[0] && y[|t|] == r'[0];
    assert |s| == |t|;
    assert forall i :: 0 <= i < |s| ==> s[i] == t[i];
    SamePrefix(Ascii(s), r, r');
  }

  lemma NaturalReads(n: nat, m: nat, r: seq<Byte>, r': seq<Byte>)
    requires Ends(r) && Ends(r') && Ascii(Decimal(n)) + r == Ascii(Decimal(m)) + r'
    ensures n == m && r == r'
  {
    NumberOfDecimal(n);
    NumberOfDecimal(m);
    DigitsRead(Decimal(n), Decimal(m), r, r');
  }

  lemma IntegerForms(n: int, r: seq<Byte>)
    ensures Integer(n) + r == if n < 0 then [45] + (Ascii(Decimal(-n)) + r) else Ascii(Decimal(n)) + r
    ensures Integer(n) + r != [] && ((Integer(n) + r)[0] == 45 <==> n < 0)
  {
    var digits := Decimal(if n < 0 then -n else n);
    NumberOfDecimal(if n < 0 then -n else n);
    DecimalLength(if n < 0 then -n else n);
    assert Ascii(digits)[0] == digits[0] as int;
    if n < 0 {
      Regroup([45], Ascii(digits), r);
    }
  }

  lemma IntegerReads(n: int, m: int, r: seq<Byte>, r': seq<Byte>)
    requires Ends(r) && Ends(r') && Integer(n) + r == Integer(m) + r'
    ensures n == m && r == r'
  {
    IntegerForms(n, r);
    IntegerForms(m, r');
    if n < 0 {
      SamePrefix([45], Ascii(Decimal(-n)) + r, Ascii(Decimal(-m)) + r');
      NaturalReads(-n, -m, r, r');
    } else {
      NaturalReads(n, m, r, r');
    }
  }

  // ---- Contents ----

  lemma LabelRead(name: string, x: seq<Byte>, y: seq<Byte>)
    requires Ascii(name) + x == Ascii(name) + y
    ensures x == y
  {
    SamePrefix(Ascii(name), x, y);
  }

  /** What follows the fields of a scope. */
  function AfterAccount(s: Scope, r: seq<Byte>): (rest: seq<Byte>)
    ensures Ends(rest)
  {
    Ascii(",") + (Quoted(s.marketplace) + (Ascii("]") + r))
  }

  function AfterMember(s: Scope, r: seq<Byte>): (rest: seq<Byte>)
    ensures Ends(rest)
  {
    Ascii(",") + (Integer(s.account) + AfterAccount(s, r))
  }

  function AfterSession(s: Scope, r: seq<Byte>): (rest: seq<Byte>)
    ensures Ends(rest)
  {
    Ascii(",") + (Integer(s.member) + AfterMember(s, r))
  }

  function AfterOrganization(s: Scope, r: seq<Byte>): (rest: seq<Byte>)
    ensures Ends(rest)
  {
    Ascii(",") + (Quoted(s.user) + (Ascii(",") + (Quoted(s.session) + AfterSession(s, r))))
  }

  lemma ScopeNested(s: Scope, r: seq<Byte>)
    ensures ScopeJson(s) + r == Ascii("[") + (Integer(s.organization) + AfterOrganization(s, r))
  {
    var comma := Ascii(",");
    var p1 := Ascii("[") + Integer(s.organization);
    var p2 := p1 + comma + Quoted(s.user);
    var p3 := p2 + comma + Quoted(s.session);
    var p4 := p3 + comma + Integer(s.member);
    var p5 := p4 + comma + Integer(s.account);
    Twice(p5, comma, Quoted(s.marketplace), Ascii("]") + r);
    Regroup(p5 + comma + Quoted(s.marketplace), Ascii("]"), r);
    Twice(p4, comma, Integer(s.account), AfterAccount(s, r));
    Twice(p3, comma, Integer(s.member), AfterMember(s, r));
    Twice(p2, comma, Quoted(s.session), AfterSession(s, r));
    Twice(p1, comma, Quoted(s.user), comma + (Quoted(s.session) + AfterSession(s, r)));
    Regroup(Ascii("["), Integer(s.organization), AfterOrganization(s, r));
  }

  lemma Twice(p: seq<Byte>, a: seq<Byte>, b: seq<Byte>, r: seq<Byte>)
    ensures p + a + b + r == p + (a + (b + r))
  {
  }

  lemma ScopeReads(s: Scope, t: Scope, r: seq<Byte>, r': seq<Byte>)
    requires ScopeJson(s) + r == ScopeJson(t) + r'
    ensures s == t && r == r'
  {
    ScopeNested(s, r);
    ScopeNested(t, r');
    LabelRead("[", Integer(s.organization) + AfterOrganization(s, r), Integer(t.organization) + AfterOrganization(t, r'));
    IntegerReads(s.organization, t.organization, AfterOrganization(s, r), AfterOrganization(t, r'));
    UserReads(s, t, r, r');
    AccountReads(s, t, r, r');
  }

  lemma UserReads(s: Scope, t: Scope, r: seq<Byte>, r': seq<Byte>)
    requires AfterOrganization(s, r) == AfterOrganization(t, r')
    ensures s.user == t.user && s.session == t.session && AfterSession(s, r) == AfterSession(t, r')
  {
    var x, y := Quoted(s.session) + AfterSession(s, r), Quoted(t.session) + AfterSession(t, r');
    LabelRead(",", Quoted(s.user) + (Ascii(",") + x), Quoted(t.user) + (Ascii(",") + y));
    QuotedReads(s.user, t.user, Ascii(",") + x, Ascii(",") + y);
    LabelRead(",", x, y);
    QuotedReads(s.session, t.session, AfterSession(s, r), AfterSession(t, r'));
  }

  lemma AccountReads(s: Scope, t: Scope, r: seq<Byte>, r': seq<Byte>)
    requires AfterSession(s, r) == AfterSession(t, r')
    ensures s.member == t.member && s.account == t.account && s.marketplace == t.marketplace && r == r'
  {
    LabelRead(",", Integer(s.member) + AfterMember(s, r), Integer(t.member) + AfterMember(t, r'));
    IntegerReads(s.member, t.member, AfterMember(s, r), AfterMember(t, r'));
    LabelRead(",", Integer(s.account) + AfterAccount(s, r), Integer(t.account) + AfterAccount(t, r'));
    IntegerReads(s.account, t.account, AfterAccount(s, r), AfterAccount(t, r'));
    LabelRead(",", Quoted(s.marketplace) + (Ascii("]") + r), Quoted(t.marketplace) + (Ascii("]") + r'));
    QuotedReads(s.marketplace, t.marketplace, Ascii("]") + r, Ascii("]") + r');
    LabelRead("]", r, r');
  }

  /** What follows the fields of a token. */
  function AfterScope(v: Claims): seq<Byte> {
    Ascii(",\"v\":") + (Integer(v.version) + Ascii("}"))
  }

  function AfterLimit(v: Claims): (rest: seq<Byte>)
    ensures Ends(rest)
  {
    Ascii(",\"scope\":") + (ScopeJson(v.scope) + AfterScope(v))
  }

  function AfterId(v: Claims): seq<Byte> {
    Ascii(",\"limit\":") + (Integer(v.limit) + AfterLimit(v))
  }

  function AfterCount(v: Claims): (rest: seq<Byte>)
    ensures Ends(rest)
  {
    Ascii(",\"id\":") + (Quoted(v.id) + AfterId(v))
  }

  function AfterAt(v: Claims): seq<Byte> {
    Ascii(",\"count\":") + (Integer(v.count) + AfterCount(v))
  }

  lemma JsonNested(v: Claims)
    ensures Json(v) == Ascii("{\"at\":") + (Quoted(v.at) + AfterAt(v))
  {
    var p1 := Ascii("{\"at\":") + Quoted(v.at);
    var p2 := p1 + Ascii(",\"count\":") + Integer(v.count);
    var p3 := p2 + Ascii(",\"id\":") + Quoted(v.id);
    var p4 := p3 + Ascii(",\"limit\":") + Integer(v.limit);
    var p5 := p4 + Ascii(",\"scope\":") + ScopeJson(v.scope);
    Twice(p5, Ascii(",\"v\":"), Integer(v.version), Ascii("}"));
    Twice(p4, Ascii(",\"scope\":"), ScopeJson(v.scope), AfterScope(v));
    Twice(p3, Ascii(",\"limit\":"), Integer(v.limit), AfterLimit(v));
    Twice(p2, Ascii(",\"id\":"), Quoted(v.id), AfterId(v));
    Twice(p1, Ascii(",\"count\":"), Integer(v.count), AfterCount(v));
    Regroup(Ascii("{\"at\":"), Quoted(v.at), AfterAt(v));
  }

  /** Equal JSON comes from equal contents. */
  lemma JsonInjective(v: Claims, w: Claims)
    requires Json(v) == Json(w)
    ensures v == w
  {
    JsonNested(v);
    JsonNested(w);
    LabelRead("{\"at\":", Quoted(v.at) + AfterAt(v), Quoted(w.at) + AfterAt(w));
    QuotedReads(v.at, w.at, AfterAt(v), AfterAt(w));
    LabelRead(",\"count\":", Integer(v.count) + AfterCount(v), Integer(w.count) + AfterCount(w));
    IntegerReads(v.count, w.count, AfterCount(v), AfterCount(w));
    LabelRead(",\"id\":", Quoted(v.id) + AfterId(v), Quoted(w.id) + AfterId(w));
    QuotedReads(v.id, w.id, AfterId(v), AfterId(w));
    LimitReads(v, w);
  }

  lemma LimitReads(v: Claims, w: Claims)
    requires AfterId(v) == AfterId(w)
    ensures v.limit == w.limit && v.scope == w.scope && v.version == w.version
  {
    LabelRead(",\"limit\":", Integer(v.limit) + AfterLimit(v), Integer(w.limit) + AfterLimit(w));
    IntegerReads(v.limit, w.limit, AfterLimit(v), AfterLimit(w));
    LabelRead(",\"scope\":", ScopeJson(v.scope) + AfterScope(v), ScopeJson(w.scope) + AfterScope(w));
    ScopeReads(v.scope, w.scope, AfterScope(v), AfterScope(w));
    LabelRead(",\"v\":", Integer(v.version) + Ascii("}"), Integer(w.version) + Ascii("}"));
    IntegerReads(v.version, w.version, Ascii("}"), Ascii("}"));
  }

  // ---- A codec ----

  ghost function Parsed(raw: seq<Byte>): (v: Option<Claims>)
    ensures v.Some? ==> Json(v.value) == raw
    ensures v.None? ==> forall w :: Json(w) != raw
  {
    if exists v :: Json(v) == raw then
      var v :| Json(v) == raw;
      Some(v)
    else None
  }

  /** A number in hexadecimal digits of a fixed count. */
  function Fixed(n: nat, width: nat): (text: string)
    ensures |text| == width
  {
    if width == 0 then "" else Fixed(n / 16, width - 1) + [Hex(n % 16) as char]
  }

  function Sixteens(width: nat): nat {
    if width == 0 then 1 else 16 * Sixteens(width - 1)
  }

  lemma {:induction false} FixedInjective(n: nat, m: nat, width: nat)
    requires n < Sixteens(width) && m < Sixteens(width) && Fixed(n, width) == Fixed(m, width)
    ensures n == m
  {
    if width > 0 {
      var s, t := Fixed(n, width), Fixed(m, width);
      assert s[..width - 1] == Fixed(n / 16, width - 1) && t[..width - 1] == Fixed(m / 16, width - 1);
      assert s[width - 1] == Hex(n % 16) as char && t[width - 1] == Hex(m % 16) as char;
      HexInjective(n % 16, m % 16);
      FixedInjective(n / 16, m / 16, width - 1);
    }
  }

  lemma Widths()
    ensures 0x1_0000_0000_0000_0000_0000_0000_0000_0000 <= Sixteens(32) <= Sixteens(36)
  {
    assert Sixteens(8) == 0x1_0000_0000;
    assert Sixteens(16) == 0x1_0000_0000_0000_0000;
    assert Sixteens(24) == 0x1_0000_0000_0000_0000_0000_0000;
  }

  ghost function InstantOf(text: string): Option<Instant> {
    if exists t: Instant :: Fixed(t, 32) == text then
      var t: Instant :| Fixed(t, 32) == text;
      Some(t)
    else None
  }

  ghost function IdOf(text: string): Option<EventId> {
    if exists n: EventId :: Fixed(n, 36) == text then
      var n: EventId :| Fixed(n, 36) == text;
      Some(n)
    else None
  }

  lemma ParsedBack(v: Claims)
    ensures Parsed(Json(v)) == Some(v)
  {
    JsonInjective(v, Parsed(Json(v)).value);
  }

  lemma InstantBack(t: Instant)
    ensures InstantOf(Fixed(t, 32)) == Some(t)
  {
    var u: Instant :| Fixed(u, 32) == Fixed(t, 32) && InstantOf(Fixed(t, 32)) == Some(u);
    Widths();
    FixedInjective(t, u, 32);
  }

  lemma IdBack(n: EventId)
    ensures IdOf(Fixed(n, 36)) == Some(n)
  {
    var m: EventId :| Fixed(m, 36) == Fixed(n, 36) && IdOf(Fixed(n, 36)) == Some(m);
    Widths();
    FixedInjective(n, m, 36);
  }

  /** There are codecs as the laws of the tokens assume them. */
  lemma CodecExists() returns (c: Codec)
    ensures Sane(c)
  {
    c := Codec(
      (m: string) => seq(32, i => 0), (raw: seq<Byte>) => Parsed(raw),
      (t: Instant) => Fixed(t, 32), (text: string) => InstantOf(text),
      (n: EventId) => Fixed(n, 36), (text: string) => IdOf(text));
    forall v ensures c.loads(Json(v)) == Some(v) { ParsedBack(v); }
    forall t: Instant ensures c.instant(c.stamp(t)) == Some(t) { InstantBack(t); }
    forall n: EventId ensures c.idValue(c.idText(n)) == Some(n) { IdBack(n); }
  }
}
