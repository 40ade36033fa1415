/** The contact card in a pairing QR code: its printer `encoded` and its parser `validate`. */
module ContactCard {
  import opened Wire
  import Hex

  const SCHEME := "pizzini1://"
  const PEER_ID_LEN := 33
  const MAX_UTF8 := 4096

  datatype Card = Card(peerId: Bytes, host: string, port: nat)
  datatype Result = Ok(card: Card) | Err

  /** Foundation's whitespace set and NFKC test, which this project does not define. */
  datatype Platform = Platform(isSpace: char -> bool, nfkcStable: string -> bool)

  predicate PrintableChar(c: char) { ' ' <= c <= '~' }
  predicate Printable(s: string) { forall i :: 0 <= i < |s| ==> PrintableChar(s[i]) }

  /** Among printable ASCII only the space is whitespace, and such text is its own NFKC form. */
  ghost predicate Lawful(pl: Platform) {
    && (forall c :: PrintableChar(c) && c != ' ' ==> !pl.isSpace(c))
    && (forall s :: Printable(s) ==> pl.nfkcStable(s))
  }

  // ----- Swift's integer parsing -----

  function Digits(radix: nat, s: string): Option<nat> {
    if s == "" then Some(0)
    else
      var high, d := Digits(radix, s[..|s| - 1]), Hex.DigitValue(s[|s| - 1]);
      if high.None? || d.None? || d.value >= radix then None else Some(high.value * radix + d.value)
  }

  /** An unsigned integer of at most `max`: an optional sign, then at least one digit.  A minus sign
      is accepted in front of zero only. */
  function Unsigned(radix: nat, max: nat, s: string): Option<nat> {
    if s == "" then None
    else
      var signed := s[0] == '+' || s[0] == '-';
      var digits := if signed then s[1..] else s;
      if digits == "" then None
      else
        match Digits(radix, digits)
        case None => None
        case Some(n) => if n > max || (s[0] == '-' && n != 0) then None else Some(n)
  }

  lemma OneDigit(radix: nat, x: char)
    ensures Digits(radix, [x]) ==
      if Hex.DigitValue(x).Some? && Hex.DigitValue(x).value < radix then Hex.DigitValue(x) else None
  {
    assert [x][..0] == "";
    assert 0 * radix == 0;
  }

  lemma TwoDigits(x: char, y: char)
    ensures Digits(16, [x, y]) ==
      if Hex.DigitValue(x).Some? && Hex.DigitValue(y).Some?
      then Some(Hex.DigitValue(x).value * 16 + Hex.DigitValue(y).value) else None
  {
    assert [x, y][..1] == [x];
    OneDigit(16, x);
  }

  /** What a two-character group parses to: two digits, or a sign and one digit. */
  function PairByte(x: char, y: char): Option<byte> {
    var high, low := Hex.DigitValue(x), Hex.DigitValue(y);
    if low.None? then None
    else if x == '+' then Some(low.value as byte)
    else if x == '-' then (if y == '0' then Some(0) else None)
    else if high.None? then None
    else Some((high.value * 16 + low.value) as byte)
  }

  /** That is what the integer parser makes of it. */
  lemma PairMeaning(x: char, y: char)
    ensures match PairByte(x, y)
      case None => Unsigned(16, 255, [x, y]) == None
      case Some(b) => Unsigned(16, 255, [x, y]) == Some(b as nat)
  {
    assert [x, y][1..] == [y];
    OneDigit(16, y);
    TwoDigits(x, y);
  }

  function Decimal(n: nat): (s: string)
    ensures s != ""
  {
    if n < 10 then [Hex.Digit(n)] else Decimal(n / 10) + [Hex.Digit(n % 10)]
  }

  lemma {:induction false} DecimalParses(n: nat)
    ensures Digits(10, Decimal(n)) == Some(n)
    ensures forall i :: 0 <= i < |Decimal(n)| ==> '0' <= Decimal(n)[i] <= '9'
    decreases n
  {
    var s := Decimal(n);
    if n < 10 {
      assert s[..0] == "";
    } else {
      DecimalParses(n / 10);
      assert s[..|s| - 1] == Decimal(n / 10);
    }
  }

  /** Printing a positive number never takes more characters than some text that parses to it. */
  lemma {:induction false} DecimalIsShortest(s: string, n: nat)
    requires Digits(10, s) == Some(n) && n > 0
    ensures |Decimal(n)| <= |s|
    decreases |s|
  {
    var front := s[..|s| - 1];
    var high := Digits(10, front).value;
    if high > 0 { DecimalIsShortest(front, high); }
  }

  // ----- the identity text -----

  function LowerChar(c: char): char { if 'A' <= c <= 'Z' then c - 'A' + 'a' else c }

  function Lowered(s: string): (r: string)
    ensures |r| == |s| && forall i :: 0 <= i < |s| ==> r[i] == LowerChar(s[i])
  {
    seq(|s|, i requires 0 <= i < |s| => LowerChar(s[i]))
  }

  predicate AllHexDigits(s: string) { forall i :: 0 <= i < |s| ==> Hex.DigitValue(s[i]).Some? }

  /** Two characters at a time through the integer parser. */
  function DecodePairs(s: string): Option<Bytes>
    requires |s| % 2 == 0
  {
    if s == "" then Some([])
    else
      var n := |s| - 2;
      var front := DecodePairs(s[..n]);
      if front.None? then None
      else
        var b := PairByte(s[n], s[n + 1]);
        if b.None? then None else Some(front.value + [b.value])
  }

  function DecodeIdentity(hex: string): Option<Bytes> {
    if |hex| != 2 * PEER_ID_LEN then None
    else if Lowered(hex) != hex && !AllHexDigits(hex) then None
    else DecodePairs(Lowered(hex))
  }

  /** Not all one byte, and the type byte of a Curve25519 identity. */
  predicate GoodIdentity(peerId: Bytes) {
    |peerId| == 33 && peerId[0] == 5 && exists i :: 0 <= i < |peerId| && peerId[i] != peerId[0]
  }

  // ----- printing -----

  function Encoded(c: Card): string {
    SCHEME + Hex.Lower(c.peerId) + "@" + c.host + ":" + Decimal(c.port)
  }

  /** The grammar of a trimmed card text. */
  ghost predicate CardText(t: string, c: Card) {
    exists hex, port :: CardParts(t, c, hex, port)
  }

  ghost predicate CardParts(t: string, c: Card, hex: string, port: string) {
    && t == SCHEME + (hex + ("@" + (c.host + (":" + port))))
    && '@' !in hex && '@' !in c.host && '@' !in port && ':' !in c.host && ':' !in port
    && DecodeIdentity(hex) == Some(c.peerId) && GoodIdentity(c.peerId)
    && Unsigned(10, 65535, port) == Some(c.port) && c.port > 0
  }

  function Utf8Len(s: string): nat {
    if s == "" then 0
    else Utf8Len(s[..|s| - 1]) + Utf8Width(s[|s| - 1])
  }

  function Utf8Width(c: char): nat {
    if c as int < 0x80 then 1 else if c as int < 0x800 then 2 else if c as int < 0x10000 then 3 else 4
  }

  function TrimLeft(pl: Platform, s: string): string {
    if s != "" && pl.isSpace(s[0]) then TrimLeft(pl, s[1..]) else s
  }

  function TrimRight(pl: Platform, s: string): string {
    if s != "" && pl.isSpace(s[|s| - 1]) then TrimRight(pl, s[..|s| - 1]) else s
  }

  function Trim(pl: Platform, s: string): string { TrimRight(pl, TrimLeft(pl, s)) }

  /** `raw` is accepted as the card `c`. */
  ghost predicate Accepts(pl: Platform, raw: string, c: Card) {
    var t := Trim(pl, raw);
    Utf8Len(raw) <= 4096 && t != "" && pl.nfkcStable(t) && Printable(t) && CardText(t, c)
  }

  // ----- the split the parser makes -----

  function First(s: string, c: char): (i: nat)
    ensures i <= |s| && c !in s[..i] && (i < |s| ==> s[i] == c)
  {
    if s == "" || s[0] == c then 0
    else
      var i := 1 + First(s[1..], c);
      assert s[..i] == [s[0]] + s[1..][..i - 1];
      i
  }

  /** One past the last occurrence, or zero. */
  function AfterLast(s: string, c: char): (i: nat)
    ensures i <= |s| && c !in s[i..] && (i > 0 ==> s[i - 1] == c)
  {
    if s == "" then 0
    else if s[|s| - 1] == c then |s|
    else
      var i := AfterLast(s[..|s| - 1], c);
      assert s[i..] == s[..|s| - 1][i..] + [s[|s| - 1]];
      i
  }

  function ParseHostPort(peerId: Bytes, hostPort: string): Option<Card> {
    var colon := AfterLast(hostPort, ':');
    if colon == 0 then None
    else
      var host, port := hostPort[..colon - 1], hostPort[colon..];
      if ':' in host || !GoodIdentity(peerId) then None
      else
        match Unsigned(10, 65535, port)
        case None => None
        case Some(n) => if n == 0 then None else Some(Card(peerId, host, n))
  }

  function ParseBody(body: string): Option<Card> {
    var at := First(body, '@');
    if at == |body| then None
    else
      var hostPort := body[at + 1..];
      if '@' in hostPort then None
      else
        match DecodeIdentity(body[..at])
        case None => None
        case Some(peerId) => ParseHostPort(peerId, hostPort)
  }

  function Parse(t: string): Option<Card> {
    if SCHEME <= t then ParseBody(t[|SCHEME|..]) else None
  }

  lemma {:induction false} FirstOf(a: string, b: string, c: char)
    requires c !in a
    ensures First(a + ([c] + b), c) == |a|
    decreases |a|
  {
    var s := a + ([c] + b);
    if a != "" {
      assert s[1..] == a[1..] + ([c] + b);
      FirstOf(a[1..], b, c);
    }
  }

  lemma {:induction false} AfterLastOf(a: string, b: string, c: char)
    requires c !in b
    ensures AfterLast(a + ([c] + b), c) == |a| + 1
    decreases |b|
  {
    var s := a + ([c] + b);
    if b != "" {
      assert s[..|s| - 1] == a + ([c] + b[..|b| - 1]);
      AfterLastOf(a, b[..|b| - 1], c);
    }
  }

  /** The parser decides the grammar: it finds a card exactly when the text is one, and that card. */
  lemma ParseMeaning(t: string, c: Card)
    ensures Parse(t) == Some(c) <==> CardText(t, c)
  {
    if Parse(t) == Some(c) { ParseSound(t, c); }
    if CardText(t, c) { ParseComplete(t, c); }
  }

  lemma SliceLacks(s: string, lo: nat, hi: nat, c: char)
    requires c !in s && lo <= hi <= |s|
    ensures c !in s[lo..hi]
  {
  }

  lemma HostPortSound(peerId: Bytes, hostPort: string, c: Card) returns (port: string)
    requires ParseHostPort(peerId, hostPort) == Some(c) && '@' !in hostPort
    ensures hostPort == c.host + (":" + port) && c.peerId == peerId && GoodIdentity(peerId)
    ensures '@' !in c.host && '@' !in port && ':' !in c.host && ':' !in port
    ensures Unsigned(10, 65535, port) == Some(c.port) && c.port > 0
  {
    var colon := AfterLast(hostPort, ':');
    port := hostPort[colon..];
    SliceLacks(hostPort, 0, colon - 1, '@');
    SliceLacks(hostPort, colon, |hostPort|, '@');
  }

  lemma SplitAt(s: string, i: nat, c: char)
    requires i < |s| && s[i] == c
    ensures s == s[..i] + ([c] + s[i + 1..])
  {
  }

  lemma BodySound(body: string, c: Card) returns (hex: string, port: string)
    requires ParseBody(body) == Some(c)
    ensures CardParts(SCHEME + body, c, hex, port)
  {
    var at := First(body, '@');
    SplitAt(body, at, '@');
    hex := body[..at];
    port := HostPortSound(DecodeIdentity(hex).value, body[at + 1..], c);
  }

  lemma ParseSound(t: string, c: Card)
    requires Parse(t) == Some(c)
    ensures CardText(t, c)
  {
    var hex, port := BodySound(t[|SCHEME|..], c);
    assert t == SCHEME + t[|SCHEME|..];
  }

  lemma HostPortComplete(c: Card, port: string)
    requires ':' !in c.host && ':' !in port && GoodIdentity(c.peerId)
    requires Unsigned(10, 65535, port) == Some(c.port) && c.port > 0
    ensures ParseHostPort(c.peerId, c.host + (":" + port)) == Some(c)
  {
    var hostPort := c.host + (":" + port);
    AfterLastOf(c.host, port, ':');
    assert hostPort[..|c.host|] == c.host && hostPort[|c.host| + 1..] == port;
  }

  lemma BodyComplete(hex: string, hostPort: string, c: Card)
    requires '@' !in hex && '@' !in hostPort && DecodeIdentity(hex).Some?
    requires ParseHostPort(DecodeIdentity(hex).value, hostPort) == Some(c)
    ensures ParseBody(hex + ("@" + hostPort)) == Some(c)
  {
    var body := hex + ("@" + hostPort);
    FirstOf(hex, hostPort, '@');
    assert body[..|hex|] == hex && body[|hex| + 1..] == hostPort;
  }

  lemma ParseComplete(t: string, c: Card)
    requires CardText(t, c)
    ensures Parse(t) == Some(c)
  {
    var hex, port :| CardParts(t, c, hex, port);
    var hostPort := c.host + (":" + port);
    HostPortComplete(c, port);
    BodyComplete(hex, hostPort, c);
    assert t[|SCHEME|..] == hex + ("@" + hostPort);
  }

  // ----- the parser as it runs -----

  method DecodeHex(hex: string) returns (r: Option<Bytes>)
    requires |hex| % 2 == 0
    ensures r == DecodePairs(hex)
  {
    var bytes: Bytes := [];
    var i := 0;
    while i < |hex|
      invariant 0 <= i <= |hex| && i % 2 == 0 && Decodes(hex[..i], bytes)
    {
      DecodeStep(hex, i, bytes);
      var b := Unsigned(16, 255, hex[i..i + 2]);
      if b.None? { return None; }
      bytes := bytes + [b.value as byte];
      i := i + 2;
    }
    assert hex[..i] == hex;
    r := Some(bytes);
  }

  /** One turn of the decoding loop. */
  lemma DecodeStep(hex: string, i: nat, bytes: Bytes)
    requires |hex| % 2 == 0 && i % 2 == 0 && i + 2 <= |hex| && Decodes(hex[..i], bytes)
    ensures match Unsigned(16, 255, hex[i..i + 2])
      case None => DecodePairs(hex).None?
      case Some(b) => b < 256 && Decodes(hex[..i + 2], bytes + [b as byte])
  {
    var x, y := hex[i], hex[i + 1];
    assert hex[i..i + 2] == [x, y] && hex[..i + 2] == hex[..i] + [x, y];
    PairMeaning(x, y);
    DecodePush(hex[..i], x, y);
    if PairByte(x, y).None? { BadPairFails(hex, i + 2); }
  }

  lemma {:induction false} BadPairFails(hex: string, i: nat)
    requires |hex| % 2 == 0 && i % 2 == 0 && i <= |hex| && DecodePairs(hex[..i]).None?
    ensures DecodePairs(hex).None?
    decreases |hex|
  {
    if i == |hex| {
      assert hex[..i] == hex;
    } else {
      assert hex[..|hex| - 2][..i] == hex[..i];
      BadPairFails(hex[..|hex| - 2], i);
    }
  }

  method Validate(pl: Platform, raw: string) returns (r: Result)
    ensures r.Ok? ==> Accepts(pl, raw, r.card)
    ensures r.Err? ==> forall c :: !Accepts(pl, raw, c)
  {
    if Utf8Len(raw) > MAX_UTF8 { return Err; }
    var t := Trim(pl, raw);
    if t == "" || !pl.nfkcStable(t) { return Err; }
    for i := 0 to |t|
      invariant forall j :: 0 <= j < i ==> PrintableChar(t[j])
    {
      if t[i] < ' ' || t[i] > '~' { return Err; }
    }
    var parsed := ParseText(t);
    forall c ensures parsed == Some(c) <==> CardText(t, c) { ParseMeaning(t, c); }
    r := if parsed.None? then Err else Ok(parsed.value);
  }

  method ParseText(t: string) returns (r: Option<Card>)
    ensures r == Parse(t)
  {
    if !(SCHEME <= t) { return None; }
    var body := t[|SCHEME|..];
    var at := First(body, '@');
    if at == |body| { return None; }
    var hex, hostPort := body[..at], body[at + 1..];
    if '@' in hostPort { return None; }
    var colon := AfterLast(hostPort, ':');
    if colon == 0 { return None; }
    var host, port := hostPort[..colon - 1], hostPort[colon..];
    if ':' in host { return None; }
    var lower := Lowered(hex);
    if |lower| != 2 * PEER_ID_LEN { return None; }
    if lower != hex && !AllHexDigits(hex) { return None; }
    var bytes := DecodeHex(lower);
    if bytes.None? || !GoodIdentity(bytes.value) { return None; }
    var n := Unsigned(10, 65535, port);
    if n.None? || n.value == 0 { return None; }
    r := Some(Card(bytes.value, host, n.value));
  }

  // ----- print, then parse -----

  /** A card the app may hold: a good identity, a printable host without separators, a real port,
      and a printed form within the input bound. */
  ghost predicate WellFormed(c: Card) {
    && GoodIdentity(c.peerId)
    && Printable(c.host) && '@' !in c.host && ':' !in c.host
    && 0 < c.port <= 65535
    && |Encoded(c)| <= MAX_UTF8
  }

  lemma PairParses(b: byte)
    ensures PairByte(Hex.Pair(b)[0], Hex.Pair(b)[1]) == Some(b)
  {
  }

  predicate LowerHexChar(c: char) { '0' <= c <= '9' || 'a' <= c <= 'f' }

  lemma {:induction false} LowerIsHex(bytes: Bytes)
    ensures forall i :: 0 <= i < |Hex.Lower(bytes)| ==> LowerHexChar(Hex.Lower(bytes)[i])
    decreases |bytes|
  {
    if bytes != [] { LowerIsHex(bytes[..|bytes| - 1]); }
  }

  lemma DecodePush(s: string, x: char, y: char)
    requires |s| % 2 == 0 && DecodePairs(s).Some?
    ensures DecodePairs(s + [x, y]) ==
      match PairByte(x, y)
      case None => None
      case Some(b) => Some(DecodePairs(s).value + [b])
  {
    var t := s + [x, y];
    assert t[..|t| - 2] == s;
  }

  ghost predicate Decodes(s: string, bytes: Bytes) { |s| % 2 == 0 && DecodePairs(s) == Some(bytes) }

  lemma PushPair(s: string, bytes: Bytes, b: byte)
    requires Decodes(s, bytes)
    ensures Decodes(s + Hex.Pair(b), bytes + [b])
  {
    PairParses(b);
    var pair := Hex.Pair(b);
    DecodePush(s, pair[0], pair[1]);
    assert pair == [pair[0], pair[1]];
  }

  lemma LowerPush(bytes: Bytes, b: byte)
    ensures Hex.Lower(bytes + [b]) == Hex.Lower(bytes) + Hex.Pair(b)
  {
    assert (bytes + [b])[..|bytes|] == bytes;
  }

  lemma {:induction false} LowerDecodes(bytes: Bytes)
    ensures Decodes(Hex.Lower(bytes), bytes)
    decreases |bytes|
  {
    if bytes != [] {
      var front, last := bytes[..|bytes| - 1], bytes[|bytes| - 1];
      LowerDecodes(front);
      PushPair(Hex.Lower(front), front, last);
      LowerPush(front, last);
      assert front + [last] == bytes;
    }
  }

  lemma IdentityDecodes(peerId: Bytes)
    requires |peerId| == PEER_ID_LEN
    ensures DecodeIdentity(Hex.Lower(peerId)) == Some(peerId)
  {
    LowerDecodes(peerId);
    LowerIsHex(peerId);
    assert Lowered(Hex.Lower(peerId)) == Hex.Lower(peerId);
  }

  lemma PortParses(n: nat)
    requires n <= 65535
    ensures Unsigned(10, 65535, Decimal(n)) == Some(n)
  {
    DecimalParses(n);
    assert '0' <= Decimal(n)[0] <= '9';
  }

  lemma {:induction false} AsciiLen(s: string)
    requires Printable(s)
    ensures Utf8Len(s) == |s|
    decreases |s|
  {
    if s != "" { AsciiLen(s[..|s| - 1]); }
  }

  lemma EncodedParts(c: Card)
    requires WellFormed(c)
    ensures CardParts(Encoded(c), c, Hex.Lower(c.peerId), Decimal(c.port))
  {
    LowerIsHex(c.peerId);
    IdentityDecodes(c.peerId);
    DecimalParses(c.port);
    PortParses(c.port);
    Join(SCHEME, Hex.Lower(c.peerId), c.host, Decimal(c.port));
  }

  lemma Join(a: string, b: string, c: string, d: string)
    ensures a + b + "@" + c + ":" + d == a + (b + ("@" + (c + (":" + d))))
  {
  }

  lemma PrintableParts(a: string, b: string, c: string, d: string)
    requires Printable(a) && Printable(b) && Printable(c) && Printable(d)
    ensures Printable(a + b + "@" + c + ":" + d)
  {
  }

  lemma EncodedText(c: Card)
    requires WellFormed(c)
    ensures Printable(Encoded(c)) && CardText(Encoded(c), c)
    ensures Encoded(c) != "" && Encoded(c)[0] != ' ' && Encoded(c)[|Encoded(c)| - 1] != ' '
  {
    EncodedParts(c);
    LowerIsHex(c.peerId);
    DecimalParses(c.port);
    PrintableParts(SCHEME, Hex.Lower(c.peerId), c.host, Decimal(c.port));
    assert Encoded(c)[|Encoded(c)| - 1] == Decimal(c.port)[|Decimal(c.port)| - 1];
    assert Encoded(c)[0] == SCHEME[0];
  }

  /** Printing then validating any well-formed card returns it. */
  lemma PrintThenValidate(pl: Platform, c: Card)
    requires Lawful(pl) && WellFormed(c)
    ensures Accepts(pl, Encoded(c), c)
    ensures forall other :: Accepts(pl, Encoded(c), other) ==> other == c
  {
    EncodedText(c);
    AsciiLen(Encoded(c));
    assert Trim(pl, Encoded(c)) == Encoded(c);
    AcceptedCardIsUnique(pl, Encoded(c), c);
  }

  lemma AcceptedCardIsUnique(pl: Platform, raw: string, c: Card)
    requires Accepts(pl, raw, c)
    ensures forall other :: Accepts(pl, raw, other) ==> other == c
  {
    var t := Trim(pl, raw);
    ParseMeaning(t, c);
    forall other | Accepts(pl, raw, other) ensures other == c { ParseMeaning(t, other); }
  }

  // ----- parse, then print -----

  lemma {:induction false} TrimLeftShorter(pl: Platform, s: string)
    ensures Utf8Len(TrimLeft(pl, s)) <= Utf8Len(s)
    decreases |s|
  {
    if s != "" && pl.isSpace(s[0]) {
      TrimLeftShorter(pl, s[1..]);
      TailLen(s);
    }
  }

  lemma {:induction false} TailLen(s: string)
    requires s != ""
    ensures Utf8Len(s[1..]) <= Utf8Len(s)
    decreases |s|
  {
    if |s| > 1 {
      var front := s[..|s| - 1];
      TailLen(front);
      assert s[1..][..|s| - 2] == front[1..];
    }
  }

  lemma {:induction false} TrimRightShorter(pl: Platform, s: string)
    ensures Utf8Len(TrimRight(pl, s)) <= Utf8Len(s)
    decreases |s|
  {
    if s != "" && pl.isSpace(s[|s| - 1]) { TrimRightShorter(pl, s[..|s| - 1]); }
  }

  lemma {:induction false} DecodedLength(s: string)
    requires |s| % 2 == 0 && DecodePairs(s).Some?
    ensures 2 * |DecodePairs(s).value| == |s|
    decreases |s|
  {
    if s != "" { DecodedLength(s[..|s| - 2]); }
  }

  lemma PortIsShortest(s: string, n: nat)
    requires Unsigned(10, 65535, s) == Some(n) && n > 0
    ensures |Decimal(n)| <= |s| && n <= 65535
  {
    DecimalIsShortest(if s[0] == '+' then s[1..] else s, n);
  }

  lemma AcceptedPartsAreWellFormed(t: string, c: Card, hex: string, port: string)
    requires CardParts(t, c, hex, port) && Printable(t) && |t| <= MAX_UTF8
    ensures WellFormed(c)
  {
    DecodedLength(Lowered(hex));
    PortIsShortest(port, c.port);
    assert |Encoded(c)| <= |t|;
    var at := |SCHEME| + |hex| + 1;
    assert c.host == t[at..at + |c.host|];
  }

  /** For every accepted input, re-printing the parsed card validates to the same card. */
  lemma ReprintIsStable(pl: Platform, raw: string, c: Card)
    requires Lawful(pl) && Accepts(pl, raw, c)
    ensures WellFormed(c) && Accepts(pl, Encoded(c), c)
  {
    var t := Trim(pl, raw);
    TrimLeftShorter(pl, raw);
    TrimRightShorter(pl, TrimLeft(pl, raw));
    AsciiLen(t);
    var hex, port :| CardParts(t, c, hex, port);
    AcceptedPartsAreWellFormed(t, c, hex, port);
    PrintThenValidate(pl, c);
  }

  // ----- the documented "66 hexadecimal characters" -----

  lemma {:induction false} PairsAreDigitsOrSigns(s: string, i: nat)
    requires |s| % 2 == 0 && DecodePairs(s).Some? && i < |s|
    ensures Hex.DigitValue(s[i]).Some? || s[i] == '+' || s[i] == '-'
    decreases |s|
  {
    var n := |s| - 2;
    if i < n {
      PairsAreDigitsOrSigns(s[..n], i);
    }
  }

  /** An accepted identity text is made of hexadecimal digits exactly when it holds no sign: the
      digit test is skipped for text that is already lower case. */
  lemma AcceptedIdentityText(hex: string)
    requires DecodeIdentity(hex).Some?
    ensures AllHexDigits(hex) <==> '+' !in hex && '-' !in hex
  {
    if '+' !in hex && '-' !in hex && !AllHexDigits(hex) {
      var i :| 0 <= i < |hex| && Hex.DigitValue(hex[i]).None?;
      PairsAreDigitsOrSigns(Lowered(hex), i);
    }
  }

  /** And signs do occur: a small last byte may be written with a plus sign. */
  lemma SignedIdentityIsAccepted(peerId: Bytes)
    requires |peerId| == PEER_ID_LEN && peerId[32] < 16
    ensures
      var signed := Hex.Lower(peerId[..32]) + ['+', Hex.Digit(peerId[32] as nat)];
      DecodeIdentity(signed) == Some(peerId) && !AllHexDigits(signed)
  {
    var d := Hex.Digit(peerId[32] as nat);
    var signed := Hex.Lower(peerId[..32]) + ['+', d];
    LowerDecodes(peerId[..32]);
    LowerIsHex(peerId[..32]);
    assert signed[..64] == Hex.Lower(peerId[..32]) && signed[64..] == ['+', d];
    assert Lowered(signed) == signed;
    assert peerId[..32] + [peerId[32]] == peerId;
    assert signed[64] == '+';
  }
}
