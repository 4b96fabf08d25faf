/** `TargetUrl.fromString` and the host classification behind it. The URL parser itself is a parameter. */
module TargetUrl {
  import opened Results
  import opened Text

  const MAX_LENGTH: nat := 2048

  datatype UrlErrorCode = UrlTooLong | InvalidUrlFormat | HttpsRequired | CredentialsNotAllowed | PrivateHostNotAllowed

  /** The parts of `new URL(value)` the code looks at; href is what `toString()` returns. */
  datatype ParsedUrl = ParsedUrl(protocol: string, username: string, password: string, hostname: string, href: string)

  /** `new URL(value)`: None when it throws. */
  type UrlParser = string -> Option<ParsedUrl>

  function LowerChar(c: char): char {
    if 'A' <= c <= 'Z' then c - 'A' + 'a' else c
  }

  function ToLower(s: string): string {
    seq(|s|, i requires 0 <= i < |s| => LowerChar(s[i]))
  }

  /** `/^\d{1,3}\.\d{1,3}\.\d{1,3}\.\d{1,3}$/` */
  predicate IsIPv4(host: string) {
    var parts := Split(host, '.');
    |parts| == 4 && forall i | 0 <= i < 4 :: 1 <= |parts[i]| <= 3 && AllDigits(parts[i])
  }

  /** `Number(s)` on the labels `IsIPv4` lets through; None is NaN. */
  function Number(s: string): Option<nat> {
    if AllDigits(s) then Some(Decimal(s)) else None
  }

  predicate PrivateOctets(a: nat, b: Option<nat>) {
    || a == 0
    || a == 10
    || a == 127
    || (a == 169 && b == Some(254))
    || (a == 172 && b.Some? && 16 <= b.value <= 31)
    || (a == 192 && b == Some(168))
  }

  predicate IsPrivateIPv4(host: string) {
    var parts := Split(host, '.');
    if exists i | 0 <= i < |parts| :: Number(parts[i]).None? || Number(parts[i]).value > 255 then true
    else PrivateOctets(Decimal(parts[0]), if |parts| > 1 then Some(Decimal(parts[1])) else None)
  }

  predicate IsHexGroup(s: string) {
    1 <= |s| <= 4 && AllLowerHex(s)
  }

  /** `[(hi >> 8) & 0xff, hi & 0xff, (lo >> 8) & 0xff, lo & 0xff].join('.')` */
  function Dotted(hi: nat, lo: nat): string {
    Join([DecimalText(hi / 256 % 256), DecimalText(hi % 256), DecimalText(lo / 256 % 256), DecimalText(lo % 256)], ".")
  }

  predicate IsPrivateIPv6(host: string) {
    var n := ToLower(host);
    if n == "::1" || n == "::" then true
    else if "fe80:" <= n then true
    else if "fc" <= n || "fd" <= n then true
    else if "::ffff:" <= n then IsPrivateMapped(n[7..])
    else false
  }

  /** What follows `::ffff:` is a dotted quad, or two hex groups, or not matched by either pattern. */
  predicate IsPrivateMapped(rest: string) {
    var groups := Split(rest, ':');
    if IsIPv4(rest) then IsPrivateIPv4(rest)
    else if |groups| == 2 && IsHexGroup(groups[0]) && IsHexGroup(groups[1]) then
      IsPrivateIPv4(Dotted(HexValue(groups[0]), HexValue(groups[1])))
    else false
  }

  predicate IsPrivateOrReservedHost(hostname: string) {
    var host := ToLower(hostname);
    if host == "localhost" then true
    else if |host| >= 2 && host[0] == '[' && host[|host| - 1] == ']' then IsPrivateIPv6(host[1..|host| - 1])
    else if IsIPv4(host) then IsPrivateIPv4(host)
    else if ':' in host then IsPrivateIPv6(host)
    else false
  }

  /** The checks after the length check; Ok carries the normalised text. */
  function Check(parse: UrlParser, value: string): Result<string, UrlErrorCode> {
    match parse(value)
    case None => Err(InvalidUrlFormat)
    case Some(url) =>
      if url.protocol != "https:" then Err(HttpsRequired)
      else if url.username != "" || url.password != "" then Err(CredentialsNotAllowed)
      else if IsPrivateOrReservedHost(url.hostname) then Err(PrivateHostNotAllowed)
      else Ok(url.href)
  }

  function FromString(parse: UrlParser, value: string): Result<string, UrlErrorCode> {
    if |value| > MAX_LENGTH then Err(UrlTooLong) else Check(parse, value)
  }

  /** Serialising a parsed URL and parsing it again changes nothing. */
  ghost predicate Normalising(parse: UrlParser) {
    forall v :: parse(v).Some? ==> parse(parse(v).value.href) == parse(v)
  }

  /** A normalised URL re-validates to itself exactly when it is short enough: the limit was checked on
      the text the caller sent, not on this one. */
  lemma RevalidationIsLength(parse: UrlParser, value: string)
    requires Normalising(parse) && FromString(parse, value).Ok?
    ensures var url := FromString(parse, value).value;
            && Check(parse, url) == Ok(url)
            && FromString(parse, url) == if |url| <= MAX_LENGTH then Ok(url) else Err(UrlTooLong)
  {
    assert parse(parse(value).value.href) == parse(value);
  }

  // ---------------------------------------------------------------- IPv4 as a number

  /** 0/8, 10/8, 127/8, 169.254/16, 172.16/12 and 192.168/16. */
  predicate PrivateV4Number(n: nat) {
    || n < 0x0100_0000
    || 0x0A00_0000 <= n < 0x0B00_0000
    || 0x7F00_0000 <= n < 0x8000_0000
    || 0xA9FE_0000 <= n < 0xA9FF_0000
    || 0xAC10_0000 <= n < 0xAC20_0000
    || 0xC0A8_0000 <= n < 0xC0A9_0000
  }

  lemma DottedParts(hi: nat, lo: nat)
    ensures Split(Dotted(hi, lo), '.') ==
            [DecimalText(hi / 256 % 256), DecimalText(hi % 256), DecimalText(lo / 256 % 256), DecimalText(lo % 256)]
  {
    SplitJoin([DecimalText(hi / 256 % 256), DecimalText(hi % 256), DecimalText(lo / 256 % 256), DecimalText(lo % 256)], '.');
  }

  lemma OctetsAreBlocks(a: nat, b: nat, c: nat, d: nat)
    requires a < 256 && b < 256 && c < 256 && d < 256
    ensures PrivateOctets(a, Some(b)) <==> PrivateV4Number((a * 256 + b) * 0x10000 + (c * 256 + d))
  {
  }

  lemma OctetText(n: nat)
    requires n < 256
    ensures var t := DecimalText(n); 1 <= |t| <= 3 && AllDigits(t) && Number(t) == Some(n)
  {
    DecimalRoundTrip(n);
  }

  lemma HighLow(n: nat)
    requires n < 0x10000
    ensures n == (n / 256) * 256 + n % 256 && n / 256 < 256 && n / 256 % 256 == n / 256
  {
  }

  /** Decimal join, split and Number again lose nothing: the octet test is the block test. */
  lemma {:induction false} DottedIsNumeric(hi: nat, lo: nat)
    requires hi < 0x10000 && lo < 0x10000
    ensures IsPrivateIPv4(Dotted(hi, lo)) <==> PrivateV4Number(hi * 0x10000 + lo)
    ensures IsIPv4(Dotted(hi, lo))
  {
    HighLow(hi);
    HighLow(lo);
    var a, b, c, d := hi / 256, hi % 256, lo / 256, lo % 256;
    DottedParts(hi, lo);
    OctetText(a);
    OctetText(b);
    OctetText(c);
    OctetText(d);
    OctetsAreBlocks(a, b, c, d);
    var parts := Split(Dotted(hi, lo), '.');
    assert parts[0] == DecimalText(a) && parts[1] == DecimalText(b);
    assert parts[2] == DecimalText(c) && parts[3] == DecimalText(d);
  }

  lemma LowerUnchanged(s: string)
    requires forall i | 0 <= i < |s| :: !('A' <= s[i] <= 'Z')
    ensures ToLower(s) == s
  {
  }

  lemma MappedPrefix(host: string, rest: string)
    requires rest != "" && ToLower(host) == "::ffff:" + rest
    ensures IsPrivateIPv6(host) <==> IsPrivateMapped(rest)
  {
    var n := "::ffff:" + rest;
    assert n[7..] == rest && n[0] == ':' && n[2] == 'f' && |n| > 7;
  }

  lemma SplitTwoGroups(h: string, l: string)
    requires IsHexGroup(h) && IsHexGroup(l)
    ensures Split(h + ":" + l, ':') == [h, l]
    ensures !IsIPv4(h + ":" + l)
  {
    assert Join([h, l], ":") == h + ":" + l by {
      assert [h, l][1..] == [l];
    }
    SplitJoin([h, l], ':');
    SplitPlain(h + ":" + l, '.');
  }

  /** Any spelling of `::ffff:h:l`, in either case and with one to four hex digits in each group, is classified
      as the IPv4 number h * 65536 + l. */
  lemma {:induction false} MappedIsExact(host: string, h: string, l: string)
    requires IsHexGroup(h) && IsHexGroup(l) && ToLower(host) == "::ffff:" + h + ":" + l
    ensures IsPrivateIPv6(host) <==> PrivateV4Number(HexValue(h) * 0x10000 + HexValue(l))
  {
    var rest := h + ":" + l;
    assert "::ffff:" + h + ":" + l == "::ffff:" + rest;
    MappedPrefix(host, rest);
    SplitTwoGroups(h, l);
    HexGroupBound(h);
    HexGroupBound(l);
    DottedIsNumeric(HexValue(h), HexValue(l));
  }

  lemma HexGroupBound(s: string)
    requires IsHexGroup(s)
    ensures HexValue(s) < 0x10000
  {
    ValueBound(s, 4);
  }

  lemma {:induction false} ValueBound(s: string, digits: nat)
    requires |s| <= digits <= 4
    ensures HexValue(s) < if digits == 0 then 1 else if digits == 1 then 16 else if digits == 2 then 256
                          else if digits == 3 then 4096 else 65536
  {
    if s != "" {
      ValueBound(s[..|s| - 1], digits - 1);
    }
  }

  /** The four numbers a dotted quad spells, whatever leading zeros it has. */
  function Octets(host: string): seq<nat>
    requires IsIPv4(host)
  {
    var parts := Split(host, '.');
    [Decimal(parts[0]), Decimal(parts[1]), Decimal(parts[2]), Decimal(parts[3])]
  }

  lemma QuadIsPlain(host: string)
    requires IsIPv4(host)
    ensures ToLower(host) == host && host != "localhost" && host[0] != '['
  {
    JoinSplit(host, '.');
    JoinedChars(Split(host, '.'));
    LowerUnchanged(host);
    assert host != "";
    assert host[0] != "localhost"[0];
  }

  /** Every host text the pattern matches is refused exactly when an octet is out of range or the four of them
      are a number in a private block. */
  lemma QuadHostIsNumeric(host: string)
    requires IsIPv4(host)
    ensures var o := Octets(host);
            IsPrivateOrReservedHost(host) <==>
              || o[0] > 255 || o[1] > 255 || o[2] > 255 || o[3] > 255
              || PrivateV4Number((o[0] * 256 + o[1]) * 0x10000 + (o[2] * 256 + o[3]))
  {
    QuadIsPlain(host);
    var o := Octets(host);
    if o[0] <= 255 && o[1] <= 255 && o[2] <= 255 && o[3] <= 255 {
      OctetsAreBlocks(o[0], o[1], o[2], o[3]);
    }
  }

  /** A canonical dotted quad is refused exactly when its number lies in a private block. */
  lemma DottedHostIsNumeric(hi: nat, lo: nat)
    requires hi < 0x10000 && lo < 0x10000
    ensures IsPrivateOrReservedHost(Dotted(hi, lo)) <==> PrivateV4Number(hi * 0x10000 + lo)
  {
    DottedIsNumeric(hi, lo);
    QuadIsPlain(Dotted(hi, lo));
  }

  lemma {:induction false} JoinedChars(parts: seq<string>)
    requires forall i | 0 <= i < |parts| :: AllDigits(parts[i])
    ensures forall i | 0 <= i < |Join(parts, ".")| :: IsDigit(Join(parts, ".")[i]) || Join(parts, ".")[i] == '.'
  {
    if |parts| > 1 {
      JoinedChars(parts[1..]);
    }
  }
}
