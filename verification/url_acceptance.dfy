/** Which target URLs are accepted, said about the parsed URL and the numbers behind its host. */
module UrlAcceptance {
  import opened Results
  import opened Text
  import opened TargetUrl
  import opened Ipv6
  import opened Ipv6Hosts

  /** "localhost" in any mix of cases. */
  predicate IsLocalhost(host: string) {
    |host| == 9 && forall i | 0 <= i < 9 :: host[i] == "localhost"[i] || host[i] == "LOCALHOST"[i]
  }

  /** host is these four runs of one to three digits, with dots between. */
  predicate Spells(host: string, labels: seq<string>) {
    && |labels| == 4
    && host == labels[0] + "." + labels[1] + "." + labels[2] + "." + labels[3]
    && forall i | 0 <= i < 4 :: 1 <= |labels[i]| <= 3 && AllDigits(labels[i])
  }

  /** One of the four numbers is no octet, or together they are a number in a private block. */
  predicate PrivateQuad(a: nat, b: nat, c: nat, d: nat) {
    a > 255 || b > 255 || c > 255 || d > 255 || PrivateV4Number(a * 0x100_0000 + b * 0x1_0000 + c * 0x100 + d)
  }

  ghost predicate ReservedQuad(host: string) {
    exists labels | Spells(host, labels) ::
      PrivateQuad(Decimal(labels[0]), Decimal(labels[1]), Decimal(labels[2]), Decimal(labels[3]))
  }

  /** host is the canonical text of p, in brackets as a URL parser gives it, or bare. */
  predicate SpellsAddress(host: string, p: seq<nat>) {
    IsAddress(p) && (host == "[" + Serialise(p) + "]" || host == Serialise(p))
  }

  ghost predicate ReservedAddress(host: string) {
    exists p | SpellsAddress(host, p) :: PrivatePieces(p)
  }

  ghost predicate Reserved(host: string) {
    IsLocalhost(host) || ReservedQuad(host) || ReservedAddress(host)
  }

  /** The hosts a URL parser gives are among these: names and dotted quads, and IPv6 addresses in canonical form
      (section 3.5 of the WHATWG URL Standard, "Host serializing"). */
  ghost predicate ParserHost(host: string) {
    (':' !in host && '[' !in host) || exists p :: SpellsAddress(host, p)
  }

  /** Every reserved host, and of the hosts a URL parser gives no other. */
  ghost predicate Refused(host: string) {
    Reserved(host) || (!ParserHost(host) && IsPrivateOrReservedHost(host))
  }

  // ---------------------------------------------------------------- the host test

  lemma CharOfLocalhost(c: char, lower: char, upper: char)
    requires 'a' <= lower <= 'z' && 'A' <= upper && lower as int - upper as int == 'a' as int - 'A' as int
    ensures LowerChar(c) == lower <==> c == lower || c == upper
  {
  }

  lemma LocalhostInAnyCase(host: string)
    ensures ToLower(host) == "localhost" <==> IsLocalhost(host)
  {
    if |host| == 9 {
      forall i | 0 <= i < 9
        ensures ToLower(host)[i] == "localhost"[i] <==> host[i] == "localhost"[i] || host[i] == "LOCALHOST"[i]
      {
        CharOfLocalhost(host[i], "localhost"[i], "LOCALHOST"[i]);
      }
    }
  }

  lemma JoinFour(labels: seq<string>)
    requires |labels| == 4
    ensures Join(labels, ".") == labels[0] + "." + labels[1] + "." + labels[2] + "." + labels[3]
  {
    assert labels[1..][1..] == labels[2..] && labels[2..][1..] == labels[3..];
    assert Join(labels[3..], ".") == labels[3];
    assert Join(labels[2..], ".") == labels[2] + "." + labels[3];
    assert Join(labels[1..], ".") == labels[1] + "." + (labels[2] + "." + labels[3]);
  }

  /** The pattern matches exactly the dotted quads, and the labels are its parts. */
  lemma {:induction false} QuadIsSpelled(host: string)
    ensures IsIPv4(host) ==> Spells(host, Split(host, '.'))
    ensures forall labels | Spells(host, labels) :: IsIPv4(host) && labels == Split(host, '.')
  {
    if IsIPv4(host) {
      JoinSplit(host, '.');
      JoinFour(Split(host, '.'));
    }
    forall labels | Spells(host, labels) ensures IsIPv4(host) && labels == Split(host, '.') {
      JoinFour(labels);
      forall i | 0 <= i < 4 ensures '.' !in labels[i] {
        assert forall j | 0 <= j < |labels[i]| :: IsDigit(labels[i][j]);
      }
      SplitJoin(labels, '.');
    }
  }

  lemma QuadTest(host: string)
    requires IsIPv4(host)
    ensures IsPrivateOrReservedHost(host) <==> ReservedQuad(host)
  {
    QuadIsSpelled(host);
    QuadHostIsNumeric(host);
    assert Spells(host, Split(host, '.'));
  }

  lemma {:induction false} AddressTest(host: string, p: seq<nat>)
    requires SpellsAddress(host, p)
    ensures IsPrivateOrReservedHost(host) <==> ReservedAddress(host)
    ensures !IsLocalhost(host) && !IsIPv4(host)
  {
    TextTestIsNumericTest(p);
    forall q | SpellsAddress(host, q) ensures q == p {
      OneAddress(host, p, q);
    }
    AddressIsNoName(host, p);
  }

  lemma {:induction false} OneAddress(host: string, p: seq<nat>, q: seq<nat>)
    requires SpellsAddress(host, p) && SpellsAddress(host, q)
    ensures p == q
  {
    AddressChars(p);
    AddressChars(q);
    SameInside(host, Serialise(p), Serialise(q));
    SerialiseInjective(p, q);
  }

  lemma SameInside(host: string, a: string, b: string)
    requires (host == "[" + a + "]" || host == a) && (host == "[" + b + "]" || host == b)
    requires a != "" && a[0] != '[' && b != "" && b[0] != '['
    ensures a == b
  {
    if host == a || host == b {
      assert host[0] != '[';
    } else {
      assert host[1..|host| - 1] == a && host[1..|host| - 1] == b;
    }
  }

  lemma {:induction false} AddressIsNoName(host: string, p: seq<nat>)
    requires SpellsAddress(host, p)
    ensures ':' in host && !IsLocalhost(host) && !IsIPv4(host)
  {
    AddressChars(p);
    assert ':' in host;
    if IsIPv4(host) {
      QuadHasNoMarks(host);
      assert false;
    }
    if IsLocalhost(host) {
      LocalhostHasNoColon(host);
      assert false;
    }
  }

  lemma LocalhostHasNoColon(host: string)
    requires IsLocalhost(host)
    ensures ':' !in host
  {
  }

  lemma NameTest(host: string)
    requires ':' !in host && '[' !in host && !IsIPv4(host)
    ensures IsPrivateOrReservedHost(host) <==> IsLocalhost(host)
  {
    LocalhostInAnyCase(host);
    LowerKeepsMarks(host);
    NotAQuad(host);
  }

  lemma LowerKeepsMarks(host: string)
    requires ':' !in host && '[' !in host
    ensures ':' !in ToLower(host) && '[' !in ToLower(host)
  {
    assert forall i | 0 <= i < |host| :: ToLower(host)[i] == LowerChar(host[i]);
  }

  /** Lower-casing makes no dotted quad. */
  lemma {:induction false} NotAQuad(host: string)
    requires !IsIPv4(host)
    ensures !IsIPv4(ToLower(host))
  {
    var low := ToLower(host);
    if IsIPv4(low) {
      LowerOfQuad(host, low);
      assert false;
    }
  }

  lemma {:induction false} LowerOfQuad(host: string, low: string)
    requires low == ToLower(host) && IsIPv4(low)
    ensures host == low
  {
    JoinSplit(low, '.');
    JoinedChars(Split(low, '.'));
    forall i | 0 <= i < |host| ensures host[i] == low[i] {
      assert low[i] == LowerChar(host[i]);
    }
  }

  lemma NothingSpelled(host: string)
    requires !IsIPv4(host)
    ensures !ReservedQuad(host)
  {
    QuadIsSpelled(host);
  }

  lemma NothingBracketed(host: string)
    requires ':' !in host
    ensures forall p :: !SpellsAddress(host, p)
  {
    forall p: seq<nat> ensures !SpellsAddress(host, p) {
      if SpellsAddress(host, p) {
        AddressIsNoName(host, p);
        assert false;
      }
    }
  }

  lemma {:induction false} PlainHostTest(host: string)
    requires ':' !in host && '[' !in host
    ensures IsPrivateOrReservedHost(host) <==> Reserved(host)
  {
    NothingBracketed(host);
    if IsIPv4(host) {
      QuadTest(host);
      QuadIsPlain(host);
      LocalhostInAnyCase(host);
    } else {
      NameTest(host);
      NothingSpelled(host);
    }
  }

  lemma QuadHasNoMarks(host: string)
    requires IsIPv4(host)
    ensures ':' !in host && '[' !in host
  {
    JoinSplit(host, '.');
    JoinedChars(Split(host, '.'));
  }

  /** The host test refuses every reserved host, and accepts every other host a URL parser gives. */
  lemma {:induction false} HostTestIsExact(host: string)
    ensures IsPrivateOrReservedHost(host) <==> Refused(host)
    ensures ParserHost(host) ==> (IsPrivateOrReservedHost(host) <==> Reserved(host))
  {
    LocalhostInAnyCase(host);
    if ':' !in host && '[' !in host {
      PlainHostTest(host);
    } else if p :| SpellsAddress(host, p) {
      AddressTest(host, p);
      NothingSpelled(host);
    } else {
      if IsIPv4(host) {
        QuadHasNoMarks(host);
        assert false;
      }
      NothingSpelled(host);
    }
  }

  // ---------------------------------------------------------------- whole URLs

  /** An https URL without userinfo whose host is not refused. */
  ghost predicate SafeUrl(parse: UrlParser, text: string) {
    && parse(text).Some?
    && var url := parse(text).value;
    && url.protocol == "https:" && url.username == "" && url.password == "" && !Refused(url.hostname)
  }

  /** What may be asked for: a safe URL of at most 2048 characters. */
  ghost predicate SafeTarget(parse: UrlParser, text: string) {
    |text| <= 2048 && SafeUrl(parse, text)
  }

  /** What may be stored: a safe URL in normal form. */
  ghost predicate StoredUrl(parse: UrlParser, text: string) {
    SafeUrl(parse, text) && parse(text).value.href == text
  }

  /** The first thing wrong with a URL that is not safe. */
  function Objection(parse: UrlParser, text: string): UrlErrorCode {
    if |text| > 2048 then UrlTooLong
    else if parse(text).None? then InvalidUrlFormat
    else if parse(text).value.protocol != "https:" then HttpsRequired
    else if parse(text).value.username + parse(text).value.password != "" then CredentialsNotAllowed
    else PrivateHostNotAllowed
  }

  /** Accepted, as its normal form, exactly if safe and short enough; otherwise refused for the first thing wrong. */
  lemma UrlIsAcceptedIff(parse: UrlParser, text: string)
    ensures FromString(parse, text) ==
              if SafeTarget(parse, text) then Ok(parse(text).value.href) else Err(Objection(parse, text))
  {
    if parse(text).Some? {
      HostTestIsExact(parse(text).value.hostname);
    }
  }

  /** What the checks after the length check leave as it is. */
  lemma StoredUrlIsChecked(parse: UrlParser, text: string)
    ensures Check(parse, text) == Ok(text) <==> StoredUrl(parse, text)
  {
    if parse(text).Some? {
      HostTestIsExact(parse(text).value.hostname);
    }
  }

  /** An accepted URL is stored in a form that is safe itself. */
  lemma AcceptedIsStored(parse: UrlParser, text: string)
    requires Normalising(parse) && SafeTarget(parse, text)
    ensures StoredUrl(parse, parse(text).value.href)
  {
    assert parse(parse(text).value.href) == parse(text);
  }
}
