/** What the text tests of `isPrivateIPv6` decide, said about the eight pieces of the address. */
module Ipv6Hosts {
  import opened Text
  import opened TargetUrl
  import opened Ipv6

  /** The first pieces whose shortest hex text starts with "fc" or "fd". */
  predicate UniqueLocalText(n: nat) {
    n == 0xfc || n == 0xfd || 0xfc0 <= n <= 0xfdf || 0xfc00 <= n <= 0xfdff
  }

  predicate LeadingZeros(p: seq<nat>, n: nat)
    requires n <= |p|
  {
    forall i | 0 <= i < n :: p[i] == 0
  }

  /** ::ffff:0:0/96 */
  predicate IsMapped(p: seq<nat>)
    requires |p| == 8
  {
    LeadingZeros(p, 5) && p[5] == 0xffff
  }

  predicate PrivatePieces(p: seq<nat>)
    requires |p| == 8
  {
    || LeadingZeros(p, 8)
    || (LeadingZeros(p, 7) && p[7] == 1)
    || p[0] == 0xfe80
    || UniqueLocalText(p[0])
    || (IsMapped(p) && PrivateV4Number(p[6] * 0x10000 + p[7]))
  }

  // ---------------------------------------------------------------- how a text starts

  lemma HexHead(n: nat, rest: string)
    requires n < 0x10000
    ensures var text := HexText(n) + ":" + rest;
            && ("fe80:" <= text <==> n == 0xfe80)
            && ("fc" <= text || "fd" <= text <==> UniqueLocalText(n))
            && text[0] != ':'
  {
    HeadLinkLocal(n, rest);
    HeadUniqueLocal(n, rest);
    TextFollows(HexText(n), rest);
  }

  lemma HeadUniqueLocal(n: nat, rest: string)
    requires n < 0x10000
    ensures var text := HexText(n) + ":" + rest;
            "fc" <= text || "fd" <= text <==> UniqueLocalText(n)
  {
    var text := HexText(n) + ":" + rest;
    HexTextDigits(n);
    TextFollows(HexText(n), rest);
    if n < 0x10 {
      assert text[1] == ':';
    } else if n < 0x100 {
      HeadTwo(n / 16, n % 16, text);
    } else if n < 0x1000 {
      HeadTwo(n / 256, n / 16 % 16, text);
    } else {
      HeadTwo(n / 4096, n / 256 % 16, text);
    }
  }

  lemma HeadLinkLocal(n: nat, rest: string)
    requires n < 0x10000
    ensures var text := HexText(n) + ":" + rest;
            "fe80:" <= text <==> n == 0xfe80
  {
    var text := HexText(n) + ":" + rest;
    HexTextDigits(n);
    TextFollows(HexText(n), rest);
    if n < 0x1000 {
      EarlyColon(text, |HexText(n)|);
    } else {
      HeadFour(n, text);
    }
  }

  lemma EarlyColon(text: string, k: nat)
    requires 1 <= k <= 3 && k < |text| && text[k] == ':'
    ensures !("fe80:" <= text)
  {
  }

  lemma TextFollows(digits: string, rest: string)
    requires digits != ""
    ensures var text := digits + ":" + rest;
            |text| > |digits| && text[|digits|] == ':' && forall i | 0 <= i < |digits| :: text[i] == digits[i]
  {
  }

  lemma HeadTwo(a: nat, b: nat, text: string)
    requires a < 16 && b < 16 && |text| >= 2 && text[0] == DigitChar(a) && text[1] == DigitChar(b)
    ensures "fc" <= text || "fd" <= text <==> a == 15 && (b == 12 || b == 13)
  {
  }

  lemma HeadFour(n: nat, text: string)
    requires 0x1000 <= n < 0x10000 && |text| >= 5
    requires text[0] == DigitChar(n / 4096) && text[1] == DigitChar(n / 256 % 16)
    requires text[2] == DigitChar(n / 16 % 16) && text[3] == DigitChar(n % 16) && text[4] == ':'
    ensures "fe80:" <= text <==> n == 0xfe80
  {
  }

  lemma TextHead(p: seq<nat>)
    requires IsAddress(p)
    ensures ("fe80:" <= Serialise(p) <==> p[0] == 0xfe80)
    ensures ("fc" <= Serialise(p) || "fd" <= Serialise(p) <==> UniqueLocalText(p[0]))
    ensures ":" <= Serialise(p) ==> p[0] == 0
  {
    var c := Compressed(p, 0);
    if c == 0 {
      CompressedIsLongest(p, 0, 0);
      SerialiseLeading(p, Tail(p, ZeroRun(p, 0)));
      assert Serialise(p)[0] == ':';
    } else {
      HexHead(p[0], Emit(p, c, 1, false));
      assert Serialise(p) == HexText(p[0]) + ":" + Emit(p, c, 1, false);
    }
  }

  lemma {:induction false} JoinLower(tokens: seq<string>)
    requires Plain(tokens)
    ensures forall i | 0 <= i < |Join(tokens, ":")| :: IsLowerHex(Join(tokens, ":")[i]) || Join(tokens, ":")[i] == ':'
  {
    if |tokens| > 1 {
      JoinLower(tokens[1..]);
    }
  }

  lemma TextIsLower(p: seq<nat>)
    requires |p| == 8
    ensures ToLower(Serialise(p)) == Serialise(p)
    ensures '.' !in Serialise(p)
  {
    SerialiseIsJoin(p);
    TokensPlain(p);
    JoinLower(Tokens(p));
    LowerUnchanged(Serialise(p));
  }

  // ---------------------------------------------------------------- whole texts

  /** A long run at the front is the one that is compressed. */
  lemma LongFrontRun(p: seq<nat>, n: nat)
    requires |p| == 8 && 5 <= n <= 8 && LeadingZeros(p, n) && (n < 8 ==> p[n] != 0)
    ensures ZeroRun(p, 0) == n && Compressed(p, 0) == 0
  {
    ZeroRunIsRun(p, 0);
    CompressedIsLongest(p, 0, 0);
  }

  lemma ExpandFromStart(tokens: seq<string>)
    requires tokens != [] && tokens[0] == ""
    ensures Expand(tokens) == Zeros(8 - |NonEmpty(tokens)|) + Values(NonEmpty(tokens))
  {
    FirstEmptyAt(tokens, 0);
    assert tokens[..0] == [] && tokens[0..] == tokens && Values([]) == [];
    var zeros := Zeros(8 - |NonEmpty(tokens)|);
    assert [] + zeros == zeros;
  }

  lemma LeadingTokens(rest: seq<string>, tokens: seq<string>)
    requires tokens == [""] + ([""] + rest)
    ensures Expand(tokens) == Zeros(8 - |NonEmpty(rest)|) + Values(NonEmpty(rest))
  {
    NonEmptyLeading(rest);
    ExpandFromStart(tokens);
  }

  lemma NonEmptyLeading(rest: seq<string>)
    ensures NonEmpty([""] + ([""] + rest)) == NonEmpty(rest)
  {
    NonEmptySkips(rest);
    NonEmptySkips([""] + rest);
  }

  /** "::" followed by other groups stands for leading zeros. */
  lemma ReadLeading(groups: seq<string>)
    requires groups != [] && forall i | 0 <= i < |groups| :: AllLowerHex(groups[i])
    ensures Parse("::" + Join(groups, ":")) == Zeros(8 - |NonEmpty(groups)|) + Values(NonEmpty(groups))
  {
    var tokens := [""] + ([""] + groups);
    LeadingJoin(groups);
    forall i | 0 <= i < |tokens| ensures ':' !in tokens[i] {
      if i >= 2 {
        HexHasNoSeparator(groups[i - 2]);
      }
    }
    SplitJoin(tokens, ':');
    LeadingTokens(groups, tokens);
  }

  lemma UnspecifiedText(p: seq<nat>)
    requires |p| == 8
    ensures Serialise(p) == "::" <==> LeadingZeros(p, 8)
  {
    if LeadingZeros(p, 8) {
      LongFrontRun(p, 8);
      SerialiseLeading(p, [""]);
    }
    if Serialise(p) == "::" {
      SerialiseRoundTrip(p);
      ReadLeading([""]);
      NonEmptySkips([]);
      assert [""] + [] == [""];
    }
  }

  lemma ReadLoopback()
    ensures Parse("::1") == Zeros(7) + [1]
  {
    assert "1"[..0] == "";
    ReadLeading(["1"]);
    NonEmptyAll(["1"]);
    assert Values(["1"]) == [1];
    assert "::" + Join(["1"], ":") == "::1";
  }

  lemma WriteLoopback(p: seq<nat>)
    requires |p| == 8 && LeadingZeros(p, 7) && p[7] == 1
    ensures Serialise(p) == "::1"
  {
    LongFrontRun(p, 7);
    assert p[7..] == [1];
    assert HexTexts([1]) == ["1"];
    SerialiseLeading(p, ["1"]);
    assert "::" + Join(["1"], ":") == "::1";
  }

  lemma LoopbackText(p: seq<nat>)
    requires |p| == 8
    ensures Serialise(p) == "::1" <==> LeadingZeros(p, 7) && p[7] == 1
  {
    if LeadingZeros(p, 7) && p[7] == 1 {
      WriteLoopback(p);
    }
    if Serialise(p) == "::1" {
      SerialiseRoundTrip(p);
      ReadLoopback();
    }
  }

  lemma ValueOfFfff()
    ensures HexValue("ffff") == 0xffff
  {
    assert "ffff"[..3] == "fff" && "fff"[..2] == "ff" && "ff"[..1] == "f" && "f"[..0] == "";
  }

  lemma JoinMapped(h: string, l: string)
    ensures "::" + Join(["ffff", h, l], ":") == "::ffff:" + (h + ":" + l)
    ensures Join([h, l], ":") == h + ":" + l
  {
    assert [h, l] == [h] + [l] && ["ffff", h, l] == ["ffff"] + [h, l];
    JoinCons(h, [l]);
    JoinCons("ffff", [h, l]);
    assert "::" + ("ffff" + ":" + (h + ":" + l)) == "::ffff:" + (h + ":" + l);
  }

  lemma {:induction false} ReadMapped(h: string, l: string)
    requires IsHexGroup(h) && IsHexGroup(l)
    ensures Parse("::ffff:" + (h + ":" + l)) == Zeros(5) + [0xffff, HexValue(h), HexValue(l)]
  {
    var groups := ["ffff", h, l];
    JoinMapped(h, l);
    NonEmptyAll(groups);
    ReadLeading(groups);
    assert Values(groups) == [0xffff, HexValue(h), HexValue(l)] by {
      ValueOfFfff();
    }
  }

  lemma WriteMapped(p: seq<nat>)
    requires IsAddress(p) && IsMapped(p)
    ensures Serialise(p) == "::ffff:" + (HexText(p[6]) + ":" + HexText(p[7]))
    ensures IsHexGroup(HexText(p[6])) && IsHexGroup(HexText(p[7]))
  {
    LongFrontRun(p, 5);
    HexTextDigits(p[6]);
    HexTextDigits(p[7]);
    MappedGroups(p);
    SerialiseLeading(p, ["ffff", HexText(p[6]), HexText(p[7])]);
    JoinMapped(HexText(p[6]), HexText(p[7]));
  }

  lemma MappedGroups(p: seq<nat>)
    requires |p| == 8 && p[5] == 0xffff
    ensures Tail(p, 5) == ["ffff", HexText(p[6]), HexText(p[7])]
  {
    HexTextDigits(0xffff);
    assert HexText(0xffff) == "ffff";
    assert p[5..] == [0xffff, p[6], p[7]];
  }

  lemma PairFromSplit(rest: string)
    requires |Split(rest, ':')| == 2
    ensures rest == Split(rest, ':')[0] + ":" + Split(rest, ':')[1]
  {
    var groups := Split(rest, ':');
    JoinSplit(rest, ':');
    JoinMapped(groups[0], groups[1]);
    assert groups == [groups[0], groups[1]];
  }

  /** After "::ffff:" the canonical text matches the two-group pattern only for a mapped address, whose
      low pieces it spells, and always for one. */
  lemma {:induction false} MappedDecision(p: seq<nat>, rest: string)
    requires IsAddress(p) && Serialise(p) == "::ffff:" + rest
    ensures IsPrivateMapped(rest) <==> IsMapped(p) && PrivateV4Number(p[6] * 0x10000 + p[7])
  {
    var groups := Split(rest, ':');
    TextIsLower(p);
    assert '.' !in rest by {
      assert forall i | 0 <= i < |rest| :: rest[i] == Serialise(p)[7 + i];
    }
    SplitPlain(rest, '.');
    if IsMapped(p) {
      WriteMapped(p);
      assert rest == Serialise(p)[7..];
      assert HexText(p[6]) + ":" + HexText(p[7]) == Serialise(p)[7..];
      SplitTwoGroups(HexText(p[6]), HexText(p[7]));
    }
    if |groups| == 2 && IsHexGroup(groups[0]) && IsHexGroup(groups[1]) {
      PairFromSplit(rest);
      ReadMapped(groups[0], groups[1]);
      SerialiseRoundTrip(p);
      HexGroupBound(groups[0]);
      HexGroupBound(groups[1]);
      DottedIsNumeric(HexValue(groups[0]), HexValue(groups[1]));
    }
  }

  /** For every address, the prefix tests and patterns on its canonical text decide exactly the numeric
      predicate on its pieces. */
  lemma {:induction false} TextTestIsNumericTest(p: seq<nat>)
    requires IsAddress(p)
    ensures IsPrivateIPv6(Serialise(p)) <==> PrivatePieces(p)
    ensures IsPrivateOrReservedHost("[" + Serialise(p) + "]") <==> PrivatePieces(p)
    ensures IsPrivateOrReservedHost(Serialise(p)) <==> PrivatePieces(p)
  {
    var text := Serialise(p);
    TextIsLower(p);
    UnspecifiedText(p);
    LoopbackText(p);
    TextHead(p);
    if "::ffff:" <= text {
      assert text == "::ffff:" + text[7..];
      MappedDecision(p, text[7..]);
    } else if IsMapped(p) {
      WriteMapped(p);
      assert false;
    }
    Bracketed(text);
    Bare(p);
  }

  lemma JoinHasSeparator(parts: seq<string>)
    requires |parts| >= 2
    ensures ':' in Join(parts, ":")
  {
    assert Join(parts, ":")[|parts[0]|] == ':';
  }

  lemma TwoTokens(p: seq<nat>)
    requires |p| == 8
    ensures |Tokens(p)| >= 2
  {
  }

  /** Hex digits and colons, at least one of them a colon. */
  lemma {:induction false} AddressChars(p: seq<nat>)
    requires |p| == 8
    ensures var text := Serialise(p);
            text != "" && ':' in text && forall i | 0 <= i < |text| :: IsLowerHex(text[i]) || text[i] == ':'
  {
    SerialiseIsJoin(p);
    TwoTokens(p);
    JoinHasSeparator(Tokens(p));
    TokensPlain(p);
    JoinLower(Tokens(p));
  }

  lemma {:induction false} ColonHostTest(host: string)
    requires host != "" && host[0] != '[' && host[0] != 'l' && ':' in host && '.' !in host && ToLower(host) == host
    ensures IsPrivateOrReservedHost(host) <==> IsPrivateIPv6(host)
  {
    SplitPlain(host, '.');
    assert host != "localhost";
  }

  /** Without brackets the colons lead to the same test. */
  lemma {:induction false} Bare(p: seq<nat>)
    requires |p| == 8
    ensures IsPrivateOrReservedHost(Serialise(p)) <==> IsPrivateIPv6(Serialise(p))
  {
    TextIsLower(p);
    AddressChars(p);
    var first := Serialise(p)[0];
    assert IsLowerHex(first) || first == ':';
    ColonHostTest(Serialise(p));
  }

  lemma Bracketed(text: string)
    requires ToLower(text) == text
    ensures IsPrivateOrReservedHost("[" + text + "]") <==> IsPrivateIPv6(text)
  {
    var host := "[" + text + "]";
    assert forall i | 0 <= i < |text| :: LowerChar(text[i]) == ToLower(text)[i];
    assert ToLower(host) == host;
    assert host[1..|host| - 1] == text;
  }

  /** Every unique-local address (fc00::/7, section 3.1 of RFC 4193) is refused. */
  lemma UniqueLocalIsRefused(p: seq<nat>)
    requires IsAddress(p) && p[0] / 0x200 == 0xfc00 / 0x200
    ensures IsPrivateOrReservedHost("[" + Serialise(p) + "]")
  {
    assert 0xfc00 <= p[0] <= 0xfdff;
    TextTestIsNumericTest(p);
  }

  /** Of the link-local addresses (fe80::/10, section 2.5.6 of RFC 4291) only those of fe80::/16 are refused. */
  lemma LinkLocalRefusedIff(p: seq<nat>)
    requires IsAddress(p) && p[0] / 0x40 == 0xfe80 / 0x40
    ensures IsPrivateOrReservedHost("[" + Serialise(p) + "]") <==> p[0] == 0xfe80
  {
    assert 0xfe80 <= p[0] <= 0xfebf;
    TextTestIsNumericTest(p);
  }

  /** Six zeros between two other pieces are the run that is compressed. */
  lemma InnerRun(p: seq<nat>)
    requires |p| == 8 && p[0] != 0 && p[7] != 0 && forall j | 1 <= j < 7 :: p[j] == 0
    ensures ZeroRun(p, 1) == 6 && Compressed(p, 0) == 1
  {
    ZeroRunIsRun(p, 1);
    CompressedIsLongest(p, 0, 1);
  }

  lemma LastPiece(p: seq<nat>)
    requires |p| == 8 && p[7] == 1
    ensures Tail(p, 7) == ["1"]
  {
    assert p[7..] == [1];
  }

  lemma {:induction false} WriteAcceptedLinkLocal(p: seq<nat>)
    requires |p| == 8 && p[0] == 0xfe90 && p[7] == 1 && forall j | 1 <= j < 7 :: p[j] == 0
    ensures Serialise(p) == "fe90::1"
  {
    InnerRun(p);
    LastPiece(p);
    EmitFirst(p, 1);
    EmitRun(p, 1, ["1"]);
    LinkLocalPiece();
    LinkLocalText();
  }

  lemma LinkLocalPiece()
    ensures HexText(0xfe90) == "fe90"
  {
    HexTextDigits(0xfe90);
    assert 0xfe90 / 4096 == 15 && 0xfe90 / 256 % 16 == 14 && 0xfe90 / 16 % 16 == 9 && 0xfe90 % 16 == 0;
    assert [DigitChar(15), DigitChar(14), DigitChar(9), DigitChar(0)] == "fe90";
  }

  lemma LinkLocalText()
    ensures "fe90" + ":" + (":" + "1") == "fe90::1"
  {
  }

  /** A link-local address the code accepts: fe90::1. */
  lemma AcceptedLinkLocal(p: seq<nat>)
    requires |p| == 8 && p[0] == 0xfe90 && p[7] == 1 && forall j | 1 <= j < 7 :: p[j] == 0
    ensures IsAddress(p) && p[0] / 0x40 == 0xfe80 / 0x40
    ensures Serialise(p) == "fe90::1" && !IsPrivateOrReservedHost("[" + Serialise(p) + "]")
  {
    LinkLocalRefusedIff(p);
    WriteAcceptedLinkLocal(p);
  }

  /** A public IPv4 number is accepted and a private one refused, the same in dotted and mapped form. */
  lemma {:induction false} MappedAgreesWithDotted(hi: nat, lo: nat)
    requires hi < 0x10000 && lo < 0x10000
    ensures IsPrivateOrReservedHost("[" + Serialise([0, 0, 0, 0, 0, 0xffff, hi, lo]) + "]")
            <==> IsPrivateOrReservedHost(Dotted(hi, lo))
  {
    var p := [0, 0, 0, 0, 0, 0xffff, hi, lo];
    assert IsAddress(p) && IsMapped(p) && p[0] == 0 && !LeadingZeros(p, 7) && !LeadingZeros(p, 8) by {
      assert p[5] != 0;
    }
    TextTestIsNumericTest(p);
    DottedHostIsNumeric(hi, lo);
  }
}
