/** Strings as the source's code sees them: split, join, decimal and blank tests. */
module Text {
  import opened Results

  /** The characters `String.prototype.trim` removes. */
  predicate IsSpace(c: char) {
    c in {'\t', '\n', '\U{000B}', '\U{000C}', '\r', ' ', '\U{00A0}', '\U{1680}', '\U{2028}', '\U{2029}',
          '\U{202F}', '\U{205F}', '\U{3000}', '\U{FEFF}'}
    || '\U{2000}' <= c <= '\U{200A}'
  }

  /** `!value || value.trim().length === 0` */
  predicate IsBlank(s: string) {
    forall i | 0 <= i < |s| :: IsSpace(s[i])
  }

  /** The same characters by number: tab to carriage return, space, no-break space, the spaces of U+1680, U+2000 to
      U+200A, U+202F, U+205F and U+3000, the two separators and the byte order mark. */
  lemma SpaceNumbers(c: char)
    ensures IsSpace(c) <==> c as int in {9, 10, 11, 12, 13, 32, 160, 5760, 8232, 8233, 8239, 8287, 12288, 65279}
                            || 8192 <= c as int <= 8202
  {
  }

  /** `s.trim()` */
  function Trim(s: string): string {
    if s == "" then ""
    else if IsSpace(s[0]) then Trim(s[1..])
    else if IsSpace(s[|s| - 1]) then Trim(s[..|s| - 1])
    else s
  }

  /** Blank is what nothing is left of. */
  lemma {:induction false} BlankIffTrimmedAway(s: string)
    ensures IsBlank(s) <==> Trim(s) == ""
  {
    if s != "" {
      if IsSpace(s[0]) {
        BlankIffTrimmedAway(s[1..]);
        assert s == [s[0]] + s[1..];
      } else if IsSpace(s[|s| - 1]) {
        BlankIffTrimmedAway(s[..|s| - 1]);
        assert s == s[..|s| - 1] + [s[|s| - 1]];
      } else {
        assert !IsBlank(s);
      }
    }
  }

  /** `fromString` of every identifier that only has to be non-blank. */
  function NonBlank<E>(s: string, error: E): Result<string, E> {
    if IsBlank(s) then Err(error) else Ok(s)
  }

  predicate IsDigit(c: char) {
    '0' <= c <= '9'
  }

  predicate AllDigits(s: string) {
    forall i | 0 <= i < |s| :: IsDigit(s[i])
  }

  /** The decimal value of a run of digits. */
  function Decimal(s: string): nat
    requires AllDigits(s)
  {
    if s == "" then 0 else Decimal(s[..|s| - 1]) * 10 + (s[|s| - 1] as int - '0' as int)
  }

  function Repeat(c: char, n: nat): string {
    seq(n, i => c)
  }

  /** `s.split(sep)` for a one-character separator. */
  function Split(s: string, sep: char): (parts: seq<string>)
    ensures |parts| >= 1
  {
    if s == "" then [""]
    else
      var rest := Split(s[1..], sep);
      if s[0] == sep then [""] + rest else [[s[0]] + rest[0]] + rest[1..]
  }

  /** `parts.join(sep)` */
  function Join(parts: seq<string>, sep: string): string {
    if parts == [] then ""
    else if |parts| == 1 then parts[0]
    else parts[0] + sep + Join(parts[1..], sep)
  }

  lemma {:induction false} SplitPlain(a: string, sep: char)
    requires sep !in a
    ensures Split(a, sep) == [a]
  {
    if a != "" {
      SplitPlain(a[1..], sep);
      assert [a[0]] + a[1..] == a;
    }
  }

  lemma {:induction false} SplitFirst(a: string, rest: string, sep: char)
    requires sep !in a
    ensures Split(a + [sep] + rest, sep) == [a] + Split(rest, sep)
  {
    var s := a + [sep] + rest;
    if a == "" {
      assert s[1..] == rest;
    } else {
      assert s[1..] == a[1..] + [sep] + rest;
      SplitFirst(a[1..], rest, sep);
      assert [a[0]] + a[1..] == a && s[0] == a[0];
    }
  }

  /** Splitting undoes joining when no part contains the separator. */
  lemma {:induction false} SplitJoin(parts: seq<string>, sep: char)
    requires parts != []
    requires forall i | 0 <= i < |parts| :: sep !in parts[i]
    ensures Split(Join(parts, [sep]), sep) == parts
  {
    if |parts| == 1 {
      SplitPlain(parts[0], sep);
    } else {
      var rest := parts[1..];
      SplitJoin(rest, sep);
      SplitFirst(parts[0], Join(rest, [sep]), sep);
      assert parts == [parts[0]] + rest;
    }
  }

  lemma {:induction false} JoinSplit(s: string, sep: char)
    ensures Join(Split(s, sep), [sep]) == s
  {
    if s != "" {
      JoinSplit(s[1..], sep);
      var rest := Split(s[1..], sep);
      if s[0] == sep {
        assert ([""] + rest)[1..] == rest;
      } else {
        var parts := [[s[0]] + rest[0]] + rest[1..];
        if |rest| > 1 {
          assert parts[1..] == rest[1..];
        }
      }
    }
  }

  function DigitChar(d: nat): char
    requires d < 16
  {
    if d < 10 then '0' + d as char else 'a' + (d - 10) as char
  }

  /** `String(n)` */
  function DecimalText(n: nat): (s: string)
    ensures s != "" && AllDigits(s)
  {
    if n < 10 then [DigitChar(n)] else DecimalText(n / 10) + [DigitChar(n % 10)]
  }

  lemma {:induction false} DecimalRoundTrip(n: nat)
    ensures Decimal(DecimalText(n)) == n
    ensures n < 1000 ==> |DecimalText(n)| <= 3
  {
    if n >= 10 {
      DecimalRoundTrip(n / 10);
      var s := DecimalText(n);
      assert s[..|s| - 1] == DecimalText(n / 10);
      if n < 1000 && n / 10 >= 10 {
        assert n / 10 / 10 < 10;
      }
    } else {
      assert [DigitChar(n)][..0] == "";
    }
  }

  predicate IsLowerHex(c: char) {
    IsDigit(c) || 'a' <= c <= 'f'
  }

  predicate AllLowerHex(s: string) {
    forall i | 0 <= i < |s| :: IsLowerHex(s[i])
  }

  function DigitValue(c: char): nat {
    if IsDigit(c) then c as nat - '0' as nat else if 'a' <= c <= 'f' then c as nat - 'a' as nat + 10 else 0
  }

  /** `parseInt(s, 16)` on lower-case hex digits. */
  function HexValue(s: string): nat {
    if s == "" then 0 else HexValue(s[..|s| - 1]) * 16 + DigitValue(s[|s| - 1])
  }

  /** n in lower-case hexadecimal, as short as possible. */
  function HexText(n: nat): (s: string)
    ensures s != "" && AllLowerHex(s)
  {
    if n < 16 then [DigitChar(n)] else HexText(n / 16) + [DigitChar(n % 16)]
  }

  lemma {:induction false} HexRoundTrip(n: nat)
    ensures HexValue(HexText(n)) == n
  {
    if n >= 16 {
      HexRoundTrip(n / 16);
      var s := HexText(n);
      assert s[..|s| - 1] == HexText(n / 16);
    } else {
      assert [DigitChar(n)][..0] == "";
    }
  }

  /** The digits of a 16-bit piece, spelled out. */
  lemma HexTextDigits(n: nat)
    requires n < 0x10000
    ensures HexText(n) ==
            if n < 0x10 then [DigitChar(n)]
            else if n < 0x100 then [DigitChar(n / 16), DigitChar(n % 16)]
            else if n < 0x1000 then [DigitChar(n / 256), DigitChar(n / 16 % 16), DigitChar(n % 16)]
            else [DigitChar(n / 4096), DigitChar(n / 256 % 16), DigitChar(n / 16 % 16), DigitChar(n % 16)]
  {
    if n >= 0x10 {
      assert n / 16 / 16 == n / 256 && n / 256 / 16 == n / 4096;
    }
  }

  predicate IsHexDigit(c: char) {
    IsDigit(c) || 'a' <= c <= 'f' || 'A' <= c <= 'F'
  }

  /** The 8-4-4-4-12 shape of a UUID. */
  predicate IsUuid(s: string) {
    |s| == 36 && forall i | 0 <= i < 36 ::
      if i in {8, 13, 18, 23} then s[i] == '-' else IsHexDigit(s[i])
  }

  lemma HexDigits(c: char)
    ensures IsHexDigit(c) <==> c in "0123456789abcdefABCDEF"
  {
    var digits := "0123456789abcdefABCDEF";
    if IsHexDigit(c) {
      var i := if IsDigit(c) then c as int - '0' as int
               else if 'a' <= c <= 'f' then c as int - 'a' as int + 10 else c as int - 'A' as int + 16;
      assert digits[i] == c;
    }
  }

  /** Five groups of 8, 4, 4, 4 and 12 hex digits, joined by hyphens. */
  predicate UuidGroups(groups: seq<string>) {
    && |groups| == 5
    && |groups[0]| == 8 && |groups[1]| == 4 && |groups[2]| == 4 && |groups[3]| == 4 && |groups[4]| == 12
    && forall i, j | 0 <= i < 5 && 0 <= j < |groups[i]| :: groups[i][j] in "0123456789abcdefABCDEF"
  }

  lemma JoinFive(g: seq<string>)
    requires |g| == 5
    ensures Join(g, "-") == g[0] + ("-" + (g[1] + ("-" + (g[2] + ("-" + (g[3] + ("-" + g[4])))))))
  {
    assert g[1..][1..] == g[2..] && g[2..][1..] == g[3..] && g[3..][1..] == g[4..];
    assert Join(g[4..], "-") == g[4];
    assert Join(g[3..], "-") == g[3] + "-" + Join(g[4..], "-");
    assert Join(g[2..], "-") == g[2] + "-" + Join(g[3..], "-");
    assert Join(g[1..], "-") == g[1] + "-" + Join(g[2..], "-");
  }

  /** A UUID is exactly five such groups. */
  lemma {:induction false} UuidIsItsGroups(s: string)
    ensures IsUuid(s) <==> UuidGroups(Split(s, '-'))
  {
    if IsUuid(s) {
      UuidSplits(s);
    }
    if UuidGroups(Split(s, '-')) {
      GroupsAreUuid(s);
    }
  }

  lemma {:induction false} UuidSplits(s: string)
    requires IsUuid(s)
    ensures UuidGroups(Split(s, '-'))
  {
    HexPart(s, 0, 8);
    HexPart(s, 9, 13);
    HexPart(s, 14, 18);
    HexPart(s, 19, 23);
    HexPart(s, 24, 36);
    CutInFive(s);
    SplitFive(s, [s[0..8], s[9..13], s[14..18], s[19..23], s[24..36]]);
  }

  lemma CutInFive(s: string)
    requires |s| == 36 && s[8] == '-' && s[13] == '-' && s[18] == '-' && s[23] == '-'
    ensures s == s[0..8] + ("-" + (s[9..13] + ("-" + (s[14..18] + ("-" + (s[19..23] + ("-" + s[24..36])))))))
  {
  }

  lemma {:induction false} SplitFive(s: string, g: seq<string>)
    requires |g| == 5 && s == g[0] + ("-" + (g[1] + ("-" + (g[2] + ("-" + (g[3] + ("-" + g[4])))))))
    requires forall i | 0 <= i < 5 :: '-' !in g[i]
    ensures Split(s, '-') == g
  {
    JoinFive(g);
    SplitJoin(g, '-');
  }

  lemma {:induction false} HexPart(s: string, from: nat, to: nat)
    requires from <= to <= |s| && forall i | from <= i < to :: IsHexDigit(s[i])
    ensures '-' !in s[from..to] && forall j | 0 <= j < to - from :: s[from..to][j] in "0123456789abcdefABCDEF"
  {
    forall j | 0 <= j < to - from ensures s[from..to][j] in "0123456789abcdefABCDEF" && s[from..to][j] != '-' {
      HexDigits(s[from + j]);
    }
  }

  lemma {:induction false} PartHex(s: string, from: nat, to: nat)
    requires from <= to <= |s| && forall j | 0 <= j < to - from :: s[from..to][j] in "0123456789abcdefABCDEF"
    ensures forall i | from <= i < to :: IsHexDigit(s[i])
  {
    forall i | from <= i < to ensures IsHexDigit(s[i]) {
      HexDigits(s[i]);
      assert s[from..to][i - from] == s[i];
    }
  }

  lemma FiveParts(s: string, a: string, b: string, c: string, d: string, e: string)
    requires s == a + ("-" + (b + ("-" + (c + ("-" + (d + ("-" + e)))))))
    requires |a| == 8 && |b| == 4 && |c| == 4 && |d| == 4 && |e| == 12
    ensures |s| == 36 && s[8] == '-' && s[13] == '-' && s[18] == '-' && s[23] == '-'
    ensures s[0..8] == a && s[9..13] == b && s[14..18] == c && s[19..23] == d && s[24..36] == e
  {
  }

  lemma {:induction false} GroupsAreUuid(s: string)
    requires UuidGroups(Split(s, '-'))
    ensures IsUuid(s)
  {
    var g := Split(s, '-');
    JoinSplit(s, '-');
    JoinFive(g);
    FiveParts(s, g[0], g[1], g[2], g[3], g[4]);
    PartHex(s, 0, 8);
    PartHex(s, 9, 13);
    PartHex(s, 14, 18);
    PartHex(s, 19, 23);
    PartHex(s, 24, 36);
  }

  lemma UuidNotBlank(s: string)
    requires IsUuid(s)
    ensures !IsBlank(s)
  {
    assert !IsSpace(s[0]);
  }
}
