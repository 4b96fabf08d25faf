/** The status table of the development script: padding and alignment of text with colour escapes. */
module Table {
  import opened Text

  const ESC: char := '\U{001B}'

  predicate IsParam(c: char) {
    IsDigit(c) || c == ';'
  }

  predicate IsLetter(c: char) {
    'A' <= c <= 'Z' || 'a' <= c <= 'z'
  }

  /** How many parameter characters text starts with. */
  function Params(text: string): (n: nat)
    ensures n <= |text|
    ensures n < |text| ==> !IsParam(text[n])
  {
    if text != "" && IsParam(text[0]) then 1 + Params(text[1..]) else 0
  }

  /** The length of the colour escape text starts with; 0 when it starts with none. */
  function EscapeLength(text: string): (n: nat)
    ensures n <= |text|
  {
    if |text| >= 2 && text[0] == ESC && text[1] == '[' then
      var k := Params(text[2..]);
      if 2 + k < |text| && IsLetter(text[2 + k]) then 3 + k else 0
    else 0
  }

  /** `text.replace(/\x1b\[[0-9;]*[A-Za-z]/g, '')` */
  function Strip(text: string): string
    decreases |text|
  {
    if text == "" then ""
    else if EscapeLength(text) > 0 then Strip(text[EscapeLength(text)..])
    else [text[0]] + Strip(text[1..])
  }

  function VisibleLength(text: string): nat {
    |Strip(text)|
  }

  function PadEnd(text: string, width: nat): string {
    text + Repeat(' ', if width > VisibleLength(text) then width - VisibleLength(text) else 0)
  }

  function Paint(code: string, text: string, useColor: bool): string {
    if useColor then [ESC, '['] + code + "m" + text + [ESC] + "[0m" else text
  }

  /** The characters that cannot complete an escape someone else began. */
  predicate StartsClean(text: string) {
    text == "" || !(IsParam(text[0]) || IsLetter(text[0]) || text[0] == '[')
  }

  lemma {:induction false} ParamsAppend(a: string, b: string)
    requires StartsClean(b)
    ensures Params(a + b) == Params(a)
  {
    if a == "" {
      assert a + b == b;
    } else if IsParam(a[0]) {
      assert (a + b)[1..] == a[1..] + b;
      ParamsAppend(a[1..], b);
    }
  }

  /** A clean continuation neither completes nor destroys an escape. */
  lemma EscapeLengthAppend(a: string, b: string)
    requires a != "" && StartsClean(b)
    ensures EscapeLength(a + b) == EscapeLength(a)
  {
    if |a| >= 2 && a[0] == ESC && a[1] == '[' {
      assert (a + b)[2..] == a[2..] + b;
      ParamsAppend(a[2..], b);
    }
  }

  lemma StripUnfold(text: string)
    requires text != ""
    ensures Strip(text) ==
            if EscapeLength(text) > 0 then "" + Strip(text[EscapeLength(text)..]) else [text[0]] + Strip(text[1..])
  {
  }

  lemma DropAppend(a: string, b: string, n: nat)
    requires 0 < n <= |a|
    ensures (a + b)[n..] == a[n..] + b && (a + b)[0] == a[0]
  {
  }

  lemma Concat(a: string, b: string, c: string)
    ensures a + (b + c) == (a + b) + c
  {
  }

  /** Stripping distributes over concatenation with clean text, even after a cut-off escape. */
  lemma {:induction false} StripAppend(a: string, b: string)
    requires StartsClean(b)
    ensures Strip(a + b) == Strip(a) + Strip(b)
    decreases |a|
  {
    if a == "" {
      assert a + b == b;
    } else {
      EscapeLengthAppend(a, b);
      var n := if EscapeLength(a) > 0 then EscapeLength(a) else 1;
      DropAppend(a, b, n);
      StripAppend(a[n..], b);
      StripUnfold(a);
      StripUnfold(a + b);
      Concat(if EscapeLength(a) > 0 then "" else [a[0]], Strip(a[n..]), Strip(b));
    }
  }

  lemma {:induction false} StripSpaces(n: nat)
    ensures Strip(Repeat(' ', n)) == Repeat(' ', n)
  {
    if n > 0 {
      assert Repeat(' ', n)[1..] == Repeat(' ', n - 1);
      StripSpaces(n - 1);
    }
  }

  predicate IsCode(code: string) {
    forall i | 0 <= i < |code| :: IsParam(code[i])
  }

  lemma {:induction false} ParamsOfCode(code: string, rest: string)
    requires IsCode(code)
    ensures Params(code + ("m" + rest)) == |code|
  {
    if code == "" {
      assert code + ("m" + rest) == "m" + rest;
    } else {
      assert (code + ("m" + rest))[1..] == code[1..] + ("m" + rest);
      ParamsOfCode(code[1..], rest);
    }
  }

  lemma StripEscape(code: string, rest: string)
    requires IsCode(code)
    ensures Strip([ESC, '['] + code + "m" + rest) == Strip(rest)
  {
    var text := [ESC, '['] + code + "m" + rest;
    assert text[2..] == code + ("m" + rest);
    ParamsOfCode(code, rest);
    assert text[2 + |code|] == 'm';
    assert text[3 + |code|..] == rest;
  }

  /** Painting changes nothing that can be seen. */
  lemma {:induction false} StripPaint(code: string, text: string, useColor: bool)
    requires IsCode(code)
    ensures Strip(Paint(code, text, useColor)) == Strip(text)
  {
    if useColor {
      var close := [ESC] + "[0m";
      assert Paint(code, text, true) == [ESC, '['] + code + "m" + (text + close);
      StripEscape(code, text + close);
      StripAppend(text, close);
      StripEscape("0", "");
      assert close == [ESC, '['] + "0" + "m" + "";
      assert Strip(text) + "" == Strip(text);
    }
  }

  /** Padding shows as padding, whatever escapes the text has, complete or cut off. */
  lemma StripPadEnd(text: string, width: nat)
    ensures Strip(PadEnd(text, width)) ==
            Strip(text) + Repeat(' ', if width > VisibleLength(text) then width - VisibleLength(text) else 0)
  {
    var n := if width > VisibleLength(text) then width - VisibleLength(text) else 0;
    StripAppend(text, Repeat(' ', n));
    StripSpaces(n);
  }

  // ---------------------------------------------------------------- lines

  function Pads(cells: seq<string>, widths: seq<nat>): seq<string>
    requires |cells| == |widths|
  {
    seq(|cells|, i requires 0 <= i < |cells| => PadEnd(cells[i], widths[i]))
  }

  function Line(cells: seq<string>, widths: seq<nat>): string
    requires |cells| == |widths|
  {
    "  " + Join(Pads(cells, widths), "   ")
  }

  function MaxWidth(column: nat, rows: seq<seq<string>>): nat
    requires forall r | 0 <= r < |rows| :: column < |rows[r]|
  {
    if rows == [] then 0
    else
      var rest := MaxWidth(column, rows[1..]);
      if VisibleLength(rows[0][column]) > rest then VisibleLength(rows[0][column]) else rest
  }

  predicate Rectangular(rows: seq<seq<string>>, columns: nat) {
    forall r | 0 <= r < |rows| :: |rows[r]| == columns
  }

  /** Every row has as many cells as the header, as both call sites provide. */
  function Widths(headers: seq<string>, body: seq<seq<string>>): seq<nat>
    requires Rectangular(body, |headers|)
  {
    seq(|headers|, i requires 0 <= i < |headers| => MaxWidth(i, [headers] + body))
  }

  function BodyLines(body: seq<seq<string>>, widths: seq<nat>): seq<string>
    requires Rectangular(body, |widths|)
  {
    seq(|body|, r requires 0 <= r < |body| => Line(body[r], widths))
  }

  /** The lines `render` joins with newlines. */
  function Render(headers: seq<string>, body: seq<seq<string>>, useColor: bool): seq<string>
    requires Rectangular(body, |headers|)
  {
    var widths := Widths(headers, body);
    [Paint("1", Line(headers, widths), useColor)] + BodyLines(body, widths)
  }

  lemma {:induction false} MaxWidthBounds(column: nat, rows: seq<seq<string>>, r: nat)
    requires forall k | 0 <= k < |rows| :: column < |rows[k]|
    requires r < |rows|
    ensures VisibleLength(rows[r][column]) <= MaxWidth(column, rows)
  {
    if r > 0 {
      MaxWidthBounds(column, rows[1..], r - 1);
    }
  }

  /** No column is wider than its widest cell. */
  lemma {:induction false} MaxWidthAttained(column: nat, rows: seq<seq<string>>) returns (r: nat)
    requires rows != [] && forall k | 0 <= k < |rows| :: column < |rows[k]|
    ensures r < |rows| && VisibleLength(rows[r][column]) == MaxWidth(column, rows)
  {
    r := 0;
    if |rows| > 1 && VisibleLength(rows[0][column]) < MaxWidth(column, rows) {
      var later := MaxWidthAttained(column, rows[1..]);
      r := later + 1;
    }
  }

  /** Column i is exactly as wide as one of its cells. */
  predicate Attained(widths: seq<nat>, rows: seq<seq<string>>, i: nat)
    requires i < |widths| && Rectangular(rows, |widths|)
  {
    exists r | 0 <= r < |rows| :: VisibleLength(rows[r][i]) == widths[i]
  }

  lemma WidthsAttained(headers: seq<string>, body: seq<seq<string>>, i: nat)
    requires Rectangular(body, |headers|) && i < |headers|
    ensures Attained(Widths(headers, body), [headers] + body, i)
  {
    var r := MaxWidthAttained(i, [headers] + body);
    assert VisibleLength(([headers] + body)[r][i]) == Widths(headers, body)[i];
  }

  predicate Fits(cells: seq<string>, widths: seq<nat>) {
    |cells| == |widths| && forall i | 0 <= i < |cells| :: VisibleLength(cells[i]) <= widths[i]
  }

  lemma StripSpaceThen(rest: string)
    ensures Strip(" " + rest) == " " + Strip(rest)
  {
    assert (" " + rest)[1..] == rest;
  }

  lemma Spaces(rest: string)
    ensures " " + (" " + rest) == "  " + rest && " " + (" " + (" " + rest)) == "   " + rest
  {
  }

  lemma StripGap(rest: string)
    ensures Strip("  " + rest) == "  " + Strip(rest)
    ensures Strip("   " + rest) == "   " + Strip(rest)
  {
    StripSpaceThen(rest);
    StripSpaceThen(" " + rest);
    StripSpaceThen(" " + (" " + rest));
    Spaces(rest);
    Spaces(Strip(rest));
  }

  lemma {:induction false} JoinMore(parts: seq<string>, last: string)
    requires parts != []
    ensures Join(parts + [last], "   ") == Join(parts, "   ") + ("   " + last)
  {
    if |parts| == 1 {
      assert (parts + [last])[1..] == [last];
    } else {
      assert (parts + [last])[1..] == parts[1..] + [last];
      JoinMore(parts[1..], last);
    }
  }

  /** The line up to and including its n-th cell. */
  function Prefix(cells: seq<string>, widths: seq<nat>, n: nat): string
    requires |cells| == |widths| && n <= |cells|
  {
    "  " + Join(Pads(cells, widths)[..n], "   ")
  }

  /** A cell's own visible characters, then spaces up to its column's width. */
  function Shown(cell: string, width: nat): string
    requires VisibleLength(cell) <= width
  {
    Strip(cell) + Repeat(' ', width - VisibleLength(cell))
  }

  lemma FirstShown(cells: seq<string>, widths: seq<nat>)
    requires Fits(cells, widths) && cells != []
    ensures Strip(Prefix(cells, widths, 1)) == "  " + Shown(cells[0], widths[0])
  {
    var pads := Pads(cells, widths);
    StripPadEnd(cells[0], widths[0]);
    StripGap(pads[0]);
    assert pads[..1] == [pads[0]];
  }

  lemma PrefixMore(cells: seq<string>, widths: seq<nat>, n: nat)
    requires |cells| == |widths| && 1 <= n < |cells|
    ensures Prefix(cells, widths, n + 1) == Prefix(cells, widths, n) + ("   " + PadEnd(cells[n], widths[n]))
  {
    var pads := Pads(cells, widths);
    var pad := PadEnd(cells[n], widths[n]);
    assert pads[..n + 1] == pads[..n] + [pad];
    JoinMore(pads[..n], pad);
    assert "  " + (Join(pads[..n], "   ") + ("   " + pad)) == ("  " + Join(pads[..n], "   ")) + ("   " + pad);
  }

  lemma NextShown(cells: seq<string>, widths: seq<nat>, n: nat)
    requires Fits(cells, widths) && 1 <= n < |cells|
    ensures Strip(Prefix(cells, widths, n + 1)) == Strip(Prefix(cells, widths, n)) + ("   " + Shown(cells[n], widths[n]))
  {
    PrefixMore(cells, widths, n);
    var pad := PadEnd(cells[n], widths[n]);
    StripAppend(Prefix(cells, widths, n), "   " + pad);
    StripGap(pad);
    StripPadEnd(cells[n], widths[n]);
  }

  /** What stands before column i. */
  function Gap(i: nat): string {
    if i == 0 then "  " else "   "
  }

  /** Where that begins, counted in visible characters. */
  function ColumnStart(widths: seq<nat>, i: nat): nat
    requires i <= |widths|
  {
    if i == 0 then 0 else ColumnStart(widths, i - 1) + |Gap(i - 1)| + widths[i - 1]
  }

  /** The gap, the cell's own visible characters, and spaces up to the column's width. */
  function Column(cells: seq<string>, widths: seq<nat>, i: nat): string
    requires Fits(cells, widths) && i < |cells|
  {
    Gap(i) + Shown(cells[i], widths[i])
  }

  predicate ShowsAt(text: string, start: nat, part: string) {
    start + |part| <= |text| && text[start..start + |part|] == part
  }

  lemma ShowsAtGrows(text: string, more: string, start: nat, part: string)
    requires ShowsAt(text, start, part)
    ensures ShowsAt(text + more, start, part)
  {
  }

  lemma ShowsAtEnd(text: string, part: string)
    ensures ShowsAt(text + part, |text|, part)
  {
  }

  /** The first n columns are in place in text. */
  predicate AllShown(text: string, cells: seq<string>, widths: seq<nat>, n: nat)
    requires Fits(cells, widths) && n <= |cells|
  {
    forall i | 0 <= i < n :: ShowsAt(text, ColumnStart(widths, i), Column(cells, widths, i))
  }

  /** And it ends where they do. */
  predicate Aligned(text: string, cells: seq<string>, widths: seq<nat>, n: nat)
    requires Fits(cells, widths) && n <= |cells|
  {
    |text| == ColumnStart(widths, n) && AllShown(text, cells, widths, n)
  }

  lemma AlignedMore(text: string, cells: seq<string>, widths: seq<nat>, n: nat)
    requires Fits(cells, widths) && n < |cells| && Aligned(text, cells, widths, n)
    ensures Aligned(text + Column(cells, widths, n), cells, widths, n + 1)
  {
    var more := Column(cells, widths, n);
    ShowsAtEnd(text, more);
    forall i | 0 <= i < n ensures ShowsAt(text + more, ColumnStart(widths, i), Column(cells, widths, i)) {
      ShowsAtGrows(text, more, ColumnStart(widths, i), Column(cells, widths, i));
    }
  }

  /** However the cells are coloured, each shows in its column and the line is as wide as its columns. */
  lemma {:induction false} PrefixAligned(cells: seq<string>, widths: seq<nat>, n: nat)
    requires Fits(cells, widths) && 1 <= n <= |cells|
    ensures Aligned(Strip(Prefix(cells, widths, n)), cells, widths, n)
  {
    if n == 1 {
      FirstShown(cells, widths);
      AlignedMore("", cells, widths, 0);
      assert "" + Column(cells, widths, 0) == Column(cells, widths, 0);
    } else {
      PrefixAligned(cells, widths, n - 1);
      NextShown(cells, widths, n - 1);
      AlignedMore(Strip(Prefix(cells, widths, n - 1)), cells, widths, n - 1);
    }
  }

  function Sum(widths: seq<nat>): nat {
    if widths == [] then 0 else Sum(widths[..|widths| - 1]) + widths[|widths| - 1]
  }

  lemma {:induction false} ColumnStartIsSum(widths: seq<nat>, i: nat)
    requires 1 <= i <= |widths|
    ensures ColumnStart(widths, i) == 2 + Sum(widths[..i]) + 3 * (i - 1)
  {
    assert widths[..i][..i - 1] == widths[..i - 1];
    if i > 1 {
      ColumnStartIsSum(widths, i - 1);
    }
  }

  /** A line of exactly these columns: two spaces, then the cells, each padded with spaces to its column's width, three
      spaces apart. */
  predicate InColumns(line: string, cells: seq<string>, widths: seq<nat>)
    requires Fits(cells, widths)
  {
    VisibleLength(line) == 2 + Sum(widths) + 3 * (|widths| - 1) && AllShown(Strip(line), cells, widths, |cells|)
  }

  lemma {:induction false} LineAligned(cells: seq<string>, widths: seq<nat>)
    requires Fits(cells, widths) && cells != []
    ensures InColumns(Line(cells, widths), cells, widths)
  {
    var n := |cells|;
    PrefixAligned(cells, widths, n);
    ColumnStartIsSum(widths, n);
    assert widths[..n] == widths && Pads(cells, widths)[..n] == Pads(cells, widths);
  }

  lemma RowFits(headers: seq<string>, body: seq<seq<string>>, r: nat)
    requires Rectangular(body, |headers|) && r < 1 + |body|
    ensures Fits(([headers] + body)[r], Widths(headers, body))
  {
    forall i | 0 <= i < |headers| ensures VisibleLength(([headers] + body)[r][i]) <= Widths(headers, body)[i] {
      MaxWidthBounds(i, [headers] + body, r);
    }
  }

  lemma {:induction false} PaintedInColumns(line: string, cells: seq<string>, widths: seq<nat>, useColor: bool)
    requires Fits(cells, widths) && InColumns(line, cells, widths)
    ensures InColumns(Paint("1", line, useColor), cells, widths)
  {
    StripPaint("1", line, useColor);
  }

  lemma {:induction false} LineInColumns(headers: seq<string>, body: seq<seq<string>>, useColor: bool, r: nat)
    requires headers != [] && Rectangular(body, |headers|) && r < 1 + |body|
    ensures var cells, widths := ([headers] + body)[r], Widths(headers, body);
            Fits(cells, widths) && InColumns(Render(headers, body, useColor)[r], cells, widths)
  {
    var cells, widths := ([headers] + body)[r], Widths(headers, body);
    RowFits(headers, body, r);
    LineAligned(cells, widths);
    if r == 0 {
      PaintedInColumns(Line(headers, widths), headers, widths, useColor);
    } else {
      assert Render(headers, body, useColor)[r] == Line(body[r - 1], widths);
    }
  }

  /** Every rendered line, header included and coloured or not, has the same visible width and consists of its cells,
      each in its column, and spaces; and each column is exactly as wide as its widest cell. */
  lemma {:induction false} TableAligned(headers: seq<string>, body: seq<seq<string>>, useColor: bool)
    requires headers != [] && Rectangular(body, |headers|)
    ensures var widths, lines, rows := Widths(headers, body), Render(headers, body, useColor), [headers] + body;
            && |lines| == |rows| && |widths| == |headers|
            && (forall r | 0 <= r < |rows| :: Fits(rows[r], widths) && InColumns(lines[r], rows[r], widths))
            && (forall i | 0 <= i < |headers| :: Attained(widths, rows, i))
  {
    var widths, lines, rows := Widths(headers, body), Render(headers, body, useColor), [headers] + body;
    forall i | 0 <= i < |headers| ensures Attained(widths, rows, i) {
      WidthsAttained(headers, body, i);
    }
    forall r | 0 <= r < |rows| ensures Fits(rows[r], widths) && InColumns(lines[r], rows[r], widths) {
      LineInColumns(headers, body, useColor, r);
    }
  }

  /** The header is bold when there is colour, the other lines are never painted. */
  lemma OnlyTheHeaderIsPainted(headers: seq<string>, body: seq<seq<string>>, useColor: bool)
    requires headers != [] && Rectangular(body, |headers|)
    ensures var lines, plain := Render(headers, body, useColor), Render(headers, body, false);
            && lines[0] == (if useColor then "\U{001B}[1m" + plain[0] + "\U{001B}[0m" else plain[0])
            && lines[1..] == plain[1..]
  {
    if useColor {
      var line := Line(headers, Widths(headers, body));
      assert [ESC, '['] + "1" + "m" + line + [ESC] + "[0m" == "\U{001B}[1m" + line + "\U{001B}[0m";
    }
  }

  // ---------------------------------------------------------------- what an escape is

  /** Text that begins with a whole escape: ESC, "[", digits and semicolons, one letter. */
  ghost predicate StartsEscape(text: string) {
    exists k: nat :: WholeEscape(text, k)
  }

  predicate WholeEscape(text: string, k: nat) {
    && k + 2 < |text| && text[0] == '\U{001B}' && text[1] == '['
    && (forall i | 2 <= i < k + 2 :: '0' <= text[i] <= '9' || text[i] == ';')
    && ('A' <= text[k + 2] <= 'Z' || 'a' <= text[k + 2] <= 'z')
  }

  lemma {:induction false} ParamsAre(text: string, k: nat)
    requires k <= |text| && forall i | 0 <= i < k :: IsParam(text[i])
    requires k == |text| || !IsParam(text[k])
    ensures Params(text) == k
  {
    if k > 0 {
      ParamsAre(text[1..], k - 1);
    }
  }

  lemma {:induction false} ParamsAreParams(text: string)
    ensures forall i | 0 <= i < Params(text) :: IsParam(text[i])
  {
    if text != "" && IsParam(text[0]) {
      ParamsAreParams(text[1..]);
    }
  }

  lemma EscapeLengthIs(text: string, k: nat)
    requires WholeEscape(text, k)
    ensures EscapeLength(text) == k + 3
  {
    ParamsAre(text[2..], k);
  }

  lemma HasEscape(text: string)
    requires EscapeLength(text) > 0
    ensures StartsEscape(text)
  {
    ParamsAreParams(text[2..]);
    var k := Params(text[2..]);
    assert forall i | 2 <= i < k + 2 :: text[i] == text[2..][i - 2];
    assert WholeEscape(text, k);
  }

  /** Stripping removes a whole escape, keeps every other character, and nothing else: these two steps, from left to
      right, decide every text. */
  lemma StripIsExact(text: string, k: nat)
    requires text != ""
    ensures WholeEscape(text, k) ==> Strip(text) == Strip(text[k + 3..])
    ensures !StartsEscape(text) ==> Strip(text) == [text[0]] + Strip(text[1..])
    ensures Strip("") == ""
  {
    if WholeEscape(text, k) {
      EscapeLengthIs(text, k);
    } else if EscapeLength(text) > 0 {
      HasEscape(text);
    }
  }
}
