/**
 * The text an IPv6 host has once the URL parser is done with it (section 3.5 of the WHATWG URL
 * Standard, "Host serializing"), and what the text tests decide about the address behind it.
 */
module Ipv6 {
  import opened Text

  /** Eight 16-bit pieces. */
  predicate IsAddress(p: seq<nat>) {
    |p| == 8 && forall i | 0 <= i < 8 :: p[i] < 0x10000
  }

  /** How many zero pieces start at i. */
  function ZeroRun(p: seq<nat>, i: nat): (n: nat)
    requires i <= |p|
    ensures i + n <= |p|
    decreases |p| - i
  {
    if i < |p| && p[i] == 0 then 1 + ZeroRun(p, i + 1) else 0
  }

  lemma {:induction false} ZeroRunIsRun(p: seq<nat>, i: nat)
    requires i <= |p|
    ensures forall j | i <= j < i + ZeroRun(p, i) :: p[j] == 0
    ensures i + ZeroRun(p, i) < |p| ==> p[i + ZeroRun(p, i)] != 0
    decreases |p| - i
  {
    if i < |p| && p[i] == 0 {
      ZeroRunIsRun(p, i + 1);
    }
  }

  /** The first of the longest runs of two or more zero pieces from i on; 8 when there is none. */
  function Compressed(p: seq<nat>, i: nat): (c: nat)
    requires |p| == 8 && i <= 8
    ensures i <= c <= 8
    decreases 8 - i
  {
    if i == 8 then 8
    else
      var later := Compressed(p, i + 1);
      if ZeroRun(p, i) >= 2 && ZeroRun(p, i) >= ZeroRun(p, later) then i else later
  }

  lemma {:induction false} CompressedIsLongest(p: seq<nat>, i: nat, j: nat)
    requires |p| == 8 && i <= j <= 8
    ensures var c := Compressed(p, i);
            && (c < 8 ==> ZeroRun(p, c) >= 2 && ZeroRun(p, j) <= ZeroRun(p, c) && (j < c ==> ZeroRun(p, j) < ZeroRun(p, c)))
            && (c == 8 ==> ZeroRun(p, j) <= 1)
    decreases 8 - i
  {
    if i < 8 {
      CompressedIsLongest(p, i + 1, if j == i then i + 1 else j);
    }
  }

  /** The serialiser's loop from piece i on; skipping: zeros are being left out. */
  function Emit(p: seq<nat>, c: nat, i: nat, skipping: bool): string
    requires |p| == 8 && i <= 8
    decreases 8 - i
  {
    if i == 8 then ""
    else if skipping && p[i] == 0 then Emit(p, c, i + 1, true)
    else if c == i then (if i == 0 then "::" else ":") + Emit(p, c, i + 1, true)
    else HexText(p[i]) + (if i != 7 then ":" else "") + Emit(p, c, i + 1, false)
  }

  function Serialise(p: seq<nat>): string
    requires |p| == 8
  {
    Emit(p, Compressed(p, 0), 0, false)
  }

  // ---------------------------------------------------------------- the same text as colon-separated tokens

  function HexTexts(p: seq<nat>): seq<string> {
    seq(|p|, i requires 0 <= i < |p| => HexText(p[i]))
  }

  function Tail(p: seq<nat>, e: nat): seq<string>
    requires e <= |p|
  {
    if e == |p| then [""] else HexTexts(p[e..])
  }

  function Tokens(p: seq<nat>): seq<string>
    requires |p| == 8
  {
    var c := Compressed(p, 0);
    if c == 8 then HexTexts(p)
    else if c == 0 then [""] + ([""] + Tail(p, ZeroRun(p, 0)))
    else HexTexts(p[..c]) + ([""] + Tail(p, c + ZeroRun(p, c)))
  }

  lemma JoinCons(head: string, tail: seq<string>)
    requires tail != []
    ensures Join([head] + tail, ":") == head + ":" + Join(tail, ":")
  {
    assert ([head] + tail)[1..] == tail;
  }

  lemma HexTextsCons(p: seq<nat>)
    requires p != []
    ensures HexTexts(p) == [HexText(p[0])] + HexTexts(p[1..])
  {
  }

  lemma {:induction false} EmitPlain(p: seq<nat>, c: nat, i: nat)
    requires |p| == 8 && i < 8 && (c < i || c == 8)
    ensures Emit(p, c, i, false) == Join(HexTexts(p[i..]), ":")
    decreases 8 - i
  {
    HexTextsCons(p[i..]);
    if i < 7 {
      EmitPlain(p, c, i + 1);
      assert p[i..][1..] == p[i + 1..];
      JoinCons(HexText(p[i]), HexTexts(p[i + 1..]));
    } else {
      assert Emit(p, c, 8, false) == "";
    }
  }

  lemma EmitResumes(p: seq<nat>, c: nat, i: nat)
    requires |p| == 8 && i < 8 && p[i] != 0
    ensures Emit(p, c, i, true) == Emit(p, c, i, false)
  {
  }

  /** Inside the run the loop skips to its end. */
  lemma {:induction false} EmitSkipping(p: seq<nat>, c: nat, i: nat)
    requires |p| == 8 && c < i <= 8
    ensures Emit(p, c, i, true) == Join(Tail(p, i + ZeroRun(p, i)), ":")
    decreases 8 - i
  {
    if i < 8 {
      if p[i] == 0 {
        EmitSkipping(p, c, i + 1);
      } else {
        EmitPlain(p, c, i);
        EmitResumes(p, c, i);
      }
    }
  }

  /** The run itself is one empty token before what follows it. */
  lemma {:induction false} EmitRun(p: seq<nat>, c: nat, tail: seq<string>)
    requires |p| == 8 && c < 8 && p[c] == 0 && tail == Tail(p, c + ZeroRun(p, c))
    ensures Emit(p, c, c, false) == (if c == 0 then "::" else ":") + Join(tail, ":")
  {
    EmitSkipping(p, c, c + 1);
    EmitOpens(p, c);
  }

  lemma EmitOpens(p: seq<nat>, c: nat)
    requires |p| == 8 && c < 8
    ensures Emit(p, c, c, false) == (if c == 0 then "::" else ":") + Emit(p, c, c + 1, true)
  {
  }

  lemma EmptyToken(tail: seq<string>)
    requires tail != []
    ensures Join([""] + tail, ":") == ":" + Join(tail, ":")
  {
    JoinCons("", tail);
  }

  lemma TwoColons(rest: string)
    ensures ":" + (":" + rest) == "::" + rest
  {
  }

  lemma LeadingJoin(tail: seq<string>)
    requires tail != []
    ensures Join([""] + ([""] + tail), ":") == "::" + Join(tail, ":")
  {
    EmptyToken(tail);
    EmptyToken([""] + tail);
    TwoColons(Join(tail, ":"));
  }

  lemma FirstToken(p: seq<nat>, i: nat, c: nat, more: seq<string>)
    requires i < c <= |p|
    ensures HexTexts(p[i..c]) + more == [HexText(p[i])] + (HexTexts(p[i + 1..c]) + more)
  {
    HexTextsCons(p[i..c]);
    assert p[i..c][1..] == p[i + 1..c];
  }

  /** Before the run every piece is written out, then the empty token. */
  lemma {:induction false} EmitUpTo(p: seq<nat>, c: nat, i: nat, tail: seq<string>)
    requires |p| == 8 && 0 < i <= c < 8 && p[c] == 0 && tail == Tail(p, c + ZeroRun(p, c))
    ensures Emit(p, c, i, false) == Join(HexTexts(p[i..c]) + ([""] + tail), ":")
    decreases c - i
  {
    if i == c {
      EmitRun(p, c, tail);
      EmptyToken(tail);
      assert HexTexts(p[i..c]) + ([""] + tail) == [""] + tail;
    } else {
      EmitUpTo(p, c, i + 1, tail);
      FirstToken(p, i, c, [""] + tail);
      JoinCons(HexText(p[i]), HexTexts(p[i + 1..c]) + ([""] + tail));
    }
  }

  lemma {:induction false} SerialiseLeading(p: seq<nat>, tail: seq<string>)
    requires |p| == 8 && Compressed(p, 0) == 0 && p[0] == 0 && tail == Tail(p, ZeroRun(p, 0))
    ensures Serialise(p) == Join([""] + ([""] + tail), ":")
    ensures Serialise(p) == "::" + Join(tail, ":")
  {
    EmitRun(p, 0, tail);
    LeadingJoin(tail);
  }

  lemma EmitFirst(p: seq<nat>, c: nat)
    requires |p| == 8 && 0 < c
    ensures Emit(p, c, 0, false) == HexText(p[0]) + ":" + Emit(p, c, 1, false)
  {
  }

  lemma SerialiseInner(p: seq<nat>, c: nat, tail: seq<string>)
    requires |p| == 8 && c == Compressed(p, 0) && 0 < c < 8 && p[c] == 0 && tail == Tail(p, c + ZeroRun(p, c))
    ensures Serialise(p) == Join(HexTexts(p[..c]) + ([""] + tail), ":")
  {
    EmitUpTo(p, c, 1, tail);
    FirstToken(p, 0, c, [""] + tail);
    assert p[0..c] == p[..c];
    JoinCons(HexText(p[0]), HexTexts(p[1..c]) + ([""] + tail));
    EmitFirst(p, c);
  }

  lemma SerialiseIsJoin(p: seq<nat>)
    requires |p| == 8
    ensures Serialise(p) == Join(Tokens(p), ":")
  {
    var c := Compressed(p, 0);
    if c == 8 {
      EmitPlain(p, 8, 0);
      assert p[0..] == p;
    } else {
      CompressedIsLongest(p, 0, 0);
      if c == 0 {
        SerialiseLeading(p, Tail(p, ZeroRun(p, 0)));
      } else {
        SerialiseInner(p, c, Tail(p, c + ZeroRun(p, c)));
      }
    }
  }

  predicate Plain(tokens: seq<string>) {
    forall i | 0 <= i < |tokens| :: AllLowerHex(tokens[i])
  }

  lemma PlainAppend(a: seq<string>, b: seq<string>)
    requires Plain(a) && Plain(b)
    ensures Plain(a + b)
  {
  }

  lemma TailPlain(p: seq<nat>, e: nat)
    requires e <= |p|
    ensures Plain(Tail(p, e))
  {
  }

  lemma TokensPlain(p: seq<nat>)
    requires |p| == 8
    ensures Tokens(p) != [] && Plain(Tokens(p))
  {
    var c := Compressed(p, 0);
    if c < 8 {
      var tail := Tail(p, c + ZeroRun(p, c));
      TailPlain(p, c + ZeroRun(p, c));
      PlainAppend([""], tail);
      PlainAppend(if c == 0 then [""] else HexTexts(p[..c]), [""] + tail);
    }
  }

  // ---------------------------------------------------------------- reading it back

  function NonEmpty(tokens: seq<string>): seq<string> {
    if tokens == [] then []
    else (if tokens[0] == "" then [] else [tokens[0]]) + NonEmpty(tokens[1..])
  }

  function Values(tokens: seq<string>): seq<nat> {
    seq(|tokens|, i requires 0 <= i < |tokens| => HexValue(tokens[i]))
  }

  function FirstEmpty(tokens: seq<string>): (k: nat)
    ensures k <= |tokens|
    ensures forall i | 0 <= i < k :: tokens[i] != ""
    ensures k < |tokens| ==> tokens[k] == ""
  {
    if tokens == [] || tokens[0] == "" then 0 else 1 + FirstEmpty(tokens[1..])
  }

  function Zeros(n: int): seq<nat> {
    seq(if n < 0 then 0 else n, i => 0)
  }

  /** The address a text stands for: the empty tokens stand for as many zeros as are missing. */
  function Parse(text: string): seq<nat> {
    Expand(Split(text, ':'))
  }

  function Expand(tokens: seq<string>): seq<nat> {
    var k := FirstEmpty(tokens);
    if k == |tokens| then Values(tokens)
    else
      var left, right := Values(tokens[..k]), Values(NonEmpty(tokens[k..]));
      left + Zeros(8 - |left| - |right|) + right
  }

  lemma {:induction false} NonEmptyAll(tokens: seq<string>)
    requires forall i | 0 <= i < |tokens| :: tokens[i] != ""
    ensures NonEmpty(tokens) == tokens
  {
    if tokens != [] {
      NonEmptyAll(tokens[1..]);
    }
  }

  lemma NonEmptySkips(tokens: seq<string>)
    ensures NonEmpty([""] + tokens) == NonEmpty(tokens)
  {
    assert ([""] + tokens)[1..] == tokens;
  }

  lemma ValuesOfHexTexts(p: seq<nat>)
    ensures Values(HexTexts(p)) == p
    ensures forall i | 0 <= i < |p| :: HexTexts(p)[i] != ""
    ensures NonEmpty(HexTexts(p)) == HexTexts(p)
  {
    forall i | 0 <= i < |p| ensures HexValue(HexTexts(p)[i]) == p[i] {
      HexRoundTrip(p[i]);
    }
    NonEmptyAll(HexTexts(p));
  }

  lemma NonEmptyTail(p: seq<nat>, e: nat)
    requires e <= |p|
    ensures NonEmpty(Tail(p, e)) == HexTexts(p[e..])
  {
    if e == |p| {
      NonEmptySkips([]);
      assert [""] + [] == [""];
    } else {
      ValuesOfHexTexts(p[e..]);
    }
  }

  lemma FirstEmptyAt(tokens: seq<string>, k: nat)
    requires k < |tokens| && tokens[k] == "" && forall i | 0 <= i < k :: tokens[i] != ""
    ensures FirstEmpty(tokens) == k
  {
  }

  lemma ExpandAround(left: seq<string>, rest: seq<string>)
    requires forall i | 0 <= i < |left| :: left[i] != ""
    requires rest != [] && rest[0] == ""
    ensures var right := NonEmpty(rest);
            Expand(left + rest) == Values(left) + Zeros(8 - |left| - |right|) + Values(right)
  {
    var tokens := left + rest;
    FirstEmptyAt(tokens, |left|);
    assert tokens[..|left|] == left;
    assert tokens[|left|..] == rest;
  }

  lemma RunOfZeros(p: seq<nat>, c: nat, e: nat)
    requires |p| == 8 && c <= 8 && e == c + ZeroRun(p, c)
    ensures p[..c] + Zeros(8 - |p[..c]| - |p[e..]|) + p[e..] == p
  {
    ZeroRunIsRun(p, c);
  }

  lemma {:induction false} ExpandRun(p: seq<nat>, c: nat, left: seq<string>, rest: seq<string>)
    requires |p| == 8 && c <= 8
    requires (forall i | 0 <= i < |left| :: left[i] != "") && Values(left) == p[..c]
    requires rest != [] && rest[0] == "" && NonEmpty(rest) == HexTexts(p[c + ZeroRun(p, c)..])
    ensures Expand(left + rest) == p
  {
    ExpandAround(left, rest);
    ValuesOfHexTexts(p[c + ZeroRun(p, c)..]);
    RunOfZeros(p, c, c + ZeroRun(p, c));
  }

  lemma ExpandUncompressed(p: seq<nat>)
    ensures Expand(HexTexts(p)) == p
  {
    ValuesOfHexTexts(p);
    assert FirstEmpty(HexTexts(p)) == |p|;
  }

  lemma {:induction false} ExpandLeading(p: seq<nat>, tail: seq<string>)
    requires |p| == 8 && tail == Tail(p, ZeroRun(p, 0))
    ensures Expand([""] + ([""] + tail)) == p
  {
    NonEmptyTail(p, ZeroRun(p, 0));
    NonEmptySkips(tail);
    NonEmptySkips([""] + tail);
    ExpandRun(p, 0, [], [""] + ([""] + tail));
    assert [] + ([""] + ([""] + tail)) == [""] + ([""] + tail);
  }

  lemma NonEmptyRest(p: seq<nat>, e: nat, rest: seq<string>)
    requires e <= |p| && rest == [""] + Tail(p, e)
    ensures rest != [] && rest[0] == "" && NonEmpty(rest) == HexTexts(p[e..])
  {
    NonEmptyTail(p, e);
    NonEmptySkips(Tail(p, e));
  }

  lemma ExpandInner(p: seq<nat>, c: nat, left: seq<string>, rest: seq<string>)
    requires |p| == 8 && c <= 8
    requires left == HexTexts(p[..c]) && rest == [""] + Tail(p, c + ZeroRun(p, c))
    ensures Expand(left + rest) == p
  {
    NonEmptyRest(p, c + ZeroRun(p, c), rest);
    ValuesOfHexTexts(p[..c]);
    ExpandRun(p, c, left, rest);
  }

  lemma ExpandTokens(p: seq<nat>)
    requires |p| == 8
    ensures Expand(Tokens(p)) == p
  {
    var c := Compressed(p, 0);
    if c == 8 {
      ExpandUncompressed(p);
    } else if c == 0 {
      ExpandLeading(p, Tail(p, ZeroRun(p, 0)));
    } else {
      ExpandInner(p, c, HexTexts(p[..c]), [""] + Tail(p, c + ZeroRun(p, c)));
    }
  }

  lemma {:induction false} HexHasNoSeparator(s: string)
    requires AllLowerHex(s)
    ensures ':' !in s && '.' !in s
  {
  }

  /** Parsing undoes serialising, so no two addresses share a text. */
  lemma SerialiseRoundTrip(p: seq<nat>)
    requires |p| == 8
    ensures Parse(Serialise(p)) == p
  {
    SerialiseIsJoin(p);
    TokensPlain(p);
    forall i | 0 <= i < |Tokens(p)| ensures ':' !in Tokens(p)[i] {
      HexHasNoSeparator(Tokens(p)[i]);
    }
    SplitJoin(Tokens(p), ':');
    ExpandTokens(p);
  }

  lemma SerialiseInjective(p: seq<nat>, q: seq<nat>)
    requires |p| == 8 && |q| == 8 && Serialise(p) == Serialise(q)
    ensures p == q
  {
    SerialiseRoundTrip(p);
    SerialiseRoundTrip(q);
  }
}
