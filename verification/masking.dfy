/** Display masking of target URLs. `Math.random` is an oracle: the n-th draw of a call is draws(n). */
module Masking {
  import opened Results
  import opened Text
  import opened TargetUrl

  type Draws = nat -> real

  ghost predicate InUnit(draws: Draws) {
    forall n :: 0.0 <= draws(n) < 1.0
  }

  /** `min + Math.floor(Math.random() * (max - min + 1))` asterisks; draws outside [0,1) clamp at none. */
  function RandomAsterisks(min: nat, max: nat, draw: real): string
    requires min <= max
  {
    var count := min + (draw * (max - min + 1) as real).Floor;
    Repeat('*', if count < 0 then 0 else count)
  }

  /** `label.slice(0, Math.min(3, label.length))` */
  function FirstThree(name: string): string {
    name[..if |name| < 3 then |name| else 3]
  }

  function MaskDomainLabel(name: string, draw: real): string {
    FirstThree(name) + RandomAsterisks(3, 8, draw)
  }

  /** No label to reveal: a single label, or an IPv4 literal. */
  predicate FullyMasked(hostname: string) {
    |Split(hostname, '.')| == 1 || IsIPv4(hostname)
  }

  function MaskedLabels(hostname: string, draws: Draws): seq<string>
    requires !FullyMasked(hostname)
  {
    var labels := Split(hostname, '.');
    var subdomains := |labels| - 2;
    seq(subdomains, i requires 0 <= i < subdomains => RandomAsterisks(4, 12, draws(i)))
    + [MaskDomainLabel(labels[subdomains], draws(subdomains)), "**"]
  }

  function MaskHostname(hostname: string, draws: Draws): string {
    if FullyMasked(hostname) then RandomAsterisks(6, 14, draws(0))
    else Join(MaskedLabels(hostname, draws), ".")
  }

  /** The parts of `new URL(targetUrl)` the masked text is built from. */
  datatype UrlParts = UrlParts(protocol: string, hostname: string, port: string, pathname: string, search: string, hash: string)

  function MaskTargetUrl(parse: string -> Option<UrlParts>, targetUrl: string, draws: Draws): string {
    match parse(targetUrl)
    case None => targetUrl
    case Some(url) =>
      url.protocol + "//" + MaskHostname(url.hostname, draws)
      + (if url.port != "" then ":" + url.port else "") + url.pathname + url.search + url.hash
  }

  // ---------------------------------------------------------------- what the mask reveals

  /** All a reader may learn of a hostname. */
  datatype Revealed = Nothing | Shape(labels: nat, prefix: string)

  function Reveal(hostname: string): Revealed {
    if FullyMasked(hostname) then Nothing
    else
      var labels := Split(hostname, '.');
      var domain := labels[|labels| - 2];
      Shape(|labels|, domain[..if |domain| < 3 then |domain| else 3])
  }

  predicate Asterisks(s: string, min: nat, max: nat) {
    min <= |s| <= max && forall i | 0 <= i < |s| :: s[i] == '*'
  }

  lemma Share(draw: real, width: real, share: real)
    requires 0.0 <= draw < 1.0 && width > 0.0 && share == draw * width
    ensures 0.0 <= share < width
  {
  }

  lemma FloorBelow(share: real, width: real, n: nat)
    requires 0.0 <= share < width && width == n as real
    ensures 0 <= share.Floor < n
  {
  }

  lemma AsteriskCount(min: nat, max: nat, draw: real)
    requires min <= max && 0.0 <= draw < 1.0
    ensures Asterisks(RandomAsterisks(min, max, draw), min, max)
  {
    var width := (max - min + 1) as real;
    var share := draw * width;
    Share(draw, width, share);
    FloorBelow(share, width, max - min + 1);
  }

  lemma {:induction false} SplitParts(s: string, sep: char)
    ensures forall i | 0 <= i < |Split(s, sep)| :: sep !in Split(s, sep)[i]
  {
    if s != "" {
      SplitParts(s[1..], sep);
    }
  }

  /** A multi-label mask splits back into as many labels: asterisks, the prefix with asterisks, "**". */
  lemma MaskShape(hostname: string, draws: Draws)
    requires !FullyMasked(hostname)
    ensures Split(MaskHostname(hostname, draws), '.') == MaskedLabels(hostname, draws)
    ensures InUnit(draws) ==>
              var labels := MaskedLabels(hostname, draws);
              var n, prefix := |labels|, Reveal(hostname).prefix;
              && n == Reveal(hostname).labels && labels[n - 1] == "**"
              && (forall i | 0 <= i < n - 2 :: Asterisks(labels[i], 4, 12))
              && prefix <= labels[n - 2] && Asterisks(labels[n - 2][|prefix|..], 3, 8)
  {
    var labels := MaskedLabels(hostname, draws);
    var n := |labels|;
    SplitParts(hostname, '.');
    var domain := FirstThree(Split(hostname, '.')[n - 2]);
    var stars := RandomAsterisks(3, 8, draws(n - 2));
    assert '.' !in domain by {
      assert '.' !in Split(hostname, '.')[n - 2];
    }
    assert '.' !in labels[n - 2] by {
      assert labels[n - 2] == domain + stars;
    }
    forall i | 0 <= i < n ensures '.' !in labels[i] {
      if i < n - 2 {
        assert labels[i] == RandomAsterisks(4, 12, draws(i));
      }
    }
    SplitJoin(labels, '.');
    if InUnit(draws) {
      forall i | 0 <= i < n - 2 ensures Asterisks(labels[i], 4, 12) {
        AsteriskCount(4, 12, draws(i));
      }
      AsteriskCount(3, 8, draws(n - 2));
      assert labels[n - 2][|domain|..] == stars;
    }
  }

  lemma FullMaskShape(hostname: string, draws: Draws)
    requires FullyMasked(hostname) && InUnit(draws)
    ensures Asterisks(MaskHostname(hostname, draws), 6, 14)
  {
    AsteriskCount(6, 14, draws(0));
  }

  lemma SameRevealSameMask(a: string, b: string, draws: Draws)
    requires Reveal(a) == Reveal(b)
    ensures MaskHostname(a, draws) == MaskHostname(b, draws)
  {
    if !FullyMasked(a) {
      assert MaskedLabels(a, draws) == MaskedLabels(b, draws);
    }
  }

  lemma SameMaskSameReveal(a: string, b: string, draws: Draws)
    requires MaskHostname(a, draws) == MaskHostname(b, draws)
    ensures Reveal(a) == Reveal(b)
  {
    if FullyMasked(a) && !FullyMasked(b) {
      MaskedIsNotFull(b, a, draws);
    } else if FullyMasked(b) && !FullyMasked(a) {
      MaskedIsNotFull(a, b, draws);
    } else if !FullyMasked(a) {
      MaskShape(a, draws);
      MaskShape(b, draws);
      var n := |MaskedLabels(a, draws)|;
      var la, lb := MaskedLabels(a, draws)[n - 2], MaskedLabels(b, draws)[n - 2];
      var stars := RandomAsterisks(3, 8, draws(n - 2));
      assert la == Reveal(a).prefix + stars && lb == Reveal(b).prefix + stars;
      assert la[..|la| - |stars|] == Reveal(a).prefix && lb[..|lb| - |stars|] == Reveal(b).prefix;
    }
  }

  lemma MaskedIsNotFull(a: string, b: string, draws: Draws)
    requires !FullyMasked(a) && FullyMasked(b)
    ensures MaskHostname(a, draws) != MaskHostname(b, draws)
  {
    MaskShape(a, draws);
    SplitPlain(MaskHostname(b, draws), '.');
  }

  /** With the same draws two hostnames mask to the same text exactly when they agree on what may be
      revealed: nothing, or the label count and the first three characters of the domain label. */
  lemma MaskRevealsExactly(a: string, b: string, draws: Draws)
    ensures MaskHostname(a, draws) == MaskHostname(b, draws) <==> Reveal(a) == Reveal(b)
  {
    if Reveal(a) == Reveal(b) {
      SameRevealSameMask(a, b, draws);
    }
    if MaskHostname(a, draws) == MaskHostname(b, draws) {
      SameMaskSameReveal(a, b, draws);
    }
  }

  lemma MaskedUrlIsFramed(parse: string -> Option<UrlParts>, url: string, draws: Draws, before: string, after: string)
    requires parse(url).Some?
    requires var u := parse(url).value;
             && before == u.protocol + "//"
             && after == (if u.port != "" then ":" + u.port else "") + u.pathname + u.search + u.hash
    ensures MaskTargetUrl(parse, url, draws) == before + MaskHostname(parse(url).value.hostname, draws) + after
  {
    var u := parse(url).value;
    var port := if u.port != "" then ":" + u.port else "";
    var host := MaskHostname(u.hostname, draws);
    assert before + host + (port + u.pathname + u.search + u.hash) == before + host + port + u.pathname + u.search + u.hash;
  }

  lemma Framed(before: string, after: string, h: string, k: string)
    ensures before + h + after == before + k + after <==> h == k
  {
    var x, y := before + h + after, before + k + after;
    if x == y {
      assert |h| == |k|;
      assert h == x[|before|..|before| + |h|] && k == y[|before|..|before| + |k|];
    }
  }

  // ---------------------------------------------------------------- label by label

  predicate AreLabels(labels: seq<string>) {
    labels != [] && forall i | 0 <= i < |labels| :: '.' !in labels[i]
  }

  /** Nothing of such a hostname is shown: a single label, or four of one to three digits each. */
  predicate Hidden(labels: seq<string>) {
    || |labels| == 1
    || (|labels| == 4
        && forall i | 0 <= i < 4 :: 1 <= |labels[i]| <= 3 && forall j | 0 <= j < |labels[i]| :: '0' <= labels[i][j] <= '9')
  }

  /** Asterisks, min to max of them, each number for an equal share of the draws. */
  predicate Stars(s: string, min: nat, max: nat, draw: real)
    requires min <= max
  {
    && Asterisks(s, min, max)
    && (|s| - min) as real <= draw * (max - min + 1) as real < (|s| - min + 1) as real
  }

  lemma FloorShare(share: real)
    ensures share.Floor as real <= share < (share.Floor + 1) as real
  {
  }

  lemma StarsAre(min: nat, max: nat, draw: real)
    requires min <= max && 0.0 <= draw < 1.0
    ensures Stars(RandomAsterisks(min, max, draw), min, max, draw)
  {
    AsteriskCount(min, max, draw);
    var width := (max - min + 1) as real;
    var share := draw * width;
    Share(draw, width, share);
    FloorShare(share);
    FloorBelow(share, width, max - min + 1);
    StarCount(min, max, draw, share);
  }

  lemma StarCount(min: nat, max: nat, draw: real, share: real)
    requires min <= max && share == draw * (max - min + 1) as real && share.Floor >= 0
    ensures |RandomAsterisks(min, max, draw)| == min + share.Floor
  {
  }

  lemma HiddenIsFullyMasked(labels: seq<string>)
    requires AreLabels(labels)
    ensures Split(Join(labels, "."), '.') == labels && (FullyMasked(Join(labels, ".")) <==> Hidden(labels))
  {
    SplitJoin(labels, '.');
  }

  /** A hidden hostname becomes 6 to 14 asterisks. */
  lemma HiddenLabels(labels: seq<string>, draws: Draws)
    requires AreLabels(labels) && Hidden(labels) && InUnit(draws)
    ensures Stars(MaskHostname(Join(labels, "."), draws), 6, 14, draws(0))
  {
    HiddenIsFullyMasked(labels);
    StarsAre(6, 14, draws(0));
  }

  /** What the reader sees of the domain label. */
  predicate DomainPart(part: string, domain: string, draw: real) {
    var k := if |domain| < 3 then |domain| else 3;
    && k <= |part| && part[..k] == domain[..k]
    && Stars(part[k..], 3, 8, draw)
  }

  lemma DomainIs(domain: string, draw: real)
    requires 0.0 <= draw < 1.0
    ensures DomainPart(MaskDomainLabel(domain, draw), domain, draw)
  {
    StarsAre(3, 8, draw);
    var k := if |domain| < 3 then |domain| else 3;
    assert MaskDomainLabel(domain, draw)[k..] == RandomAsterisks(3, 8, draw);
    assert MaskDomainLabel(domain, draw)[..k] == domain[..k];
  }

  /** Any other hostname keeps its number of labels: asterisks for each subdomain by its own draw, at most the first
      three characters of the domain label and asterisks, and two asterisks for the last. */
  lemma MaskedLabelByLabel(labels: seq<string>, draws: Draws)
    requires AreLabels(labels) && !Hidden(labels) && InUnit(draws)
    ensures var parts, n := Split(MaskHostname(Join(labels, "."), draws), '.'), |labels|;
            && |parts| == n && parts[n - 1] == "**"
            && (forall i | 0 <= i < n - 2 :: Stars(parts[i], 4, 12, draws(i)))
            && DomainPart(parts[n - 2], labels[n - 2], draws(n - 2))
  {
    var host, n := Join(labels, "."), |labels|;
    HiddenIsFullyMasked(labels);
    MaskShape(host, draws);
    forall i | 0 <= i < n - 2 ensures Stars(MaskedLabels(host, draws)[i], 4, 12, draws(i)) {
      StarsAre(4, 12, draws(i));
    }
    DomainIs(labels[n - 2], draws(n - 2));
  }

  /** All that two hostnames must share to be masked alike. */
  predicate SameShown(a: seq<string>, b: seq<string>)
    requires AreLabels(a) && AreLabels(b)
  {
    if Hidden(a) || Hidden(b) then Hidden(a) && Hidden(b)
    else
      && |a| == |b|
      && var x, y := a[|a| - 2], b[|b| - 2];
      && (|x| < 3 || |y| < 3 ==> x == y)
      && (|x| >= 3 && |y| >= 3 ==> x[0] == y[0] && x[1] == y[1] && x[2] == y[2])
  }

  lemma SameShownIsSameReveal(a: seq<string>, b: seq<string>)
    requires AreLabels(a) && AreLabels(b)
    ensures Reveal(Join(a, ".")) == Reveal(Join(b, ".")) <==> SameShown(a, b)
  {
    HiddenIsFullyMasked(a);
    HiddenIsFullyMasked(b);
  }

  /** With the same draws, two hostnames are masked alike exactly when both are hidden, or they have as many labels and
      the same first three characters in the last label but one. */
  lemma MaskedAlikeIff(a: seq<string>, b: seq<string>, draws: Draws)
    requires AreLabels(a) && AreLabels(b)
    ensures MaskHostname(Join(a, "."), draws) == MaskHostname(Join(b, "."), draws) <==> SameShown(a, b)
  {
    MaskRevealsExactly(Join(a, "."), Join(b, "."), draws);
    SameShownIsSameReveal(a, b);
  }

  /** A masked URL is its own scheme, port, path, query and fragment around the masked host. */
  lemma MaskedUrlKeepsTheRest(parse: string -> Option<UrlParts>, url: string, draws: Draws)
    ensures match parse(url)
            case None => MaskTargetUrl(parse, url, draws) == url
            case Some(u) =>
              var host := MaskHostname(u.hostname, draws);
              var shown := MaskTargetUrl(parse, url, draws);
              && u.protocol + "//" + host <= shown
              && shown[|u.protocol| + 2 + |host|..]
                 == (if u.port == "" then "" else ":" + u.port) + u.pathname + u.search + u.hash
  {
    if parse(url).Some? {
      var u := parse(url).value;
      var after := (if u.port != "" then ":" + u.port else "") + u.pathname + u.search + u.hash;
      MaskedUrlIsFramed(parse, url, draws, u.protocol + "//", after);
      var before := u.protocol + "//" + MaskHostname(u.hostname, draws);
      assert (before + after)[|before|..] == after;
    }
  }

  /** Of a whole URL nothing but the host is hidden, and of the host nothing more is shown: two URLs that differ in the
      host alone are masked alike exactly when their hosts are. */
  lemma MaskedUrlHidesOnlyTheHost(parse: string -> Option<UrlParts>, u: string, v: string, a: seq<string>, b: seq<string>,
                                  draws: Draws)
    requires AreLabels(a) && AreLabels(b) && parse(u).Some? && parse(v).Some?
    requires parse(u).value.hostname == Join(a, ".")
    requires parse(v).value == parse(u).value.(hostname := Join(b, "."))
    ensures MaskTargetUrl(parse, u, draws) == MaskTargetUrl(parse, v, draws) <==> SameShown(a, b)
  {
    var p, q := parse(u).value, parse(v).value;
    var after := (if p.port != "" then ":" + p.port else "") + p.pathname + p.search + p.hash;
    MaskedUrlIsFramed(parse, u, draws, p.protocol + "//", after);
    MaskedUrlIsFramed(parse, v, draws, p.protocol + "//", after);
    Framed(p.protocol + "//", after, MaskHostname(p.hostname, draws), MaskHostname(q.hostname, draws));
    MaskedAlikeIff(a, b, draws);
  }
}
