/** The URL detector `urlPattern` of src/app/utils/scrapers.ts:
      /^https?:\/\/(?:www\.)?(?:[-a-z0-9]{1,63}\.)+[a-z]{2,63}(?::\d{2,5})?(?:[/?#][^\s"']*)?$/i
    The expression is anchored at both ends and has neither the `g` nor the `m` flag, so it
    matches a whole string or nothing.  `Parse` decides a match deterministically; `Render` and
    `WellFormed` spell out the expression group by group, and `MatchesIffGrammar` proves that
    the two describe the same strings. */
module UrlPattern {
  import opened Wrappers
  import opened JsText

  /** `[-a-z0-9]` under the `i` flag. */
  predicate IsLabelChar(c: char) {
    c == '-' || IsDigit(c) || IsAsciiLetter(c)
  }

  /** The characters a host name (labels, dots and top-level domain) is made of. */
  predicate IsHostChar(c: char) {
    IsLabelChar(c) || c == '.'
  }

  /** `[-a-z0-9]{1,63}` */
  predicate IsLabel(s: string) {
    1 <= |s| <= 63 && forall k :: 0 <= k < |s| ==> IsLabelChar(s[k])
  }

  /** `[a-z]{2,63}` */
  predicate IsTld(s: string) {
    2 <= |s| <= 63 && forall k :: 0 <= k < |s| ==> IsAsciiLetter(s[k])
  }

  /** `\d{2,5}` */
  predicate IsPortDigits(s: string) {
    2 <= |s| <= 5 && forall k :: 0 <= k < |s| ==> IsDigit(s[k])
  }

  predicate IsTailStart(c: char) {
    c == '/' || c == '?' || c == '#'
  }

  /** `(?:[/?#][^\s"']*)?` */
  predicate IsTail(s: string) {
    s == [] || (IsTailStart(s[0]) && forall k :: 1 <= k < |s| ==> !IsSpace(s[k]) && s[k] != '"' && s[k] != '\'')
  }

  /** What the groups of the expression match, in order: `https?`, `(?:www\.)?`, the labels of
      `(?:[-a-z0-9]{1,63}\.)+` without their dots, `[a-z]{2,63}`, the digits of `(?::\d{2,5})?`
      and `(?:[/?#][^\s"']*)?`. */
  datatype UrlParts = UrlParts(scheme: string, www: string, labels: seq<string>, tld: string,
                               port: Option<string>, tail: string)

  predicate WellFormed(p: UrlParts) {
    && (EqualIgnoringCase(p.scheme, "http") || EqualIgnoringCase(p.scheme, "https"))
    && (p.www == "" || EqualIgnoringCase(p.www, "www."))
    && |p.labels| >= 1
    && (forall i :: 0 <= i < |p.labels| ==> IsLabel(p.labels[i]))
    && IsTld(p.tld)
    && (p.port.Some? ==> IsPortDigits(p.port.value))
    && IsTail(p.tail)
  }

  /** Each label followed by its dot. */
  function Dotted(labels: seq<string>): string {
    if labels == [] then "" else labels[0] + "." + Dotted(labels[1..])
  }

  function PortText(port: Option<string>): string {
    match port
    case None => ""
    case Some(digits) => ":" + digits
  }

  /** The text the groups spell out. */
  function Render(p: UrlParts): string {
    p.scheme + "://" + p.www + Dotted(p.labels) + p.tld + PortText(p.port) + p.tail
  }

  /** The length of the longest prefix of `s` whose characters all satisfy `ok`. */
  function Span(s: string, ok: char -> bool): (n: nat)
    ensures n <= |s|
    ensures forall k :: 0 <= k < n ==> ok(s[k])
    ensures n < |s| ==> !ok(s[n])
  {
    if s == [] || !ok(s[0]) then 0 else 1 + Span(s[1..], ok)
  }

  /** The pieces of `s` between its dots (`s.split(".")`). */
  function SplitDots(s: string): (parts: seq<string>)
    ensures |parts| >= 1
    ensures forall i :: 0 <= i < |parts| ==> '.' !in parts[i]
  {
    if s == [] then [""]
    else if s[0] == '.' then [""] + SplitDots(s[1..])
    else
      var rest := SplitDots(s[1..]);
      [[s[0]] + rest[0]] + rest[1..]
  }

  /** 5 for `https://`, 4 for `http://` (either case), 0 when the string starts with neither. */
  function SchemeLength(s: string): nat {
    if StartsWithIgnoringCase(s, "https://") then 5
    else if StartsWithIgnoringCase(s, "http://") then 4
    else 0
  }

  /** The host at the front of `s`, cut into the pieces between its dots, and what follows it.
      The host is the longest run of host characters: what may follow a host in the expression
      (`:`, `/`, `?`, `#` or the end) is never one. */
  datatype HostSplit = HostSplit(pieces: seq<string>, after: string)

  function SplitHost(s: string): HostSplit {
    var h := Span(s, IsHostChar);
    HostSplit(SplitDots(s[..h]), s[h..])
  }

  /** The pieces form `(?:[-a-z0-9]{1,63}\.)+[a-z]{2,63}`: at least one label, then a top-level domain. */
  predicate ValidPieces(pieces: seq<string>) {
    && |pieces| >= 2
    && (forall i :: 0 <= i < |pieces| - 1 ==> IsLabel(pieces[i]))
    && IsTld(pieces[|pieces| - 1])
  }

  /** `(?::\d{2,5})?(?:[/?#][^\s"']*)?$` against what follows the host. */
  function ParsePortAndTail(after: string): Option<(Option<string>, string)> {
    if after != [] && after[0] == ':' then
      var d := Span(after[1..], IsDigit);
      var digits := after[1..1 + d];
      var tail := after[1 + d..];
      if IsPortDigits(digits) && IsTail(tail) then Some((Some(digits), tail)) else None
    else if IsTail(after) then Some((None, after))
    else None
  }

  /** Matches the whole of `s` against the expression. */
  function Parse(s: string): Option<UrlParts> {
    var n := SchemeLength(s);
    if n == 0 then None
    else
      var host := SplitHost(s[n + 3..]);
      if !ValidPieces(host.pieces) then None
      else
        match ParsePortAndTail(host.after)
        case None => None
        case Some((port, tail)) =>
          var ps := host.pieces;
          Some(UrlParts(s[..n], "", ps[..|ps| - 1], ps[|ps| - 1], port, tail))
  }

  /** `urlPattern.test(s)`. */
  predicate IsUrl(s: string) {
    Parse(s).Some?
  }

  // ---------------------------------------------------------------------------------------
  // Splitting and joining host names

  lemma DottedCons(l: string, ls: seq<string>)
    ensures Dotted([l] + ls) == l + "." + Dotted(ls)
  {
    assert ([l] + ls)[1..] == ls;
  }

  /** Splitting at the dots and joining back gives the input. */
  lemma {:induction false} DottedSplit(h: string)
    ensures var ps := SplitDots(h); Dotted(ps[..|ps| - 1]) + ps[|ps| - 1] == h
  {
    if h != [] {
      var r := SplitDots(h[1..]);
      DottedSplit(h[1..]);
      if h[0] == '.' {
        DottedSplitDot(h, r);
      } else if |r| == 1 {
        assert SplitDots(h) == [[h[0]] + r[0]];
        assert h == [h[0]] + h[1..];
      } else {
        DottedSplitChar(h, r);
      }
    }
  }

  lemma DottedSplitDot(h: string, r: seq<string>)
    requires h != [] && h[0] == '.' && r == SplitDots(h[1..])
    requires Dotted(r[..|r| - 1]) + r[|r| - 1] == h[1..]
    ensures var ps := SplitDots(h); Dotted(ps[..|ps| - 1]) + ps[|ps| - 1] == h
  {
    GrowDot(r, SplitDots(h));
    assert h == "." + h[1..];
  }

  /** An empty piece put first puts a dot in front of the joined text. */
  lemma GrowDot(r: seq<string>, ps: seq<string>)
    requires |r| >= 1 && ps == [""] + r
    ensures Dotted(ps[..|ps| - 1]) + ps[|ps| - 1] == "." + (Dotted(r[..|r| - 1]) + r[|r| - 1])
  {
    assert ps[..|ps| - 1] == [""] + r[..|r| - 1];
    DottedCons("", r[..|r| - 1]);
  }

  lemma DottedSplitChar(h: string, r: seq<string>)
    requires h != [] && h[0] != '.' && r == SplitDots(h[1..]) && |r| > 1
    requires Dotted(r[..|r| - 1]) + r[|r| - 1] == h[1..]
    ensures var ps := SplitDots(h); Dotted(ps[..|ps| - 1]) + ps[|ps| - 1] == h
  {
    GrowFirst(h[0], r, SplitDots(h));
    assert h == [h[0]] + h[1..];
  }

  /** A character put in front of the first piece is put in front of the joined text. */
  lemma GrowFirst(c: char, r: seq<string>, ps: seq<string>)
    requires |r| > 1 && ps == [[c] + r[0]] + r[1..]
    ensures Dotted(ps[..|ps| - 1]) + ps[|ps| - 1] == [c] + (Dotted(r[..|r| - 1]) + r[|r| - 1])
  {
    var mid, last := r[1..|r| - 1], r[|r| - 1];
    var first := [c] + r[0];
    assert ps[..|ps| - 1] == [first] + mid && ps[|ps| - 1] == last;
    assert r[..|r| - 1] == [r[0]] + mid;
    DottedCons(first, mid);
    DottedCons(r[0], mid);
    var d := Dotted(mid);
    assert first + "." + d + last == [c] + (r[0] + "." + d + last);
  }

  /** A dot-free prefix becomes part of the first piece. */
  lemma {:induction false} SplitDotFree(l: string, rest: string)
    requires '.' !in l
    ensures var r := SplitDots(rest); SplitDots(l + rest) == [l + r[0]] + r[1..]
  {
    if l != [] {
      var r := SplitDots(rest);
      SplitDotFree(l[1..], rest);
      assert l[0] != '.' by { assert l[0] in l; }
      var t := l + rest;
      assert t[0] == l[0] && t[1..] == l[1..] + rest;
      var big := SplitDots(t[1..]);
      assert big == [l[1..] + r[0]] + r[1..];
      assert SplitDots(t) == [[t[0]] + big[0]] + big[1..];
      assert big[1..] == r[1..];
      assert [t[0]] + big[0] == l + r[0];
    } else {
      assert l + rest == rest;
      var r := SplitDots(rest);
      assert l + r[0] == r[0];
      assert [r[0]] + r[1..] == r;
    }
  }

  lemma {:induction false} SplitDotted(labels: seq<string>, tld: string)
    requires forall i :: 0 <= i < |labels| ==> '.' !in labels[i]
    requires '.' !in tld
    ensures SplitDots(Dotted(labels) + tld) == labels + [tld]
  {
    if labels == [] {
      SplitDotFree(tld, "");
      assert SplitDots("") == [""];
      assert tld + "" == tld;
      assert SplitDots(tld) == [tld];
      assert Dotted(labels) + tld == tld;
      assert labels + [tld] == [tld];
    } else {
      var x := Dotted(labels[1..]) + tld;
      SplitDotted(labels[1..], tld);
      var rest := "." + x;
      assert Dotted(labels) + tld == labels[0] + rest;
      assert rest[0] == '.' && rest[1..] == x;
      var r := SplitDots(rest);
      assert r == [""] + (labels[1..] + [tld]);
      SplitDotFree(labels[0], rest);
      assert SplitDots(labels[0] + rest) == [labels[0] + r[0]] + r[1..];
      assert r[0] == "" && r[1..] == labels[1..] + [tld];
      assert labels[0] + r[0] == labels[0];
      assert labels == [labels[0]] + labels[1..];
      assert [labels[0]] + (labels[1..] + [tld]) == labels + [tld];
    }
  }

  lemma {:induction false} SpanOf(a: string, b: string, ok: char -> bool)
    requires forall k :: 0 <= k < |a| ==> ok(a[k])
    requires b == [] || !ok(b[0])
    ensures Span(a + b, ok) == |a|
  {
    if a != [] {
      SpanOf(a[1..], b, ok);
      assert (a + b)[1..] == a[1..] + b;
    }
  }

  lemma {:induction false} DottedHostChars(labels: seq<string>)
    requires forall i :: 0 <= i < |labels| ==> IsLabel(labels[i])
    ensures forall k :: 0 <= k < |Dotted(labels)| ==> IsHostChar(Dotted(labels)[k])
  {
    if labels != [] {
      DottedHostChars(labels[1..]);
      var d := Dotted(labels[1..]);
      assert Dotted(labels) == labels[0] + "." + d;
      forall k | 0 <= k < |Dotted(labels)| ensures IsHostChar(Dotted(labels)[k]) {
        if k < |labels[0]| {
          assert Dotted(labels)[k] == labels[0][k];
        } else if k > |labels[0]| {
          assert Dotted(labels)[k] == d[k - |labels[0]| - 1];
        }
      }
    }
  }

  // ---------------------------------------------------------------------------------------
  // The parser and the grammar agree

  lemma SchemeSound(s: string)
    requires SchemeLength(s) != 0
    ensures var n := SchemeLength(s);
      && n + 3 <= |s| && s[..n + 3] == s[..n] + "://"
      && (EqualIgnoringCase(s[..n], "http") || EqualIgnoringCase(s[..n], "https"))
  {
    var n := SchemeLength(s);
    if n == 5 {
      assert EqualIgnoringCase(s[..5], "https") by {
        forall k | 0 <= k < 5 ensures AsciiLower(s[..5][k]) == AsciiLower("https"[k]) {
          assert s[..5][k] == s[..8][k];
        }
      }
      assert s[..8] == s[..5] + "://" by {
        forall k | 5 <= k < 8 ensures s[k] == "https://"[k] {
          assert AsciiLower(s[..8][k]) == AsciiLower("https://"[k]);
        }
      }
    } else {
      assert EqualIgnoringCase(s[..4], "http") by {
        forall k | 0 <= k < 4 ensures AsciiLower(s[..4][k]) == AsciiLower("http"[k]) {
          assert s[..4][k] == s[..7][k];
        }
      }
      assert s[..7] == s[..4] + "://" by {
        forall k | 4 <= k < 7 ensures s[k] == "http://"[k] {
          assert AsciiLower(s[..7][k]) == AsciiLower("http://"[k]);
        }
      }
    }
  }

  lemma SchemeComplete(scheme: string, rest: string)
    requires EqualIgnoringCase(scheme, "http") || EqualIgnoringCase(scheme, "https")
    ensures SchemeLength(scheme + "://" + rest) == |scheme|
  {
    var s := scheme + "://" + rest;
    if EqualIgnoringCase(scheme, "https") {
      assert s[..8] == scheme + "://";
      assert StartsWithIgnoringCase(s, "https://");
    } else {
      assert s[..7] == scheme + "://";
      assert StartsWithIgnoringCase(s, "http://");
      assert !StartsWithIgnoringCase(s, "https://") by {
        if |s| >= 8 {
          assert s[..8][4] == ':';
          assert AsciiLower(s[..8][4]) != AsciiLower("https://"[4]);
        }
      }
    }
  }

  /** The pieces put back together with their dots, followed by what comes after the host, are
      the input. */
  lemma SplitHostSound(s: string)
    ensures var hs := SplitHost(s); var ps := hs.pieces;
      Dotted(ps[..|ps| - 1]) + ps[|ps| - 1] + hs.after == s
  {
    var h := Span(s, IsHostChar);
    DottedSplit(s[..h]);
    assert s == s[..h] + s[h..];
  }

  lemma SplitHostComplete(labels: seq<string>, tld: string, after: string)
    requires forall i :: 0 <= i < |labels| ==> IsLabel(labels[i])
    requires IsTld(tld)
    requires after == [] || !IsHostChar(after[0])
    ensures SplitHost(Dotted(labels) + tld + after) == HostSplit(labels + [tld], after)
  {
    var host := Dotted(labels) + tld;
    HostChars(labels, tld);
    SpanOf(host, after, IsHostChar);
    var s := host + after;
    assert s[..|host|] == host && s[|host|..] == after;
    LabelsDotFree(labels, tld);
    SplitDotted(labels, tld);
  }

  /** A host spelled from labels and a top-level domain is made of host characters. */
  lemma HostChars(labels: seq<string>, tld: string)
    requires forall i :: 0 <= i < |labels| ==> IsLabel(labels[i])
    requires IsTld(tld)
    ensures forall k :: 0 <= k < |Dotted(labels) + tld| ==> IsHostChar((Dotted(labels) + tld)[k])
  {
    var d := Dotted(labels);
    var host := d + tld;
    DottedHostChars(labels);
    forall k | 0 <= k < |host| ensures IsHostChar(host[k]) {
      if k < |d| {
        assert host[k] == d[k];
      } else {
        assert host[k] == tld[k - |d|];
      }
    }
  }

  /** Labels and top-level domains hold no dot. */
  lemma LabelsDotFree(labels: seq<string>, tld: string)
    requires forall i :: 0 <= i < |labels| ==> IsLabel(labels[i])
    requires IsTld(tld)
    ensures forall i :: 0 <= i < |labels| ==> '.' !in labels[i]
    ensures '.' !in tld
  {
    forall i | 0 <= i < |labels| ensures '.' !in labels[i] {
      var l := labels[i];
      assert forall k :: 0 <= k < |l| ==> l[k] != '.';
    }
    assert forall k :: 0 <= k < |tld| ==> tld[k] != '.';
  }

  lemma PortAndTailSound(after: string)
    requires ParsePortAndTail(after).Some?
    ensures var (port, tail) := ParsePortAndTail(after).value;
      && after == PortText(port) + tail
      && (port.Some? ==> IsPortDigits(port.value))
      && IsTail(tail)
  {
    if after != [] && after[0] == ':' {
      var d := Span(after[1..], IsDigit);
      assert after == ":" + after[1..1 + d] + after[1 + d..];
    }
  }

  lemma PortAndTailComplete(port: Option<string>, tail: string)
    requires port.Some? ==> IsPortDigits(port.value)
    requires IsTail(tail)
    ensures ParsePortAndTail(PortText(port) + tail) == Some((port, tail))
  {
    var after := PortText(port) + tail;
    if port.Some? {
      var digits := port.value;
      assert after[1..] == digits + tail;
      SpanOf(digits, tail, IsDigit);
      assert after[1..1 + |digits|] == digits;
      assert after[1 + |digits|..] == tail;
    } else {
      assert after == tail;
    }
  }

  /** The same parts with an explicit `www.` moved into the label list: `www` is itself a label,
      so the optional group adds no strings the label group would not match. */
  function Canonical(p: UrlParts): (c: UrlParts)
    requires WellFormed(p)
    ensures WellFormed(c) && c.www == "" && Render(c) == Render(p)
  {
    if p.www == "" then p
    else
      var c := p.(www := "", labels := [p.www[..3]] + p.labels);
      assert IsLabel(p.www[..3]) by {
        forall k | 0 <= k < 3 ensures IsLabelChar(p.www[..3][k]) {
          assert AsciiLower(p.www[k]) == AsciiLower("www."[k]);
        }
      }
      assert p.www == p.www[..3] + "." by {
        assert AsciiLower(p.www[3]) == AsciiLower("www."[3]);
      }
      assert ([p.www[..3]] + p.labels)[1..] == p.labels;
      assert Render(c) == Render(p);
      c
  }

  /** Concatenation regrouped: the pieces the parser finds spell out the input. */
  lemma Regroup(s: string, a: string, rest: string, d: string, t: string, after: string, pt: string, tl: string)
    requires rest == d + t + after && after == pt + tl
    ensures s == a + "://" + rest <==> s == a + "://" + "" + d + t + pt + tl
  {
  }

  lemma SchemeThenRest(a: string, rest: string)
    ensures var s := a + "://" + rest; s[..|a|] == a && s[|a| + 3..] == rest
  {
  }

  lemma PiecesOf(labels: seq<string>, tld: string)
    requires |labels| >= 1 && forall i :: 0 <= i < |labels| ==> IsLabel(labels[i])
    requires IsTld(tld)
    ensures var ps := labels + [tld]; ValidPieces(ps) && ps[..|ps| - 1] == labels && ps[|ps| - 1] == tld
  {
    var ps := labels + [tld];
    assert forall i :: 0 <= i < |ps| - 1 ==> ps[i] == labels[i];
  }

  /** Every match decomposes into the expression's groups. */
  lemma ParseSound(s: string)
    requires IsUrl(s)
    ensures WellFormed(Parse(s).value) && Render(Parse(s).value) == s
  {
    ParseWellFormed(s);
    ParseRenders(s);
  }

  lemma ParseWellFormed(s: string)
    requires IsUrl(s)
    ensures WellFormed(Parse(s).value)
  {
    SchemeSound(s);
    var host := ParseValue(s);
    var ps := host.pieces;
    PortAndTailSound(host.after);
    var p := Parse(s).value;
    assert forall i :: 0 <= i < |p.labels| ==> p.labels[i] == ps[i];
  }

  /** The parts of a match, read from the stages of `Parse`. */
  lemma ParseValue(s: string) returns (host: HostSplit)
    requires IsUrl(s)
    ensures var n := SchemeLength(s); var p := Parse(s).value; var ps := host.pieces;
      && n != 0 && n + 3 <= |s| && host == SplitHost(s[n + 3..]) && ValidPieces(ps)
      && ParsePortAndTail(host.after).Some?
      && p == UrlParts(s[..n], "", ps[..|ps| - 1], ps[|ps| - 1],
                       ParsePortAndTail(host.after).value.0, ParsePortAndTail(host.after).value.1)
  {
    SchemeSound(s);
    host := SplitHost(s[SchemeLength(s) + 3..]);
  }

  lemma ParseRenders(s: string)
    requires IsUrl(s)
    ensures Render(Parse(s).value) == s
  {
    var n := SchemeLength(s);
    SchemeSound(s);
    var rest := s[n + 3..];
    var host := ParseValue(s);
    var p := Parse(s).value;
    SplitHostSound(rest);
    PortAndTailSound(host.after);
    assert s == s[..n] + "://" + rest;
    RenderOf(s, p, rest, host.after);
  }

  /** The parts spell out a string assembled stage by stage. */
  lemma RenderOf(s: string, p: UrlParts, rest: string, after: string)
    requires p.www == "" && s == p.scheme + "://" + rest
    requires rest == Dotted(p.labels) + p.tld + after && after == PortText(p.port) + p.tail
    ensures Render(p) == s
  {
    Regroup(s, p.scheme, rest, Dotted(p.labels), p.tld, after, PortText(p.port), p.tail);
  }

  /** Every string the groups spell out is matched, and `Parse` recovers its parts (with an
      explicit `www.` counted as a label). */
  lemma ParseComplete(p: UrlParts)
    requires WellFormed(p)
    ensures Parse(Render(p)) == Some(Canonical(p))
  {
    ParseCanonical(Canonical(p));
  }

  /** Parts without an explicit `www.` are recovered exactly. */
  lemma ParseCanonical(c: UrlParts)
    requires WellFormed(c) && c.www == ""
    ensures Parse(Render(c)) == Some(c)
  {
    var s := Render(c);
    var after := PortText(c.port) + c.tail;
    var rest := Dotted(c.labels) + c.tld + after;
    Regroup(s, c.scheme, rest, Dotted(c.labels), c.tld, after, PortText(c.port), c.tail);
    SchemeComplete(c.scheme, rest);
    SchemeThenRest(c.scheme, rest);
    assert after == [] || !IsHostChar(after[0]);
    SplitHostComplete(c.labels, c.tld, after);
    PortAndTailComplete(c.port, c.tail);
    PiecesOf(c.labels, c.tld);
    var n := |c.scheme|;
    assert SchemeLength(s) == n;
    assert s[n + 3..] == rest;
    assert SplitHost(rest) == HostSplit(c.labels + [c.tld], after);
    assert ParsePortAndTail(after) == Some((c.port, c.tail));
    assert UrlParts(s[..n], "", c.labels, c.tld, c.port, c.tail) == c;
    ParseOf(s, n, c.labels, c.tld, after, c.port, c.tail);
  }

  /** `Parse` from the results of its stages. */
  lemma ParseOf(s: string, n: nat, labels: seq<string>, tld: string, after: string, port: Option<string>, tail: string)
    requires n != 0 && SchemeLength(s) == n && n + 3 <= |s|
    requires SplitHost(s[n + 3..]) == HostSplit(labels + [tld], after)
    requires ValidPieces(labels + [tld])
    requires ParsePortAndTail(after) == Some((port, tail))
    ensures Parse(s) == Some(UrlParts(s[..n], "", labels, tld, port, tail))
  {
    var ps := labels + [tld];
    assert ps[..|ps| - 1] == labels;
  }

  /** The parser accepts exactly the strings the expression's groups spell out. */
  lemma MatchesIffGrammar(s: string)
    ensures IsUrl(s) <==> exists p :: WellFormed(p) && Render(p) == s
  {
    if IsUrl(s) {
      ParseSound(s);
    }
    if exists p :: WellFormed(p) && Render(p) == s {
      var p :| WellFormed(p) && Render(p) == s;
      ParseComplete(p);
    }
  }

  lemma NoSpaceConcat(a: string, b: string)
    requires NoSpace(a) && NoSpace(b)
    ensures NoSpace(a + b)
  {
    assert forall k :: 0 <= k < |a + b| ==> (a + b)[k] == if k < |a| then a[k] else b[k - |a|];
  }

  lemma WwwNoSpace(www: string)
    requires www == "" || EqualIgnoringCase(www, "www.")
    ensures NoSpace(www)
  {
    forall k | 0 <= k < |www| ensures !IsSpace(www[k]) {
      assert AsciiLower(www[k]) == AsciiLower("www."[k]);
    }
  }

  lemma SchemeNoSpace(scheme: string)
    requires EqualIgnoringCase(scheme, "http") || EqualIgnoringCase(scheme, "https")
    ensures NoSpace(scheme)
  {
    forall k | 0 <= k < |scheme| ensures !IsSpace(scheme[k]) {
      assert AsciiLower(scheme[k]) == AsciiLower("https"[k]);
    }
  }

  lemma HostNoSpace(labels: seq<string>, tld: string)
    requires forall i :: 0 <= i < |labels| ==> IsLabel(labels[i])
    requires IsTld(tld)
    ensures NoSpace(Dotted(labels) + tld)
  {
    assert forall k :: 0 <= k < |tld| ==> IsAsciiLetter(tld[k]);
    DottedHostChars(labels);
    NoSpaceConcat(Dotted(labels), tld);
  }

  lemma RenderNoSpace(p: UrlParts)
    requires WellFormed(p)
    ensures Render(p) != [] && NoSpace(Render(p))
  {
    SchemeNoSpace(p.scheme);
    NoSpaceConcat(p.scheme, "://");
    WwwNoSpace(p.www);
    NoSpaceConcat(p.scheme + "://", p.www);
    HostNoSpace(p.labels, p.tld);
    var a := p.scheme + "://" + p.www;
    var h := Dotted(p.labels) + p.tld;
    NoSpaceConcat(a, h);
    assert a + h == a + Dotted(p.labels) + p.tld;
    var pt := PortText(p.port);
    assert NoSpace(pt);
    NoSpaceConcat(a + h, pt);
    NoSpaceConcat(a + h + pt, p.tail);
    assert a + h + pt + p.tail == Render(p);
  }

  /** A match contains no whitespace: a URL inside a sentence is never found. */
  lemma UrlHasNoSpace(s: string)
    requires IsUrl(s)
    ensures s != [] && NoSpace(s)
  {
    ParseSound(s);
    RenderNoSpace(Parse(s).value);
  }
}
