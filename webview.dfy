/**
 * src/renderer/src/lib/webview.ts: the address helpers a card uses. The
 * regular expressions of `isValidUrl` are stated as the languages they
 * denote (a string matches when it splits into parts each part of the
 * pattern accepts); the WHATWG URL parser is a parameter.
 */
module Webview {
  import opened Wrappers
  import opened UriComponent

  /**
   * The characters `String.prototype.trim` strips and `\s` matches: the
   * ECMAScript WhiteSpace and LineTerminator code points.
   */
  predicate IsSpace(c: char) {
    || c == '\t' || c == '\n' || c == '\U{000B}' || c == '\U{000C}' || c == '\r' || c == ' '
    || c == '\U{00A0}' || c == '\U{1680}' || ('\U{2000}' <= c <= '\U{200A}')
    || c == '\U{2028}' || c == '\U{2029}' || c == '\U{202F}' || c == '\U{205F}'
    || c == '\U{3000}' || c == '\U{FEFF}'
  }

  predicate NoSpace(s: string) {
    forall i :: 0 <= i < |s| ==> !IsSpace(s[i])
  }

  predicate AllSpace(s: string) {
    forall i :: 0 <= i < |s| ==> IsSpace(s[i])
  }

  /** Leading white space removed: a suffix of `s` behind white space only, not starting with white space. */
  function TrimStart(s: string): (r: string)
    ensures |r| <= |s| && r == s[|s| - |r|..]
    ensures AllSpace(s[..|s| - |r|])
    ensures r != [] ==> !IsSpace(r[0])
    decreases |s|
  {
    if s != [] && IsSpace(s[0]) then TrimStart(s[1..]) else s
  }

  /** Trailing white space removed: a prefix of `s` before white space only, not ending with white space. */
  function TrimEnd(s: string): (r: string)
    ensures |r| <= |s| && r == s[..|r|]
    ensures AllSpace(s[|r|..])
    ensures r != [] ==> !IsSpace(r[|r| - 1])
    decreases |s|
  {
    if s != [] && IsSpace(s[|s| - 1]) then
      var t := s[..|s| - 1];
      var r := TrimEnd(t);
      assert t[..|r|] == s[..|r|];
      assert AllSpace(s[|r|..]) by {
        forall i | 0 <= i < |s| - |r|
          ensures IsSpace(s[|r|..][i])
        {
          if i < |t| - |r| {
            assert t[|r|..][i] == s[|r|..][i];
          }
        }
      }
      r
    else s
  }

  /** `String.prototype.trim`: no longer than `s`, and neither starting nor ending with white space. */
  function Trim(s: string): (r: string)
    ensures |r| <= |s|
    ensures r != [] ==> !IsSpace(r[0]) && !IsSpace(r[|r| - 1])
  {
    var t := TrimStart(s);
    var r := TrimEnd(t);
    assert r != [] ==> r[0] == t[0];
    r
  }

  /** The trim of `s` is the slice of `s` left between leading and trailing white space. */
  lemma TrimIsSlice(s: string)
    ensures exists i :: 0 <= i <= |s| - |Trim(s)| && Trim(s) == s[i..i + |Trim(s)|]
                        && AllSpace(s[..i]) && AllSpace(s[i + |Trim(s)|..])
  {
    var t := TrimStart(s);
    var r := Trim(s);
    var i := |s| - |t|;
    assert r == s[i..i + |r|];
    assert s[i + |r|..] == t[|r|..];
  }

  lemma {:induction false} TrimStartSkips(pre: string, x: string)
    requires AllSpace(pre)
    ensures TrimStart(pre + x) == TrimStart(x)
    decreases |pre|
  {
    if pre != [] {
      assert (pre + x)[0] == pre[0];
      assert (pre + x)[1..] == pre[1..] + x;
      TrimStartSkips(pre[1..], x);
    } else {
      assert pre + x == x;
    }
  }

  lemma {:induction false} TrimEndSkips(x: string, post: string)
    requires AllSpace(post)
    ensures TrimEnd(x + post) == TrimEnd(x)
    decreases |post|
  {
    if post != [] {
      var y := x + post;
      assert y[|y| - 1] == post[|post| - 1];
      assert y[..|y| - 1] == x + post[..|post| - 1];
      TrimEndSkips(x, post[..|post| - 1]);
    } else {
      assert x + post == x;
    }
  }

  lemma {:induction false} TrimStartAppend(s: string, post: string)
    requires TrimStart(s) != []
    ensures TrimStart(s + post) == TrimStart(s) + post
    decreases |s|
  {
    if IsSpace(s[0]) {
      assert (s + post)[1..] == s[1..] + post;
      TrimStartAppend(s[1..], post);
    }
  }

  lemma {:induction false} AllSpaceTrimmed(s: string)
    requires AllSpace(s)
    ensures TrimStart(s) == []
    decreases |s|
  {
    if s != [] {
      AllSpaceTrimmed(s[1..]);
    }
  }

  lemma AllSpaceJoin(a: string, b: string)
    requires AllSpace(a) && AllSpace(b)
    ensures AllSpace(a + b)
  {
    forall i | 0 <= i < |a + b|
      ensures IsSpace((a + b)[i])
    {
      if i >= |a| {
        assert (a + b)[i] == b[i - |a|];
      }
    }
  }

  /** White space around a string never changes what `trim` gives. */
  lemma TrimIgnoresPadding(pre: string, s: string, post: string)
    requires AllSpace(pre) && AllSpace(post)
    ensures Trim(pre + s + post) == Trim(s)
  {
    assert pre + s + post == pre + (s + post);
    TrimStartSkips(pre, s + post);
    if TrimStart(s) != [] {
      TrimStartAppend(s, post);
      TrimEndSkips(TrimStart(s), post);
    } else {
      assert s[..|s|] == s;
      AllSpaceJoin(s, post);
      AllSpaceTrimmed(s + post);
    }
  }

  /** A string with no white space at either end is its own trim. */
  lemma TrimUnpadded(s: string)
    requires s != [] && !IsSpace(s[0]) && !IsSpace(s[|s| - 1])
    ensures Trim(s) == s
  {
  }

  /** ASCII upper-case letters lowered; every other character unchanged, as the `i` flag folds. */
  function LowerAscii(c: char): char {
    if 'A' <= c <= 'Z' then (c as int + 32) as char else c
  }

  /** `s` starts with the lower-case literal `lit`, ignoring ASCII case. */
  predicate StartsCaseless(s: string, lit: string) {
    |lit| <= |s| && forall i :: 0 <= i < |lit| ==> LowerAscii(s[i]) == lit[i]
  }

  /** The test `/^https?:\/\//i`. */
  predicate HasSchemeCaseless(s: string) {
    StartsCaseless(s, "http://") || StartsCaseless(s, "https://")
  }

  /** The test `/^https?:\/\//`, without the `i` flag. */
  predicate HasScheme(s: string) {
    "http://" <= s || "https://" <= s
  }

  /** A string whose first letter is not `h` in either case has no scheme. */
  lemma NoSchemeUnlessH(s: string)
    requires s != [] && LowerAscii(s[0]) != 'h'
    ensures !HasSchemeCaseless(s)
  {
    assert "http://"[0] == 'h' && "https://"[0] == 'h';
  }

  lemma SchemeImpliesCaseless(s: string)
    requires HasScheme(s)
    ensures HasSchemeCaseless(s)
  {
  }

  /** The text before the first `:`, as the URL parser's scheme state reads it. */
  function SchemeText(s: string): (r: string)
    ensures r <= s && ':' !in r
    ensures |r| < |s| ==> s[|r|] == ':'
  {
    if s == [] || s[0] == ':' then [] else [s[0]] + SchemeText(s[1..])
  }

  function LowerAll(s: string): (r: string)
    ensures |r| == |s| && forall i :: 0 <= i < |s| ==> r[i] == LowerAscii(s[i])
  {
    if s == [] then [] else [LowerAscii(s[0])] + LowerAll(s[1..])
  }

  /** The `protocol` of a parsed URL: its scheme, lower-cased, and a colon. */
  function Protocol(s: string): string {
    LowerAll(SchemeText(s)) + ":"
  }

  /** A string that passes the scheme test has protocol `http:` or `https:`, whatever its case. */
  lemma CaselessSchemeProtocol(s: string)
    requires HasSchemeCaseless(s)
    ensures Protocol(s) == "http:" || Protocol(s) == "https:"
  {
    var n := if StartsCaseless(s, "http://") then 4 else 5;
    assert s[n] == ':' && forall i :: 0 <= i < n ==> s[i] != ':';
    var t := SchemeText(s);
    assert |t| == n;
    assert t == s[..n];
  }

  predicate IsDigit(c: char) {
    '0' <= c <= '9'
  }

  predicate IsAlpha(c: char) {
    ('a' <= c <= 'z') || ('A' <= c <= 'Z')
  }

  /** `[a-zA-Z0-9-]` */
  predicate IsLabelChar(c: char) {
    IsAlpha(c) || IsDigit(c) || c == '-'
  }

  /** `(?::\d+)?` */
  predicate OptPort(s: string) {
    s == [] || (|s| >= 2 && s[0] == ':' && forall i :: 1 <= i < |s| ==> IsDigit(s[i]))
  }

  /** `(?:\/[^\s]*)?` */
  predicate OptPath(s: string) {
    s == [] || (s[0] == '/' && forall i :: 1 <= i < |s| ==> !IsSpace(s[i]))
  }

  /** `s` splits at `k` into an optional port and an optional path. */
  predicate PortPathAt(s: string, k: int) {
    0 <= k <= |s| && OptPort(s[..k]) && OptPath(s[k..])
  }

  /** The optional port followed by the optional path that closes all three patterns. */
  predicate PortPath(s: string) {
    exists k :: 0 <= k <= |s| && PortPathAt(s, k)
  }

  /** `[a-zA-Z0-9-]+` */
  predicate Label(s: string) {
    |s| >= 1 && forall i :: 0 <= i < |s| ==> IsLabelChar(s[i])
  }

  /** `s` is a label, its dot at `k`, and then either nothing or more dotted labels. */
  predicate LabelsAt(s: string, k: int)
    decreases |s|, 0
  {
    0 < k < |s| && s[k] == '.' && Label(s[..k]) && (k + 1 == |s| || DotLabels(s[k + 1..]))
  }

  /** `([a-zA-Z0-9-]+\.)+`: one or more labels, each closed by a dot. */
  predicate DotLabels(s: string)
    decreases |s|, 1
  {
    exists k :: 0 < k < |s| && LabelsAt(s, k)
  }

  /** `[a-zA-Z]{2,}` */
  predicate Tld(s: string) {
    |s| >= 2 && forall i :: 0 <= i < |s| ==> IsAlpha(s[i])
  }

  /** `s` splits at `i` and `j` into dotted labels, a top-level domain and a port/path tail. */
  predicate DomainAt(s: string, i: int, j: int) {
    0 < i < j <= |s| && DotLabels(s[..i]) && Tld(s[i..j]) && PortPath(s[j..])
  }

  /** `domainRe` */
  predicate DomainMatch(s: string) {
    exists i, j :: 0 < i < j <= |s| && DomainAt(s, i, j)
  }

  /** `localRe` */
  predicate LocalMatch(s: string) {
    |s| >= 9 && (s[..9] == "localhost" || s[..9] == "127.0.0.1") && PortPath(s[9..])
  }

  /** `25[0-5]|2[0-4]\d|1\d\d|\d\d|\d`, alternative by alternative. */
  predicate OctetAlternatives(s: string) {
    || (|s| == 3 && s[0] == '2' && s[1] == '5' && '0' <= s[2] <= '5')
    || (|s| == 3 && s[0] == '2' && '0' <= s[1] <= '4' && IsDigit(s[2]))
    || (|s| == 3 && s[0] == '1' && IsDigit(s[1]) && IsDigit(s[2]))
    || (|s| == 2 && IsDigit(s[0]) && IsDigit(s[1]))
    || (|s| == 1 && IsDigit(s[0]))
  }

  /**
   * The same language with the alternatives merged: one to three digits,
   * where three digits start with 1, or with 2 and stay within 255.
   */
  predicate Octet(s: string) {
    && 1 <= |s| <= 3
    && (forall i :: 0 <= i < |s| ==> IsDigit(s[i]))
    && (|s| == 3 ==> s[0] == '1' || (s[0] == '2' && (s[1] <= '4' || (s[1] == '5' && s[2] <= '5'))))
  }

  lemma OctetMerged(s: string)
    ensures OctetAlternatives(s) <==> Octet(s)
  {
  }

  /** `q` has its three dots at `a`, `b` and `c`, with an octet before, between and after them. */
  predicate QuadAt(q: string, a: int, b: int, c: int) {
    && 0 < a < b < c < |q| && q[a] == '.' && q[b] == '.' && q[c] == '.'
    && Octet(q[0..a]) && Octet(q[a + 1..b]) && Octet(q[b + 1..c]) && Octet(q[c + 1..|q|])
  }

  /** `(octet\.){3}octet`: four octets separated by three dots. */
  predicate DottedQuad(q: string) {
    exists a, b, c :: 0 < a < b < c < |q| && QuadAt(q, a, b, c)
  }

  /** `s` splits at `i` into a dotted quad and a port/path tail. */
  predicate Ipv4At(s: string, i: int) {
    0 < i <= |s| && DottedQuad(s[..i]) && PortPath(s[i..])
  }

  /** `ipv4Re` */
  predicate Ipv4Match(s: string) {
    exists i :: 0 < i <= |s| && Ipv4At(s, i)
  }

  /** The three patterns tried on an input without a scheme. */
  predicate SchemelessMatch(s: string) {
    DomainMatch(s) || LocalMatch(s) || Ipv4Match(s)
  }

  /**
   * `isValidUrl`. The input is trimmed first. With an `http://` or
   * `https://` prefix in any case, the verdict is the URL parser's
   * (`parses`: whether `new URL` accepts the input) together with the
   * protocol test, which such an input always passes; otherwise it is
   * whether one of the three patterns matches.
   */
  function IsValidUrl(url: string, parses: string -> bool): (r: bool)
    ensures HasSchemeCaseless(Trim(url)) ==> (r <==> parses(Trim(url)))
    ensures !HasSchemeCaseless(Trim(url)) ==> (r <==> SchemelessMatch(Trim(url)))
  {
    var input := Trim(url);
    if HasSchemeCaseless(input) then
      CaselessSchemeProtocol(input);
      parses(input) && (Protocol(input) == "http:" || Protocol(input) == "https:")
    else
      SchemelessMatch(input)
  }

  /** Leading or trailing white space never changes the verdict. */
  lemma IsValidUrlIgnoresPadding(pre: string, url: string, post: string, parses: string -> bool)
    requires AllSpace(pre) && AllSpace(post)
    ensures IsValidUrl(pre + url + post, parses) == IsValidUrl(url, parses)
  {
    TrimIgnoresPadding(pre, url, post);
  }

  lemma PortPathNoSpace(s: string)
    requires PortPath(s)
    ensures NoSpace(s)
  {
    var k :| 0 <= k <= |s| && PortPathAt(s, k);
    forall i | 0 <= i < |s|
      ensures !IsSpace(s[i])
    {
      if i < k {
        assert s[..k][i] == s[i];
      } else {
        assert s[k..][i - k] == s[i];
      }
    }
  }

  /** Three parts without white space make a whole without white space. */
  lemma NoSpaceJoin(s: string, i: int, j: int)
    requires 0 <= i <= j <= |s|
    requires NoSpace(s[..i]) && NoSpace(s[i..j]) && NoSpace(s[j..])
    ensures NoSpace(s)
  {
    forall k | 0 <= k < |s|
      ensures !IsSpace(s[k])
    {
      if k < i {
        assert s[..i][k] == s[k];
      } else if k < j {
        assert s[i..j][k - i] == s[k];
      } else {
        assert s[j..][k - j] == s[k];
      }
    }
  }

  lemma {:induction false} DotLabelsShape(s: string)
    requires DotLabels(s)
    ensures NoSpace(s) && s[|s| - 1] == '.'
    decreases |s|
  {
    var k :| 0 < k < |s| && LabelsAt(s, k);
    if k + 1 < |s| {
      DotLabelsShape(s[k + 1..]);
    }
    assert NoSpace(s[..k]);
    assert s[k..k + 1] == ".";
    NoSpaceJoin(s, k, k + 1);
  }

  lemma OctetDigits(s: string)
    requires Octet(s)
    ensures 1 <= |s| <= 3 && forall i :: 0 <= i < |s| ==> IsDigit(s[i])
  {
  }

  lemma OctetNoSpace(s: string)
    requires Octet(s)
    ensures NoSpace(s)
  {
  }

  /** An octet inside a string contributes digits only. */
  lemma OctetAt(q: string, lo: int, hi: int)
    requires 0 <= lo <= hi <= |q| && Octet(q[lo..hi])
    ensures forall p :: lo <= p < hi ==> IsDigit(q[p])
  {
    forall p | lo <= p < hi
      ensures IsDigit(q[p])
    {
      assert q[lo..hi][p - lo] == q[p];
    }
  }

  /** The three dots and four octets of a dotted quad, as positions. */
  lemma QuadParts(q: string) returns (a: int, b: int, c: int)
    requires DottedQuad(q)
    ensures 0 < a < b < c < |q| && q[a] == '.' && q[b] == '.' && q[c] == '.'
    ensures Octet(q[0..a]) && Octet(q[a + 1..b]) && Octet(q[b + 1..c]) && Octet(q[c + 1..|q|])
  {
    a, b, c :| 0 < a < b < c < |q| && QuadAt(q, a, b, c);
  }

  /** A dotted quad holds only digits and dots. */
  lemma QuadChars(q: string)
    requires DottedQuad(q)
    ensures forall p :: 0 <= p < |q| ==> IsDigit(q[p]) || q[p] == '.'
  {
    var a, b, c := QuadParts(q);
    OctetAt(q, 0, a);
    OctetAt(q, a + 1, b);
    OctetAt(q, b + 1, c);
    OctetAt(q, c + 1, |q|);
  }

  /** Where the dotted quad of an input matching the IPv4 pattern ends. */
  lemma QuadPrefix(s: string) returns (i: int)
    requires Ipv4Match(s)
    ensures 0 < i <= |s| && DottedQuad(s[..i])
  {
    i :| 0 < i <= |s| && Ipv4At(s, i);
  }

  lemma DomainNoSpace(s: string)
    requires DomainMatch(s)
    ensures NoSpace(s)
  {
    var i, j :| 0 < i < j <= |s| && DomainAt(s, i, j);
    DotLabelsShape(s[..i]);
    PortPathNoSpace(s[j..]);
    NoSpaceJoin(s, i, j);
  }

  lemma LocalNoSpace(s: string)
    requires LocalMatch(s)
    ensures NoSpace(s)
  {
    PortPathNoSpace(s[9..]);
    NoSpaceJoin(s, 9, 9);
  }

  lemma Ipv4NoSpace(s: string)
    requires Ipv4Match(s)
    ensures NoSpace(s)
  {
    var i :| 0 < i <= |s| && Ipv4At(s, i);
    QuadChars(s[..i]);
    PortPathNoSpace(s[i..]);
    NoSpaceJoin(s, i, i);
  }

  /** No pattern admits white space anywhere, the path included. */
  lemma SchemelessMatchNoSpace(s: string)
    requires SchemelessMatch(s)
    ensures NoSpace(s)
  {
    if DomainMatch(s) {
      DomainNoSpace(s);
    } else if LocalMatch(s) {
      LocalNoSpace(s);
    } else {
      Ipv4NoSpace(s);
    }
  }

  /** Without a scheme, an input that still holds white space after trimming (in its path, say) is rejected. */
  lemma SpaceInsideRejected(url: string, parses: string -> bool)
    requires !HasSchemeCaseless(Trim(url)) && !NoSpace(Trim(url))
    ensures !IsValidUrl(url, parses)
  {
    if SchemelessMatch(Trim(url)) {
      SchemelessMatchNoSpace(Trim(url));
    }
  }

  /** The domain and IPv4 patterns both need a dot. */
  lemma DottedPatternsNeedDot(s: string)
    requires DomainMatch(s) || Ipv4Match(s)
    ensures '.' in s
  {
    if DomainMatch(s) {
      var i, j :| 0 < i < j <= |s| && DomainAt(s, i, j);
      DotLabelsShape(s[..i]);
      assert s[i - 1] == s[..i][i - 1];
    } else {
      var m := FirstOctetEnd(s);
    }
  }

  /** The domain pattern needs a letter: its top-level domain. */
  lemma DomainNeedsLetter(s: string)
    requires DomainMatch(s)
    ensures exists i :: 0 <= i < |s| && IsAlpha(s[i])
  {
    var i, j :| 0 < i < j <= |s| && DomainAt(s, i, j);
    assert IsAlpha(s[i..j][0]);
  }

  /** The decimal value of a string of digits. */
  function DecimalValue(s: string): (v: nat)
    requires forall i :: 0 <= i < |s| ==> IsDigit(s[i])
    decreases |s|
  {
    if s == [] then 0
    else
      assert IsDigit(s[|s| - 1]);
      DecimalValue(s[..|s| - 1]) * 10 + (s[|s| - 1] as int - '0' as int)
  }

  /**
   * The octet pattern accepts exactly the decimal numbers 0 to 255 written
   * with one to three digits, where a three-digit form has no leading zero.
   */
  lemma OctetExactly(s: string)
    ensures Octet(s) <==>
              && 1 <= |s| <= 3
              && (forall i :: 0 <= i < |s| ==> IsDigit(s[i]))
              && (|s| == 3 ==> s[0] != '0')
              && DecimalValue(s) <= 255
  {
    if 1 <= |s| <= 3 && forall i :: 0 <= i < |s| ==> IsDigit(s[i]) {
      var d0 := s[0] as int - '0' as int;
      assert DecimalValue(s[..1]) == d0 by {
        assert s[..1][..0] == [];
      }
      if |s| >= 2 {
        var d1 := s[1] as int - '0' as int;
        assert DecimalValue(s[..2]) == d0 * 10 + d1 by {
          assert s[..2][..1] == s[..1];
        }
        if |s| == 3 {
          assert s[..2] == s[..|s| - 1];
        } else {
          assert s[..2] == s;
        }
      } else {
        assert s[..1] == s;
      }
    }
  }

  /**
   * In an input matching the IPv4 pattern, the digits before the first dot
   * form an octet.
   */
  lemma Ipv4FirstOctet(s: string, k: int)
    requires Ipv4Match(s)
    requires 0 < k < |s| && s[k] == '.' && forall i :: 0 <= i < k ==> IsDigit(s[i])
    ensures Octet(s[..k])
  {
    var m := FirstOctetEnd(s);
    FirstDot(s, k, m);
  }

  /** Where the first octet of an input matching the IPv4 pattern ends. */
  lemma FirstOctetEnd(s: string) returns (m: int)
    requires Ipv4Match(s)
    ensures 0 < m < |s| && s[m] == '.' && Octet(s[..m])
  {
    var i := QuadPrefix(s);
    var b, c;
    m, b, c := QuadParts(s[..i]);
    assert s[..i][0..m] == s[..m];
  }

  /** A dot preceded only by digits is the first dot; so is a dot closing an octet. */
  lemma FirstDot(s: string, k: int, m: int)
    requires 0 < k < |s| && s[k] == '.' && forall i :: 0 <= i < k ==> IsDigit(s[i])
    requires 0 < m < |s| && s[m] == '.' && Octet(s[..m])
    ensures k == m
  {
    OctetDigits(s[..m]);
    forall i | 0 <= i < m
      ensures IsDigit(s[i])
    {
      assert s[..m][i] == s[i];
    }
  }

  /**
   * An input with no white space at either end and not starting with `h`
   * is judged by the three patterns alone.
   */
  lemma SchemelessVerdict(s: string, parses: string -> bool)
    requires s != [] && !IsSpace(s[0]) && !IsSpace(s[|s| - 1]) && LowerAscii(s[0]) != 'h'
    ensures IsValidUrl(s, parses) == SchemelessMatch(s)
  {
    TrimUnpadded(s);
    NoSchemeUnlessH(s);
  }

  /**
   * An input with no white space at either end that passes the scheme test
   * is judged by the URL parser alone.
   */
  lemma SchemeVerdict(s: string, parses: string -> bool)
    requires s != [] && !IsSpace(s[0]) && !IsSpace(s[|s| - 1]) && HasSchemeCaseless(s)
    ensures IsValidUrl(s, parses) == parses(s)
  {
    TrimUnpadded(s);
  }

  /** `256.1.1.1` is rejected: its first field is out of range, and it is neither a domain nor a local address. */
  lemma RejectsOutOfRangeOctet(parses: string -> bool)
    ensures !IsValidUrl("256.1.1.1", parses)
  {
    var s := "256.1.1.1";
    SchemelessVerdict(s, parses);
    NoLetterNoDomain(s);
    assert s[..9] == s;
    assert s[..3] == "256";
    FirstFieldNotOctet(s, 3);
  }

  /** Without a letter there is no top-level domain, so no domain match. */
  lemma NoLetterNoDomain(s: string)
    requires forall i :: 0 <= i < |s| ==> !IsAlpha(s[i])
    ensures !DomainMatch(s)
  {
    if DomainMatch(s) {
      DomainNeedsLetter(s);
    }
  }

  /** Digits up to the first dot that do not form an octet rule out the IPv4 pattern. */
  lemma FirstFieldNotOctet(s: string, k: int)
    requires 0 < k < |s| && s[k] == '.' && forall i :: 0 <= i < k ==> IsDigit(s[i])
    requires !Octet(s[..k])
    ensures !Ipv4Match(s)
  {
    if Ipv4Match(s) {
      Ipv4FirstOctet(s, k);
    }
  }

  /** A dotless name such as `example` is rejected. */
  lemma RejectsDotlessName(parses: string -> bool)
    ensures !IsValidUrl("example", parses)
  {
    var s := "example";
    SchemelessVerdict(s, parses);
    if DomainMatch(s) || Ipv4Match(s) {
      DottedPatternsNeedDot(s);
    }
  }

  /** A path containing a space is rejected. */
  lemma RejectsSpaceInPath(parses: string -> bool)
    ensures !IsValidUrl("example.com/a b", parses)
  {
    var s := "example.com/a b";
    SchemelessVerdict(s, parses);
    assert IsSpace(s[13]);
    SpaceInsideRejected(s, parses);
  }

  /** A port (or none) followed by a path (or none) closes each pattern. */
  lemma PortPathOf(port: string, path: string)
    requires OptPort(port) && OptPath(path)
    ensures PortPath(port + path)
  {
    assert (port + path)[..|port|] == port;
    assert (port + path)[|port|..] == path;
    assert PortPathAt(port + path, |port|);
  }

  /** A label and its dot are a run of dotted labels; more labels may follow. */
  lemma DotLabelsCons(l: string, rest: string)
    requires Label(l) && (rest == [] || DotLabels(rest))
    ensures DotLabels(l + "." + rest)
  {
    var s := l + "." + rest;
    assert s[..|l|] == l && s[|l|] == '.';
    assert s[|l| + 1..] == rest;
    assert LabelsAt(s, |l|);
  }

  /** Dotted labels, a top-level domain and a port/path tail make a domain match. */
  lemma DomainOf(labels: string, tld: string, tail: string)
    requires DotLabels(labels) && Tld(tld) && PortPath(tail)
    ensures DomainMatch(labels + tld + tail)
  {
    var s := labels + tld + tail;
    assert s[..|labels|] == labels;
    assert s[|labels|..|labels| + |tld|] == tld;
    assert s[|labels| + |tld|..] == tail;
    assert DomainAt(s, |labels|, |labels| + |tld|);
  }

  /** `localhost` or `127.0.0.1` and a port/path tail make a local match. */
  lemma LocalOf(host: string, tail: string)
    requires host == "localhost" || host == "127.0.0.1"
    requires PortPath(tail)
    ensures LocalMatch(host + tail)
  {
    assert (host + tail)[..9] == host && (host + tail)[9..] == tail;
  }

  /** Four octets joined by dots make a dotted quad. */
  lemma QuadOf(o1: string, o2: string, o3: string, o4: string)
    requires Octet(o1) && Octet(o2) && Octet(o3) && Octet(o4)
    ensures DottedQuad(o1 + "." + o2 + "." + o3 + "." + o4)
  {
    var q := o1 + "." + o2 + "." + o3 + "." + o4;
    var a := |o1|;
    var b := a + 1 + |o2|;
    var c := b + 1 + |o3|;
    assert q[a] == '.' && q[b] == '.' && q[c] == '.';
    assert q[0..a] == o1 && q[a + 1..b] == o2 && q[b + 1..c] == o3 && q[c + 1..|q|] == o4;
    assert QuadAt(q, a, b, c);
  }

  /** A dotted quad and a port/path tail make an IPv4 match. */
  lemma Ipv4Of(q: string, tail: string)
    requires DottedQuad(q) && PortPath(tail)
    ensures Ipv4Match(q + tail)
  {
    assert (q + tail)[..|q|] == q && (q + tail)[|q|..] == tail;
    assert Ipv4At(q + tail, |q|);
  }

  lemma DomainExample()
    ensures DomainMatch("example.com")
  {
    assert "example" + "." + [] == "example.";
    DotLabelsCons("example", []);
    assert [] + [] == "";
    PortPathOf([], []);
    assert "example." + "com" + [] == "example.com";
    DomainOf("example.", "com", []);
  }

  /** A bare domain is accepted. */
  lemma AcceptsDomain(parses: string -> bool)
    ensures IsValidUrl("example.com", parses)
  {
    DomainExample();
    SchemelessVerdict("example.com", parses);
  }

  /** `localhost` with a port is accepted. */
  lemma AcceptsLocalWithPort(parses: string -> bool)
    ensures IsValidUrl("localhost:3000", parses)
  {
    PortPathOf(":3000", []);
    assert ":3000" + [] == ":3000";
    LocalOf("localhost", ":3000");
    assert "localhost" + ":3000" == "localhost:3000";
    SchemelessVerdict("localhost:3000", parses);
  }

  lemma QuadExample()
    ensures DottedQuad("192.168.1.1")
  {
    assert Octet("192") && Octet("168") && Octet("1");
    QuadOf("192", "168", "1", "1");
    assert "192" + "." + "168" + "." + "1" + "." + "1" == "192.168.1.1";
  }

  lemma PortPathExample()
    ensures PortPath(":8080/x")
  {
    PortPathOf(":8080", "/x");
    assert ":8080" + "/x" == ":8080/x";
  }

  lemma Ipv4Example()
    ensures Ipv4Match("192.168.1.1:8080/x")
  {
    QuadExample();
    PortPathExample();
    var s := "192.168.1.1:8080/x";
    assert s[..11] == "192.168.1.1" && s[11..] == ":8080/x";
    assert Ipv4At(s, 11);
  }

  /** An IPv4 address with a port and a path is accepted. */
  lemma AcceptsIpv4WithPortAndPath(parses: string -> bool)
    ensures IsValidUrl("192.168.1.1:8080/x", parses)
  {
    Ipv4Example();
    SchemelessVerdict("192.168.1.1:8080/x", parses);
  }

  /**
   * `normalizeUrl` as written: `https://` is put in front unless the string
   * starts with lower-case `http://` or `https://`. The result always has
   * such a prefix and ends with the input.
   */
  function NormalizeUrl(url: string): (r: string)
    ensures HasScheme(r)
    ensures |url| <= |r| && r[|r| - |url|..] == url
    ensures HasScheme(url) ==> r == url
    ensures !HasScheme(url) ==> r == "https://" + url
  {
    if !HasScheme(url) then "https://" + url else url
  }

  lemma NormalizeUrlIdempotent(url: string)
    ensures NormalizeUrl(NormalizeUrl(url)) == NormalizeUrl(url)
  {
  }

  /**
   * The scheme test of `normalizeUrl` is case-sensitive, that of
   * `isValidUrl` is not: an upper-case address that `isValidUrl` accepts
   * through the URL parser gets a second scheme in front.
   */
  lemma NormalizeUrlDoublesUpperCaseScheme(parses: string -> bool)
    requires parses("HTTP://a.com")
    ensures IsValidUrl("HTTP://a.com", parses)
    ensures NormalizeUrl("HTTP://a.com") == "https://HTTP://a.com"
  {
    UpperCaseAccepted(parses);
    UpperCaseDoubled();
  }

  lemma UpperCaseAccepted(parses: string -> bool)
    requires parses("HTTP://a.com")
    ensures IsValidUrl("HTTP://a.com", parses)
  {
    UpperCaseScheme();
    SchemeVerdict("HTTP://a.com", parses);
  }

  lemma UpperCaseDoubled()
    ensures NormalizeUrl("HTTP://a.com") == "https://HTTP://a.com"
  {
    UpperCaseScheme();
  }

  lemma UpperCaseScheme()
    ensures HasSchemeCaseless("HTTP://a.com") && !HasScheme("HTTP://a.com")
  {
    assert StartsCaseless("HTTP://a.com", "http://");
    assert "HTTP://a.com"[0] != "http://"[0] && "HTTP://a.com"[0] != "https://"[0];
  }

  /**
   * `normalizeUrl` with the same case-insensitive scheme test as
   * `isValidUrl`: an address that already has a scheme in any case is kept.
   */
  function NormalizeUrlCaseless(url: string): (r: string)
    ensures HasSchemeCaseless(r)
    ensures |url| <= |r| && r[|r| - |url|..] == url
    ensures HasSchemeCaseless(url) ==> r == url
    ensures !HasSchemeCaseless(url) ==> r == "https://" + url
  {
    if !HasSchemeCaseless(url) then
      assert StartsCaseless("https://" + url, "https://");
      "https://" + url
    else url
  }

  lemma NormalizeUrlCaselessIdempotent(url: string)
    ensures NormalizeUrlCaseless(NormalizeUrlCaseless(url)) == NormalizeUrlCaseless(url)
  {
  }

  /** On inputs whose scheme, if any, is lower-case, the two normalisers agree. */
  lemma NormalizeUrlAgrees(url: string)
    requires HasSchemeCaseless(url) ==> HasScheme(url)
    ensures NormalizeUrlCaseless(url) == NormalizeUrl(url)
  {
    if HasScheme(url) {
      SchemeImpliesCaseless(url);
    }
  }

  const SearchPrefix: string := "https://www.google.com/search?q="

  /**
   * `getSearchUrl`: the search address with the percent-encoded keyword as
   * its query; the query holds no separator a URL parser would split on,
   * and decoding it gives the keyword back.
   */
  function GetSearchUrl(keyword: string): (r: string)
    ensures SearchPrefix <= r && HasScheme(r)
    ensures forall i :: |SearchPrefix| <= i < |r| ==> r[i] == '%' || Unreserved(r[i])
    ensures DecodeUriComponent(r[|SearchPrefix|..]) == Some(keyword)
  {
    DecodeEncode(keyword);
    var r := SearchPrefix + EncodeUriComponent(keyword);
    assert r[|SearchPrefix|..] == EncodeUriComponent(keyword);
    assert r[..8] == "https://";
    r
  }

  /**
   * The address a card's web view loads (src/renderer/src/components/grid/CardItem.tsx):
   * the trimmed configured address when it is valid, passed through
   * `normalizeUrl` as written; a search for it otherwise. Either way the
   * result starts with lower-case `http://` or `https://`.
   */
  function ResolveCardUrl(url: string, parses: string -> bool): (r: string)
    ensures HasScheme(r)
    ensures IsValidUrl(Trim(url), parses) ==> |Trim(url)| <= |r| && r[|r| - |Trim(url)|..] == Trim(url)
    ensures IsValidUrl(Trim(url), parses) && HasScheme(Trim(url)) ==> r == Trim(url)
    ensures IsValidUrl(Trim(url), parses) && !HasScheme(Trim(url)) ==> r == "https://" + Trim(url)
    ensures !IsValidUrl(Trim(url), parses) ==> SearchPrefix <= r && DecodeUriComponent(r[|SearchPrefix|..]) == Some(Trim(url))
  {
    var u := Trim(url);
    if !IsValidUrl(u, parses) then GetSearchUrl(u) else NormalizeUrl(u)
  }
}
