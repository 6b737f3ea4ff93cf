/**
 * The URL regular expressions of the comment renderer, written as scanners:
 *
 *   reg    = /(h?ttps?(:\/\/[-_.!~*'()a-zA-Z0-9;\/?:@&=+$,%#]+))/g
 *   imgreg = /(h?ttps?(:\/\/[-_.!~*'()a-zA-Z0-9;\/?:@&=+$,%#]+)(.jpg|.png|.gif))/g
 *
 * and link-ification as the renderer performs it: every `"http` is first
 * replaced by a placeholder so that `src="http…"` attributes of image tags
 * are not wrapped, `reg` matches are wrapped into clickable spans, and the
 * placeholder is turned back into `"http`.
 */
module Links {
  import opened Strings

  /** The regex character class `[-_.!~*'()a-zA-Z0-9;/?:@&=+$,%#]`. */
  predicate IsUrlChar(c: char) {
    ('a' <= c <= 'z') || ('A' <= c <= 'Z') || ('0' <= c <= '9')
    || c == '-' || c == '_' || c == '.' || c == '!' || c == '~' || c == '*' || c == '\'' || c == '('
    || c == ')' || c == ';' || c == '/' || c == '?' || c == ':' || c == '@' || c == '&' || c == '='
    || c == '+' || c == '$' || c == ',' || c == '%' || c == '#'
  }

  /** `ttp` at index `i` of `s`. */
  predicate TtpAt(s: string, i: nat) {
    i + 3 <= |s| && s[i] == 't' && s[i + 1] == 't' && s[i + 2] == 'p'
  }

  /** `://` at index `i` of `s`. */
  predicate SlashesAt(s: string, i: nat) {
    i + 3 <= |s| && s[i] == ':' && s[i + 1] == '/' && s[i + 2] == '/'
  }

  /** Length of `ttps?://` at index `i` of `s`, 0 when it is not there. */
  function TtpsLen(s: string, i: nat): (k: nat)
    ensures k == 0 || k == 6 || k == 7
    ensures k > 0 ==> i + k <= |s| && TtpAt(s, i)
  {
    if !TtpAt(s, i) then 0
    else if i + 3 < |s| && s[i + 3] == 's' && SlashesAt(s, i + 4) then 7
    else if SlashesAt(s, i + 3) then 6
    else 0
  }

  /**
   * Length of the `h?ttps?://` prefix of `s`, 0 when there is none. An `h`
   * is taken when `ttps?://` follows it; otherwise the optional `h` matches
   * nothing and `ttps?://` must start the text.
   */
  function SchemeLen(s: string): (k: nat)
    ensures k == 0 || 6 <= k <= 8
    ensures k <= |s|
    ensures k > 0 ==> TtpAt(s, 0) || (s[0] == 'h' && TtpAt(s, 1))
  {
    if s != [] && s[0] == 'h' && TtpsLen(s, 1) > 0 then 1 + TtpsLen(s, 1) else TtpsLen(s, 0)
  }

  /** Length of the longest prefix of URL characters (the greedy `[…]+`). */
  function RunLen(s: string): (n: nat)
    ensures n <= |s|
    ensures n == |s| || !IsUrlChar(s[n])
  {
    if s != [] && IsUrlChar(s[0]) then 1 + RunLen(s[1..]) else 0
  }

  /**
   * Length of the `reg` match that starts at the beginning of `s`, 0 when
   * no match starts there. A match is made of URL characters only, is as
   * long as possible, and begins with `ttp` or `http`.
   */
  function UrlLen(s: string): (n: nat)
    ensures n == 0 || 7 <= n <= |s|
    ensures n > 0 ==> n == |s| || !IsUrlChar(s[n])
    ensures n > 0 ==> TtpAt(s, 0) || (s[0] == 'h' && TtpAt(s, 1))
  {
    var k := SchemeLen(s);
    if k > 0 && RunLen(s[k..]) > 0 then k + RunLen(s[k..]) else 0
  }

  lemma {:induction false} RunLenChars(s: string, i: nat)
    requires i < RunLen(s)
    ensures IsUrlChar(s[i])
  {
    if i > 0 { RunLenChars(s[1..], i - 1); }
  }

  /** A match is made of URL characters only. */
  lemma UrlLenChars(s: string, i: nat)
    requires i < UrlLen(s)
    ensures IsUrlChar(s[i])
  {
    var k := SchemeLen(s);
    if i >= k { RunLenChars(s[k..], i - k); }
  }

  // ---------------------------------------------------------------------------
  // UrlLen only looks up to the first character outside the URL class

  lemma SchemeLenCut(s: string, q: nat)
    requires q <= |s| && (q == |s| || !IsUrlChar(s[q]))
    ensures SchemeLen(s) == SchemeLen(s[..q])
  {
    var t := s[..q];
    assert forall i :: 0 <= i < q ==> t[i] == s[i];
  }

  lemma {:induction false} RunLenCut(s: string, q: nat)
    requires q <= |s| && (q == |s| || !IsUrlChar(s[q]))
    ensures RunLen(s) == RunLen(s[..q])
    decreases q
  {
    if q > 0 && IsUrlChar(s[0]) {
      RunLenCut(s[1..], q - 1);
      assert s[..q][1..] == s[1..][..q - 1];
    }
  }

  /** Cutting `s` at a character outside the URL class does not change the match at its start. */
  lemma UrlLenCut(s: string, q: nat)
    requires q <= |s| && (q == |s| || !IsUrlChar(s[q]))
    ensures UrlLen(s) == UrlLen(s[..q])
  {
    SchemeLenCut(s, q);
    var k := SchemeLen(s);
    if k > 0 {
      RunLenCut(s[k..], q - k);
      assert s[k..][..q - k] == s[..q][k..];
    }
  }

  lemma TtpContained(s: string, i: nat)
    requires TtpAt(s, i)
    ensures Contains(s, "ttp")
  {
    assert s[i..i + 3] == "ttp";
    assert OccursAt(s, "ttp", i);
  }

  /** A match needs a `ttp` in the text. */
  lemma UrlLenNeedsTtp(s: string)
    requires UrlLen(s) > 0
    ensures Contains(s, "ttp")
  {
    if TtpAt(s, 0) { TtpContained(s, 0); } else { TtpContained(s, 1); }
  }

  // ---------------------------------------------------------------------------
  // link-ification as written

  /** The replacement `<span class="url" onClick='urlopen("$1")'>$1</span>`. */
  function UrlSpan(url: string): (r: string) {
    "<span class=\"url\" onClick='urlopen(\"" + url + "\")'>" + url + "</span>"
  }

  const QuotedHttp: string := "\"http"
  /** The placeholder that stands for `"http` while URLs are wrapped. */
  const Placeholder: string := "★★★★http★★★★"

  /** `text.replace(reg, '<span …>$1</span>')` */
  function WrapUrls(s: string): (r: string)
    decreases |s|
  {
    if s == [] then []
    else
      var n := UrlLen(s);
      if n > 0 then UrlSpan(s[..n]) + WrapUrls(s[n..]) else [s[0]] + WrapUrls(s[1..])
  }

  /** `text.replace(/"http/g, '★★★★http★★★★')` */
  function Mask(s: string): (r: string) {
    ReplaceAll(s, QuotedHttp, Placeholder)
  }

  /** `commentText.replace(/★★★★http★★★★/g, '"http')` */
  function Unmask(s: string): (r: string) {
    ReplaceAll(s, Placeholder, QuotedHttp)
  }

  /** The renderer's link-ification: mask, wrap, unmask. */
  function Linkify(text: string): (r: string) {
    Unmask(WrapUrls(Mask(text)))
  }

  // ---------------------------------------------------------------------------
  // the reference tokenizer: leave every `"http` alone, wrap everything else

  /**
   * Link-ification stated directly: a `"http` is copied and scanning goes on
   * after it, so the URL of a `src="…"` attribute is never wrapped; any other
   * `reg` match is wrapped into a span.
   */
  function LinkifyReference(s: string): (r: string)
    decreases |s|
  {
    if s == [] then []
    else if StartsWith(s, QuotedHttp) then QuotedHttp + LinkifyReference(s[|QuotedHttp|..])
    else
      var n := UrlLen(s);
      if n > 0 then UrlSpan(s[..n]) + LinkifyReference(s[n..]) else [s[0]] + LinkifyReference(s[1..])
  }

  /** The reference tokenizer with the placeholder in place of `"http`. */
  ghost function MaskedReference(s: string): (r: string)
    decreases |s|
  {
    if s == [] then []
    else if StartsWith(s, QuotedHttp) then Placeholder + MaskedReference(s[|QuotedHttp|..])
    else
      var n := UrlLen(s);
      if n > 0 then UrlSpan(s[..n]) + MaskedReference(s[n..]) else [s[0]] + MaskedReference(s[1..])
  }

  /** Length of the prefix of `s` before its first double quote. */
  function QuoteFreeLen(s: string): (n: nat)
    ensures n <= |s| && '"' !in s[..n]
    ensures n == |s| || s[n] == '"'
  {
    if s == [] || s[0] == '"' then 0
    else
      var n := 1 + QuoteFreeLen(s[1..]);
      assert s[..n] == [s[0]] + s[1..][..n - 1];
      n
  }

  /** A position where no scheme starts is copied by the wrapper. */
  lemma WrapSkip(u: string)
    requires u != [] && SchemeLen(u) == 0
    ensures WrapUrls(u) == [u[0]] + WrapUrls(u[1..])
  {
  }

  lemma WrapSkipChar(c: char, r: string)
    requires SchemeLen([c] + r) == 0
    ensures WrapUrls([c] + r) == [c] + WrapUrls(r)
  {
    WrapSkip([c] + r);
    assert ([c] + r)[1..] == r;
  }

  /** No `h?ttps?://` starts at index `i` of `u`. */
  predicate NoSchemeAt(u: string, i: nat)
    requires i <= |u|
  {
    SchemeLen(u[i..]) == 0
  }

  lemma SkipPremiseTail(u: string, m: nat)
    requires 0 < m <= |u|
    requires forall i :: 0 <= i < m ==> NoSchemeAt(u, i)
    ensures forall i :: 0 <= i < m - 1 ==> NoSchemeAt(u[1..], i)
  {
    forall i | 0 <= i < m - 1
      ensures NoSchemeAt(u[1..], i)
    {
      assert NoSchemeAt(u, i + 1);
      assert u[1..][i..] == u[i + 1..];
    }
  }

  lemma PrefixSplit(u: string, m: nat)
    requires 0 < m <= |u|
    ensures u[1..][m - 1..] == u[m..] && u[..m] == [u[0]] + u[1..][..m - 1]
  {
  }

  /** Positions where no scheme starts are copied by the wrapper. */
  lemma {:induction false} WrapSkipPrefix(u: string, m: nat)
    requires m <= |u|
    requires forall i :: 0 <= i < m ==> NoSchemeAt(u, i)
    ensures WrapUrls(u) == u[..m] + WrapUrls(u[m..])
    decreases m
  {
    if m > 0 {
      var t := u[1..];
      assert NoSchemeAt(u, 0) && u[0..] == u;
      WrapSkip(u);
      SkipPremiseTail(u, m);
      WrapSkipPrefix(t, m - 1);
      PrefixSplit(u, m);
      ConcatAssoc([u[0]], t[..m - 1], WrapUrls(u[m..]));
    } else {
      assert u[..0] == [] && u[0..] == u;
    }
  }

  /** No scheme starts inside the placeholder: its only `ttp` is followed by a star. */
  lemma PlaceholderNoScheme(r: string, i: nat)
    requires i < |Placeholder|
    ensures SchemeLen((Placeholder + r)[i..]) == 0
  {
    var t := Placeholder + r;
    assert forall j :: 0 <= j < |Placeholder| ==> t[j] == Placeholder[j];
  }

  /** No `reg` match starts inside the placeholder. */
  lemma WrapUrlsPlaceholder(r: string)
    ensures WrapUrls(Placeholder + r) == Placeholder + WrapUrls(r)
  {
    var t := Placeholder + r;
    forall i | 0 <= i < |Placeholder|
      ensures NoSchemeAt(t, i)
    {
      PlaceholderNoScheme(r, i);
    }
    WrapSkipPrefix(t, |Placeholder|);
    assert t[..|Placeholder|] == Placeholder && t[|Placeholder|..] == r;
  }

  lemma MaskStep(s: string)
    requires s != []
    ensures Mask(s) == if StartsWith(s, QuotedHttp) then Placeholder + Mask(s[5..]) else [s[0]] + Mask(s[1..])
  {
  }

  /** Masking a text that starts with a quote yields a text that starts outside the URL class. */
  lemma MaskHead(s: string)
    requires s != [] && s[0] == '"'
    ensures Mask(s) != [] && !IsUrlChar(Mask(s)[0])
  {
    MaskStep(s);
  }

  lemma MaskQuoteFree(a: string, b: string)
    requires '"' !in a
    ensures Mask(a + b) == a + Mask(b)
  {
    assert QuotedHttp[0] == '"';
    ReplaceAllPlainPrefix(a, b, QuotedHttp, Placeholder);
  }

  /** Masking does not change the `reg` match at the start, and the matched URL is copied unmasked. */
  lemma UrlLenMasked(s: string)
    ensures UrlLen(Mask(s)) == UrlLen(s)
    ensures UrlLen(s) > 0 ==> Mask(s) == s[..UrlLen(s)] + Mask(s[UrlLen(s)..])
  {
    var q := QuoteFreeLen(s);
    assert s == s[..q] + s[q..];
    MaskQuoteFree(s[..q], s[q..]);
    var t := Mask(s);
    assert t == s[..q] + Mask(s[q..]);
    if q < |s| {
      MaskHead(s[q..]);
      assert t[q] == Mask(s[q..])[0];
    } else {
      assert s[q..] == [];
    }
    UrlLenCut(s, q);
    UrlLenCut(t, q);
    assert t[..q] == s[..q];
    var n := UrlLen(s);
    if n > 0 {
      assert '"' !in s[..n] by { assert forall c :: c in s[..n] ==> c in s[..q]; }
      assert s == s[..n] + s[n..];
      MaskQuoteFree(s[..n], s[n..]);
    }
  }

  /** Wrapping the masked text is the masked reference tokenizer. */
  lemma {:induction false} WrapMasked(s: string)
    ensures WrapUrls(Mask(s)) == MaskedReference(s)
    decreases |s|
  {
    if s != [] {
      MaskStep(s);
      if StartsWith(s, QuotedHttp) {
        WrapUrlsPlaceholder(Mask(s[5..]));
        WrapMasked(s[5..]);
      } else {
        var t := Mask(s);
        UrlLenMasked(s);
        var n := UrlLen(s);
        if n > 0 {
          assert t[..n] == s[..n] && t[n..] == Mask(s[n..]);
          WrapMasked(s[n..]);
        } else {
          assert t[0] == s[0] && t[1..] == Mask(s[1..]);
          WrapMasked(s[1..]);
        }
      }
    }
  }

  /** Turning the placeholder back gives the reference tokenizer's output. */
  lemma NoStarPart(s: string, i: nat, j: nat)
    requires '★' !in s && i <= j <= |s|
    ensures '★' !in s[i..j]
  {
    assert forall c :: c in s[i..j] ==> c in s;
  }

  lemma UnmaskQuotedCase(s: string)
    requires StartsWith(s, QuotedHttp)
    requires Unmask(MaskedReference(s[5..])) == LinkifyReference(s[5..])
    ensures Unmask(MaskedReference(s)) == LinkifyReference(s)
  {
    var rest := MaskedReference(s[5..]);
    assert MaskedReference(s) == Placeholder + rest;
    StartsWithConcat(Placeholder, rest);
    assert Unmask(Placeholder + rest) == QuotedHttp + Unmask(rest);
    ReferenceQuoted(s);
  }

  lemma UnmaskSpanCase(s: string, n: nat)
    requires s != [] && !StartsWith(s, QuotedHttp) && n == UrlLen(s) && n > 0
    requires '★' !in s[..n]
    requires Unmask(MaskedReference(s[n..])) == LinkifyReference(s[n..])
    ensures Unmask(MaskedReference(s)) == LinkifyReference(s)
  {
    var span := UrlSpan(s[..n]);
    assert MaskedReference(s) == span + MaskedReference(s[n..]);
    assert '★' !in span;
    ReplaceAllPlainPrefix(span, MaskedReference(s[n..]), Placeholder, QuotedHttp);
    assert LinkifyReference(s) == span + LinkifyReference(s[n..]);
  }

  lemma UnmaskCharCase(s: string)
    requires s != [] && s[0] != '★' && !StartsWith(s, QuotedHttp) && UrlLen(s) == 0
    requires Unmask(MaskedReference(s[1..])) == LinkifyReference(s[1..])
    ensures Unmask(MaskedReference(s)) == LinkifyReference(s)
  {
    assert MaskedReference(s) == [s[0]] + MaskedReference(s[1..]);
    ReplaceAllPlainPrefix([s[0]], MaskedReference(s[1..]), Placeholder, QuotedHttp);
    ReferencePlain(s);
  }

  /** Turning the placeholder back gives the reference tokenizer's output. */
  lemma {:induction false} UnmaskReference(s: string)
    requires '★' !in s
    ensures Unmask(MaskedReference(s)) == LinkifyReference(s)
    decreases |s|
  {
    if s == [] {
    } else if StartsWith(s, QuotedHttp) {
      NoStarPart(s, 5, |s|);
      UnmaskReference(s[5..]);
      UnmaskQuotedCase(s);
    } else {
      var n := UrlLen(s);
      if n > 0 {
        NoStarPart(s, 0, n);
        NoStarPart(s, n, |s|);
        UnmaskReference(s[n..]);
        UnmaskSpanCase(s, n);
      } else {
        NoStarPart(s, 1, |s|);
        UnmaskReference(s[1..]);
        UnmaskCharCase(s);
      }
    }
  }

  /**
   * The placeholder trick is exact: for any text that does not itself
   * contain the placeholder's star character, the renderer's link-ification
   * equals the reference tokenizer.
   */
  lemma LinkifyIsReference(s: string)
    requires '★' !in s
    ensures Linkify(s) == LinkifyReference(s)
  {
    WrapMasked(s);
    assert Linkify(s) == Unmask(MaskedReference(s));
    UnmaskReference(s);
  }

  /** Contains is inherited from a part. */
  lemma ContainsPart(s: string, p: string, q: string, i: nat, off: nat)
    requires OccursAt(s, p, i) && OccursAt(p, q, off)
    ensures Contains(s, q)
  {
    assert forall k :: 0 <= k < |q| ==> s[i + off + k] == s[i..i + |p|][off + k] == q[k];
    assert s[i + off..i + off + |q|] == q;
    assert OccursAt(s, q, i + off);
  }

  lemma {:induction false} WrapUrlsWithoutTtp(s: string)
    requires !Contains(s, "ttp")
    ensures WrapUrls(s) == s
    decreases |s|
  {
    if s != [] {
      if UrlLen(s) > 0 { UrlLenNeedsTtp(s); }
      NotContainsTail(s, "ttp");
      WrapUrlsWithoutTtp(s[1..]);
    }
  }

  /** A body without any `ttp` passes through link-ification unchanged. */
  lemma LinkifyWithoutTtp(s: string)
    requires !Contains(s, "ttp")
    ensures Linkify(s) == s
  {
    assert !Contains(s, QuotedHttp) by {
      if Contains(s, QuotedHttp) {
        var i: nat :| OccursAt(s, QuotedHttp, i);
        assert QuotedHttp[2..5] == "ttp";
        ContainsPart(s, QuotedHttp, "ttp", i, 2);
      }
    }
    ReplaceAllAbsent(s, QuotedHttp, Placeholder);
    assert Mask(s) == s;
    WrapUrlsWithoutTtp(s);
    assert !Contains(s, Placeholder) by {
      if Contains(s, Placeholder) {
        var i: nat :| OccursAt(s, Placeholder, i);
        assert Placeholder[5..8] == "ttp";
        ContainsPart(s, Placeholder, "ttp", i, 5);
      }
    }
    ReplaceAllAbsent(s, Placeholder, QuotedHttp);
  }

  lemma ReferenceQuoted(s: string)
    requires StartsWith(s, QuotedHttp)
    ensures LinkifyReference(s) == QuotedHttp + LinkifyReference(s[5..])
  {
  }

  lemma ReferencePlain(s: string)
    requires s != [] && !StartsWith(s, QuotedHttp) && UrlLen(s) == 0
    ensures LinkifyReference(s) == [s[0]] + LinkifyReference(s[1..])
  {
  }

  /**
   * The URL of an attribute is left alone: after `"http`, text that has no
   * `"` and no `ttp` and is followed by a character outside the URL class
   * (such as the closing quote) is copied unchanged.
   */
  lemma QuotedUrlKept(a: string, b: string)
    requires '"' !in a && !Contains(a, "ttp")
    requires b == [] || !IsUrlChar(b[0])
    ensures LinkifyReference(QuotedHttp + a + b) == QuotedHttp + a + LinkifyReference(b)
  {
    var x := QuotedHttp + (a + b);
    ConcatAssoc(QuotedHttp, a, b);
    StartsWithConcat(QuotedHttp, a + b);
    ReferenceQuoted(x);
    PlainRunKept(a, b);
    ConcatAssoc(QuotedHttp, a, LinkifyReference(b));
  }

  /** No match starts at the head of a quote-free, `ttp`-free run followed by a non-URL character. */
  lemma PlainRunNoUrl(a: string, b: string)
    requires a != [] && !Contains(a, "ttp")
    requires b == [] || !IsUrlChar(b[0])
    ensures UrlLen(a + b) == 0
  {
    var x := a + b;
    var n := UrlLen(x);
    if n > 0 {
      if |a| < n { UrlLenChars(x, |a|); }
      assert x[0] == a[0] && x[1] == a[1] && x[2] == a[2] && x[3] == a[3];
      if TtpAt(x, 0) { TtpContained(a, 0); } else { TtpContained(a, 1); }
      assert false;
    }
  }

  lemma {:induction false} PlainRunKept(a: string, b: string)
    requires '"' !in a && !Contains(a, "ttp")
    requires b == [] || !IsUrlChar(b[0])
    ensures LinkifyReference(a + b) == a + LinkifyReference(b)
    decreases |a|
  {
    if a == [] {
      assert a + b == b;
    } else {
      var x := a + b;
      assert x[0] == a[0];
      assert !StartsWith(x, QuotedHttp) by {
        if |x| >= 5 { assert x[..5][0] == x[0]; }
      }
      PlainRunNoUrl(a, b);
      ReferencePlain(x);
      assert x[1..] == a[1..] + b;
      NotContainsTail(a, "ttp");
      assert '"' !in a[1..] by { assert forall c :: c in a[1..] ==> c in a; }
      PlainRunKept(a[1..], b);
      ConcatAssoc([a[0]], a[1..], LinkifyReference(b));
      assert a == [a[0]] + a[1..];
    }
  }

  // ---------------------------------------------------------------------------
  // thumbnails: text.match(imgreg)

  /**
   * `(.jpg|.png|.gif)` at index `i`: any character except a line terminator,
   * then the extension. Without the `u` flag `.` matches one UTF-16 unit, so
   * a character above U+FFFF (two units) cannot be it.
   */
  predicate ExtAt(s: string, i: nat) {
    i + 4 <= |s| && !IsLineTerminator(s[i]) && s[i] as int < 0x10000
    && (s[i + 1..i + 4] == "jpg" || s[i + 1..i + 4] == "png" || s[i + 1..i + 4] == "gif")
  }

  /** The greedy run backs off until an extension follows: the largest `r <= j` with `ExtAt(s, k + r)`. */
  function ImgRun(s: string, k: nat, j: nat): (r: nat)
    ensures r <= j
    ensures r > 0 ==> ExtAt(s, k + r)
    ensures forall i :: k + r < i <= k + j ==> !ExtAt(s, i)
  {
    if j == 0 then 0 else if ExtAt(s, k + j) then j else ImgRun(s, k, j - 1)
  }

  /** Length of the `imgreg` match at the start of `s`, 0 if none. */
  function ImgLen(s: string): (n: nat)
    ensures n <= |s|
    ensures n > 0 ==> 10 <= n && (TtpAt(s, 0) || (s[0] == 'h' && TtpAt(s, 1))) && ExtAt(s, n - 4)
  {
    var k := SchemeLen(s);
    if k == 0 then 0
    else
      var r := ImgRun(s, k, RunLen(s[k..]));
      if r == 0 then 0 else k + r + 4
  }

  /** A URL that a thumbnail is made of: `ttp` or `http` first, an image extension last. */
  predicate IsImageUrl(u: string) {
    (StartsWith(u, "ttp") || StartsWith(u, "http"))
    && (EndsWith(u, "jpg") || EndsWith(u, "png") || EndsWith(u, "gif"))
  }

  lemma ImgMatchShape(s: string)
    requires ImgLen(s) > 0
    ensures IsImageUrl(s[..ImgLen(s)])
  {
    var n := ImgLen(s);
    var u := s[..n];
    assert u[..3] == s[..3] && u[..4] == s[..4];
    if TtpAt(s, 0) { assert s[..3] == "ttp"; } else { assert s[..4] == "http"; }
    assert u[n - 3..] == s[n - 3..n];
  }

  lemma ContainsAfter(s: string, n: nat, u: string)
    requires n <= |s| && Contains(s[n..], u)
    ensures Contains(s, u)
  {
    var i: nat :| OccursAt(s[n..], u, i);
    assert s[n + i..n + i + |u|] == s[n..][i..i + |u|];
    assert OccursAt(s, u, n + i);
  }

  /** `text.match(imgreg)`, with "no match" as the empty list. */
  function ImgUrls(s: string): (urls: seq<string>)
    ensures forall u :: u in urls ==> IsImageUrl(u) && Contains(s, u)
    ensures ImgLen(s) > 0 ==> |urls| > 0 && urls[0] == s[..ImgLen(s)]
    decreases |s|
  {
    if s == [] then []
    else
      var n := ImgLen(s);
      var rest := if n > 0 then ImgUrls(s[n..]) else ImgUrls(s[1..]);
      assert forall u :: u in rest ==> Contains(s, u) by {
        forall u | u in rest ensures Contains(s, u) {
          ContainsAfter(s, if n > 0 then n else 1, u);
        }
      }
      if n > 0 then
        ImgMatchShape(s);
        assert OccursAt(s, s[..n], 0);
        [s[..n]] + rest
      else
        rest
  }

  /** Positions where no match starts are passed over. */
  lemma {:induction false} ImgUrlsSkip(s: string, m: nat)
    requires m <= |s|
    requires forall i :: 0 <= i < m ==> ImgLen(s[i..]) == 0
    ensures ImgUrls(s) == ImgUrls(s[m..])
    decreases m
  {
    if m > 0 {
      assert s[0..] == s;
      assert ImgUrls(s) == ImgUrls(s[1..]);
      forall i | 0 <= i < m - 1
        ensures ImgLen(s[1..][i..]) == 0
      {
        assert s[1..][i..] == s[i + 1..];
      }
      ImgUrlsSkip(s[1..], m - 1);
      assert s[1..][m - 1..] == s[m..];
    }
  }

  /**
   * A match at the start is listed first and the scan resumes right after
   * it; with `ImgUrlsSkip`, the list holds the leftmost match, then the
   * matches of what follows it, so matches are listed in order and never
   * overlap.
   */
  lemma ImgUrlsMatch(t: string)
    requires ImgLen(t) > 0
    ensures ImgUrls(t) == [t[..ImgLen(t)]] + ImgUrls(t[ImgLen(t)..])
  {
  }

  /** The list is empty exactly when no match starts anywhere in the text. */
  lemma {:induction false} ImgUrlsEmpty(s: string)
    ensures ImgUrls(s) == [] <==> forall i :: 0 <= i < |s| ==> ImgLen(s[i..]) == 0
    decreases |s|
  {
    if forall i :: 0 <= i < |s| ==> ImgLen(s[i..]) == 0 {
      ImgUrlsSkip(s, |s|);
      assert s[|s|..] == [];
    } else if s != [] && ImgUrls(s) == [] {
      assert s[0..] == s;
      assert ImgLen(s) == 0 && ImgUrls(s[1..]) == [];
      ImgUrlsEmpty(s[1..]);
      forall i | 0 <= i < |s|
        ensures ImgLen(s[i..]) == 0
      {
        if i > 0 {
          assert s[i..] == s[1..][i - 1..];
        }
      }
      assert false;
    }
  }

  /** `tmp.match(/^ttp/) ? 'h' + tmp : tmp` */
  function FixScheme(url: string): (r: string) {
    if StartsWith(url, "ttp") then "h" + url else url
  }

  /** Every thumbnail source starts with `http`, whether or not the text used the `ttp` shorthand. */
  lemma ThumbnailSourcesHttp(s: string)
    ensures forall u :: u in ImgUrls(s) ==> StartsWith(FixScheme(u), "http")
  {
    forall u | u in ImgUrls(s) ensures StartsWith(FixScheme(u), "http") {
      if StartsWith(u, "ttp") {
        assert ("h" + u)[..4] == "h" + u[..3];
      }
    }
  }

  // ---------------------------------------------------------------------------
  // text.replace(reg, '') before translation

  function RemoveUrls(s: string): (r: string)
    decreases |s|
  {
    if s == [] then []
    else
      var n := UrlLen(s);
      if n > 0 then RemoveUrls(s[n..]) else [s[0]] + RemoveUrls(s[1..])
  }

  lemma {:induction false} RemoveUrlsWithoutTtp(s: string)
    requires !Contains(s, "ttp")
    ensures RemoveUrls(s) == s
    decreases |s|
  {
    if s != [] {
      if UrlLen(s) > 0 { UrlLenNeedsTtp(s); }
      NotContainsTail(s, "ttp");
      RemoveUrlsWithoutTtp(s[1..]);
    }
  }

  /** No `reg` match starts anywhere in `u`. */
  predicate NoUrl(u: string) {
    forall i :: 0 <= i < |u| ==> UrlLen(u[i..]) == 0
  }

  lemma TtpsLenPrefix(s: string, m: nat, i: nat)
    requires m <= |s| && TtpsLen(s[..m], i) > 0
    ensures TtpsLen(s, i) == TtpsLen(s[..m], i)
  {
    var p := s[..m];
    assert forall j :: 0 <= j < m ==> p[j] == s[j];
  }

  /** A match at the start of a prefix is a match at the start of the whole text. */
  lemma UrlLenPrefix(s: string, m: nat)
    requires m <= |s| && UrlLen(s[..m]) > 0
    ensures UrlLen(s) > 0
  {
    var p := s[..m];
    assert forall j :: 0 <= j < m ==> p[j] == s[j];
    var k := SchemeLen(p);
    if p[0] == 'h' && TtpsLen(p, 1) > 0 {
      TtpsLenPrefix(s, m, 1);
    } else {
      TtpsLenPrefix(s, m, 0);
    }
    assert SchemeLen(s) == k;
    assert p[k..][0] == s[k..][0];
  }

  /** Index of the first match in `t`, `|t|` when there is none. */
  function FirstCut(t: string): (j: nat)
    ensures j <= |t|
    decreases |t|
  {
    if t == [] then 0 else if UrlLen(t) > 0 then 0 else 1 + FirstCut(t[1..])
  }

  /** A character outside the URL class cannot start a match, so it is copied. */
  lemma RemoveUrlsKeepsStop(t: string)
    requires t != [] && !IsUrlChar(t[0])
    ensures RemoveUrls(t) != [] && RemoveUrls(t)[0] == t[0]
  {
    assert UrlLen(t) == 0;
  }

  /** Where no match starts, the first character is copied. */
  lemma RemoveUrlsCopy(t: string)
    requires t != [] && UrlLen(t) == 0
    ensures RemoveUrls(t) == [t[0]] + RemoveUrls(t[1..])
  {
  }

  /**
   * Up to its first match the removal copies `t`, and what follows the copy
   * is a character outside the URL class (the one that ended the match) or
   * nothing.
   */
  lemma {:induction false} RemoveUrlsHead(t: string)
    ensures var j := FirstCut(t); var r := RemoveUrls(t);
      j <= |r| && r[..j] == t[..j] && (j == |r| || !IsUrlChar(r[j]))
    decreases |t|
  {
    if t != [] {
      var n := UrlLen(t);
      if n > 0 {
        var rest := t[n..];
        assert FirstCut(t) == 0 && RemoveUrls(t) == RemoveUrls(rest);
        if rest != [] {
          RemoveUrlsKeepsStop(rest);
        }
      } else {
        var t' := t[1..];
        var j := FirstCut(t');
        var r' := RemoveUrls(t');
        RemoveUrlsHead(t');
        RemoveUrlsCopy(t);
        assert FirstCut(t) == j + 1;
        ConsSlices(t[0], r', t', j);
      }
    }
  }

  /** Putting one character in front of two sequences that agree up to `j` makes them agree up to `j + 1`. */
  lemma ConsSlices(c: char, r: string, t: string, j: nat)
    requires j <= |r| && j <= |t| && r[..j] == t[..j]
    ensures ([c] + r)[..j + 1] == ([c] + t)[..j + 1]
  {
    assert ([c] + r)[..j + 1] == [c] + r[..j];
    assert ([c] + t)[..j + 1] == [c] + t[..j];
  }

  /** The first position of a copied text: the match there is the one at the start of the source, cut at the first removal. */
  lemma RemoveUrlsCleanHead(s: string)
    requires s != [] && UrlLen(s) == 0
    ensures UrlLen(RemoveUrls(s)) == 0
  {
    var t := s[1..];
    var r := RemoveUrls(s);
    RemoveUrlsCopy(s);
    RemoveUrlsHead(t);
    var q := 1 + FirstCut(t);
    assert s == [s[0]] + t;
    ConsSlices(s[0], RemoveUrls(t), t, q - 1);
    assert r[..q] == s[..q];
    UrlLenCut(r, q);
    if UrlLen(s[..q]) > 0 {
      UrlLenPrefix(s, q);
    }
  }

  /**
   * `text.replace(reg, '')` leaves no URL behind: every removed match ends
   * before a character outside the URL class, so the pieces around a cut
   * never join into a new match.
   */
  lemma {:induction false} RemoveUrlsClean(s: string)
    ensures NoUrl(RemoveUrls(s))
    decreases |s|
  {
    if s != [] {
      var n := UrlLen(s);
      if n > 0 {
        assert RemoveUrls(s) == RemoveUrls(s[n..]);
        RemoveUrlsClean(s[n..]);
      } else {
        var t := s[1..];
        var r := RemoveUrls(s);
        var rt := RemoveUrls(t);
        RemoveUrlsCopy(s);
        RemoveUrlsClean(t);
        RemoveUrlsCleanHead(s);
        forall i | 0 <= i < |r|
          ensures UrlLen(r[i..]) == 0
        {
          if i > 0 {
            assert r[i..] == rt[i - 1..];
          } else {
            assert r[0..] == r;
          }
        }
      }
    }
  }

  /** A piece of a text without matches has none. */
  lemma NoUrlSlice(u: string, a: nat, b: nat)
    requires NoUrl(u) && a <= b <= |u|
    ensures NoUrl(u[a..b])
  {
    var v := u[a..b];
    forall i | 0 <= i < |v|
      ensures UrlLen(v[i..]) == 0
    {
      var w := u[a + i..];
      assert v[i..] == w[..b - a - i];
      if UrlLen(w[..b - a - i]) > 0 {
        UrlLenPrefix(w, b - a - i);
      }
    }
  }

  /** Trimming a text without matches leaves none. */
  lemma TrimKeepsNoUrl(u: string)
    requires NoUrl(u)
    ensures NoUrl(Trim(u))
  {
    var r := Trim(u);
    var i: nat :| TrimmedAt(u, r, i);
    NoUrlSlice(u, i, i + |r|);
    assert u[i..i + |r|] == r;
  }
}
