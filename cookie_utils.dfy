/**
 * src/utils/cookie-utils.ts: reading the `current-brand-id` cookie on the server and in the
 * browser, and the text `setBrandCookie` assigns to `document.cookie`.
 */
module CookieUtils {
  import opened Wrappers
  import opened JsString
  import opened Runtime

  const BRAND_COOKIE_NAME := "current-brand-id"
  const BRAND_COOKIE_PREFIX := BRAND_COOKIE_NAME + "="
  /** Thirty days, in seconds. */
  const BRAND_COOKIE_MAX_AGE: nat := 60 * 60 * 24 * 30

  /** What `Cookies.get("current-brand-id")` did on the server: returned a value (or `undefined`), or threw. */
  datatype ServerCookieRead = Read(value: Option<string>) | Threw

  /** `getBrandFromServerCookies`: the cookie value, with a missing or empty cookie and a thrown error all mapped to null. */
  function GetBrandFromServerCookies(read: ServerCookieRead): (r: Option<string>)
    ensures r.Some? <==> read.Read? && read.value.Some? && read.value.value != ""
    ensures r.Some? ==> r == read.value
  {
    match read
    case Threw => None
    case Read(v) => if v.Some? && v.value != "" then v else None
  }

  /** A `;`-segment whose trimmed text starts with `current-brand-id=`. */
  predicate IsBrandSegment(segment: string) {
    StartsWith(Trim(segment), BRAND_COOKIE_PREFIX)
  }

  predicate NoBrandSegment(segments: seq<string>) {
    forall k :: 0 <= k < |segments| ==> !IsBrandSegment(segments[k])
  }

  /** `Array.prototype.find` over the segments with that test. */
  function FindBrandSegment(segments: seq<string>): (r: Option<string>)
    ensures r.None? <==> NoBrandSegment(segments)
    ensures r.Some? ==> IsBrandSegment(r.value) && r.value in segments
  {
    if segments == [] then None
    else if IsBrandSegment(segments[0]) then Some(segments[0])
    else
      var r := FindBrandSegment(segments[1..]);
      assert NoBrandSegment(segments[1..]) ==> NoBrandSegment(segments) by {
        if NoBrandSegment(segments[1..]) {
          forall k | 1 <= k < |segments| ensures !IsBrandSegment(segments[k]) {
            assert segments[k] == segments[1..][k - 1];
          }
        }
      }
      r
  }

  /** `segment.split("=")[1]?.trim() || null`: the text between the first and second `=`, trimmed; empty is null. */
  function SegmentValue(segment: string): (r: Option<string>)
    ensures r.Some? ==> r.value != "" && '=' !in r.value
    ensures r.Some? ==> !IsWhitespace(r.value[0]) && !IsWhitespace(r.value[|r.value| - 1])
  {
    var parts := Split(segment, '=');
    if |parts| < 2 then None
    else
      var v := Trim(parts[1]);
      TrimKeepsAbsent(parts[1], '=');
      if v == "" then None else Some(v)
  }

  /** A character absent from the string is absent from each piece. */
  lemma {:induction false} SplitKeepsAbsent(s: string, d: char, c: char)
    requires c !in s
    ensures forall k :: 0 <= k < |Split(s, d)| ==> c !in Split(s, d)[k]
  {
    if s != [] {
      SplitKeepsAbsent(s[1..], d, c);
      var rest := Split(s[1..], d);
      if s[0] != d {
        assert Split(s, d) == [[s[0]] + rest[0]] + rest[1..];
        assert c !in [s[0]] + rest[0];
      }
    }
  }

  /** The value of a segment without `;` holds no `;`. */
  lemma SegmentValueKeepsAbsent(segment: string)
    requires ';' !in segment
    ensures SegmentValue(segment).Some? ==> ';' !in SegmentValue(segment).value
  {
    var parts := Split(segment, '=');
    if |parts| >= 2 {
      SplitKeepsAbsent(segment, '=', ';');
      TrimKeepsAbsent(parts[1], ';');
    }
  }

  /**
   * A value the browser parser can give back unchanged: non-empty, no `;` or `=`, and no
   * white space at either end.
   */
  predicate IsCookieSafeValue(v: string) {
    v != "" && ';' !in v && '=' !in v && !IsWhitespace(v[0]) && !IsWhitespace(v[|v| - 1])
  }

  /** The parser of `getBrandFromClientCookies`, applied to the text of `document.cookie`. */
  function ParseBrandCookie(cookie: string): (r: Option<string>)
    ensures NoBrandSegment(Split(cookie, ';')) ==> r.None?
    ensures r.Some? ==> IsCookieSafeValue(r.value)
  {
    match FindBrandSegment(Split(cookie, ';'))
    case None => None
    case Some(segment) =>
      SegmentValueKeepsAbsent(segment);
      SegmentValue(segment)
  }

  /** `getBrandFromClientCookies`: null without a document, else the parse of `document.cookie`. */
  function GetBrandFromClientCookies(env: Env): (r: Option<string>)
    ensures env.None? ==> r.None?
    ensures env.Some? ==> r == ParseBrandCookie(env.value.cookie)
  {
    match env
    case None => None
    case Some(b) => ParseBrandCookie(b.cookie)
  }

  /** The attributes after the pair: path `/`, the maximum age in seconds, lax same-site. */
  const BRAND_COOKIE_ATTRIBUTES := "; path=/; max-age=" + NatToString(BRAND_COOKIE_MAX_AGE) + "; samesite=lax"

  /** The text `setBrandCookie(brandId)` assigns to `document.cookie`. */
  function BrandCookieText(brandId: string): (text: string) {
    BRAND_COOKIE_PREFIX + brandId + BRAND_COOKIE_ATTRIBUTES
  }

  /** `setBrandCookie`: the assignment made, or nothing without a document. */
  function SetBrandCookie(env: Env, brandId: string): (written: Option<string>)
    ensures env.None? <==> written.None?
    ensures written.Some? ==> StartsWith(written.value, BRAND_COOKIE_PREFIX + brandId + ";")
    ensures written.Some? ==>
      written.value == "current-brand-id=" + brandId + "; path=/; max-age=2592000; samesite=lax"
  {
    if env.None? then None
    else
      assert BrandCookieText(brandId)[..|BRAND_COOKIE_PREFIX + brandId + ";"|] == BRAND_COOKIE_PREFIX + brandId + ";";
      BrandCookieAttributesText();
      Some(BrandCookieText(brandId))
  }

  /** Thirty days is 2592000 seconds, written in decimal. */
  lemma MaxAgeText()
    ensures BRAND_COOKIE_MAX_AGE == 2592000
    ensures NatToString(BRAND_COOKIE_MAX_AGE) == "2592000"
  {
    assert NatToString(2) == "2";
    assert NatToString(25) == "25";
    assert NatToString(259) == "259";
    assert NatToString(2592) == "2592";
    assert NatToString(25920) == "25920";
    assert NatToString(259200) == "259200";
  }

  /** The exact attribute text: path `/`, thirty days, lax same-site. */
  lemma BrandCookieAttributesText()
    ensures BRAND_COOKIE_ATTRIBUTES == "; path=/; max-age=2592000; samesite=lax"
  {
    MaxAgeText();
    AttributesJoin(NatToString(BRAND_COOKIE_MAX_AGE));
  }

  lemma AttributesJoin(age: string)
    requires age == "2592000"
    ensures "; path=/; max-age=" + age + "; samesite=lax" == "; path=/; max-age=2592000; samesite=lax"
  {
  }

  /** A segment before the first match is skipped; a later match is never looked at. */
  lemma {:induction false} FindSkipsNonMatching(a: seq<string>, b: seq<string>)
    requires NoBrandSegment(a)
    ensures FindBrandSegment(a + b) == FindBrandSegment(b)
  {
    if a != [] {
      assert (a + b)[0] == a[0] && (a + b)[1..] == a[1..] + b;
      assert NoBrandSegment(a[1..]) by {
        forall k | 0 <= k < |a| - 1 ensures !IsBrandSegment(a[1..][k]) {
          assert a[1..][k] == a[k + 1];
        }
      }
      FindSkipsNonMatching(a[1..], b);
    } else {
      assert a + b == b;
    }
  }

  /** `pad + ((name + "=") + v)` regrouped around the `=`. */
  lemma ConcatRegroup(pad: string, name: string, v: string)
    ensures pad + ((name + ['=']) + v) == (pad + name) + ['='] + v
  {
  }

  /** A cookie string `pre + pair + post` regrouped around the `;` that ends `pre`, if any. */
  lemma SplitOffLast(pre: string, pair: string, post: string)
    ensures pre == "" ==> pre + pair + post == pair + post
    ensures pre != "" && pre[|pre| - 1] == ';' ==>
      pre + pair + post == pre[..|pre| - 1] + [';'] + (pair + post)
  {
    if pre != "" && pre[|pre| - 1] == ';' {
      assert pre == pre[..|pre| - 1] + [';'];
    }
  }

  /** A segment without `;` followed by nothing or by `;` and anything is the first piece. */
  lemma FirstPiece(seg: string, post: string)
    requires ';' !in seg
    requires post == "" || post[0] == ';'
    ensures Split(seg + post, ';')[0] == seg
  {
    SplitWithoutSeparator(seg, ';');
    if post == "" {
      assert seg + post == seg;
    } else {
      assert seg + post == seg + [';'] + post[1..];
      SplitAround(seg, ';', post[1..]);
    }
  }

  /** One `=` between two `=`-free strings splits into exactly those two. */
  lemma SplitAtOnlyEquals(a: string, b: string)
    requires '=' !in a && '=' !in b
    ensures Split(a + ['='] + b, '=') == [a, b]
  {
    SplitAround(a, '=', b);
    SplitWithoutSeparator(a, '=');
    SplitWithoutSeparator(b, '=');
  }

  /** When the first piece is recognised, the parse is that piece's value. */
  lemma ParseOfFirstSegment(cookie: string, seg: string)
    requires Split(cookie, ';')[0] == seg && IsBrandSegment(seg)
    ensures ParseBrandCookie(cookie) == SegmentValue(seg)
  {
  }

  lemma Regroup(a: string, b: string, c: string, d: string)
    ensures a + b + c + d == a + (b + c) + d
  {
  }

  /** White space holds no character that is not white space. */
  lemma WhitespaceExcludes(pad: string, c: char)
    requires AllWhitespace(pad) && !IsWhitespace(c)
    ensures c !in pad
  {
  }

  /** The cookie name holds neither separator, and the prefix is the name and `=`. */
  lemma PrefixFacts()
    ensures BRAND_COOKIE_PREFIX == BRAND_COOKIE_NAME + ['=']
    ensures ';' !in BRAND_COOKIE_PREFIX && '=' !in BRAND_COOKIE_NAME
    ensures !IsWhitespace(BRAND_COOKIE_PREFIX[0])
  {
  }

  /** `current-brand-id=<id>` is already trimmed and starts with the prefix. */
  lemma PrefixedValueTrimmed(id: string)
    requires IsCookieSafeValue(id)
    ensures Trim(BRAND_COOKIE_PREFIX + id) == BRAND_COOKIE_PREFIX + id
    ensures StartsWith(BRAND_COOKIE_PREFIX + id, BRAND_COOKIE_PREFIX)
  {
    var t := BRAND_COOKIE_PREFIX + id;
    PrefixFacts();
    assert t[0] == BRAND_COOKIE_PREFIX[0] && t[|t| - 1] == id[|id| - 1];
    TrimOfTrimmed(t);
    assert t[..|BRAND_COOKIE_PREFIX|] == BRAND_COOKIE_PREFIX;
  }

  /** The segment `pad + "current-brand-id=" + id` splits at `=` into the padded name and `id`. */
  lemma PairSplitsAtEquals(pad: string, id: string)
    requires AllWhitespace(pad) && IsCookieSafeValue(id)
    ensures Split(pad + (BRAND_COOKIE_PREFIX + id), '=') == [pad + BRAND_COOKIE_NAME, id]
  {
    PrefixFacts();
    ConcatRegroup(pad, BRAND_COOKIE_NAME, id);
    WhitespaceExcludes(pad, '=');
    SplitAtOnlyEquals(pad + BRAND_COOKIE_NAME, id);
  }

  /** The segment `pad + "current-brand-id=" + id` is recognised. */
  lemma PairIsBrandSegment(pad: string, id: string)
    requires AllWhitespace(pad) && IsCookieSafeValue(id)
    ensures IsBrandSegment(pad + (BRAND_COOKIE_PREFIX + id))
  {
    PrefixedValueTrimmed(id);
    PaddedBrandSegment(pad, BRAND_COOKIE_PREFIX + id);
  }

  /** White space in front of a recognised, trimmed segment keeps it recognised. */
  lemma PaddedBrandSegment(pad: string, t: string)
    requires AllWhitespace(pad) && Trim(t) == t && IsBrandSegment(t)
    ensures IsBrandSegment(pad + t)
  {
    TrimSkipsLeadingWhitespace(pad, t);
  }

  /** A segment whose second `=`-piece is a trimmed non-empty `v` has the value `v`. */
  lemma SegmentValueIs(segment: string, v: string)
    requires |Split(segment, '=')| >= 2 && Split(segment, '=')[1] == v
    requires v != "" && !IsWhitespace(v[0]) && !IsWhitespace(v[|v| - 1])
    ensures SegmentValue(segment) == Some(v)
  {
    TrimOfTrimmed(v);
  }

  /** The segment `pad + "current-brand-id=" + id` is recognised and yields `id`. */
  lemma BrandPairValue(pad: string, id: string)
    requires AllWhitespace(pad) && IsCookieSafeValue(id)
    ensures IsBrandSegment(pad + (BRAND_COOKIE_PREFIX + id))
    ensures SegmentValue(pad + (BRAND_COOKIE_PREFIX + id)) == Some(id)
  {
    PairIsBrandSegment(pad, id);
    PairSplitsAtEquals(pad, id);
    SegmentValueIs(pad + (BRAND_COOKIE_PREFIX + id), id);
  }

  /** The pair segment followed by nothing or by `;` and anything: the pair is the first piece. */
  lemma PairIsFirstPiece(pad: string, id: string, post: string)
    requires AllWhitespace(pad) && IsCookieSafeValue(id)
    requires post == "" || post[0] == ';'
    ensures Split(pad + (BRAND_COOKIE_PREFIX + id) + post, ';')[0] == pad + (BRAND_COOKIE_PREFIX + id)
  {
    PrefixFacts();
    WhitespaceExcludes(pad, ';');
    FirstPiece(pad + (BRAND_COOKIE_PREFIX + id), post);
  }

  /**
   * Round trip: a cookie string holding the pair `current-brand-id=<id>` (after any number of
   * non-matching cookies and optional white space, and followed by nothing or by `;` and anything,
   * a later duplicate included) parses back to `id`.
   */
  lemma ParseFindsBrandPair(pre: string, pad: string, id: string, post: string)
    requires pre == "" || (pre[|pre| - 1] == ';' && NoBrandSegment(Split(pre[..|pre| - 1], ';')))
    requires AllWhitespace(pad) && IsCookieSafeValue(id)
    requires post == "" || post[0] == ';'
    ensures ParseBrandCookie(pre + pad + (BRAND_COOKIE_PREFIX + id) + post) == Some(id)
  {
    BrandPairValue(pad, id);
    PairIsFirstPiece(pad, id, post);
    ParseFindsSegment(pre, pad + (BRAND_COOKIE_PREFIX + id), post, id);
    Regroup(pre, pad, BRAND_COOKIE_PREFIX + id, post);
  }

  /** The first recognised segment decides the parse, whatever follows it. */
  lemma ParseFindsSegment(pre: string, pair: string, post: string, v: string)
    requires pre == "" || (pre[|pre| - 1] == ';' && NoBrandSegment(Split(pre[..|pre| - 1], ';')))
    requires Split(pair + post, ';')[0] == pair
    requires IsBrandSegment(pair) && SegmentValue(pair) == Some(v)
    ensures ParseBrandCookie(pre + pair + post) == Some(v)
  {
    var tail := pair + post;
    var cookie := pre + pair + post;
    var found := FindBrandSegment(Split(cookie, ';'));
    assert found == Some(pair) by {
      assert FindBrandSegment(Split(tail, ';')) == Some(pair);
      if pre == "" {
        SplitOffLast(pre, pair, post);
      } else {
        var front := pre[..|pre| - 1];
        SplitOffLast(pre, pair, post);
        SplitAround(front, ';', tail);
        FindSkipsNonMatching(Split(front, ';'), Split(tail, ';'));
      }
    }
  }

  /**
   * The whole text `setBrandCookie` assigns, attributes included, still parses to its id: the
   * attributes follow the `;` that ends the pair. What the browser hands back afterwards is the
   * pair alone, which is `ParseLonePair`.
   */
  lemma ParseOwnCookieText(id: string)
    requires IsCookieSafeValue(id)
    ensures ParseBrandCookie(BrandCookieText(id)) == Some(id)
  {
    ParseFindsBrandPair("", "", id, BRAND_COOKIE_ATTRIBUTES);
    assert "" + "" + (BRAND_COOKIE_PREFIX + id) == BRAND_COOKIE_PREFIX + id;
  }

  /** A cookie string holding only the brand pair parses to its value. */
  lemma ParseLonePair(id: string)
    requires IsCookieSafeValue(id)
    ensures ParseBrandCookie(BRAND_COOKIE_PREFIX + id) == Some(id)
  {
    ParseFindsBrandPair("", "", id, "");
    assert "" + "" + (BRAND_COOKIE_PREFIX + id) + "" == BRAND_COOKIE_PREFIX + id;
  }

  /** A cookie whose name merely extends `current-brand-id` does not match. */
  lemma LongerNameRejected(v: string)
    requires ';' !in v
    ensures ParseBrandCookie(BRAND_COOKIE_NAME + "x=" + v) == None
  {
    var s := BRAND_COOKIE_NAME + "x=" + v;
    assert s[0] == 'c' && s[16] == 'x' && ';' !in s;
    UnrecognisedSegment(s);
    SplitWithoutSeparator(s, ';');
  }

  /** A segment whose 17th character, the place of the `=`, is something else is not recognised. */
  lemma UnrecognisedSegment(s: string)
    requires |s| > 16 && !IsWhitespace(s[0]) && !IsWhitespace(s[16]) && s[16] != '='
    ensures !IsBrandSegment(s)
  {
    TrimKeepsHead(s, 16);
    assert Trim(s)[16] == s[16];
    assert BRAND_COOKIE_PREFIX[16] == '=';
  }

  /** A brand cookie whose value is empty or only white space reads as null. */
  lemma EmptyValueIsNull(pad: string, post: string)
    requires AllWhitespace(pad)
    requires post == "" || post[0] == ';'
    ensures ParseBrandCookie(BRAND_COOKIE_PREFIX + pad + post) == None
  {
    var seg := BRAND_COOKIE_PREFIX + pad;
    PrefixFacts();
    WhitespaceExcludes(pad, ';');
    WhitespaceExcludes(pad, '=');
    FirstPiece(seg, post);
    TrimSkipsTrailingWhitespace(BRAND_COOKIE_PREFIX, pad);
    TrimOfTrimmed(BRAND_COOKIE_PREFIX);
    assert StartsWith(BRAND_COOKIE_PREFIX, BRAND_COOKIE_PREFIX);
    ParseOfFirstSegment(seg + post, seg);
    SplitAtOnlyEquals(BRAND_COOKIE_NAME, pad);
    TrimStartSkipsWhitespace(pad, "");
    assert pad + "" == pad;
  }
}
