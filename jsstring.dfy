/**
 * The JavaScript string operations the core relies on, written out on `seq<char>`:
 * `split` on one character, `trim`, `startsWith`, `includes`, `indexOf`,
 * `replace` with a string pattern, ASCII `toLowerCase`, and number-to-decimal text.
 */
module JsString {
  import opened Wrappers

  /** The characters `String.prototype.trim` removes (white space and line terminators). */
  predicate IsWhitespace(c: char) {
    c in {' ', '\t', '\n', '\U{000B}', '\U{000C}', '\r', '\U{00A0}', '\U{1680}',
          '\U{2000}', '\U{2001}', '\U{2002}', '\U{2003}', '\U{2004}', '\U{2005}',
          '\U{2006}', '\U{2007}', '\U{2008}', '\U{2009}', '\U{200A}',
          '\U{2028}', '\U{2029}', '\U{202F}', '\U{205F}', '\U{3000}', '\U{FEFF}'}
  }

  predicate AllWhitespace(s: string) {
    forall i :: 0 <= i < |s| ==> IsWhitespace(s[i])
  }

  function TrimStart(s: string): (r: string)
    ensures |r| <= |s| && r == s[|s| - |r|..]
    ensures r == "" || !IsWhitespace(r[0])
    ensures AllWhitespace(s[..|s| - |r|])
  {
    if |s| > 0 && IsWhitespace(s[0]) then TrimStart(s[1..]) else s
  }

  function TrimEnd(s: string): (r: string)
    ensures |r| <= |s| && r == s[..|r|]
    ensures r == "" || !IsWhitespace(r[|r| - 1])
    ensures AllWhitespace(s[|r|..])
  {
    if |s| > 0 && IsWhitespace(s[|s| - 1]) then TrimEnd(s[..|s| - 1]) else s
  }

  /** `s.trim()`: `s` without its leading and trailing white space. */
  function Trim(s: string): (r: string)
    ensures r == "" || (!IsWhitespace(r[0]) && !IsWhitespace(r[|r| - 1]))
  {
    TrimEnd(TrimStart(s))
  }

  /** Trimming adds no character. */
  lemma TrimKeepsAbsent(s: string, c: char)
    requires c !in s
    ensures c !in Trim(s)
  {
    var t := TrimStart(s);
    assert t == s[|s| - |t|..];
    assert Trim(s) == t[..|Trim(s)|];
  }

  /** Leading white space does not change what `trim` returns. */
  lemma TrimSkipsLeadingWhitespace(pad: string, s: string)
    requires AllWhitespace(pad)
    ensures Trim(pad + s) == Trim(s)
  {
    TrimStartSkipsWhitespace(pad, s);
  }

  lemma {:induction false} TrimStartSkipsWhitespace(pad: string, s: string)
    requires AllWhitespace(pad)
    ensures TrimStart(pad + s) == TrimStart(s)
  {
    if pad != [] {
      assert (pad + s)[0] == pad[0] && IsWhitespace(pad[0]);
      assert (pad + s)[1..] == pad[1..] + s;
      assert AllWhitespace(pad[1..]) by {
        forall i | 0 <= i < |pad| - 1 ensures IsWhitespace(pad[1..][i]) {
          assert pad[1..][i] == pad[i + 1];
        }
      }
      TrimStartSkipsWhitespace(pad[1..], s);
      assert TrimStart(pad + s) == TrimStart((pad + s)[1..]);
    } else {
      assert pad + s == s;
    }
  }

  /** Trailing white space does not change what `trim` returns, once the string starts with a non-space. */
  lemma TrimSkipsTrailingWhitespace(s: string, pad: string)
    requires s != "" && !IsWhitespace(s[0]) && AllWhitespace(pad)
    ensures Trim(s + pad) == Trim(s)
  {
    assert (s + pad)[0] == s[0];
    TrimEndSkipsWhitespace(s, pad);
  }

  lemma {:induction false} TrimEndSkipsWhitespace(s: string, pad: string)
    requires AllWhitespace(pad)
    ensures TrimEnd(s + pad) == TrimEnd(s)
  {
    if pad != [] {
      var t := s + pad;
      var shorter := pad[..|pad| - 1];
      assert t[|t| - 1] == pad[|pad| - 1];
      assert t[..|t| - 1] == s + shorter;
      assert AllWhitespace(shorter) by {
        forall i | 0 <= i < |shorter| ensures IsWhitespace(shorter[i]) {
          assert shorter[i] == pad[i];
        }
      }
      TrimEndSkipsWhitespace(s, shorter);
    } else {
      assert s + pad == s;
    }
  }

  /** Trimming keeps every character up to the last one that is not white space. */
  lemma TrimKeepsHead(s: string, k: nat)
    requires k < |s| && !IsWhitespace(s[0]) && !IsWhitespace(s[k])
    ensures k < |Trim(s)| && Trim(s)[..k + 1] == s[..k + 1]
  {
    var r := TrimEnd(s);
    assert TrimStart(s) == s;
    assert forall j :: |r| <= j < |s| ==> IsWhitespace(s[j]) by {
      forall j | |r| <= j < |s| ensures IsWhitespace(s[j]) {
        assert s[j] == s[|r|..][j - |r|];
      }
    }
  }

  /** A string that neither starts nor ends with white space is its own trim. */
  lemma TrimOfTrimmed(s: string)
    requires s == "" || (!IsWhitespace(s[0]) && !IsWhitespace(s[|s| - 1]))
    ensures Trim(s) == s
  {
  }

  /** `s.split(d)` for a one-character separator: the pieces between separators, always at least one. */
  function Split(s: string, d: char): (r: seq<string>)
    ensures |r| >= 1
    ensures forall k :: 0 <= k < |r| ==> d !in r[k]
  {
    if s == [] then [""]
    else if s[0] == d then [""] + Split(s[1..], d)
    else
      var rest := Split(s[1..], d);
      [[s[0]] + rest[0]] + rest[1..]
  }

  /** The pieces of `s` joined back with the separator. */
  function Join(pieces: seq<string>, d: char): string
    requires |pieces| >= 1
  {
    if |pieces| == 1 then pieces[0] else pieces[0] + [d] + Join(pieces[1..], d)
  }

  /** Splitting loses nothing: joining the pieces gives back the string. */
  lemma {:induction false} SplitJoin(s: string, d: char)
    ensures Join(Split(s, d), d) == s
  {
    if s != [] {
      SplitJoin(s[1..], d);
      var rest := Split(s[1..], d);
      if s[0] == d {
        assert Split(s, d)[1..] == rest;
      } else if |rest| > 1 {
        assert Split(s, d)[1..] == rest[1..];
        assert Join(rest, d) == rest[0] + [d] + Join(rest[1..], d);
        assert s == [s[0]] + s[1..];
      }
    }
  }

  /** A string without the separator is a single piece. */
  lemma {:induction false} SplitWithoutSeparator(s: string, d: char)
    requires d !in s
    ensures Split(s, d) == [s]
  {
    if s != [] {
      assert d !in s[1..];
      SplitWithoutSeparator(s[1..], d);
      assert [s[0]] + s[1..] == s;
    }
  }

  /** One step of `Split`: the first character either ends the first piece or joins it. */
  lemma SplitCons(c: char, s: string, d: char)
    ensures Split([c] + s, d) ==
      if c == d then [""] + Split(s, d) else [[c] + Split(s, d)[0]] + Split(s, d)[1..]
  {
    assert ([c] + s)[0] == c && ([c] + s)[1..] == s;
  }

  /** Splitting distributes over a separator: the pieces of `a`, then the pieces of `b`. */
  lemma {:induction false} SplitAround(a: string, d: char, b: string)
    ensures Split(a + [d] + b, d) == Split(a, d) + Split(b, d)
  {
    ConsShape(a, d, b);
    if a == [] {
      SplitCons(d, b, d);
      assert Split(a, d) == [""];
    } else {
      SplitAround(a[1..], d, b);
      SplitAroundStep(a[0], a[1..], d, b);
    }
  }

  /** The inductive step of `SplitAround`: one more character in front. */
  lemma SplitAroundStep(c: char, t: string, d: char, b: string)
    requires Split(t + [d] + b, d) == Split(t, d) + Split(b, d)
    ensures Split([c] + (t + [d] + b), d) == Split([c] + t, d) + Split(b, d)
  {
    SplitCons(c, t + [d] + b, d);
    SplitCons(c, t, d);
    PiecesAppend(c, Split(t, d), Split(b, d));
  }

  /** Prepending a character to the first piece commutes with appending more pieces. */
  lemma PiecesAppend(c: char, A: seq<string>, B: seq<string>)
    requires |A| >= 1
    ensures [""] + (A + B) == [""] + A + B
    ensures [[c] + (A + B)[0]] + (A + B)[1..] == [[c] + A[0]] + A[1..] + B
  {
    assert (A + B)[1..] == A[1..] + B;
  }

  /** The shapes `a + [d] + b` takes when `a` is empty and when it is not. */
  lemma ConsShape(a: string, d: char, b: string)
    ensures a == [] ==> a + [d] + b == [d] + b
    ensures a != [] ==> a == [a[0]] + a[1..] && a + [d] + b == [a[0]] + (a[1..] + [d] + b)
  {
  }

  /** The first piece is the longest prefix without the separator. */
  lemma {:induction false} SplitFirstPiece(s: string, d: char)
    ensures |Split(s, d)[0]| <= |s| && Split(s, d)[0] == s[..|Split(s, d)[0]|]
    ensures |Split(s, d)[0]| < |s| ==> s[|Split(s, d)[0]|] == d
  {
    if s != [] && s[0] != d {
      SplitFirstPiece(s[1..], d);
    }
  }

  /** JavaScript truthiness of an optional string: present and non-empty. */
  predicate Truthy(v: Option<string>) {
    v.Some? && v.value != ""
  }

  /** `s.startsWith(p)`. */
  predicate StartsWith(s: string, p: string) {
    |p| <= |s| && s[..|p|] == p
  }

  /** `s.indexOf(p)`: the first position where `p` occurs, `None` for -1. */
  function IndexOf(s: string, p: string): (r: Option<nat>)
    ensures r.Some? ==> r.value + |p| <= |s|
    decreases |s|
  {
    if StartsWith(s, p) then Some(0)
    else if s == [] then None
    else
      match IndexOf(s[1..], p)
      case Some(i) => Some(i + 1)
      case None => None
  }

  /** `indexOf` finds an occurrence, the first one, and reports -1 only when there is none. */
  lemma {:induction false} IndexOfFirst(s: string, p: string)
    ensures IndexOf(s, p).Some? ==> StartsWith(s[IndexOf(s, p).value..], p)
    ensures IndexOf(s, p).Some? ==> forall j :: 0 <= j < IndexOf(s, p).value ==> !StartsWith(s[j..], p)
    ensures IndexOf(s, p).None? ==> forall j :: 0 <= j <= |s| ==> !StartsWith(s[j..], p)
  {
    if s == [] {
      assert forall j :: 0 <= j <= |s| ==> s[j..] == s;
    } else if !StartsWith(s, p) {
      IndexOfFirst(s[1..], p);
      assert forall j :: 1 <= j <= |s| ==> s[j..] == s[1..][j - 1..];
    }
  }

  /** `s.includes(p)`. */
  predicate Includes(s: string, p: string) {
    IndexOf(s, p).Some?
  }

  /** `s.replace(p, rep)` with a string pattern: only the first occurrence is replaced. */
  function ReplaceFirst(s: string, p: string, rep: string): (r: string)
    ensures !Includes(s, p) ==> r == s
  {
    IndexOfFirst(s, p);
    match IndexOf(s, p)
    case Some(i) => s[..i] + rep + s[i + |p|..]
    case None => s
  }

  /** `toLowerCase` on ASCII letters; other characters are kept. */
  function LowerChar(c: char): char {
    if 'A' <= c <= 'Z' then (c as int + 32) as char else c
  }

  function ToLower(s: string): (r: string)
    ensures |r| == |s| && forall i :: 0 <= i < |s| ==> r[i] == LowerChar(s[i])
  {
    seq(|s|, i requires 0 <= i < |s| => LowerChar(s[i]))
  }

  // ---- numbers as text -------------------------------------------------------

  function DigitChar(d: nat): char
    requires d < 10
  {
    "0123456789"[d]
  }

  /** The value of a decimal digit character. */
  function DigitValue(c: char): nat
    requires '0' <= c <= '9'
  {
    c as int - '0' as int
  }

  predicate IsDecimal(s: string) {
    |s| > 0 && forall i :: 0 <= i < |s| ==> '0' <= s[i] <= '9'
  }

  /** `String(n)` for a non-negative integer: its decimal text, with no leading zero. */
  function NatToString(n: nat): (r: string)
    ensures IsDecimal(r)
    ensures r[0] == '0' ==> n == 0
  {
    if n < 10 then [DigitChar(n)] else NatToString(n / 10) + [DigitChar(n % 10)]
  }

  /** The number a string of decimal digits denotes. */
  function DecimalValue(s: string): nat
    requires IsDecimal(s)
  {
    if |s| == 1 then DigitValue(s[0]) else 10 * DecimalValue(s[..|s| - 1]) + DigitValue(s[|s| - 1])
  }

  /** Reading back the decimal text of `n` gives `n`. */
  lemma {:induction false} DecimalRoundTrip(n: nat)
    ensures DecimalValue(NatToString(n)) == n
  {
    if n >= 10 {
      var s := NatToString(n);
      assert s[..|s| - 1] == NatToString(n / 10);
      DecimalRoundTrip(n / 10);
    }
  }

  /** Different numbers have different decimal texts. */
  lemma NatToStringInjective(m: nat, n: nat)
    requires NatToString(m) == NatToString(n)
    ensures m == n
  {
    DecimalRoundTrip(m);
    DecimalRoundTrip(n);
  }
}
