/** The JavaScript string built-ins the shell relies on, stated over `seq<char>`.
    Each function follows the ECMAScript behaviour of the method it is named after,
    restricted to the arguments the shell passes. */
module Text {

  datatype Option<T> = None | Some(value: T)

  function Max(a: int, b: int): (m: int)
    ensures m >= a && m >= b && (m == a || m == b)
  {
    if a >= b then a else b
  }

  /** `s.startsWith(prefix)` */
  predicate StartsWith(s: string, prefix: string) {
    |prefix| <= |s| && s[..|prefix|] == prefix
  }

  /** `s.endsWith(suffix)` */
  predicate EndsWith(s: string, suffix: string) {
    |suffix| <= |s| && s[|s| - |suffix|..] == suffix
  }

  /** `pat` occurs in `s` starting at index `j`. */
  predicate OccursAt(s: string, pat: string, j: int) {
    0 <= j && j + |pat| <= |s| && s[j..j + |pat|] == pat
  }

  /** `s.indexOf(pat, from)`: the first index at or after `from` where `pat` occurs, or -1. */
  function IndexOfFrom(s: string, pat: string, from: nat): (i: int)
    decreases |s| - from
    ensures i == -1 || (from <= i && OccursAt(s, pat, i))
    ensures i == -1 ==> forall j {:trigger OccursAt(s, pat, j)} :: from <= j ==> !OccursAt(s, pat, j)
    ensures i >= 0 ==> forall j {:trigger OccursAt(s, pat, j)} :: from <= j < i ==> !OccursAt(s, pat, j)
  {
    if from + |pat| > |s| then -1
    else if s[from..from + |pat|] == pat then from
    else IndexOfFrom(s, pat, from + 1)
  }

  function IndexOf(s: string, pat: string): (i: int)
    ensures i == -1 || OccursAt(s, pat, i)
    ensures i == -1 <==> forall j {:trigger OccursAt(s, pat, j)} :: !OccursAt(s, pat, j)
  {
    IndexOfFrom(s, pat, 0)
  }

  /** `s.includes(pat)` */
  predicate Contains(s: string, pat: string) {
    IndexOf(s, pat) >= 0
  }

  lemma ContainsAt(s: string, pat: string, j: int)
    requires OccursAt(s, pat, j)
    ensures Contains(s, pat)
  {
  }

  /** `s.lastIndexOf(c)` for a one-character argument. */
  function LastIndexOfChar(s: string, c: char): (i: int)
    ensures -1 <= i < |s|
    ensures i >= 0 ==> s[i] == c && forall j :: i < j < |s| ==> s[j] != c
    ensures i == -1 <==> c !in s
  {
    if |s| == 0 then -1
    else if s[|s| - 1] == c then |s| - 1
    else LastIndexOfChar(s[..|s| - 1], c)
  }

  /** `s.substring(0, end)`: a negative end is clamped to 0, a large one to `|s|`. */
  function PrefixTo(s: string, end: int): (r: string)
    ensures |r| <= |s| && r == s[..|r|]
    ensures 0 <= end <= |s| ==> |r| == end
  {
    if end <= 0 then "" else if end >= |s| then s else s[..end]
  }

  /** `s.replace(pat, rep)` with a string pattern: only the first occurrence is replaced. */
  function ReplaceFirst(s: string, pat: string, rep: string): (r: string)
    ensures IndexOf(s, pat) == -1 ==> r == s
    ensures IndexOf(s, pat) >= 0 ==>
              r == s[..IndexOf(s, pat)] + rep + s[IndexOf(s, pat) + |pat|..]
  {
    var i := IndexOf(s, pat);
    if i < 0 then s else s[..i] + rep + s[i + |pat|..]
  }

  /** `s.split(c)` for a one-character separator: the pieces between separators, empty ones included. */
  function SplitOn(s: string, c: char): (parts: seq<string>)
    ensures |parts| >= 1
    ensures forall k :: 0 <= k < |parts| ==> c !in parts[k]
  {
    if |s| == 0 then [""]
    else
      var rest := SplitOn(s[1..], c);
      if s[0] == c then [""] + rest else [[s[0]] + rest[0]] + rest[1..]
  }

  /** Splitting at the first separator gives the text before it, then the pieces of the rest. */
  lemma {:induction false} SplitAtFirst(a: string, b: string, c: char)
    requires c !in a
    ensures SplitOn(a + [c] + b, c) == [a] + SplitOn(b, c)
  {
    if |a| > 0 {
      assert c !in a[1..] by { assert forall k :: 0 <= k < |a| - 1 ==> a[1..][k] == a[k + 1]; }
      SplitAtFirst(a[1..], b, c);
      assert (a + [c] + b)[1..] == a[1..] + [c] + b;
      assert [a[0]] + a[1..] == a;
    } else {
      assert (a + [c] + b)[1..] == b;
    }
  }

  /** `parts.join(sep)` */
  function Join(parts: seq<string>, sep: string): string {
    if |parts| == 0 then ""
    else if |parts| == 1 then parts[0]
    else parts[0] + sep + Join(parts[1..], sep)
  }

  /** Joining the pieces of a split with the separator gives back the string. */
  lemma {:induction false} JoinSplit(s: string, c: char)
    ensures Join(SplitOn(s, c), [c]) == s
  {
    if |s| > 0 {
      JoinSplit(s[1..], c);
      var rest := SplitOn(s[1..], c);
      if s[0] != c {
        if |rest| > 1 {
          assert Join(rest, [c]) == rest[0] + [c] + Join(rest[1..], [c]);
          assert SplitOn(s, c)[1..] == rest[1..];
        }
      }
    }
  }

  lemma {:induction false} JoinAppend(parts: seq<string>, last: string, sep: string)
    ensures Join(parts + [last], sep) == if parts == [] then last else Join(parts, sep) + sep + last
  {
    if |parts| > 1 {
      assert (parts + [last])[1..] == parts[1..] + [last];
      JoinAppend(parts[1..], last, sep);
    } else if |parts| == 1 {
      assert (parts + [last])[1..] == [last];
    }
  }

  /** `parts.filter(p => p !== '')` */
  function NonEmpty(parts: seq<string>): (r: seq<string>)
    ensures |r| <= |parts|
    ensures forall k :: 0 <= k < |r| ==> r[k] != "" && r[k] in parts
  {
    if |parts| == 0 then []
    else if parts[0] == "" then NonEmpty(parts[1..])
    else [parts[0]] + NonEmpty(parts[1..])
  }

  lemma {:induction false} NonEmptyAppend(a: seq<string>, b: seq<string>)
    ensures NonEmpty(a + b) == NonEmpty(a) + NonEmpty(b)
  {
    if |a| > 0 {
      assert (a + b)[0] == a[0];
      assert (a + b)[1..] == a[1..] + b;
      NonEmptyAppend(a[1..], b);
      if a[0] != "" {
        assert NonEmpty(a + b) == [a[0]] + NonEmpty(a[1..] + b);
      }
    } else {
      assert a + b == b;
    }
  }

  /** `s.split('/').filter(p => p !== '')`: the path segments of `s`. */
  function Segments(s: string): (segs: seq<string>)
    ensures forall k :: 0 <= k < |segs| ==> segs[k] != "" && '/' !in segs[k]
  {
    NonEmpty(SplitOn(s, '/'))
  }

  /** A segment is a non-empty string without a separator. */
  predicate IsSegment(x: string) {
    x != "" && '/' !in x
  }

  lemma {:induction false} SplitOnJoin(xs: seq<string>, c: char)
    requires |xs| >= 1
    requires forall k :: 0 <= k < |xs| ==> c !in xs[k]
    ensures SplitOn(Join(xs, [c]), c) == xs
  {
    if |xs| == 1 {
      SplitNoSeparator(xs[0], c);
    } else {
      SplitOnJoin(xs[1..], c);
      SplitPrefix(xs[0], Join(xs[1..], [c]), c);
    }
  }

  lemma {:induction false} SplitNoSeparator(w: string, c: char)
    requires c !in w
    ensures SplitOn(w, c) == [w]
  {
    if |w| > 0 {
      SplitNoSeparator(w[1..], c);
      assert [w[0]] + w[1..] == w;
    }
  }

  lemma {:induction false} SplitPrefix(w: string, rest: string, c: char)
    requires c !in w
    ensures SplitOn(w + [c] + rest, c) == [w] + SplitOn(rest, c)
  {
    if |w| == 0 {
      assert w + [c] + rest == [c] + rest;
      assert ([c] + rest)[1..] == rest;
    } else {
      var s := w + [c] + rest;
      assert s[0] == w[0] && s[1..] == w[1..] + [c] + rest;
      SplitPrefix(w[1..], rest, c);
      assert [w[0]] + w[1..] == w;
    }
  }

  /** Joining segments with '/' behind a leading '/' splits back into the same segments. */
  lemma {:induction false} SegmentsOfAbsolute(xs: seq<string>)
    requires forall k :: 0 <= k < |xs| ==> IsSegment(xs[k])
    ensures Segments("/" + Join(xs, "/")) == xs
  {
    if |xs| == 0 {
      assert "/" + Join(xs, "/") == "/";
      assert SplitOn("", '/') == [""];
      assert "/"[1..] == "";
      assert SplitOn("/", '/') == ["", ""];
      assert NonEmpty(["", ""]) == NonEmpty([""]) == [];
    } else {
      forall k | 0 <= k < |xs| ensures '/' !in xs[k] {
      }
      SplitOnJoin(xs, '/');
      SplitPrefix("", Join(xs, "/"), '/');
      assert "" + "/" + Join(xs, "/") == "/" + Join(xs, "/");
      NonEmptyAll(xs);
    }
  }

  lemma {:induction false} NonEmptyAll(xs: seq<string>)
    requires forall k :: 0 <= k < |xs| ==> xs[k] != ""
    ensures NonEmpty(xs) == xs
    ensures NonEmpty([""] + xs) == xs
  {
    if |xs| > 0 {
      NonEmptyAll(xs[1..]);
    }
    assert ([""] + xs)[1..] == xs;
  }

  /** Splitting distributes over a separator: the pieces of each side, concatenated. */
  lemma {:induction false} SplitConcat(a: string, b: string, c: char)
    ensures SplitOn(a + [c] + b, c) == SplitOn(a, c) + SplitOn(b, c)
  {
    if |a| == 0 {
      assert a + [c] + b == [c] + b;
      assert ([c] + b)[1..] == b;
    } else {
      var s := a + [c] + b;
      assert s[0] == a[0] && s[1..] == a[1..] + [c] + b;
      SplitConcat(a[1..], b, c);
      var ra, rb := SplitOn(a[1..], c), SplitOn(b, c);
      if a[0] != c {
        assert (ra + rb)[0] == ra[0] && (ra + rb)[1..] == ra[1..] + rb;
      }
    }
  }

  /** Appending one character to a string: a separator opens a new empty piece, any other
      character extends the last piece. */
  lemma {:induction false} SplitSnoc(s: string, ch: char, c: char)
    ensures var parts := SplitOn(s, c);
      SplitOn(s + [ch], c) == if ch == c then parts + [""]
                              else parts[..|parts| - 1] + [parts[|parts| - 1] + [ch]]
    decreases |s|
  {
    if ch == c {
      SplitConcat(s, "", c);
      assert s + [c] + "" == s + [c];
    } else if |s| > 0 {
      var t := s + [ch];
      assert t[0] == s[0] && t[1..] == s[1..] + [ch];
      SplitSnoc(s[1..], ch, c);
      var rest := SplitOn(s[1..], c);
      var rest' := rest[..|rest| - 1] + [rest[|rest| - 1] + [ch]];
      assert SplitOn(t[1..], c) == rest';
      var parts := SplitOn(s, c);
      if s[0] == c {
        assert parts == [""] + rest;
        assert parts[..|parts| - 1] == [""] + rest[..|rest| - 1];
      } else if |rest| > 1 {
        assert parts == [[s[0]] + rest[0]] + rest[1..];
        assert parts[..|parts| - 1] == [[s[0]] + rest[0]] + rest[1..|rest| - 1];
        assert rest'[1..] == rest[1..|rest| - 1] + [rest[|rest| - 1] + [ch]];
      } else {
        assert parts == [[s[0]] + rest[0]] && rest' == [rest[0] + [ch]];
        assert [s[0]] + rest[0] + [ch] == [s[0]] + (rest[0] + [ch]);
      }
    } else {
      assert s + [ch] == [ch] && [ch][1..] == "";
      var t := s + [ch];
      assert |t| == 1 && t[0] == ch && t[1..] == s;
      assert SplitOn(t[1..], c) == [""];
      assert SplitOn(t, c) == [[t[0]] + ""] + [""][1..];
      assert [t[0]] + "" == [ch] == "" + [ch];
      assert SplitOn(s, c) == [""];
    }
  }

  /** The segments of `p + "/" + q` are those of `p` followed by those of `q`. */
  lemma SegmentsConcat(p: string, q: string)
    ensures Segments(p + "/" + q) == Segments(p) + Segments(q)
  {
    SplitConcat(p, q, '/');
    NonEmptyAppend(SplitOn(p, '/'), SplitOn(q, '/'));
  }

  /** Appending one segment adds exactly that segment; a trailing '/' adds none. */
  lemma SegmentsAppend(p: string, w: string)
    ensures IsSegment(w) ==> Segments(p + "/" + w) == Segments(p) + [w]
    ensures Segments(p + "/") == Segments(p)
  {
    SegmentsConcat(p, w);
    SegmentsConcat(p, "");
    assert p + "/" + "" == p + "/";
    if IsSegment(w) {
      SplitNoSeparator(w, '/');
    }
  }

  lemma SegmentsRoot()
    ensures Segments("/") == [] && Segments("") == []
  {
    SegmentsConcat("", "");
    assert "" + "/" + "" == "/";
  }

  /** The characters ECMAScript's `trim` removes: WhiteSpace and LineTerminator. */
  predicate IsJsWhitespace(c: char) {
    c in {'\t', '\n', '\U{000B}', '\U{000C}', '\r', ' ', '\U{00A0}', '\U{1680}',
          '\U{2000}', '\U{2001}', '\U{2002}', '\U{2003}', '\U{2004}', '\U{2005}',
          '\U{2006}', '\U{2007}', '\U{2008}', '\U{2009}', '\U{200A}', '\U{2028}',
          '\U{2029}', '\U{202F}', '\U{205F}', '\U{3000}', '\U{FEFF}'}
  }

  /** `s.trimStart()` */
  function TrimStart(s: string): string {
    if |s| > 0 && IsJsWhitespace(s[0]) then TrimStart(s[1..]) else s
  }

  /** `s.trimEnd()` */
  function TrimEnd(s: string): string {
    if |s| > 0 && IsJsWhitespace(s[|s| - 1]) then TrimEnd(s[..|s| - 1]) else s
  }

  /** `s.trim()` */
  function Trim(s: string): string {
    TrimEnd(TrimStart(s))
  }

  /** `trimStart` removes exactly the leading whitespace. */
  lemma {:induction false} TrimStartMeaning(s: string)
    ensures var r := TrimStart(s);
      && |r| <= |s| && r == s[|s| - |r|..]
      && (r == "" || !IsJsWhitespace(r[0]))
      && forall k :: 0 <= k < |s| - |r| ==> IsJsWhitespace(s[k])
  {
    if |s| > 0 && IsJsWhitespace(s[0]) {
      TrimStartMeaning(s[1..]);
    }
  }

  /** `trimEnd` removes exactly the trailing whitespace. */
  lemma {:induction false} TrimEndMeaning(s: string)
    ensures var r := TrimEnd(s);
      && |r| <= |s| && r == s[..|r|]
      && (r == "" || !IsJsWhitespace(r[|r| - 1]))
      && forall k :: |r| <= k < |s| ==> IsJsWhitespace(s[k])
  {
    if |s| > 0 && IsJsWhitespace(s[|s| - 1]) {
      TrimEndMeaning(s[..|s| - 1]);
    }
  }

  /** `trim` keeps a middle part of `s` that neither starts nor ends with whitespace, and
      gives "" exactly when `s` is whitespace only. */
  lemma TrimMeaning(s: string)
    ensures var r := Trim(s);
      && |r| <= |s|
      && (r == "" || (!IsJsWhitespace(r[0]) && !IsJsWhitespace(r[|r| - 1])))
      && (forall k :: 0 <= k < |r| ==> r[k] in s)
      && ((forall k :: 0 <= k < |s| ==> IsJsWhitespace(s[k])) <==> r == "")
  {
    var t := TrimStart(s);
    TrimStartMeaning(s);
    TrimEndMeaning(t);
    var r := TrimEnd(t);
    forall k | 0 <= k < |r|
      ensures r[k] in s
    {
      assert r[k] == t[k] == s[|s| - |t| + k];
    }
  }

  /** The lower case of `c` where that is an ASCII letter: the ASCII capitals and the Kelvin
      sign U+212A, which lower-cases to 'k'. Other characters are kept. */
  function LowerChar(c: char): char {
    if 'A' <= c <= 'Z' then (c as int + 32) as char
    else if c == '\U{212A}' then 'k'
    else c
  }

  /** `s.toLowerCase()` as far as comparisons with ASCII words can tell: every character
      whose lower case is an ASCII letter is lowered to it. */
  function ToLower(s: string): (r: string)
    ensures |r| == |s|
    ensures forall k :: 0 <= k < |s| ==> r[k] == LowerChar(s[k])
  {
    seq(|s|, k requires 0 <= k < |s| => LowerChar(s[k]))
  }

  /** `c.repeat(n)` for a one-character string. */
  function Repeat(c: char, n: nat): (r: string)
    ensures |r| == n && forall k :: 0 <= k < n ==> r[k] == c
  {
    seq(n, _ => c)
  }

  /** `s.padEnd(n)`: spaces are appended until the length is `n`; a longer string is kept. */
  function PadEnd(s: string, n: int): (r: string)
    ensures |r| == Max(|s|, n)
    ensures r[..|s|] == s
    ensures forall k :: |s| <= k < |r| ==> r[k] == ' '
  {
    if |s| >= n then s else s + Repeat(' ', n - |s|)
  }

  function DigitValue(c: char, radix: nat): (v: Option<nat>)
    ensures v.Some? ==> v.value < radix
  {
    if '0' <= c <= '9' && (c as int - '0' as int) < radix then Some(c as int - '0' as int)
    else if radix == 16 && 'a' <= c <= 'f' then Some(c as int - 'a' as int + 10)
    else if radix == 16 && 'A' <= c <= 'F' then Some(c as int - 'A' as int + 10)
    else None
  }

  /** The length of the longest prefix of `s` made of digits in `radix`. */
  function DigitRun(s: string, radix: nat): (n: nat)
    ensures n <= |s|
    ensures forall k :: 0 <= k < n ==> DigitValue(s[k], radix).Some?
    ensures n < |s| ==> DigitValue(s[n], radix).None?
  {
    if |s| > 0 && DigitValue(s[0], radix).Some? then 1 + DigitRun(s[1..], radix) else 0
  }

  /** The value of a run of digits, most significant first. */
  function DigitsValue(s: string, radix: nat): nat
    requires forall k :: 0 <= k < |s| ==> DigitValue(s[k], radix).Some?
  {
    if |s| == 0 then 0
    else DigitsValue(s[..|s| - 1], radix) * radix + DigitValue(s[|s| - 1], radix).value
  }

  /** `parseInt(x)` without a radix: `None` stands for NaN and for an undefined argument.
      Leading whitespace and one sign are skipped, a `0x`/`0X` prefix selects base 16,
      and the longest run of digits that follows is read; anything after it is ignored. */
  function ParseInt(x: Option<string>): Option<int>
  {
    if x.None? then None
    else
      var s := TrimStart(x.value);
      var negative := |s| > 0 && s[0] == '-';
      var unsigned := if |s| > 0 && (s[0] == '-' || s[0] == '+') then s[1..] else s;
      var hex := |unsigned| >= 2 && unsigned[0] == '0' && (unsigned[1] == 'x' || unsigned[1] == 'X');
      var radix := if hex then 16 else 10;
      var body := if hex then unsigned[2..] else unsigned;
      var n := DigitRun(body, radix);
      if n == 0 then None
      else
        var v: int := DigitsValue(body[..n], radix);
        Some(if negative then -v else v)
  }
}
