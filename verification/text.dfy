/** The Python `str` operations the plugin relies on, over `seq<char>`:
    substring search (`in`, `find`), `startswith`/`endswith`, `split(sep)[k]`,
    `strip`, `rstrip`, `lower`, `upper`, `title`, `replace` and the one-field
    `format(subtype=...)`. Case mapping covers ASCII letters only. */
module Text {
  import opened Common

  predicate IsPrefix(p: string, s: string) {
    |p| <= |s| && s[..|p|] == p
  }

  lemma PrefixOfAppend(p: string, s: string)
    ensures IsPrefix(p, p + s)
  {
    assert (p + s)[..|p|] == p;
  }

  predicate EndsWith(s: string, suffix: string) {
    |suffix| <= |s| && s[|s| - |suffix|..] == suffix
  }

  /** `pat` occurs in `s` starting at index `i`. */
  predicate OccursAt(s: string, pat: string, i: int) {
    0 <= i <= |s| - |pat| && s[i..i + |pat|] == pat
  }

  /** Python's `pat in s`. The empty pattern occurs in every string. */
  predicate Contains(s: string, pat: string) {
    exists i | 0 <= i <= |s| - |pat| :: OccursAt(s, pat, i)
  }

  /** A pattern whose first character never appears does not occur. */
  lemma FirstCharAbsent(s: string, pat: string)
    requires |pat| > 0 && pat[0] !in s
    ensures !Contains(s, pat)
  {
    forall i | 0 <= i <= |s| - |pat| ensures !OccursAt(s, pat, i) {
      assert s[i..i + |pat|][0] == s[i];
    }
  }

  /** The first occurrence of `pat` in `s` at or after `from`. */
  function IndexFrom(s: string, pat: string, from: nat): (r: Option<nat>)
    ensures r.Some? ==> from <= r.value && OccursAt(s, pat, r.value)
    ensures r.Some? ==> forall j :: from <= j < r.value ==> !OccursAt(s, pat, j)
    ensures r.None? ==> forall j :: from <= j ==> !OccursAt(s, pat, j)
    decreases |s| - from
  {
    if from + |pat| > |s| then None
    else if s[from..from + |pat|] == pat then Some(from)
    else IndexFrom(s, pat, from + 1)
  }

  /** Python's `s.find(pat)`, with `None` for -1. */
  function IndexOf(s: string, pat: string): (r: Option<nat>)
    ensures r.Some? <==> Contains(s, pat)
    ensures r.Some? ==> OccursAt(s, pat, r.value)
    ensures r.Some? ==> forall j :: 0 <= j < r.value ==> !OccursAt(s, pat, j)
  {
    var r := IndexFrom(s, pat, 0);
    assert r.Some? ==> OccursAt(s, pat, r.value);
    r
  }

  /** Python's `s.split(pat)[0]`: everything before the first occurrence. */
  function UpTo(s: string, pat: string): (r: string)
    requires |pat| > 0
    ensures IsPrefix(r, s)
    ensures !Contains(s, pat) ==> r == s
    ensures Contains(s, pat) ==> OccursAt(s, pat, |r|)
    ensures forall j :: 0 <= j < |r| ==> !OccursAt(s, pat, j)
  {
    match IndexOf(s, pat)
    case None => s
    case Some(i) => s[..i]
  }

  /** Python's `s.split(pat)[1]`, or `None` where that raises `IndexError`
      because `pat` does not occur. */
  function SecondPiece(s: string, pat: string): (r: Option<string>)
    requires |pat| > 0
    ensures r.Some? <==> Contains(s, pat)
  {
    match IndexOf(s, pat)
    case None => None
    case Some(i) => Some(UpTo(s[i + |pat|..], pat))
  }

  /** Splitting at a character that first occurs after `a` keeps `a`. */
  lemma UpToChar(a: string, c: char, b: string)
    requires c !in a
    ensures UpTo(a + [c] + b, [c]) == a
  {
    var s := a + [c] + b;
    assert s[|a|..|a| + 1] == [c];
    assert OccursAt(s, [c], |a|);
    forall j | 0 <= j < |a| ensures !OccursAt(s, [c], j) {
      assert s[j..j + 1][0] == a[j];
    }
    var r := UpTo(s, [c]);
    assert |r| == |a|;
    assert s[..|a|] == a;
  }

  /** `pat` does not start anywhere inside `pre` when followed by itself. */
  predicate NoEarlierOccurrence(pre: string, pat: string) {
    forall j | 0 <= j < |pre| :: !OccursAt(pre + pat, pat, j)
  }

  /** A pattern whose last character appears nowhere before it never starts
      early. */
  lemma LastCharGuards(pre: string, pat: string)
    requires |pat| > 0
    requires pat[|pat| - 1] !in pre && pat[|pat| - 1] !in pat[..|pat| - 1]
    ensures NoEarlierOccurrence(pre, pat)
  {
    var s := pre + pat;
    forall j | 0 <= j < |pre| ensures !OccursAt(s, pat, j) {
      var q := j + |pat| - 1;
      if q < |pre| {
        assert s[q] == pre[q];
      } else {
        assert s[q] == pat[..|pat| - 1][q - |pre|];
      }
      assert s[j..j + |pat|][|pat| - 1] == s[q];
    }
  }

  /** A pattern that does not start early is first found right after `pre`. */
  lemma FirstFoundAfter(pre: string, pat: string, after: string)
    requires |pat| > 0 && NoEarlierOccurrence(pre, pat)
    ensures IndexOf(pre + pat + after, pat) == Some(|pre|)
  {
    var url := pre + pat + after;
    forall j | 0 <= j < |pre| ensures !OccursAt(url, pat, j) {
      assert !OccursAt(pre + pat, pat, j);
      if j + |pat| <= |url| {
        assert url[j..j + |pat|] == (pre + pat)[j..j + |pat|];
      }
    }
    assert url[|pre|..|pre| + |pat|] == pat;
    assert OccursAt(url, pat, |pre|);
  }

  /** Cutting `seg + "/" + rest` at `pat` and then at `/` leaves `seg`, when
      no occurrence of `pat` can end inside `seg` or straddle the slash. */
  lemma SegmentBeforeSlash(pat: string, seg: string, rest: string)
    requires |pat| > 0 && '/' !in pat && pat[|pat| - 1] !in seg && '/' !in seg
    ensures UpTo(UpTo(seg + "/" + rest, pat), "/") == seg
  {
    var after := seg + "/" + rest;
    var y := UpTo(after, pat);
    forall j | 0 <= j <= |seg| ensures !OccursAt(after, pat, j) {
      if j + |pat| <= |after| {
        var w := after[j..j + |pat|];
        if j + |pat| - 1 < |seg| {
          assert w[|pat| - 1] == seg[j + |pat| - 1];
        } else {
          assert w[|seg| - j] == '/';
        }
      }
    }
    assert |y| > |seg| || y == after;
    assert y == seg + "/" + y[|seg| + 1..];
    UpToChar(seg, '/', y[|seg| + 1..]);
  }

  /** `url.split(pat)[1].split('/')[0]` of `pre + pat + seg + "/" + rest`
      is `seg`, when `pat` does not start earlier and no occurrence of it can
      end inside `seg` or straddle the slash after it. */
  lemma SegmentAfter(pre: string, pat: string, seg: string, rest: string)
    requires |pat| > 0 && '/' !in pat && pat[|pat| - 1] !in seg && '/' !in seg
    requires NoEarlierOccurrence(pre, pat)
    ensures SecondPiece(pre + pat + seg + "/" + rest, pat).Some?
    ensures UpTo(SecondPiece(pre + pat + seg + "/" + rest, pat).value, "/") == seg
  {
    var after := seg + "/" + rest;
    var url := pre + pat + after;
    assert pre + pat + seg + "/" + rest == url;
    FirstFoundAfter(pre, pat, after);
    assert url[|pre| + |pat|..] == after;
    SegmentBeforeSlash(pat, seg, rest);
  }

  /** Python's `s.split(c)[-1]`: the text after the last `c`. */
  function LastPiece(s: string, c: char): (r: string)
    ensures EndsWith(s, r)
    ensures c !in r
    ensures |r| < |s| ==> s[|s| - |r| - 1] == c
  {
    var i := LastIndex(s, c);
    var r := s[i + 1..];
    forall k | 0 <= k < |r| ensures r[k] != c {
      assert r[k] == s[i + 1 + k];
    }
    r
  }

  /** Python's `s.rfind(c)`: the last index holding `c`, or -1. */
  function LastIndex(s: string, c: char): (r: int)
    ensures -1 <= r < |s|
    ensures r >= 0 ==> s[r] == c
    ensures forall k :: r < k < |s| ==> s[k] != c
  {
    if |s| == 0 then -1
    else if s[|s| - 1] == c then |s| - 1
    else LastIndex(s[..|s| - 1], c)
  }

  /** `os.path.splitext(p)[0]` for POSIX paths: the extension starts at the
      last dot of the last component, unless only dots precede that dot in
      the component; without an extension the path is its own root. */
  function SplitExtRoot(p: string): (r: string)
    ensures IsPrefix(r, p)
    ensures r != p ==> p[|r|] == '.' && '.' !in p[|r| + 1..] && '/' !in p[|r|..]
  {
    var sep, dot := LastIndex(p, '/'), LastIndex(p, '.');
    if dot > sep && exists k | sep < k < dot :: p[k] != '.' then p[..dot] else p
  }

  /** A name with a last component that does not end in a dot loses exactly
      the extension that follows it. */
  lemma SplitExtOf(stem: string, ext: string)
    requires |stem| > 0 && stem[|stem| - 1] != '.' && stem[|stem| - 1] != '/'
    requires '.' !in ext && '/' !in ext
    ensures SplitExtRoot(stem + "." + ext) == stem
  {
    var p := stem + "." + ext;
    assert p[|stem| - 1] == stem[|stem| - 1];
    assert p[|stem|] == '.';
    forall k | |stem| < k < |p| ensures p[k] != '.' && p[k] != '/' {
      assert p[k] == ext[k - |stem| - 1];
    }
    assert LastIndex(p, '.') == |stem|;
    assert LastIndex(p, '/') < |stem| - 1;
    assert p[..|stem|] == stem;
  }

  /** A pattern found in a string is found in any extension of it. */
  lemma ContainsInPrefix(a: string, b: string, pat: string)
    requires Contains(a, pat)
    ensures Contains(a + b, pat)
  {
    var i :| 0 <= i <= |a| - |pat| && OccursAt(a, pat, i);
    assert (a + b)[i..i + |pat|] == a[i..i + |pat|];
    assert OccursAt(a + b, pat, i);
  }

  function LowerChar(c: char): char {
    if 'A' <= c <= 'Z' then (c as int + 32) as char else c
  }

  function UpperChar(c: char): char {
    if 'a' <= c <= 'z' then (c as int - 32) as char else c
  }

  predicate IsLetter(c: char) {
    'A' <= c <= 'Z' || 'a' <= c <= 'z'
  }

  function Lower(s: string): (r: string)
    ensures |r| == |s|
    ensures forall i :: 0 <= i < |s| ==> r[i] == LowerChar(s[i])
  {
    seq(|s|, i requires 0 <= i < |s| => LowerChar(s[i]))
  }

  function Upper(s: string): (r: string)
    ensures |r| == |s|
    ensures forall i :: 0 <= i < |s| ==> r[i] == UpperChar(s[i])
  {
    seq(|s|, i requires 0 <= i < |s| => UpperChar(s[i]))
  }

  /** Python's `str.title()`: a letter that follows a letter is lower-cased,
      any other letter is upper-cased. */
  function Title(s: string): (r: string)
    ensures |r| == |s|
  {
    TitleAfter(s, false)
  }

  function TitleAfter(s: string, prevLetter: bool): (r: string)
    ensures |r| == |s|
    ensures |s| > 0 ==> r[0] == (if prevLetter then LowerChar(s[0]) else UpperChar(s[0]))
  {
    if |s| == 0 then ""
    else
      [if prevLetter then LowerChar(s[0]) else UpperChar(s[0])]
      + TitleAfter(s[1..], IsLetter(s[0]))
  }

  /** The characters Python's argument-less `str.strip()` removes. */
  predicate IsSpace(c: char) {
    var n := c as int;
    (9 <= n <= 13) || (28 <= n <= 32) || n == 0x85 || n == 0xA0 || n == 0x1680
    || (0x2000 <= n <= 0x200A) || n == 0x2028 || n == 0x2029 || n == 0x202F
    || n == 0x205F || n == 0x3000
  }

  /** Drops trailing characters in `cs` (Python's `rstrip(chars)`). */
  function RStrip(s: string, cs: set<char>): (r: string)
    ensures IsPrefix(r, s)
    ensures |r| > 0 ==> r[|r| - 1] !in cs
    ensures forall k :: |r| <= k < |s| ==> s[k] in cs
  {
    if |s| > 0 && s[|s| - 1] in cs then RStrip(s[..|s| - 1], cs) else s
  }

  /** Drops leading characters in `cs` (Python's `lstrip(chars)`). */
  function LStrip(s: string, cs: set<char>): (r: string)
    ensures EndsWith(s, r)
    ensures |r| > 0 ==> r[0] !in cs
    ensures forall k :: 0 <= k < |s| - |r| ==> s[k] in cs
  {
    if |s| > 0 && s[0] in cs then LStrip(s[1..], cs) else s
  }

  /** Python's `s.strip(chars)`: what is left neither starts nor ends with
      a character of `cs`. */
  function StripChars(s: string, cs: set<char>): (r: string)
    ensures |r| > 0 ==> r[0] !in cs && r[|r| - 1] !in cs
    ensures forall c | c in r :: c in s
  {
    var right := RStrip(s, cs);
    var r := LStrip(right, cs);
    assert |r| > 0 ==> r[|r| - 1] == right[|right| - 1];
    assert forall c | c in r :: c in right;
    assert forall c | c in right :: c in s;
    r
  }

  function RStripSpace(s: string): (r: string)
    ensures IsPrefix(r, s)
    ensures |r| > 0 ==> !IsSpace(r[|r| - 1])
    ensures forall k :: |r| <= k < |s| ==> IsSpace(s[k])
  {
    if |s| > 0 && IsSpace(s[|s| - 1]) then RStripSpace(s[..|s| - 1]) else s
  }

  function LStripSpace(s: string): (r: string)
    ensures EndsWith(s, r)
    ensures |r| > 0 ==> !IsSpace(r[0])
    ensures forall k :: 0 <= k < |s| - |r| ==> IsSpace(s[k])
  {
    if |s| > 0 && IsSpace(s[0]) then LStripSpace(s[1..]) else s
  }

  /** Python's argument-less `s.strip()`. */
  function Strip(s: string): string {
    LStripSpace(RStripSpace(s))
  }

  /** Python's `s.replace(a, b)` for one-character `a` and `b`. */
  function ReplaceChar(s: string, a: char, b: char): (r: string)
    ensures |r| == |s|
    ensures forall i :: 0 <= i < |s| ==> r[i] == (if s[i] == a then b else s[i])
  {
    seq(|s|, i requires 0 <= i < |s| => if s[i] == a then b else s[i])
  }

  /** Python's `s.replace(c, "")`. */
  function RemoveChar(s: string, c: char): (r: string)
    ensures c !in r
    ensures forall d :: d in r ==> d in s
  {
    if |s| == 0 then ""
    else if s[0] == c then RemoveChar(s[1..], c)
    else [s[0]] + RemoveChar(s[1..], c)
  }

  /** Every occurrence of `pat`, scanning left to right, replaced by `rep`:
      what `template.format(subtype=v)` does with the field `{subtype}`. */
  function ReplaceAll(s: string, pat: string, rep: string): (r: string)
    requires |pat| > 0
    ensures !Contains(s, pat) ==> r == s
    decreases |s|
  {
    match IndexOf(s, pat)
    case None => s
    case Some(i) => s[..i] + rep + ReplaceAll(s[i + |pat|..], pat, rep)
  }
}
