/** The three Python string operations the desktop save path relies on:
    `str.strip()`, `str.replace(' ', '_')` and `os.path.splitext` (POSIX flavour). */
module PyText {

  /** Python's `str.isspace()` set, which is what `str.strip()` with no argument removes:
      the ASCII controls TAB..CR and FS..US, SPACE, NEL, NO-BREAK SPACE and the Unicode
      space separators, line and paragraph separators. */
  predicate IsSpace(c: char)
  {
    c == ' ' || ('\t' <= c <= '\r') || ('\U{1C}' <= c <= '\U{1F}')
    || c == '\U{85}' || c == '\U{A0}' || c == '\U{1680}'
    || ('\U{2000}' <= c <= '\U{200A}') || c == '\U{2028}' || c == '\U{2029}'
    || c == '\U{202F}' || c == '\U{205F}' || c == '\U{3000}'
  }

  predicate AllSpace(s: string)
  {
    forall i :: 0 <= i < |s| ==> IsSpace(s[i])
  }

  /** `str.lstrip()`: the longest suffix of `s` that does not start with whitespace. */
  function TrimLeft(s: string): (r: string)
    ensures |r| <= |s| && r == s[|s| - |r|..]
    ensures AllSpace(s[..|s| - |r|])
    ensures r == [] || !IsSpace(r[0])
  {
    if |s| > 0 && IsSpace(s[0]) then
      var r := TrimLeft(s[1..]);
      assert s[..|s| - |r|] == [s[0]] + s[1..][..|s| - 1 - |r|];
      r
    else s
  }

  /** `str.rstrip()`: the longest prefix of `s` that does not end with whitespace. */
  function TrimRight(s: string): (r: string)
    ensures |r| <= |s| && r == s[..|r|]
    ensures AllSpace(s[|r|..])
    ensures r == [] || !IsSpace(r[|r| - 1])
  {
    if |s| > 0 && IsSpace(s[|s| - 1]) then
      var init := s[..|s| - 1];
      var r := TrimRight(init);
      assert r == s[..|r|] by {
        assert init[..|r|] == s[..|r|];
      }
      assert AllSpace(s[|r|..]) by {
        forall i | 0 <= i < |s| - |r|
          ensures IsSpace(s[|r|..][i])
        {
          if i < |s| - 1 - |r| {
            assert s[|r|..][i] == init[|r|..][i];
          }
        }
      }
      r
    else s
  }

  /** `r` is the piece of `s` starting at `a`, and everything before and after it is
      whitespace. */
  predicate CutAt(s: string, a: int, r: string)
  {
    0 <= a <= |s| - |r| && r == s[a..a + |r|] && AllSpace(s[..a]) && AllSpace(s[a + |r|..])
  }

  /** `str.strip()`: `s` with leading and trailing whitespace removed. The result is a
      contiguous piece of `s`, everything cut away is whitespace, and it is empty exactly
      when `s` consists of whitespace only. */
  function Strip(s: string): (r: string)
    ensures exists a :: CutAt(s, a, r)
    ensures r == [] || (!IsSpace(r[0]) && !IsSpace(r[|r| - 1]))
    ensures r == [] <==> AllSpace(s)
  {
    var left := TrimLeft(s);
    var r := TrimRight(left);
    StripPieces(s, left, r);
    r
  }

  /** Cutting leading whitespace off `s` (leaving `left`) and then trailing whitespace off
      `left` (leaving `r`) removes whitespace only, and leaves nothing exactly when `s` is all
      whitespace. */
  lemma StripPieces(s: string, left: string, r: string)
    requires |left| <= |s| && left == s[|s| - |left|..] && AllSpace(s[..|s| - |left|])
    requires left == [] || !IsSpace(left[0])
    requires |r| <= |left| && r == left[..|r|] && AllSpace(left[|r|..])
    requires r == [] || !IsSpace(r[|r| - 1])
    ensures CutAt(s, |s| - |left|, r) && exists a :: CutAt(s, a, r)
    ensures r == [] || (!IsSpace(r[0]) && !IsSpace(r[|r| - 1]))
    ensures r == [] <==> AllSpace(s)
  {
    var a := |s| - |left|;
    assert r == s[a..a + |r|];
    assert s[a + |r|..] == left[|r|..];
    assert CutAt(s, a, r);
    assert r != [] ==> r[0] == left[0];
    if left == [] {
      assert s[..a] == s;
    } else {
      assert s[a] == left[0];
      assert left[0..] == left;
      assert !AllSpace(left);
    }
  }

  /** `name.replace(' ', '_')`: every ASCII space becomes an underscore; every other
      character, including tabs and other whitespace, is kept. */
  function Underscored(name: string): (r: string)
    ensures |r| == |name|
    ensures forall i :: 0 <= i < |name| ==> r[i] == (if name[i] == ' ' then '_' else name[i])
    ensures ' ' !in r
  {
    if |name| == 0 then []
    else [if name[0] == ' ' then '_' else name[0]] + Underscored(name[1..])
  }

  /** True when position `d` of path `p` starts the extension `os.path.splitext` splits off:
      `d` holds the last dot of `p`, no slash follows it, and between the last slash and `d`
      there is at least one character that is not a dot (so ".bashrc" has no extension). */
  predicate ExtensionAt(p: string, d: int)
  {
    0 <= d < |p| && p[d] == '.'
    && (forall k :: d < k < |p| ==> p[k] != '.' && p[k] != '/')
    && (exists k :: 0 <= k < d && p[k] != '.' && NoSlash(p, k, d))
  }

  predicate NoSlash(p: string, lo: int, hi: int)
    requires 0 <= lo <= hi <= |p|
  {
    forall m :: lo <= m < hi ==> p[m] != '/'
  }

  /** `str.rfind(c)`: the index of the last occurrence of `c` in `s`, or -1. */
  method RFind(s: string, c: char) returns (idx: int)
    ensures -1 <= idx < |s|
    ensures idx >= 0 ==> s[idx] == c
    ensures forall k :: idx < k < |s| ==> s[k] != c
    ensures idx == LastIndex(s, c)
  {
    idx := |s| - 1;
    while idx >= 0 && s[idx] != c
      invariant -1 <= idx < |s|
      invariant forall k :: idx < k < |s| ==> s[k] != c
    {
      idx := idx - 1;
    }
  }

  /** Index of the last `c` in `s`, or -1: the functional counterpart of `RFind`. */
  function LastIndex(s: string, c: char): (idx: int)
    ensures -1 <= idx < |s|
    ensures idx >= 0 ==> s[idx] == c
    ensures forall k :: idx < k < |s| ==> s[k] != c
  {
    if |s| == 0 then -1
    else if s[|s| - 1] == c then |s| - 1
    else LastIndex(s[..|s| - 1], c)
  }

  /** The extension `os.path.splitext(p)` returns: the suffix from the extension dot, or ""
      when `p` has none. */
  function Extension(p: string): (ext: string)
    ensures |ext| <= |p| && ext == p[|p| - |ext|..]
    ensures ext != [] ==> ExtensionAt(p, |p| - |ext|)
    ensures ext == [] ==> forall d :: 0 <= d < |p| ==> !ExtensionAt(p, d)
  {
    var sepIndex := LastIndex(p, '/');
    var dotIndex := LastIndex(p, '.');
    if dotIndex > sepIndex && exists k :: sepIndex < k < dotIndex && p[k] != '.' then
      var k :| sepIndex < k < dotIndex && p[k] != '.';
      assert NoSlash(p, k, dotIndex);
      p[dotIndex..]
    else if dotIndex > sepIndex then
      NoExtensionWhenOnlyDots(p, sepIndex, dotIndex);
      []
    else
      NoExtensionWhenDotBeforeSlash(p, sepIndex, dotIndex);
      []
  }

  /** A path has at most one extension dot. */
  lemma ExtensionAtUnique(p: string, d1: int, d2: int)
    requires ExtensionAt(p, d1) && ExtensionAt(p, d2)
    ensures d1 == d2
  {
  }

  /** The extension starting at a dot that qualifies is the one `Extension` returns. */
  lemma ExtensionFromDot(p: string, d: int)
    requires ExtensionAt(p, d)
    ensures Extension(p) == p[d..]
  {
    var e := Extension(p);
    if e != [] {
      ExtensionAtUnique(p, d, |p| - |e|);
    }
  }

  /** A path in which no dot qualifies has the empty extension. */
  lemma NoExtensionAtAll(p: string)
    requires forall d :: 0 <= d < |p| ==> !ExtensionAt(p, d)
    ensures Extension(p) == []
  {
  }

  /** `os.path.splitext(p)` for POSIX paths: `root + ext == p`, and `ext` is either empty
      (when `p` has no extension in the sense of `ExtensionAt`) or starts at the extension dot. */
  method SplitExt(p: string) returns (root: string, ext: string)
    ensures root + ext == p
    ensures ext != [] ==> ExtensionAt(p, |root|)
    ensures ext == [] ==> root == p && forall d :: 0 <= d < |p| ==> !ExtensionAt(p, d)
    ensures ext == Extension(p)
  {
    var sepIndex := RFind(p, '/');
    var dotIndex := RFind(p, '.');
    if dotIndex > sepIndex {
      var filenameIndex := sepIndex + 1;
      while filenameIndex < dotIndex
        invariant sepIndex + 1 <= filenameIndex <= dotIndex
        invariant forall m :: sepIndex < m < filenameIndex ==> p[m] == '.'
      {
        if p[filenameIndex] != '.' {
          assert NoSlash(p, filenameIndex, dotIndex);
          root, ext := p[..dotIndex], p[dotIndex..];
          assert ExtensionAt(p, dotIndex);
          ExtensionFromDot(p, dotIndex);
          return;
        }
        filenameIndex := filenameIndex + 1;
      }
      NoExtensionWhenOnlyDots(p, sepIndex, dotIndex);
    } else {
      NoExtensionWhenDotBeforeSlash(p, sepIndex, dotIndex);
    }
    NoExtensionAtAll(p);
    root, ext := p, [];
  }

  /** When the last dot lies at or before the last slash, the path has no extension. */
  lemma NoExtensionWhenDotBeforeSlash(p: string, sepIndex: int, dotIndex: int)
    requires -1 <= sepIndex < |p| && -1 <= dotIndex < |p|
    requires sepIndex >= 0 ==> p[sepIndex] == '/'
    requires forall k :: sepIndex < k < |p| ==> p[k] != '/'
    requires dotIndex >= 0 ==> p[dotIndex] == '.'
    requires forall k :: dotIndex < k < |p| ==> p[k] != '.'
    requires dotIndex <= sepIndex
    ensures forall d :: 0 <= d < |p| ==> !ExtensionAt(p, d)
  {
    forall d | 0 <= d < |p|
      ensures !ExtensionAt(p, d)
    {
      if p[d] == '.' {
        assert d <= dotIndex;
        if d < dotIndex {
          assert p[dotIndex] == '.';
        } else {
          assert d < sepIndex && p[sepIndex] == '/';
        }
      }
    }
  }

  /** When every character between the last slash and the last dot is a dot, the path has
      no extension. */
  lemma NoExtensionWhenOnlyDots(p: string, sepIndex: int, dotIndex: int)
    requires -1 <= sepIndex < dotIndex < |p|
    requires sepIndex >= 0 ==> p[sepIndex] == '/'
    requires forall k :: sepIndex < k < |p| ==> p[k] != '/'
    requires dotIndex >= 0 ==> p[dotIndex] == '.'
    requires forall k :: dotIndex < k < |p| ==> p[k] != '.'
    requires forall m :: sepIndex < m < dotIndex ==> p[m] == '.'
    ensures forall d :: 0 <= d < |p| ==> !ExtensionAt(p, d)
  {
    forall d | 0 <= d < |p|
      ensures !ExtensionAt(p, d)
    {
      if p[d] == '.' {
        assert d <= dotIndex;
        if d < dotIndex {
          assert p[dotIndex] == '.';
        } else {
          forall k | 0 <= k < d && p[k] != '.'
            ensures !NoSlash(p, k, d)
          {
            assert k <= sepIndex && p[sepIndex] == '/';
          }
        }
      }
    }
  }
}
