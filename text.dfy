/** The pieces of Python's string and path library that the prompt
    assembler relies on: `str.strip()`, `os.path.basename`,
    `os.path.splitext(...)[0]`, and the character condition under which a
    text survives being interpolated into a JSON string literal. */
module Text {

  /** `str.isspace()` for one character: the characters Python's `strip()`
      removes when called without arguments. */
  predicate IsSpace(c: char) {
    ('\t' <= c <= '\r') || ('\U{1c}' <= c <= '\U{1f}') || c == ' ' ||
    c == '\U{85}' || c == '\U{a0}' || c == '\U{1680}' ||
    ('\U{2000}' <= c <= '\U{200a}') || c == '\U{2028}' || c == '\U{2029}' ||
    c == '\U{202f}' || c == '\U{205f}' || c == '\U{3000}'
  }

  /** Drops the longest all-whitespace prefix. */
  function TrimStart(s: string): (r: string)
    ensures |r| <= |s|
    ensures r == [] || !IsSpace(r[0])
    decreases |s|
  {
    if s != [] && IsSpace(s[0]) then TrimStart(s[1..]) else s
  }

  /** Drops the longest all-whitespace suffix. */
  function TrimEnd(s: string): (r: string)
    ensures |r| <= |s|
    ensures r == [] || !IsSpace(r[|r| - 1])
    decreases |s|
  {
    if s != [] && IsSpace(s[|s| - 1]) then TrimEnd(s[..|s| - 1]) else s
  }

  /** `TrimStart` keeps a suffix. */
  lemma {:induction false} TrimStartIsSuffix(s: string)
    ensures TrimStart(s) == s[|s| - |TrimStart(s)|..]
    decreases |s|
  {
    if s != [] && IsSpace(s[0]) {
      TrimStartIsSuffix(s[1..]);
    }
  }

  /** `TrimEnd` keeps a prefix. */
  lemma {:induction false} TrimEndIsPrefix(s: string)
    ensures TrimEnd(s) == s[..|TrimEnd(s)|]
    decreases |s|
  {
    if s != [] && IsSpace(s[|s| - 1]) {
      TrimEndIsPrefix(s[..|s| - 1]);
    }
  }

  /** Everything `TrimStart` removes is whitespace. */
  lemma {:induction false} TrimStartDropsSpaces(s: string)
    ensures forall i :: 0 <= i < |s| - |TrimStart(s)| ==> IsSpace(s[i])
    decreases |s|
  {
    if s != [] && IsSpace(s[0]) {
      TrimStartDropsSpaces(s[1..]);
    }
  }

  /** Everything `TrimEnd` removes is whitespace. */
  lemma {:induction false} TrimEndDropsSpaces(s: string)
    ensures forall i :: |TrimEnd(s)| <= i < |s| ==> IsSpace(s[i])
    decreases |s|
  {
    if s != [] && IsSpace(s[|s| - 1]) {
      TrimEndDropsSpaces(s[..|s| - 1]);
    }
  }

  /** `s.strip()`: whitespace removed from both ends, nothing else touched. */
  function Strip(s: string): (r: string)
    ensures |r| <= |s|
    ensures r == [] || (!IsSpace(r[0]) && !IsSpace(r[|r| - 1]))
  {
    TrimEndIsPrefix(TrimStart(s));
    TrimEnd(TrimStart(s))
  }

  /** A text that already has no whitespace at either end is its own strip. */
  lemma StripFixpoint(s: string)
    requires s == [] || (!IsSpace(s[0]) && !IsSpace(s[|s| - 1]))
    ensures Strip(s) == s
  {
    assert TrimStart(s) == s;
  }

  /** Stripping twice is stripping once. */
  lemma StripIdempotent(s: string)
    ensures Strip(Strip(s)) == Strip(s)
  {
    StripFixpoint(Strip(s));
  }

  /** The path separators of `posixpath` ('/') or of `ntpath` ('/' and '\\'). */
  predicate IsSep(c: char, ntPaths: bool) {
    c == '/' || (ntPaths && c == '\\')
  }

  /** `os.path.basename(p)`: everything after the last separator. */
  function Basename(p: string, ntPaths: bool): (r: string)
    ensures |r| <= |p|
    decreases |p|
  {
    if p == [] || IsSep(p[|p| - 1], ntPaths) then []
    else Basename(p[..|p| - 1], ntPaths) + [p[|p| - 1]]
  }

  /** The base name is the last path component: it holds no separator and
      is either the whole path or preceded by a separator. */
  lemma {:induction false} BasenameIsLastComponent(p: string, ntPaths: bool)
    ensures var r := Basename(p, ntPaths);
      r == p[|p| - |r|..] &&
      (forall i :: 0 <= i < |r| ==> !IsSep(r[i], ntPaths)) &&
      (|r| < |p| ==> IsSep(p[|p| - |r| - 1], ntPaths))
    decreases |p|
  {
    if p != [] && !IsSep(p[|p| - 1], ntPaths) {
      var q := p[..|p| - 1];
      BasenameIsLastComponent(q, ntPaths);
      var r := Basename(p, ntPaths);
      assert r == Basename(q, ntPaths) + [p[|p| - 1]];
      assert |r| < |p| ==> p[|p| - |r| - 1] == q[|q| - |Basename(q, ntPaths)| - 1];
    }
  }

  /** Index of the first occurrence of `c` in `s`, or -1 (`str.find`). */
  function IndexOf(s: string, c: char): (i: int)
    ensures -1 <= i < |s|
    ensures i >= 0 ==> s[i] == c
    decreases |s|
  {
    if s == [] then -1
    else if s[0] == c then 0
    else var k := IndexOf(s[1..], c); if k < 0 then -1 else k + 1
  }

  /** No occurrence of `c` precedes the one `IndexOf` finds. */
  lemma {:induction false} IndexOfIsFirst(s: string, c: char)
    ensures forall j :: 0 <= j < |s| && (IndexOf(s, c) < 0 || j < IndexOf(s, c)) ==> s[j] != c
    decreases |s|
  {
    if s != [] && s[0] != c {
      IndexOfIsFirst(s[1..], c);
      assert forall j :: 1 <= j < |s| ==> s[j] == s[1..][j - 1];
    }
  }

  /** Index of the last occurrence of `c` in `s`, or -1 (`str.rfind`). */
  function LastIndexOf(s: string, c: char): (i: int)
    ensures -1 <= i < |s|
    ensures i >= 0 ==> s[i] == c
    decreases |s|
  {
    if s == [] then -1
    else if s[|s| - 1] == c then |s| - 1
    else LastIndexOf(s[..|s| - 1], c)
  }

  /** No occurrence of `c` follows the one `LastIndexOf` finds. */
  lemma {:induction false} LastIndexOfIsLast(s: string, c: char)
    ensures forall j :: LastIndexOf(s, c) < j < |s| ==> s[j] != c
    decreases |s|
  {
    if s != [] && s[|s| - 1] != c {
      LastIndexOfIsLast(s[..|s| - 1], c);
    }
  }

  predicate HasNonDot(s: string) {
    exists j :: 0 <= j < |s| && s[j] != '.'
  }

  /** `os.path.splitext(name)[0]` for a name without separators: the text
      before the last dot, unless that dot is only preceded by dots (a
      leading-dot name such as ".bashrc" has no extension). */
  function StripExtension(name: string): (r: string)
    ensures |r| <= |name|
  {
    var d := LastIndexOf(name, '.');
    if d >= 0 && HasNonDot(name[..d]) then name[..d] else name
  }

  /** What `StripExtension` removes is an extension: a last dot preceded by
      something other than dots, and everything after it; when it removes
      nothing, no dot qualifies. */
  lemma StripExtensionIsRoot(name: string)
    ensures var r := StripExtension(name); r == name[..|r|]
    ensures var r := StripExtension(name);
      r != name ==> name[|r|] == '.' && HasNonDot(r) && forall j :: |r| < j < |name| ==> name[j] != '.'
    ensures var r := StripExtension(name);
      r == name ==> forall d :: 0 <= d < |name| && name[d] == '.' && HasNonDot(name[..d]) ==>
                      exists j :: d < j < |name| && name[j] == '.'
  {
    LastIndexOfIsLast(name, '.');
    var k := LastIndexOf(name, '.');
    if StripExtension(name) == name {
      forall d | 0 <= d < |name| && name[d] == '.' && HasNonDot(name[..d])
        ensures exists j :: d < j < |name| && name[j] == '.'
      {
        assert d != k;
        assert d < k && name[k] == '.';
      }
    }
  }

  /** A character sequence that needs no escaping inside a JSON string
      literal: no double quote and no backslash. */
  predicate JsonSafe(s: string) {
    forall i :: 0 <= i < |s| ==> s[i] != '"' && s[i] != '\\'
  }
}
