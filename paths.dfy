/**
 * The output file name: POSIX os.path.split, os.path.splitext and os.path.join,
 * and the `<dir>/<name>.tga` path built from them.
 */
module Paths {

  /** str.rfind for one character: the last index holding `c`, or -1. */
  function LastIndexOf(s: string, c: char): (i: int)
    ensures -1 <= i < |s|
    ensures i >= 0 ==> s[i] == c
    ensures forall j :: i < j < |s| ==> s[j] != c
  {
    if |s| == 0 then -1
    else if s[|s| - 1] == c then |s| - 1
    else LastIndexOf(s[..|s| - 1], c)
  }

  predicate AllSlashes(s: string) {
    forall i :: 0 <= i < |s| ==> s[i] == '/'
  }

  /** str.rstrip('/'): drops every trailing slash. */
  function RStripSlashes(s: string): (r: string)
    ensures r <= s
    ensures AllSlashes(s[|r|..])
    ensures r == [] || r[|r| - 1] != '/'
  {
    if |s| > 0 && s[|s| - 1] == '/' then
      var r := RStripSlashes(s[..|s| - 1]);
      assert s[|r|..] == s[..|s| - 1][|r|..] + ['/'];
      r
    else s
  }

  /**
   * os.path.split: (head, tail) where tail is everything after the last slash
   * and head is everything before it, trailing slashes removed unless head is
   * nothing but slashes.
   */
  function Split(p: string): (r: (string, string))
    ensures '/' !in r.1
    ensures r.0 == [] || AllSlashes(r.0) || r.0[|r.0| - 1] != '/'
  {
    var i := LastIndexOf(p, '/') + 1;
    var head, tail := p[..i], p[i..];
    if head != [] && !AllSlashes(head) then (RStripSlashes(head), tail) else (head, tail)
  }

  /**
   * The parts os.path.split returns: head is a prefix of the path, tail a
   * suffix that starts the path or follows a slash, and only slashes lie
   * between them; when everything before the tail is slashes, the head is
   * all of it.
   */
  lemma SplitParts(p: string)
    ensures var (head, tail) := Split(p);
      && |head| + |tail| <= |p|
      && head <= p
      && p[|p| - |tail|..] == tail
      && (|tail| == |p| || p[|p| - |tail| - 1] == '/')
      && AllSlashes(p[|head|..|p| - |tail|])
      && (AllSlashes(p[..|p| - |tail|]) ==> head == p[..|p| - |tail|])
  {
  }

  /** os.path.basename: the part after the last slash. */
  function Basename(p: string): (b: string)
    ensures '/' !in b
  {
    Split(p).1
  }

  /** Some character of `s` other than a dot. */
  predicate HasNonDot(s: string) {
    exists i :: 0 <= i < |s| && s[i] != '.'
  }

  /** A dot followed by characters that are neither dots nor slashes. */
  predicate IsExtension(ext: string) {
    ext != [] && ext[0] == '.' && forall k :: 1 <= k < |ext| ==> ext[k] != '.' && ext[k] != '/'
  }

  lemma SuffixFromLastDotIsExtension(p: string, sepIndex: int, dotIndex: int)
    requires -1 <= sepIndex < dotIndex < |p|
    requires p[dotIndex] == '.'
    requires forall j :: sepIndex < j < |p| ==> p[j] != '/'
    requires forall j :: dotIndex < j < |p| ==> p[j] != '.'
    ensures IsExtension(p[dotIndex..])
  {
    var ext := p[dotIndex..];
    forall k | 1 <= k < |ext| ensures ext[k] != '.' && ext[k] != '/' {
      assert ext[k] == p[dotIndex + k];
    }
  }

  /**
   * Where os.path.splitext cuts `p`: the last dot, provided it lies after the
   * last slash and something other than a dot precedes it within the last
   * path component; otherwise -1.
   */
  function ExtensionStart(p: string): (k: int)
    ensures k == -1 || (0 <= k < |p| && IsExtension(p[k..]))
  {
    var sepIndex := LastIndexOf(p, '/');
    var dotIndex := LastIndexOf(p, '.');
    if dotIndex > sepIndex && HasNonDot(p[sepIndex + 1..dotIndex]) then
      SuffixFromLastDotIsExtension(p, sepIndex, dotIndex);
      dotIndex
    else -1
  }

  /** os.path.splitext: (root, ext) with ext empty or starting at ExtensionStart. */
  function SplitExt(p: string): (r: (string, string))
    ensures r.0 + r.1 == p
    ensures r.1 == [] || IsExtension(r.1)
  {
    var k := ExtensionStart(p);
    if k < 0 then (p, [])
    else
      assert p == p[..k] + p[k..];
      (p[..k], p[k..])
  }

  /** A file name has an extension when some dot in it comes after a character that is not a dot. */
  predicate HasExtension(name: string) {
    exists i, j :: 0 <= j < i < |name| && name[j] != '.' && name[i] == '.'
  }

  /** For a file name (no slash), splitext finds an extension exactly when the name has one. */
  lemma SplitExtFindsExtension(name: string)
    requires '/' !in name
    ensures SplitExt(name).1 != [] <==> HasExtension(name)
  {
    var dotIndex := LastIndexOf(name, '.');
    assert LastIndexOf(name, '/') == -1;
    if HasExtension(name) {
      var i, j :| 0 <= j < i < |name| && name[j] != '.' && name[i] == '.';
      assert i <= dotIndex;
      assert name[..dotIndex][j] != '.';
    }
    if SplitExt(name).1 != [] {
      var k :| 0 <= k < dotIndex && name[..dotIndex][k] != '.';
      assert name[k] != '.' && name[dotIndex] == '.';
    }
  }

  /** The file name without its extension. */
  function Stem(name: string): (stem: string)
    ensures stem <= name
  {
    SplitExt(name).0
  }

  predicate EndsWith(s: string, suffix: string) {
    |suffix| <= |s| && s[|s| - |suffix|..] == suffix
  }

  lemma EndsWithTransitive(s: string, mid: string, suffix: string)
    requires EndsWith(s, mid) && EndsWith(mid, suffix)
    ensures EndsWith(s, suffix)
  {
    var k := |s| - |mid|;
    forall j | 0 <= j < |suffix|
      ensures s[|s| - |suffix| + j] == suffix[j]
    {
      assert s[k + |mid| - |suffix| + j] == mid[|mid| - |suffix| + j];
    }
  }

  /** os.path.join of two parts. */
  function Join(a: string, b: string): (r: string)
    ensures EndsWith(r, b)
    ensures b != [] && b[0] == '/' ==> r == b
  {
    if b != [] && b[0] == '/' then b
    else if a == [] || a[|a| - 1] == '/' then a + b
    else a + "/" + b
  }

  const TgaSuffix: string := ".tga"

  /** Where process_image writes its result: `<dir>/<name>.tga`. */
  function OutputPath(path: string): (out: string)
    ensures EndsWith(out, TgaSuffix)
  {
    var parts := Split(path);
    var name := Stem(parts.1) + TgaSuffix;
    assert EndsWith(name, TgaSuffix) by {
      assert name[|name| - |TgaSuffix|..] == TgaSuffix;
    }
    EndsWithTransitive(Join(parts.0, name), name, TgaSuffix);
    Join(parts.0, name)
  }

  lemma LastIndexOfIs(s: string, c: char, i: int)
    requires -1 <= i < |s|
    requires i >= 0 ==> s[i] == c
    requires forall j :: i < j < |s| ==> s[j] != c
    ensures LastIndexOf(s, c) == i
  {
    var k := LastIndexOf(s, c);
    assert k >= 0 ==> s[k] == c;
  }

  lemma SplitNoSlash(b: string)
    requires '/' !in b
    ensures Split(b) == ([], b)
  {
    LastIndexOfIs(b, '/', -1);
  }

  lemma SplitAfterSlashes(h: string, b: string)
    requires h != [] && AllSlashes(h) && '/' !in b
    ensures Split(h + b) == (h, b)
  {
    var p := h + b;
    LastIndexOfIs(p, '/', |h| - 1);
    assert p[..|h|] == h && p[|h|..] == b;
  }

  lemma SplitAfterDirectory(h: string, b: string)
    requires h != [] && h[|h| - 1] != '/' && '/' !in b
    ensures Split(h + "/" + b) == (h, b)
  {
    var p := h + "/" + b;
    LastIndexOfIs(p, '/', |h|);
    var head := p[..|h| + 1];
    assert head == h + "/" && p[|h| + 1..] == b;
    assert head[..|head| - 1] == h;
    assert RStripSlashes(head) == RStripSlashes(h);
    assert head[|h| - 1] != '/';
  }

  /** Joining a split head with a slash-free name splits back into the two. */
  lemma SplitJoin(h: string, b: string)
    requires '/' !in b
    requires h == [] || AllSlashes(h) || h[|h| - 1] != '/'
    ensures Split(Join(h, b)) == (h, b)
  {
    if h == [] {
      assert Join(h, b) == b;
      SplitNoSlash(b);
    } else if h[|h| - 1] == '/' {
      assert Join(h, b) == h + b;
      SplitAfterSlashes(h, b);
    } else {
      assert Join(h, b) == h + "/" + b;
      SplitAfterDirectory(h, b);
    }
  }

  lemma NoSlashInStemName(tail: string)
    requires '/' !in tail
    ensures '/' !in Stem(tail)
    ensures '/' !in Stem(tail) + TgaSuffix
  {
    var stem := Stem(tail);
    var b := stem + TgaSuffix;
    forall k | 0 <= k < |b| ensures b[k] != '/' {
      if k < |stem| {
        assert b[k] == tail[k];
      } else {
        assert b[k] == TgaSuffix[k - |stem|];
      }
    }
    forall k | 0 <= k < |stem| ensures stem[k] != '/' {
      assert stem[k] == b[k];
    }
  }

  /**
   * The output path lies in the source's directory, and its file name is the
   * source's file name with the last extension replaced by .tga.
   */
  lemma OutputPathSplit(path: string)
    ensures Split(OutputPath(path)) == (Split(path).0, Stem(Basename(path)) + TgaSuffix)
  {
    var parts := Split(path);
    var b := Stem(parts.1) + TgaSuffix;
    NoSlashInStemName(parts.1);
    assert OutputPath(path) == Join(parts.0, b);
    SplitJoin(parts.0, b);
  }

  /** A stem with a non-dot character, followed by .tga, splits back into the stem and .tga. */
  lemma SplitExtOfTgaName(stem: string)
    requires '/' !in stem && HasNonDot(stem)
    ensures SplitExt(stem + TgaSuffix) == (stem, TgaSuffix)
  {
    var name := stem + TgaSuffix;
    assert name[..|stem|] == stem;
    assert name[|stem|..] == TgaSuffix;
    assert name[|stem|] == '.';
    forall j | |stem| < j < |name| ensures name[j] != '.' && name[j] != '/' {
      assert name[j] == TgaSuffix[j - |stem|];
    }
    forall j | 0 <= j < |name| ensures name[j] != '/' {
      if j < |stem| {
        assert name[j] == stem[j];
      }
    }
    LastIndexOfIs(name, '/', -1);
    LastIndexOfIs(name, '.', |stem|);
    assert name[0..|stem|] == stem;
    assert ExtensionStart(name) == |stem|;
  }

  /** When the file name's stem has a character other than a dot, the output name's extension is .tga. */
  lemma OutputPathExtension(path: string)
    requires HasNonDot(Stem(Basename(path)))
    ensures SplitExt(Basename(OutputPath(path))) == (Stem(Basename(path)), TgaSuffix)
  {
    var stem := Stem(Basename(path));
    OutputPathSplit(path);
    assert Basename(OutputPath(path)) == stem + TgaSuffix;
    NoSlashInStemName(Basename(path));
    SplitExtOfTgaName(stem);
  }

  /** A file name in the current directory that already ends in .tga is written over itself. */
  lemma OutputPathOverwritesTga(name: string)
    requires '/' !in name && SplitExt(name).1 == TgaSuffix
    ensures OutputPath(name) == name
  {
    LastIndexOfIs(name, '/', -1);
  }
}
