/** File-name derivation: the sanitising `replace` calls, the
    `<prefix>_<subject>_<suffix><ext>` pattern, the eight-character uuid suffix,
    and the POSIX `os.path` functions (`join`, `basename`, `splitext`) used to
    turn a DOCX path into the name of its PDF.
 */
module Paths {

  /** Python `s.replace(a, b)` for one-character arguments: every `a` becomes `b`. */
  function Replace(s: string, a: char, b: char): (r: string)
    ensures |r| == |s|
    ensures forall i :: 0 <= i < |s| ==> r[i] == (if s[i] == a then b else s[i])
  {
    if s == [] then [] else [if s[0] == a then b else s[0]] + Replace(s[1..], a, b)
  }

  /** The subject part of a DOCX file name: `' '` and `'/'` both become `'_'`
      (app.py:95 and app.py:211 chain two `replace` calls). */
  function Sanitize(s: string): string {
    Replace(Replace(s, ' ', '_'), '/', '_')
  }

  /** A sanitised subject has the length of the original, keeps every other
      character in place, and holds neither a space nor a path separator. */
  lemma SanitizeShape(s: string)
    ensures |Sanitize(s)| == |s|
    ensures forall i :: 0 <= i < |s| ==>
              Sanitize(s)[i] == (if s[i] == ' ' || s[i] == '/' then '_' else s[i])
    ensures ' ' !in Sanitize(s) && '/' !in Sanitize(s)
  {
    var t := Replace(s, ' ', '_');
    var r := Replace(t, '/', '_');
    assert forall i :: 0 <= i < |s| ==> r[i] == (if s[i] == ' ' || s[i] == '/' then '_' else s[i]);
    assert forall i :: 0 <= i < |r| ==> r[i] != ' ' && r[i] != '/';
  }

  /** Sanitising is idempotent, and leaves alone exactly the strings that
      hold neither a space nor a slash. */
  lemma SanitizeFixedPoints(s: string)
    ensures Sanitize(Sanitize(s)) == Sanitize(s)
    ensures Sanitize(s) == s <==> (' ' !in s && '/' !in s)
  {
    SanitizeShape(s);
    SanitizeShape(Sanitize(s));
    if ' ' in s || '/' in s {
      var i :| 0 <= i < |s| && (s[i] == ' ' || s[i] == '/');
      assert Sanitize(s)[i] != s[i];
    }
  }

  predicate IsHexDigit(ch: char) {
    '0' <= ch <= '9' || 'a' <= ch <= 'f'
  }

  /** `uuid.uuid4().hex`: 32 lower-case hexadecimal digits. */
  type UuidHex = s: string | |s| == 32 && forall i :: 0 <= i < |s| ==> IsHexDigit(s[i])
    witness "00000000000000000000000000000000"

  /** `uuid4().hex[:8]`, the collision-avoiding suffix of every generated name. */
  function Suffix(u: UuidHex): (r: string)
    ensures |r| == 8
    ensures forall i :: 0 <= i < 8 ==> IsHexDigit(r[i]) && r[i] == u[i]
  {
    u[..8]
  }

  /** Neither a slash nor a dot can appear in a suffix. */
  lemma SuffixHasNoSeparators(u: UuidHex)
    ensures '/' !in Suffix(u) && '.' !in Suffix(u)
  {
    var r := Suffix(u);
    assert forall i :: 0 <= i < |r| ==> IsHexDigit(r[i]);
  }

  /** `f"{prefix}_{subject}_{suffix}{ext}"`. */
  function FileName(prefix: string, subject: string, u: UuidHex, ext: string): string {
    prefix + "_" + subject + "_" + Suffix(u) + ext
  }

  function Stem(prefix: string, subject: string, u: UuidHex): string {
    prefix + "_" + subject + "_" + Suffix(u)
  }

  /** The eight characters just before the extension of a generated name are
      the suffix it was built with. */
  lemma SuffixIsRecoverable(prefix: string, subject: string, u: UuidHex, ext: string)
    ensures var f := FileName(prefix, subject, u, ext);
            |f| >= |ext| + 8 && f[|f| - |ext| - 8..|f| - |ext|] == Suffix(u)
            && f[|f| - |ext|..] == ext
  {
    var f := FileName(prefix, subject, u, ext);
    assert f == Stem(prefix, subject, u) + ext;
    assert f[|f| - |ext| - 8..|f| - |ext|] == Stem(prefix, subject, u)[|f| - |ext| - 8..];
  }

  /** Python `s.endswith(t)`. */
  predicate EndsWith(s: string, t: string) {
    |t| <= |s| && s[|s| - |t|..] == t
  }

  /** Python `s.startswith(t)`. */
  predicate StartsWith(s: string, t: string) {
    |t| <= |s| && s[..|t|] == t
  }

  /** `posixpath.join(a, b)` for two components. */
  function Join(a: string, b: string): (r: string)
    ensures EndsWith(r, b)
  {
    if StartsWith(b, "/") then b
    else if a == [] || EndsWith(a, "/") then a + b
    else a + "/" + b
  }

  /** Python `s.rfind(c)`: the last position holding `c`, or -1. */
  function RFind(s: string, c: char): (r: int)
    ensures -1 <= r < |s|
    ensures r >= 0 ==> s[r] == c
    ensures forall i :: r < i < |s| ==> s[i] != c
  {
    if s == [] then -1
    else if s[|s| - 1] == c then |s| - 1
    else RFind(s[..|s| - 1], c)
  }

  /** `posixpath.basename(p)`: what follows the last slash. */
  function Basename(p: string): (r: string)
    ensures '/' !in r
    ensures EndsWith(p, r)
  {
    p[RFind(p, '/') + 1..]
  }

  /** Whether some position in `[lo, hi)` of `p` holds something other than a dot. */
  predicate HasNonDot(p: string, lo: int, hi: int)
    requires 0 <= lo && hi <= |p|
  {
    exists i :: lo <= i < hi && p[i] != '.'
  }

  /** `posixpath.splitext(p)[0]`: `p` without its extension.  The extension
      starts at the last dot, provided that dot comes after the last slash and
      is preceded, within the final component, by something other than dots. */
  function SplitExtRoot(p: string): string {
    var sep := RFind(p, '/');
    var dot := RFind(p, '.');
    if dot > sep && HasNonDot(p, sep + 1, dot) then p[..dot] else p
  }

  /** `os.path.splitext(os.path.basename(doc_path))[0] + ".pdf"` (app.py:101, app.py:217). */
  function PdfName(docPath: string): string {
    SplitExtRoot(Basename(docPath)) + ".pdf"
  }

  /** Appending text free of `c` does not move the last `c`. */
  lemma {:induction false} RFindAppend(q: string, t: string, c: char)
    requires c !in t
    ensures RFind(q + t, c) == RFind(q, c)
  {
    if t != [] {
      assert (q + t)[..|q + t| - 1] == q + t[..|t| - 1];
      RFindAppend(q, t[..|t| - 1], c);
    } else {
      assert q + t == q;
    }
  }

  /** The name of a file joined onto a directory is its basename again. */
  lemma BasenameOfJoin(dir: string, name: string)
    requires '/' !in name
    ensures Basename(Join(dir, name)) == name
  {
    var q := if dir == [] then [] else if EndsWith(dir, "/") then dir else dir + "/";
    assert !StartsWith(name, "/") by {
      if name != [] {
        assert name[..1] == [name[0]];
      }
    }
    assert Join(dir, name) == q + name;
    RFindAppend(q, name, '/');
    if q != [] {
      assert q[|q| - 1] == '/';
      assert RFind(q, '/') == |q| - 1;
    }
    assert (q + name)[|q|..] == name;
  }

  /** Cutting the extension off `stem + ext` gives back the stem when the
      extension is one dot followed by dot- and slash-free text and the stem
      does not start with a dot. */
  lemma RootOfStemAndExtension(stem: string, ext: string)
    requires '/' !in stem && '/' !in ext
    requires |ext| >= 1 && ext[0] == '.' && '.' !in ext[1..]
    requires stem != [] && stem[0] != '.'
    ensures SplitExtRoot(stem + ext) == stem
  {
    var p := stem + ext;
    assert forall i :: 0 <= i < |p| ==> p[i] != '/';
    assert RFind(p, '/') == -1;
    assert p[|stem|] == '.';
    assert forall i :: |stem| < i < |p| ==> p[i] == ext[1..][i - |stem| - 1];
    assert RFind(p, '.') == |stem|;
    assert p[0] != '.';
  }

  /** The PDF produced from a generated DOCX keeps the DOCX's stem and only
      swaps the extension. */
  lemma PdfNameKeepsStem(dir: string, prefix: string, subject: string, u: UuidHex)
    requires prefix != [] && prefix[0] != '.'
    requires '/' !in prefix && '/' !in subject
    ensures PdfName(Join(dir, FileName(prefix, subject, u, ".docx")))
            == FileName(prefix, subject, u, ".pdf")
  {
    var stem := Stem(prefix, subject, u);
    SuffixHasNoSeparators(u);
    assert '/' !in stem by {
      assert stem == prefix + "_" + subject + "_" + Suffix(u);
      assert forall i :: 0 <= i < |stem| ==> stem[i] != '/' by {
        forall i | 0 <= i < |stem| ensures stem[i] != '/' {
          if i < |prefix| {
            assert stem[i] == prefix[i];
          } else if i == |prefix| {
          } else if i < |prefix| + 1 + |subject| {
            assert stem[i] == subject[i - |prefix| - 1];
          } else if i == |prefix| + 1 + |subject| {
          } else {
            assert stem[i] == Suffix(u)[i - |prefix| - 2 - |subject|];
          }
        }
      }
    }
    assert FileName(prefix, subject, u, ".docx") == stem + ".docx";
    BasenameOfJoin(dir, stem + ".docx");
    RootOfStemAndExtension(stem, ".docx");
  }
}
