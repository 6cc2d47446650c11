/** The `System.IO.Path` functions the modelled code applies to file names.
    A name here is the last segment of a path: it holds no directory
    separator, so the separator checks of .NET never fire. */
module PathNames {

  /** Index of the last '.' in `s`, or -1 when there is none. */
  function LastDot(s: string): (r: int)
    ensures -1 <= r < |s|
    ensures r >= 0 ==> s[r] == '.'
    decreases |s|
  {
    if |s| == 0 then -1
    else if s[|s| - 1] == '.' then |s| - 1
    else LastDot(s[..|s| - 1])
  }

  /** No '.' follows the one `LastDot` finds, and there is none at all when
      it finds none. */
  lemma {:induction false} LastDotIsLast(s: string)
    ensures LastDot(s) >= 0 ==> '.' !in s[LastDot(s) + 1..]
    ensures LastDot(s) == -1 ==> '.' !in s
    decreases |s|
  {
    if |s| > 0 && s[|s| - 1] != '.' {
      LastDotIsLast(s[..|s| - 1]);
      assert s == s[..|s| - 1] + [s[|s| - 1]];
      if LastDot(s) >= 0 {
        assert s[LastDot(s) + 1..] == s[..|s| - 1][LastDot(s) + 1..] + [s[|s| - 1]];
      }
    }
  }

  /** A name without any '.' has no last dot. */
  lemma {:induction false} LastDotNone(s: string)
    requires '.' !in s
    ensures LastDot(s) == -1
  {
  }

  /** `Path.GetExtension`: from the last '.' to the end, or "" when there
      is no '.' or the '.' is the last character. */
  function Ext(name: string): string {
    var i := LastDot(name);
    if i < 0 || i == |name| - 1 then "" else name[i..]
  }

  /** `Path.GetFileNameWithoutExtension`: everything before the last '.'. */
  function Stem(name: string): string {
    var i := LastDot(name);
    if i < 0 then name else name[..i]
  }

  /** `Path.ChangeExtension` with an extension that starts with '.'. */
  function ChangeExtension(name: string, ext: string): string {
    Stem(name) + ext
  }

  /** A proper extension: a '.' followed by at least one character and no
      further '.'. */
  predicate ProperExt(e: string) {
    |e| >= 2 && e[0] == '.' && '.' !in e[1..]
  }

  /** The name is its stem followed by its extension: it does not end in a
      '.' that `Path` would drop. */
  predicate Splits(name: string) {
    name == Stem(name) + Ext(name)
  }

  /** `Path.Combine(folder, name)` for a relative name: the folder, a '/'
      unless the folder is empty or already ends with one, then the name. */
  function DirPrefix(folder: string): string {
    if folder == [] || folder[|folder| - 1] == '/' then folder else folder + "/"
  }

  function Combine(folder: string, name: string): string {
    DirPrefix(folder) + name
  }

  lemma {:induction false} LastDotAppend(s: string, e: string)
    requires ProperExt(e)
    ensures LastDot(s + e) == |s|
    decreases |e|
  {
    var t := s + e;
    assert e[|e| - 1] == e[1..][|e| - 2];
    var e' := e[..|e| - 1];
    assert e'[1..] == e[1..|e| - 1];
    assert forall c :: c in e'[1..] ==> c in e[1..];
    if |e'| >= 2 {
      assert t[..|t| - 1] == s + e';
      LastDotAppend(s, e');
    } else {
      assert t[..|t| - 1] == s + ".";
      assert (s + ".")[|s|] == '.';
    }
  }

  /** A name built as stem + proper extension (or as a dot-free stem alone)
      splits back into that stem and that extension. */
  lemma {:induction false} StemExtOf(s: string, e: string)
    requires ProperExt(e) || (e == "" && '.' !in s)
    ensures Stem(s + e) == s && Ext(s + e) == e
  {
    if ProperExt(e) {
      LastDotAppend(s, e);
      assert (s + e)[..|s|] == s;
      assert (s + e)[|s|..] == e;
    } else {
      assert s + e == s;
    }
  }

  /** A non-empty extension is always proper, and a name that splits has a
      dot-free stem when it has no extension. */
  lemma ExtShape(name: string)
    ensures Ext(name) == "" || ProperExt(Ext(name))
    ensures Splits(name) && Ext(name) == "" ==> '.' !in Stem(name)
  {
    LastDotIsLast(name);
    var i := LastDot(name);
    if i >= 0 && i != |name| - 1 {
      assert name[i..][1..] == name[i + 1..];
    }
  }

  /** `ChangeExtension` keeps the stem and puts the new extension in place. */
  lemma {:induction false} ChangeExtensionParts(name: string, ext: string)
    requires ProperExt(ext)
    ensures Stem(ChangeExtension(name, ext)) == Stem(name)
    ensures Ext(ChangeExtension(name, ext)) == ext
  {
    StemExtOf(Stem(name), ext);
  }

  lemma {:induction false} CombineAppend(folder: string, a: string, b: string)
    ensures Combine(folder, a + b) == Combine(folder, a) + b
  {
  }
}
