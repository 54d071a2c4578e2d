/**
 * The file-name handling shared by the loaders:
 * `name.split(".").pop().toLowerCase()` and `name.endsWith(".obj")`.
 *
 * `Split` is `String.prototype.split` with a one-character separator, `Last`
 * is `Array.prototype.pop` on its (never empty) result, and `ToLower` is
 * `toLowerCase` restricted to the ASCII letters.
 */
module FileNames {

  /** `s.split(sep)`: the pieces between separators, in order, empty ones included. */
  function Split(s: string, sep: char): (parts: seq<string>)
    ensures |parts| >= 1
    ensures forall i :: 0 <= i < |parts| ==> sep !in parts[i]
    ensures Join(parts, sep) == s
    decreases |s|
  {
    if |s| == 0 then [[]]
    else
      var init := Split(s[..|s| - 1], sep);
      var c := s[|s| - 1];
      assert s == s[..|s| - 1] + [c];
      if c == sep then
        init + [[]]
      else
        var k := |init| - 1;
        var parts := init[..k] + [init[k] + [c]];
        assert parts[..k] == init[..k];
        parts
  }

  /** `parts.join(sep)`, the inverse of `Split` on pieces free of `sep`. */
  function Join(parts: seq<string>, sep: char): string
    requires |parts| >= 1
  {
    if |parts| == 1 then parts[0]
    else Join(parts[..|parts| - 1], sep) + [sep] + parts[|parts| - 1]
  }

  /** `Array.prototype.pop` on a non-empty array: its last element. */
  function Last<T>(xs: seq<T>): T
    requires |xs| >= 1
  {
    xs[|xs| - 1]
  }

  function LowerChar(c: char): char
  {
    if 'A' <= c <= 'Z' then (c as int + 32) as char else c
  }

  /** `toLowerCase()`, on the ASCII letters. */
  function ToLower(s: string): (r: string)
    ensures |r| == |s|
    ensures forall i :: 0 <= i < |s| ==> r[i] == LowerChar(s[i])
  {
    seq(|s|, i requires 0 <= i < |s| => LowerChar(s[i]))
  }

  predicate IsLower(s: string)
  {
    forall i :: 0 <= i < |s| ==> !('A' <= s[i] <= 'Z')
  }

  /** `name.split(".").pop().toLowerCase()`: the text after the last dot, lower-cased. */
  function Extension(name: string): (ext: string)
    ensures '.' !in ext && IsLower(ext)
  {
    var last := Last(Split(name, '.'));
    assert '.' !in last;
    ToLower(last)
  }

  /** `s.endsWith(suffix)`, which compares characters exactly. */
  predicate EndsWith(s: string, suffix: string): (b: bool)
    ensures b <==> |suffix| <= |s| && s == s[..|s| - |suffix|] + suffix
  {
    |suffix| <= |s| && s[|s| - |suffix|..] == suffix
  }

  /** Whatever comes before it, a string ends with its own tail. */
  lemma EndsWithConcat(prefix: string, suffix: string)
    ensures EndsWith(prefix + suffix, suffix)
  {
    assert (prefix + suffix)[|prefix|..] == suffix;
  }

  /** Splitting what joining produced gives the pieces back. */
  lemma {:induction false} SplitJoin(parts: seq<string>, sep: char)
    requires |parts| >= 1
    requires forall i :: 0 <= i < |parts| ==> sep !in parts[i]
    ensures Split(Join(parts, sep), sep) == parts
    decreases |parts|
  {
    if |parts| == 1 {
      SplitWithoutSeparator(parts[0], sep);
    } else {
      var init := parts[..|parts| - 1];
      SplitJoin(init, sep);
      SplitAppend(Join(init, sep), parts[|parts| - 1], sep);
      assert init + [parts[|parts| - 1]] == parts;
    }
  }

  /** A string without the separator splits into itself alone. */
  lemma {:induction false} SplitWithoutSeparator(t: string, sep: char)
    requires sep !in t
    ensures Split(t, sep) == [t]
    decreases |t|
  {
    if |t| > 0 {
      SplitWithoutSeparator(t[..|t| - 1], sep);
      assert t[..|t| - 1] + [t[|t| - 1]] == t;
    }
  }

  /** Appending a separator and a separator-free tail adds exactly one piece. */
  lemma {:induction false} SplitAppend(s: string, t: string, sep: char)
    requires sep !in t
    ensures Split(s + [sep] + t, sep) == Split(s, sep) + [t]
    decreases |t|
  {
    if |t| == 0 {
      SplitSnoc(s, sep, sep);
      assert s + [sep] + t == s + [sep];
    } else {
      var t', c := t[..|t| - 1], t[|t| - 1];
      SplitAppend(s, t', sep);
      SplitExtendsLast(s + [sep] + t', c, sep, Split(s, sep), t');
      assert (s + [sep] + t') + [c] == s + [sep] + t && t' + [c] == t;
    }
  }

  /** A character other than the separator extends the last piece. */
  lemma SplitExtendsLast(s: string, c: char, sep: char, init: seq<string>, last: string)
    requires c != sep && Split(s, sep) == init + [last]
    ensures Split(s + [c], sep) == init + [last + [c]]
  {
    SplitSnoc(s, c, sep);
    assert (init + [last])[..|init|] == init;
  }

  /** One more character either starts a new piece (a separator) or extends the last one. */
  lemma SplitSnoc(s: string, c: char, sep: char)
    ensures var init := Split(s, sep);
      Split(s + [c], sep) == if c == sep then init + [[]] else init[..|init| - 1] + [Last(init) + [c]]
  {
    assert (s + [c])[..|s|] == s;
  }

  /** The extension of `base.ext` is `ext` lower-cased, whatever dots `base` holds. */
  lemma ExtensionAfterLastDot(base: string, ext: string)
    requires '.' !in ext
    ensures Extension(base + "." + ext) == ToLower(ext)
  {
    SplitAppend(base, ext, '.');
  }

  /** A name without a dot is its own extension, lower-cased. */
  lemma ExtensionOfUndotted(name: string)
    requires '.' !in name
    ensures Extension(name) == ToLower(name)
  {
    SplitWithoutSeparator(name, '.');
  }

  /** Lower-casing twice is lower-casing once. */
  lemma ToLowerIdempotent(s: string)
    ensures ToLower(ToLower(s)) == ToLower(s)
  {
  }

  /** A name that ends in ".obj" has the extension "obj"; the converse fails (see below). */
  lemma ObjSuffixGivesObjExtension(name: string)
    requires EndsWith(name, ".obj")
    ensures Extension(name) == "obj"
  {
    var base := name[..|name| - 4];
    assert name == base + "." + "obj";
    ExtensionAfterLastDot(base, "obj");
  }

  /** "A.OBJ" has the extension "obj" yet does not end with ".obj". */
  lemma UpperCaseObjName()
    ensures Extension("A.OBJ") == "obj"
    ensures !EndsWith("A.OBJ", ".obj")
  {
    ExtensionAfterLastDot("A", "OBJ");
    assert "A" + "." + "OBJ" == "A.OBJ";
    assert ToLower("OBJ") == "obj";
    assert "A.OBJ"[1..] != ".obj" by { assert "A.OBJ"[1..][1] == 'O'; }
  }
}
