/**
  The file name main() gives the i-th extracted image (i counted from 0): the
  basename of the image URL's path, replaced by `image_<i+1>.jpg` when it is
  empty or has no dot, and otherwise with its extension normalised to `.jpg`
  unless it is one of the recognised image extensions.
 */
module Filename {
  import opened Failures

  const AllowedExtensions: seq<string> := [".jpg", ".jpeg", ".png", ".gif", ".webp"]
  const DefaultExtension: string := ".jpg"

  /** os.path.basename on a POSIX path: everything after the last '/'. */
  function Basename(path: string): (base: string)
    ensures |base| <= |path| && path[|path| - |base|..] == base
    ensures '/' !in base
    ensures |base| < |path| ==> path[|path| - |base| - 1] == '/'
  {
    if path == [] || path[|path| - 1] == '/' then []
    else
      var rest := Basename(path[..|path| - 1]);
      assert path[..|path| - 1][|path| - 1 - |rest|..] == path[|path| - 1 - |rest|..|path| - 1];
      assert path[|path| - 1 - |rest|..] == path[|path| - 1 - |rest|..|path| - 1] + [path[|path| - 1]];
      rest + [path[|path| - 1]]
  }

  /** The index of the last '.' of a string, if any. */
  function LastDot(s: string): (d: Option<nat>)
    ensures d.None? ==> '.' !in s
    ensures d.Some? ==> d.value < |s| && s[d.value] == '.' && '.' !in s[d.value + 1..]
  {
    if s == [] then None
    else if s[|s| - 1] == '.' then Some(|s| - 1)
    else
      var d := LastDot(s[..|s| - 1]);
      assert d.Some? ==> s[d.value + 1..] == s[..|s| - 1][d.value + 1..] + [s[|s| - 1]];
      assert d.None? ==> s == s[..|s| - 1] + [s[|s| - 1]];
      d
  }

  predicate AllDots(s: string)
  {
    forall k :: 0 <= k < |s| ==> s[k] == '.'
  }

  /** os.path.splitext on a basename: split at the last dot, unless every
      character before that dot is itself a dot (a leading-dot name such as
      ".bashrc" has no extension). */
  function SplitExt(name: string): (parts: (string, string))
    ensures parts.0 + parts.1 == name
    ensures parts.1 != [] ==> parts.1[0] == '.' && '.' !in parts.1[1..] && !AllDots(parts.0)
    ensures parts.1 == [] ==> forall j :: 0 <= j < |name| && name[j] == '.' ==> AllDots(name[..j])
  {
    match LastDot(name)
    case None => (name, [])
    case Some(d) =>
      if AllDots(name[..d]) then
        assert forall j :: 0 <= j < |name| && name[j] == '.' ==> j <= d by {
          forall j | d < j < |name| ensures name[j] != '.' {
            assert name[j] == name[d + 1..][j - d - 1];
          }
        }
        assert forall j :: 0 <= j <= d ==> name[..j] == name[..d][..j];
        (name, [])
      else
        assert name == name[..d] + name[d..];
        (name[..d], name[d..])
  }

  /** ASCII lower-casing; exact for comparisons with the extension list, which
      is all ASCII. */
  function LowerChar(c: char): char
  {
    if 'A' <= c <= 'Z' then (c as int - 'A' as int + 'a' as int) as char else c
  }

  function Lower(s: string): (r: string)
    ensures |r| == |s| && forall k :: 0 <= k < |s| ==> r[k] == LowerChar(s[k])
  {
    if s == [] then [] else [LowerChar(s[0])] + Lower(s[1..])
  }

  lemma LowerAppend(a: string, b: string)
    ensures Lower(a + b) == Lower(a) + Lower(b)
  {
  }

  /** A name ends, after lower-casing, in its own lower-cased extension. */
  lemma EndsWithLowered(stem: string, ext: string)
    ensures EndsWith(Lower(stem + ext), Lower(ext))
  {
    LowerAppend(stem, ext);
    var low, lowExt := Lower(stem), Lower(ext);
    assert (low + lowExt)[|low + lowExt| - |lowExt|..] == lowExt;
  }

  predicate EndsWith(s: string, suffix: string)
  {
    |suffix| <= |s| && s[|s| - |suffix|..] == suffix
  }

  /** The name ends in a recognised image extension, compared case-insensitively. */
  predicate EndsWithAllowedExtension(name: string)
  {
    exists i :: 0 <= i < |AllowedExtensions| && EndsWith(Lower(name), AllowedExtensions[i])
  }

  /** A name that os.path.join places directly inside the download directory. */
  predicate PlainFileName(name: string)
  {
    name != [] && '/' !in name && name != "." && name != ".."
  }

  function DigitChar(d: nat): (c: char)
    requires d < 10
    ensures '0' <= c <= '9'
  {
    ('0' as int + d) as char
  }

  /** The decimal numeral of n, as str(n) gives it. */
  function Decimal(n: nat): (digits: string)
    ensures digits != []
    ensures forall k :: 0 <= k < |digits| ==> '0' <= digits[k] <= '9'
  {
    if n < 10 then [DigitChar(n)] else Decimal(n / 10) + [DigitChar(n % 10)]
  }

  /** The number a string of decimal digits denotes. */
  function DecimalValue(digits: string): nat
  {
    if digits == [] then 0
    else
      var last := digits[|digits| - 1];
      10 * DecimalValue(digits[..|digits| - 1]) + (if '0' <= last <= '9' then last as int - '0' as int else 0)
  }

  /** Like str(n), the numeral of a positive number has no leading zero, so
      together with DecimalRoundTrip it is the one canonical numeral of n. */
  lemma {:induction false} DecimalNoLeadingZero(n: nat)
    requires n > 0
    ensures Decimal(n)[0] != '0'
  {
    if n >= 10 {
      DecimalNoLeadingZero(n / 10);
      assert Decimal(n)[0] == Decimal(n / 10)[0];
    }
  }

  lemma {:induction false} DecimalRoundTrip(n: nat)
    ensures DecimalValue(Decimal(n)) == n
  {
    if n >= 10 {
      DecimalRoundTrip(n / 10);
      var digits := Decimal(n);
      assert digits[..|digits| - 1] == Decimal(n / 10);
    }
  }

  /** image_<n>.jpg, for the n-th image counted from 1. */
  function FallbackName(index: nat): string
  {
    "image_" + Decimal(index + 1) + DefaultExtension
  }

  /** Distinct images never share a fallback name. */
  lemma FallbackNameInjective(i: nat, j: nat)
    requires FallbackName(i) == FallbackName(j)
    ensures i == j
  {
    var a, b := Decimal(i + 1), Decimal(j + 1);
    var s := FallbackName(i);
    assert a == s[6..|s| - 4];
    assert b == s[6..|s| - 4];
    DecimalInjective(i + 1, j + 1);
  }

  lemma DecimalInjective(m: nat, n: nat)
    requires Decimal(m) == Decimal(n)
    ensures m == n
  {
    DecimalRoundTrip(m);
    DecimalRoundTrip(n);
  }

  lemma FallbackNameShape(index: nat)
    ensures PlainFileName(FallbackName(index))
    ensures EndsWithAllowedExtension(FallbackName(index))
  {
    var prefix := "image_" + Decimal(index + 1);
    assert '/' !in prefix;
    AppendDefaultExtension(prefix);
  }

  lemma LowerDefaultExtension()
    ensures Lower(DefaultExtension) == DefaultExtension
  {
  }

  /** Appending .jpg to a name without '/' gives a plain name with an allowed extension. */
  lemma AppendDefaultExtension(stem: string)
    requires '/' !in stem
    ensures PlainFileName(stem + DefaultExtension)
    ensures EndsWithAllowedExtension(stem + DefaultExtension)
  {
    assert PlainFileName(stem + DefaultExtension);
    assert EndsWithAllowedExtension(stem + DefaultExtension) by {
      LowerDefaultExtension();
      EndsWithLowered(stem, DefaultExtension);
      assert EndsWith(Lower(stem + DefaultExtension), AllowedExtensions[0]);
    }
  }

  /** A basename whose extension is recognised. */
  lemma KeptNameShape(stem: string, ext: string)
    requires '/' !in stem + ext
    requires Lower(ext) in AllowedExtensions
    ensures PlainFileName(stem + ext)
    ensures EndsWithAllowedExtension(stem + ext)
  {
    EndsWithLowered(stem, ext);
    var i :| 0 <= i < |AllowedExtensions| && AllowedExtensions[i] == Lower(ext);
    assert EndsWith(Lower(stem + ext), AllowedExtensions[i]);
    assert |ext| >= 4;
  }

  /** A basename whose extension is replaced by .jpg. */
  lemma ReplacedNameShape(stem: string, ext: string)
    requires '/' !in stem + ext
    ensures PlainFileName(stem + DefaultExtension)
    ensures EndsWithAllowedExtension(stem + DefaultExtension)
  {
    assert forall k :: 0 <= k < |stem| ==> stem[k] == (stem + ext)[k];
    AppendDefaultExtension(stem);
  }

  /** The file name main() derives from an image URL's path and the image's
      0-based position in the list. */
  function DeriveFilename(urlPath: string, index: nat): (name: string)
    ensures PlainFileName(name)
    ensures EndsWithAllowedExtension(name)
  {
    var base := Basename(urlPath);
    if base == [] || '.' !in base then
      FallbackNameShape(index);
      FallbackName(index)
    else
      var (stem, ext) := SplitExt(base);
      if Lower(ext) in AllowedExtensions then
        KeptNameShape(stem, ext);
        base
      else
        ReplacedNameShape(stem, ext);
        stem + DefaultExtension
  }

  /** The three outcomes of the derivation: the fallback for a basename with
      no dot, the basename itself when its extension is recognised, and
      otherwise the basename's stem followed by .jpg. */
  lemma DeriveFilenameCases(urlPath: string, index: nat)
    ensures var base := Basename(urlPath);
            var name := DeriveFilename(urlPath, index);
      && ('.' !in base ==> name == FallbackName(index))
      && ('.' in base && Lower(SplitExt(base).1) in AllowedExtensions ==> name == base)
      && ('.' in base && Lower(SplitExt(base).1) !in AllowedExtensions ==>
            name == SplitExt(base).0 + DefaultExtension)
  {
  }

  /** Only the fallback depends on the image's position: a basename with a dot
      gives the same name wherever the image stands in the list. */
  lemma DottedNameIgnoresIndex(urlPath: string, i: nat, j: nat)
    requires '.' in Basename(urlPath)
    ensures DeriveFilename(urlPath, i) == DeriveFilename(urlPath, j)
  {
  }

  /** Two images at different positions whose paths both fall back never share
      a file name. */
  lemma FallbackNamesDistinct(pathA: string, pathB: string, i: nat, j: nat)
    requires '.' !in Basename(pathA) && '.' !in Basename(pathB)
    requires i != j
    ensures DeriveFilename(pathA, i) != DeriveFilename(pathB, j)
  {
    if DeriveFilename(pathA, i) == DeriveFilename(pathB, j) {
      FallbackNameInjective(i, j);
    }
  }

  /** A path that ends in '/' has an empty basename, so the image gets the
      numbered name of its position. */
  lemma EmptyBasenameFallsBack(urlPath: string, index: nat)
    requires urlPath != [] && urlPath[|urlPath| - 1] == '/'
    ensures Basename(urlPath) == []
    ensures DeriveFilename(urlPath, index) == FallbackName(index)
  {
  }
}
