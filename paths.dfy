/**
 * File paths and the PNG sibling name (`get_filename`, `get_png_path`).
 * A path is the list of components Rust's `Path::components` yields, so
 * `Path::file_name` is the last component when it is a normal name.
 */
module Paths {
  import opened Wrappers

  /** A name `Path::file_name` can yield: non-empty, not `.` or `..`, without a separator. */
  predicate IsNormalName(s: string) {
    s != "" && s != "." && s != ".." && '/' !in s
  }

  type Name = s: string | IsNormalName(s) witness "_"

  datatype Component = RootDir | CurDir | ParentDir | Normal(name: Name)

  type Path = seq<Component>

  /** `Path::file_name`: the final component when it is a normal name. */
  function FileName(p: Path): (r: Option<Name>)
    ensures r.Some? <==> |p| > 0 && p[|p| - 1].Normal?
    ensures r.Some? ==> p[|p| - 1] == Normal(r.value)
  {
    if |p| > 0 && p[|p| - 1].Normal? then Some(p[|p| - 1].name) else None
  }

  /** `prefix.join(name)` for a single normal name. */
  function Join(prefix: Path, name: Name): (r: Path)
    ensures FileName(r) == Some(name)
    ensures |r| > 0 && r[..|r| - 1] == prefix
  {
    prefix + [Normal(name)]
  }

  /** `get_filename`: the file name of a path, which the source unwraps. */
  function GetFilename(p: Path): (name: Name)
    requires FileName(p).Some?
    ensures p[|p| - 1] == Normal(name)
  {
    FileName(p).value
  }

  const Svg: string := "svg"
  const Png: string := "png"

  /** `pat` occurs in `s` starting at index `k`. */
  predicate OccursAt(s: string, pat: string, k: int) {
    0 <= k && k + |pat| <= |s| && s[k..k + |pat|] == pat
  }

  predicate Contains(s: string, pat: string) {
    exists k | 0 <= k <= |s| - |pat| :: OccursAt(s, pat, k)
  }

  /**
   * `str::replace`: every non-overlapping occurrence of `from`, searched
   * left to right, replaced by `to`.
   */
  function ReplaceAll(s: string, from: string, to: string): (r: string)
    requires from != ""
    ensures |from| == |to| ==> |r| == |s|
    ensures forall c :: c in r ==> c in s || c in to
    decreases |s|
  {
    if |s| < |from| then s
    else if s[..|from|] == from then to + ReplaceAll(s[|from|..], from, to)
    else [s[0]] + ReplaceAll(s[1..], from, to)
  }

  /** A string with no occurrence of the pattern comes back unchanged. */
  lemma {:induction false} ReplaceAllWithoutMatch(s: string, from: string, to: string)
    requires from != ""
    requires !Contains(s, from)
    ensures ReplaceAll(s, from, to) == s
    decreases |s|
  {
    if |s| >= |from| {
      assert !OccursAt(s, from, 0);
      forall k | OccursAt(s[1..], from, k) ensures OccursAt(s, from, k + 1) {
        assert s[k + 1..k + 1 + |from|] == s[1..][k..k + |from|];
      }
      ReplaceAllWithoutMatch(s[1..], from, to);
    }
  }

  /** One step of the replacement, also for strings shorter than the pattern. */
  lemma ReplaceSvgStep(t: string)
    requires |t| > 0
    ensures OccursAt(t, Svg, 0) ==> ReplaceAll(t, Svg, Png) == Png + ReplaceAll(t[3..], Svg, Png)
    ensures !OccursAt(t, Svg, 0) ==> ReplaceAll(t, Svg, Png) == [t[0]] + ReplaceAll(t[1..], Svg, Png)
  {
  }

  /** An occurrence past a prefix is an occurrence in what follows the prefix. */
  lemma OccursAfterPrefix(p: string, rest: string, pat: string, k: int)
    requires |p| <= k && OccursAt(p + rest, pat, k)
    ensures OccursAt(rest, pat, k - |p|)
  {
    assert (p + rest)[k..k + |pat|] == rest[k - |p|..k - |p| + |pat|];
  }

  /** The replacement starts with `p` when the name starts with `svg`, and with the name's own first character otherwise. */
  lemma ReplaceSvgFirst(t: string)
    requires |t| > 0
    ensures |ReplaceAll(t, Svg, Png)| == |t|
    ensures ReplaceAll(t, Svg, Png)[0] == if OccursAt(t, Svg, 0) then 'p' else t[0]
  {
    ReplaceSvgStep(t);
  }

  /** A character kept in front of a replaced rest does not start an `svg` with it. */
  lemma NoSvgAtSeam(c: char, t: string)
    requires !OccursAt([c] + t, Svg, 0)
    ensures !OccursAt([c] + ReplaceAll(t, Svg, Png), Svg, 0)
  {
    var r := [c] + ReplaceAll(t, Svg, Png);
    if c == 's' && |t| >= 2 {
      ReplaceSvgFirst(t);
      if t[0] == 'v' {
        assert !OccursAt(t, Svg, 0);
        ReplaceSvgStep(t);
        ReplaceSvgFirst(t[1..]);
        assert t[1] != 'g' by { assert ([c] + t)[..3] == [c, t[0], t[1]]; }
        assert r[2] != 'g';
      } else {
        assert r[1] != 'v';
      }
    }
  }

  /** After replacing, no `svg` is left: none survives and none is formed across a seam. */
  lemma {:induction false} ReplaceSvgLeavesNone(s: string)
    ensures !Contains(ReplaceAll(s, Svg, Png), Svg)
    decreases |s|
  {
    var r := ReplaceAll(s, Svg, Png);
    if |s| < 3 {
      assert r == s;
    } else if OccursAt(s, Svg, 0) {
      var rest := ReplaceAll(s[3..], Svg, Png);
      ReplaceSvgLeavesNone(s[3..]);
      assert r == Png + rest;
      forall k | 0 <= k <= |r| - 3 ensures !OccursAt(r, Svg, k) {
        if k >= 3 {
          if OccursAt(r, Svg, k) {
            OccursAfterPrefix(Png, rest, Svg, k);
          }
        } else {
          assert r[k] == Png[k];
        }
      }
    } else {
      var rest := ReplaceAll(s[1..], Svg, Png);
      ReplaceSvgLeavesNone(s[1..]);
      assert r == [s[0]] + rest;
      forall k | 0 <= k <= |r| - 3 ensures !OccursAt(r, Svg, k) {
        if k >= 1 {
          if OccursAt(r, Svg, k) {
            OccursAfterPrefix([s[0]], rest, Svg, k);
          }
        } else {
          assert s == [s[0]] + s[1..];
          NoSvgAtSeam(s[0], s[1..]);
        }
      }
    }
  }

  /** Replacing `svg` by `png` in a file name gives a file name. */
  lemma ReplaceSvgKeepsName(s: string)
    requires IsNormalName(s)
    ensures IsNormalName(ReplaceAll(s, Svg, Png))
  {
    var r := ReplaceAll(s, Svg, Png);
    if |s| <= 2 {
      ReplaceAllWithoutMatch(s, Svg, Png);
    }
  }

  /** The replacement leaves a name alone exactly when it holds no `svg`. */
  lemma ReplaceSvgChanges(s: string)
    ensures ReplaceAll(s, Svg, Png) == s <==> !Contains(s, Svg)
  {
    if !Contains(s, Svg) {
      ReplaceAllWithoutMatch(s, Svg, Png);
    } else {
      ReplaceSvgLeavesNone(s);
    }
  }

  /** `svg` at index `k`, letter by letter. */
  predicate SvgAt(s: string, k: int) {
    0 <= k && k + 3 <= |s| && s[k] == 's' && s[k + 1] == 'v' && s[k + 2] == 'g'
  }

  lemma SvgAtIsOccurrence(s: string, k: int)
    ensures SvgAt(s, k) <==> OccursAt(s, Svg, k)
  {
    if 0 <= k && k + 3 <= |s| {
      assert s[k..k + 3] == [s[k], s[k + 1], s[k + 2]];
    }
  }

  /** Two occurrences of `svg` never overlap: the pattern has no proper border. */
  lemma SvgOccurrencesDisjoint(s: string, k: int, m: int)
    requires OccursAt(s, Svg, k) && OccursAt(s, Svg, m) && k < m
    ensures k + 3 <= m
  {
    SvgAtIsOccurrence(s, k);
    SvgAtIsOccurrence(s, m);
  }

  /**
   * The character at `i` once every `svg` is replaced by `png`: the letter of
   * `png` in the same place when an occurrence of `svg` covers `i`, the
   * original character otherwise.
   */
  function SvgReplacedAt(s: string, i: int): char
    requires 0 <= i < |s|
  {
    if SvgAt(s, i) then Png[0]
    else if SvgAt(s, i - 1) then Png[1]
    else if SvgAt(s, i - 2) then Png[2]
    else s[i]
  }

  /** Replacing in front of the rest changes no reference character of the rest. */
  lemma SvgReplacedAtSuffix(s: string, n: int, j: int)
    requires 0 <= n <= |s| && 0 <= j < |s| - n
    requires j < 1 ==> !SvgAt(s, j + n - 1)
    requires j < 2 ==> !SvgAt(s, j + n - 2)
    ensures SvgReplacedAt(s[n..], j) == SvgReplacedAt(s, j + n)
  {
    var t := s[n..];
    assert SvgAt(t, j) <==> SvgAt(s, j + n);
    assert SvgAt(t, j - 1) <==> SvgAt(s, j + n - 1);
    assert SvgAt(t, j - 2) <==> SvgAt(s, j + n - 2);
  }

  /** The replacement of a name that starts with `svg`, character by character, given that of the rest. */
  lemma ReplaceSvgPointwiseMatch(s: string)
    requires SvgAt(s, 0)
    requires forall j :: 0 <= j < |s| - 3 ==> ReplaceAll(s[3..], Svg, Png)[j] == SvgReplacedAt(s[3..], j)
    requires |ReplaceAll(s[3..], Svg, Png)| == |s| - 3
    ensures |ReplaceAll(s, Svg, Png)| == |s|
    ensures forall i :: 0 <= i < |s| ==> ReplaceAll(s, Svg, Png)[i] == SvgReplacedAt(s, i)
  {
    SvgAtIsOccurrence(s, 0);
    assert s[..3] == Svg;
    var rest := ReplaceAll(s[3..], Svg, Png);
    var r := ReplaceAll(s, Svg, Png);
    assert r == Png + rest;
    forall i | 0 <= i < |s| ensures r[i] == SvgReplacedAt(s, i) {
      if i >= 3 {
        SvgReplacedAtSuffix(s, 3, i - 3);
        assert r[i] == rest[i - 3];
      }
    }
  }

  /** The replacement of a name that does not start with `svg`, character by character, given that of the rest. */
  lemma ReplaceSvgPointwiseKeep(s: string)
    requires |s| >= 3 && !SvgAt(s, 0)
    requires forall j :: 0 <= j < |s| - 1 ==> ReplaceAll(s[1..], Svg, Png)[j] == SvgReplacedAt(s[1..], j)
    requires |ReplaceAll(s[1..], Svg, Png)| == |s| - 1
    ensures |ReplaceAll(s, Svg, Png)| == |s|
    ensures forall i :: 0 <= i < |s| ==> ReplaceAll(s, Svg, Png)[i] == SvgReplacedAt(s, i)
  {
    SvgAtIsOccurrence(s, 0);
    assert s[..3] != Svg;
    var rest := ReplaceAll(s[1..], Svg, Png);
    var r := ReplaceAll(s, Svg, Png);
    assert r == [s[0]] + rest;
    forall i | 0 <= i < |s| ensures r[i] == SvgReplacedAt(s, i) {
      if i >= 1 {
        SvgReplacedAtSuffix(s, 1, i - 1);
        assert r[i] == rest[i - 1];
      }
    }
  }

  /**
   * Replacing every `svg` by `png` works character by character: each
   * character covered by an occurrence becomes the matching letter of `png`,
   * and every other character stays where it was.
   */
  lemma {:induction false} ReplaceSvgPointwise(s: string)
    ensures |ReplaceAll(s, Svg, Png)| == |s|
    ensures forall i :: 0 <= i < |s| ==> ReplaceAll(s, Svg, Png)[i] == SvgReplacedAt(s, i)
    decreases |s|
  {
    if |s| < 3 {
      assert ReplaceAll(s, Svg, Png) == s;
    } else if SvgAt(s, 0) {
      ReplaceSvgPointwise(s[3..]);
      ReplaceSvgPointwiseMatch(s);
    } else {
      ReplaceSvgPointwise(s[1..]);
      ReplaceSvgPointwiseKeep(s);
    }
  }

  /** Inside an occurrence of `svg` at `k`, the result reads `png`. */
  lemma ReplaceSvgInsideOccurrence(s: string, k: int, i: int)
    requires OccursAt(s, Svg, k) && k <= i < k + 3
    ensures i < |ReplaceAll(s, Svg, Png)| && ReplaceAll(s, Svg, Png)[i] == Png[i - k]
  {
    ReplaceSvgPointwise(s);
    SvgAtIsOccurrence(s, k);
    SvgAtIsOccurrence(s, i);
    SvgAtIsOccurrence(s, i - 1);
  }

  /** A character no occurrence of `svg` covers (none starts at `i`, `i - 1` or `i - 2`) stays as it was. */
  lemma ReplaceSvgOutsideOccurrences(s: string, i: int)
    requires 0 <= i < |s|
    requires !OccursAt(s, Svg, i) && !OccursAt(s, Svg, i - 1) && !OccursAt(s, Svg, i - 2)
    ensures i < |ReplaceAll(s, Svg, Png)| && ReplaceAll(s, Svg, Png)[i] == s[i]
  {
    ReplaceSvgPointwise(s);
    SvgAtIsOccurrence(s, i);
    SvgAtIsOccurrence(s, i - 1);
    SvgAtIsOccurrence(s, i - 2);
  }

  /**
   * `get_png_path`: the SVG's file name with every `svg` replaced by `png`,
   * joined under `prefix`.
   */
  function GetPngPath(prefix: Path, svg: Path): (png: Path)
    requires FileName(svg).Some?
    ensures |png| > 0 && png[..|png| - 1] == prefix
    ensures FileName(png).Some?
    ensures FileName(png).value == ReplaceAll(GetFilename(svg), Svg, Png)
    ensures !Contains(FileName(png).value, Svg)
  {
    var name := ReplaceAll(GetFilename(svg), Svg, Png);
    ReplaceSvgKeepsName(GetFilename(svg));
    ReplaceSvgLeavesNone(GetFilename(svg));
    Join(prefix, name)
  }

  /** The test page `2.svg` has the PNG sibling `2.png`. */
  lemma PngNameOfTestPage()
    ensures ReplaceAll("2.svg", Svg, Png) == "2.png"
  {
    assert "2.svg"[0..3][0] != Svg[0];
    assert ".svg"[0..3][0] != Svg[0];
    assert "2.svg"[1..] == ".svg" && ".svg"[1..] == Svg;
    ReplaceSvgStep("2.svg");
    ReplaceSvgStep(".svg");
    ReplaceSvgStep("svg");
  }
}
