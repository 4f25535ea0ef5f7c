/** The POSIX behaviour of Node's `path` functions that the migration engine
    calls: `isAbsolute`, `extname` and `resolve` (src/commands/up.ts:5). */
module Paths {
  import opened Text

  predicate IsAbsolute(p: string)
  {
    |p| > 0 && p[0] == '/'
  }

  /** `p` without the path separators at its end. */
  function StripTrailingSlashes(p: string): (t: string)
    ensures |t| <= |p|
    decreases |p|
  {
    if p != [] && p[|p| - 1] == '/' then StripTrailingSlashes(p[..|p| - 1]) else p
  }

  /** What StripTrailingSlashes keeps is a prefix that does not end with a
      separator, and what it drops is all separators. */
  lemma {:induction false} StripTrailingSlashesShape(p: string)
    ensures var t := StripTrailingSlashes(p);
            && t == p[..|t|]
            && (t == [] || t[|t| - 1] != '/')
            && forall i :: |t| <= i < |p| ==> p[i] == '/'
    decreases |p|
  {
    if p != [] && p[|p| - 1] == '/' {
      var q := p[..|p| - 1];
      StripTrailingSlashesShape(q);
      var t := StripTrailingSlashes(q);
      assert q[..|t|] == p[..|t|];
    }
  }

  /** The index just after the last `c` in `s`, or 0 when `s` has no `c`. */
  function AfterLast(s: string, c: char): (k: nat)
    ensures k <= |s|
    decreases |s|
  {
    if s == [] then 0
    else if s[|s| - 1] == c then |s|
    else AfterLast(s[..|s| - 1], c)
  }

  /** AfterLast points just after an occurrence of `c`, and none follows it. */
  lemma {:induction false} AfterLastShape(s: string, c: char)
    ensures var k := AfterLast(s, c);
            && (k > 0 ==> s[k - 1] == c)
            && forall i :: k <= i < |s| ==> s[i] != c
    decreases |s|
  {
    if s != [] && s[|s| - 1] != c {
      AfterLastShape(s[..|s| - 1], c);
    }
  }

  /** The last segment of `p`, trailing separators ignored. */
  function FinalSegment(p: string): (base: string)
    ensures |base| <= |p|
  {
    var t := StripTrailingSlashes(p);
    t[AfterLast(t, '/')..]
  }

  /** The final segment holds no separator. */
  lemma FinalSegmentPlain(p: string)
    ensures '/' !in FinalSegment(p)
  {
    var t := StripTrailingSlashes(p);
    var k := AfterLast(t, '/');
    AfterLastShape(t, '/');
    forall c | c in t[k..] ensures c != '/' {
      var i :| 0 <= i < |t[k..]| && t[k..][i] == c;
      assert c == t[k + i];
    }
  }

  /** `path.extname(p)`: from the last `.` of the final segment to its end;
      empty when that segment has no `.` after its first character, and for
      the segment `..`. */
  function Extname(p: string): (ext: string)
    ensures |ext| <= |p|
  {
    SegmentExt(FinalSegment(p))
  }

  /** The extension of one path segment. */
  function SegmentExt(base: string): (ext: string)
    ensures |ext| <= |base|
  {
    base[ExtStart(base)..]
  }

  /** Where a segment's extension starts: at its last `.`, unless that is its
      first character (or it has none), and never for `..`; otherwise at its end. */
  function ExtStart(base: string): (j: nat)
    ensures j <= |base|
  {
    var dot := AfterLast(base, '.');
    if dot <= 1 || base == ".." then |base| else dot - 1
  }

  /** `p.substring(0, p.length - extname(p).length)`: the version of a migration found without a filter (up.ts:53-56). */
  function Stem(p: string): string
  {
    p[..|p| - |Extname(p)|]
  }

  /** A segment's extension starts with its last `.`, holds no other `.`, and
      leaves at least one character before it; it is empty exactly when no `.`
      follows the first character, or for `..`. */
  lemma SegmentExtShape(base: string)
    ensures SegmentExt(base) != [] ==>
              && SegmentExt(base)[0] == '.' && '.' !in SegmentExt(base)[1..]
              && 1 <= ExtStart(base) && base[ExtStart(base)] == '.'
    ensures SegmentExt(base) == [] <==> (forall i :: 1 <= i < |base| ==> base[i] != '.') || base == ".."
  {
    var dot := AfterLast(base, '.');
    var ext := SegmentExt(base);
    AfterLastShape(base, '.');
    if dot > 1 && base != ".." {
      assert ext == base[dot - 1..];
      forall c | c in ext[1..] ensures c != '.' {
        var i :| 0 <= i < |ext[1..]| && ext[1..][i] == c;
        assert c == base[dot + i];
      }
    }
  }

  /** For a path with no trailing separator, `Stem` and the extension split the
      path: the extension is the suffix that `Stem` drops. */
  lemma ExtnameSplitsPath(p: string)
    requires p == [] || p[|p| - 1] != '/'
    ensures |Stem(p)| + |Extname(p)| == |p|
    ensures p[..|Stem(p)|] == Stem(p) && p[|Stem(p)|..] == Extname(p)
  {
    var i := AfterLast(p, '/');
    var base := FinalSegment(p);
    FinalSegmentIsSuffix(p);
    SliceOfSlice(p, i, ExtStart(base));
  }

  /** A suffix of a suffix is a suffix.  Proof plumbing for `ExtnameSplitsPath`. */
  lemma SliceOfSlice(p: string, i: nat, j: nat)
    requires i <= |p| && j <= |p| - i
    ensures p[i..][j..] == p[i + j..]
  {
  }

  /** A non-empty extension starts with the only `.` it holds, lies inside the
      final segment, and the segment has a character before it; when it is empty
      is said of the final segment by SegmentExtShape. */
  lemma ExtnameShape(p: string)
    requires p == [] || p[|p| - 1] != '/'
    requires Extname(p) != []
    ensures Extname(p)[0] == '.' && '/' !in Extname(p) && '.' !in Extname(p)[1..]
    ensures |Stem(p)| > 0 && Stem(p)[|Stem(p)| - 1] != '/'
  {
    var base := FinalSegment(p);
    FinalSegmentIsSuffix(p);
    SegmentExtShape(base);
    ExtnameSplitsPath(p);
    FinalSegmentPlain(p);
    InsideSegment(p, AfterLast(p, '/'), base, ExtStart(base));
  }

  /** A suffix of a separator-free suffix `base` of `p` that leaves a
      character of `base` before it holds no separator, and neither does that
      character. */
  lemma InsideSegment(p: string, i: nat, base: string, j: nat)
    requires i <= |p| && base == p[i..] && '/' !in base
    requires 1 <= j <= |base|
    ensures '/' !in base[j..] && p[i + j - 1] != '/'
  {
    assert base[j - 1] in base && base[j - 1] == p[i + j - 1];
    forall c | c in base[j..] ensures c in base {
      var k :| 0 <= k < |base[j..]| && base[j..][k] == c;
      assert c == base[j + k];
    }
  }

  /** Without a trailing separator, the final segment is what follows the last separator. */
  lemma FinalSegmentIsSuffix(p: string)
    requires p == [] || p[|p| - 1] != '/'
    ensures AfterLast(p, '/') <= |p| && FinalSegment(p) == p[AfterLast(p, '/')..]
  {
    assert StripTrailingSlashes(p) == p;
  }

  /** The segments of an absolute path after Node's normalisation: empty and `.`
      segments are dropped, and `..` removes the segment before it (nothing
      above the root). */
  function Normalize(segs: seq<string>): (r: seq<string>)
    ensures forall i :: 0 <= i < |r| ==> Plain(r[i])
    ensures (forall i :: 0 <= i < |segs| ==> '/' !in segs[i]) ==> forall i :: 0 <= i < |r| ==> '/' !in r[i]
    decreases |segs|
  {
    if segs == [] then []
    else
      var prev := Normalize(segs[..|segs| - 1]);
      var last := segs[|segs| - 1];
      assert forall i :: 0 <= i < |segs| - 1 ==> segs[..|segs| - 1][i] == segs[i];
      if last == "" || last == "." then prev
      else if last == ".." then (if prev == [] then [] else prev[..|prev| - 1])
      else prev + [last]
  }

  /** A segment that normalisation keeps as it is. */
  predicate Plain(seg: string)
  {
    seg != "" && seg != "." && seg != ".."
  }

  /** `path.resolve(cwd, dir)` for a relative `dir`: the normalised absolute path. */
  function Resolve(cwd: string, dir: string): (r: string)
    requires IsAbsolute(cwd)
    ensures IsAbsolute(r)
  {
    "/" + Join(Normalize(Split(cwd + "/" + dir, '/')), '/')
  }

  /** Normalisation leaves a sequence of plain segments unchanged. */
  lemma {:induction false} NormalizePlain(segs: seq<string>)
    requires forall i :: 0 <= i < |segs| ==> Plain(segs[i])
    ensures Normalize(segs) == segs
    decreases |segs|
  {
    if segs != [] {
      NormalizePlain(segs[..|segs| - 1]);
      assert segs[..|segs| - 1] + [segs[|segs| - 1]] == segs;
    }
  }

  /** Joining two non-empty lists is joining their joins. */
  lemma {:induction false} JoinAppend(a: seq<string>, b: seq<string>, sep: char)
    requires a != [] && b != []
    ensures Join(a + b, sep) == Join(a, sep) + [sep] + Join(b, sep)
    decreases |a|
  {
    if |a| == 1 {
      JoinCons(a[0], b, sep);
      assert a + b == [a[0]] + b;
    } else {
      JoinAppend(a[1..], b, sep);
      assert (a + b)[1..] == a[1..] + b;
      assert (a + b)[0] == a[0];
    }
  }

  /** Resolving a relative directory made of plain segments against a
      normalised working directory appends it with one separator. */
  lemma ResolvePlain(cwdSegs: seq<string>, dirSegs: seq<string>)
    requires cwdSegs != [] && dirSegs != []
    requires forall i :: 0 <= i < |cwdSegs| ==> Plain(cwdSegs[i]) && '/' !in cwdSegs[i]
    requires forall i :: 0 <= i < |dirSegs| ==> Plain(dirSegs[i]) && '/' !in dirSegs[i]
    ensures Resolve("/" + Join(cwdSegs, '/'), Join(dirSegs, '/'))
            == "/" + Join(cwdSegs, '/') + "/" + Join(dirSegs, '/')
  {
    var segs := cwdSegs + dirSegs;
    PiecesConcat(cwdSegs, dirSegs);
    JoinAppend(cwdSegs, dirSegs, '/');
    SplitAbsolute(segs);
    NormalizeSkipsEmptyHead(segs);
    NormalizePlain(segs);
    var whole := "/" + Join(cwdSegs, '/') + "/" + Join(dirSegs, '/');
    ConcatRegroups("/", Join(cwdSegs, '/'), "/", Join(dirSegs, '/'));
    assert whole == "/" + Join(segs, '/');
    assert Normalize(Split(whole, '/')) == segs;
  }

  /** Regrouping a four-part concatenation.  Proof plumbing for `ResolvePlain`. */
  lemma ConcatRegroups(a: string, b: string, c: string, d: string)
    ensures a + b + c + d == a + (b + c + d)
  {
  }

  /** The pieces of two lists of plain, separator-free pieces are plain and separator-free. */
  lemma PiecesConcat(a: seq<string>, b: seq<string>)
    requires forall i :: 0 <= i < |a| ==> Plain(a[i]) && '/' !in a[i]
    requires forall i :: 0 <= i < |b| ==> Plain(b[i]) && '/' !in b[i]
    ensures forall i :: 0 <= i < |a + b| ==> Plain((a + b)[i]) && '/' !in (a + b)[i]
  {
    forall i | 0 <= i < |a + b| ensures Plain((a + b)[i]) && '/' !in (a + b)[i] {
      if i >= |a| {
        assert (a + b)[i] == b[i - |a|];
      }
    }
  }

  /** Splitting an absolute path built from separator-free pieces gives an empty root piece, then the pieces. */
  lemma SplitAbsolute(segs: seq<string>)
    requires segs != []
    requires forall i :: 0 <= i < |segs| ==> '/' !in segs[i]
    ensures Split("/" + Join(segs, '/'), '/') == [""] + segs
  {
    var all := [""] + segs;
    JoinCons("", segs, '/');
    assert Join(all, '/') == "/" + Join(segs, '/');
    assert forall i :: 0 <= i < |all| ==> '/' !in all[i] by {
      forall i | 0 <= i < |all| ensures '/' !in all[i] {
        if i > 0 {
          assert all[i] == segs[i - 1];
        }
      }
    }
    SplitJoin(all, '/');
  }

  /** A leading empty segment (the root of an absolute path) is dropped. */
  lemma {:induction false} NormalizeSkipsEmptyHead(segs: seq<string>)
    ensures Normalize([""] + segs) == Normalize(segs)
    decreases |segs|
  {
    if segs != [] {
      var all := [""] + segs;
      assert all[..|all| - 1] == [""] + segs[..|segs| - 1];
      NormalizeSkipsEmptyHead(segs[..|segs| - 1]);
    }
  }
}
