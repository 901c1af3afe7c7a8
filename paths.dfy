/** The part of Node's `path` module the upload naming uses, for POSIX paths. */
module Paths {
  import opened Text

  /** The path without the slashes that end it. */
  function StripTrailingSlashes(p: string): (r: string)
    ensures |r| <= |p| && r == p[..|r|]
    ensures |r| == 0 || r[|r| - 1] != '/'
    ensures forall i :: |r| <= i < |p| ==> p[i] == '/'
    decreases |p|
  {
    if |p| > 0 && p[|p| - 1] == '/' then StripTrailingSlashes(p[..|p| - 1]) else p
  }

  /** The last segment of the path, trailing slashes ignored. */
  function Basename(p: string): string {
    LastPiece(StripTrailingSlashes(p), '/')
  }

  /** `path.extname(p)`: the last segment from its last `.` on; empty when that segment has
      no `.`, when its only `.` is its first character, or when the segment is `..`. */
  function Extname(p: string): (ext: string)
    ensures ext == "" || (ext[0] == '.' && '.' !in ext[1..] && '/' !in ext)
  {
    var b := Basename(p);
    var after := LastPiece(b, '.');
    LastPieceIsAfterLastSeparator(StripTrailingSlashes(p), '/');
    LastPieceIsAfterLastSeparator(b, '.');
    if '.' !in b || b == ".." || b == "." + after then "" else "." + after
  }

  /** A name with a non-empty stem and a last `.` gets the text after that `.`, with the dot. */
  lemma ExtnameOfName(stem: string, e: string)
    requires stem != "" && stem != "." && '/' !in stem && '/' !in e && '.' !in e
    ensures Extname(stem + "." + e) == "." + e
  {
    var p := stem + "." + e;
    assert p[|p| - 1] != '/' by {
      if |e| > 0 { assert p[|p| - 1] == e[|e| - 1]; } else { assert p[|p| - 1] == '.'; }
    }
    assert StripTrailingSlashes(p) == p;
    assert '/' !in p by {
      forall i | 0 <= i < |p| ensures p[i] != '/' {
        if i < |stem| { assert p[i] == stem[i]; } else if i > |stem| { assert p[i] == e[i - |stem| - 1]; }
      }
    }
    LastPieceIsAfterLastSeparator(p, '/');
    assert Basename(p) == p;
    LastPieceOf(stem, '.', e);
    assert stem + "." + e == stem + ['.'] + e;
    assert p[|stem|] == '.';
  }

  /** A name without a `.` has no extension. */
  lemma ExtnameWithoutDot(p: string)
    requires '.' !in p
    ensures Extname(p) == ""
  {
    LastPieceIsAfterLastSeparator(StripTrailingSlashes(p), '/');
    var b := Basename(p);
    forall i | 0 <= i < |b| ensures b[i] != '.' {
      var s := StripTrailingSlashes(p);
      assert b[i] == s[|s| - |b| + i] == p[|s| - |b| + i];
    }
  }
}
