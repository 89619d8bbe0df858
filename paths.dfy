/**
 * Directory-path normalisation of the IDN client (`cleanPathString`, src/Api.php:141-144):
 * every run of '/' is collapsed to one '/', then leading and trailing '/' are trimmed.
 *
 * The operation is modelled literally (collapse, then trim) and compared with an
 * independent reference: explode the path on '/', drop the empty pieces, and glue the
 * remaining segments back with single slashes.
 */
module Paths {

  /** No two consecutive '/' characters. */
  predicate NoDoubleSlash(s: string) {
    forall i | 0 <= i < |s| - 1 :: s[i] != '/' || s[i + 1] != '/'
  }

  predicate StartsWithSlash(s: string) {
    |s| > 0 && s[0] == '/'
  }

  predicate EndsWithSlash(s: string) {
    |s| > 0 && s[|s| - 1] == '/'
  }

  /** `preg_replace('#/+#', '/', s)`: every maximal run of '/' becomes a single '/'. */
  function CollapseSlashes(s: string): (r: string)
    ensures NoDoubleSlash(r)
    ensures |r| <= |s|
    ensures s != [] ==> r != [] && r[0] == s[0]
    ensures EndsWithSlash(r) <==> EndsWithSlash(s)
  {
    if |s| <= 1 then s
    else if s[0] == '/' && s[1] == '/' then CollapseSlashes(s[1..])
    else [s[0]] + CollapseSlashes(s[1..])
  }

  /** `ltrim(s, '/')`: the longest suffix of `s` that does not start with '/'. */
  function TrimLeft(s: string): (r: string)
    ensures |r| <= |s| && r == s[|s| - |r|..]
    ensures !StartsWithSlash(r)
    ensures forall i | 0 <= i < |s| - |r| :: s[i] == '/'
  {
    if s != [] && s[0] == '/' then TrimLeft(s[1..]) else s
  }

  /** `rtrim(s, '/')`: the longest prefix of `s` that does not end with '/'. */
  function TrimRight(s: string): (r: string)
    ensures |r| <= |s| && r == s[..|r|]
    ensures !EndsWithSlash(r)
    ensures forall i | |r| <= i < |s| :: s[i] == '/'
  {
    if s != [] && s[|s| - 1] == '/' then TrimRight(s[..|s| - 1]) else s
  }

  /** `cleanPathString`: `trim(preg_replace('#/+#', '/', path), '/')`. */
  function CleanPath(path: string): string {
    TrimRight(TrimLeft(CollapseSlashes(path)))
  }

  // ---------------------------------------------------------------------------
  // Reference definition: explode on '/', keep the non-empty pieces, implode.

  /** `explode('/', s)`: the pieces between slashes, empty pieces included. */
  function Split(s: string): (parts: seq<string>)
    ensures |parts| >= 1
  {
    if s == [] then [[]]
    else
      var rest := Split(s[1..]);
      if s[0] == '/' then [[]] + rest
      else [[s[0]] + rest[0]] + rest[1..]
  }

  /** `implode('/', parts)`. */
  function Join(parts: seq<string>): string {
    if |parts| == 0 then []
    else if |parts| == 1 then parts[0]
    else parts[0] + "/" + Join(parts[1..])
  }

  /** The pieces of `parts` that are not empty, in their order. */
  function NonEmpty(parts: seq<string>): (r: seq<string>)
    ensures |r| <= |parts|
  {
    if parts == [] then []
    else (if parts[0] == [] then [] else [parts[0]]) + NonEmpty(parts[1..])
  }

  /** The non-empty '/'-separated segments of a path, in order. */
  function Segments(s: string): seq<string> {
    NonEmpty(Split(s))
  }

  // ---------------------------------------------------------------------------
  // Facts about the reference definition.

  /** Imploding an explosion gives the original string back. */
  lemma {:induction false} JoinSplit(s: string)
    ensures Join(Split(s)) == s
  {
    if s != [] {
      JoinSplit(s[1..]);
      var rest := Split(s[1..]);
      if s[0] != '/' && |rest| > 1 {
        assert Join(rest) == rest[0] + "/" + Join(rest[1..]);
        assert ([[s[0]] + rest[0]] + rest[1..])[1..] == rest[1..];
      }
    }
  }

  /** One step of the explosion: a leading character either closes an empty first piece
      or opens the first piece. */
  lemma SplitCons(c: char, t: string)
    ensures Split([c] + t) == if c == '/' then [[]] + Split(t) else [[c] + Split(t)[0]] + Split(t)[1..]
  {
    assert ([c] + t)[1..] == t;
  }

  lemma ConcatAssoc<T>(x: seq<T>, y: seq<T>, z: seq<T>)
    ensures (x + y) + z == x + (y + z)
  {
  }

  lemma ConcatHeadTail<T>(x: seq<T>, y: seq<T>)
    requires x != []
    ensures (x + y)[0] == x[0] && (x + y)[1..] == x[1..] + y
  {
  }

  lemma ConcatUncons<T>(x: seq<T>, m: seq<T>, y: seq<T>)
    requires x != []
    ensures x + m + y == [x[0]] + (x[1..] + m + y)
  {
    assert x == [x[0]] + x[1..];
  }

  /** The inductive step of SplitConcat: one more character in front of `a`. */
  lemma SplitConcatStep(c: char, t: string, b: string)
    requires Split(t + "/" + b) == Split(t) + Split(b)
    ensures Split([c] + (t + "/" + b)) == Split([c] + t) + Split(b)
  {
    var st, sb := Split(t), Split(b);
    SplitCons(c, t + "/" + b);
    SplitCons(c, t);
    if c == '/' {
      ConcatAssoc([[]], st, sb);
    } else {
      ConcatHeadTail(st, sb);
      ConcatAssoc([[c] + st[0]], st[1..], sb);
    }
  }

  /** Exploding `a + "/" + b` explodes `a` and `b` separately. */
  lemma {:induction false} SplitConcat(a: string, b: string)
    ensures Split(a + "/" + b) == Split(a) + Split(b)
  {
    if a == [] {
      assert a + "/" + b == ['/'] + b;
      SplitCons('/', b);
    } else {
      SplitConcat(a[1..], b);
      SplitConcatStep(a[0], a[1..], b);
      assert [a[0]] + a[1..] == a;
      ConcatUncons(a, "/", b);
    }
  }

  lemma {:induction false} NonEmptyConcat(xs: seq<string>, ys: seq<string>)
    ensures NonEmpty(xs + ys) == NonEmpty(xs) + NonEmpty(ys)
  {
    if xs != [] {
      NonEmptyConcat(xs[1..], ys);
      assert (xs + ys)[1..] == xs[1..] + ys;
    } else {
      assert xs + ys == ys;
    }
  }

  /** The segments of `a + "/" + b` are those of `a` followed by those of `b`. */
  lemma SegmentsConcat(a: string, b: string)
    ensures Segments(a + "/" + b) == Segments(a) + Segments(b)
  {
    SplitConcat(a, b);
    NonEmptyConcat(Split(a), Split(b));
  }

  /** A string without '/' is one piece, and one segment unless empty. */
  lemma {:induction false} SplitSlashFree(s: string)
    requires '/' !in s
    ensures Split(s) == [s]
    ensures Segments(s) == if s == [] then [] else [s]
  {
    if s != [] {
      assert '/' !in s[1..] by {
        forall i | 0 <= i < |s[1..]| ensures s[1..][i] != '/' {
          assert s[1..][i] == s[i + 1];
        }
      }
      SplitSlashFree(s[1..]);
      assert [s[0]] + s[1..] == s;
    }
  }

  lemma {:induction false} NonEmptyOfNonEmpty(parts: seq<string>)
    requires forall i | 0 <= i < |parts| :: parts[i] != []
    ensures NonEmpty(parts) == parts
  {
    if parts != [] {
      NonEmptyOfNonEmpty(parts[1..]);
    }
  }

  /** Exploding a string that is free of "//" and of a trailing '/' gives no empty piece
      except, when the string starts with '/', the first one. */
  lemma {:induction false} PiecesNonEmpty(t: string)
    requires t != [] && NoDoubleSlash(t) && !EndsWithSlash(t)
    ensures forall i | 1 <= i < |Split(t)| :: Split(t)[i] != []
    ensures !StartsWithSlash(t) ==> Split(t)[0] != []
  {
    var u := t[1..];
    if u != [] {
      assert NoDoubleSlash(u) by {
        forall i | 0 <= i < |u| - 1 ensures u[i] != '/' || u[i + 1] != '/' {
          assert u[i] == t[i + 1] && u[i + 1] == t[i + 2];
        }
      }
      assert u[|u| - 1] == t[|t| - 1];
      PiecesNonEmpty(u);
      if t[0] == '/' {
        assert t[1] != '/';
      }
    }
  }

  /** A canonical path — no "//", no leading or trailing '/' — is the implosion of its segments. */
  lemma CanonicalIsJoinOfSegments(t: string)
    requires NoDoubleSlash(t) && !StartsWithSlash(t) && !EndsWithSlash(t)
    ensures Join(Segments(t)) == t
    ensures t != [] ==> Segments(t) == Split(t)
  {
    if t != [] {
      PiecesNonEmpty(t);
      NonEmptyOfNonEmpty(Split(t));
      JoinSplit(t);
    }
  }

  // ---------------------------------------------------------------------------
  // Facts about the three steps of CleanPath.

  lemma {:induction false} CollapseKeepsSegments(s: string)
    ensures Split(CollapseSlashes(s))[0] == Split(s)[0]
    ensures Segments(CollapseSlashes(s)) == Segments(s)
  {
    if |s| > 1 {
      var u := s[1..];
      CollapseKeepsSegments(u);
      if s[0] == '/' && s[1] == '/' {
        assert Split(s) == [[]] + Split(u);
        assert Split(u) == [[]] + Split(u[1..]);
      } else {
        var x := CollapseSlashes(u);
        assert ([s[0]] + x)[1..] == x;
        var sx, su := Split(x), Split(u);
        assert NonEmpty(sx) == (if sx[0] == [] then [] else [sx[0]]) + NonEmpty(sx[1..]);
        assert NonEmpty(su) == (if su[0] == [] then [] else [su[0]]) + NonEmpty(su[1..]);
        var p := if sx[0] == [] then [] else [sx[0]];
        assert NonEmpty(sx[1..]) == (p + NonEmpty(sx[1..]))[|p|..];
        assert NonEmpty(su[1..]) == (p + NonEmpty(su[1..]))[|p|..];
        if s[0] != '/' {
          assert ([[s[0]] + sx[0]] + sx[1..])[1..] == sx[1..];
          assert ([[s[0]] + su[0]] + su[1..])[1..] == su[1..];
        }
      }
    }
  }

  lemma {:induction false} TrimLeftKeepsSegments(s: string)
    ensures Segments(TrimLeft(s)) == Segments(s)
  {
    if s != [] && s[0] == '/' {
      TrimLeftKeepsSegments(s[1..]);
    }
  }

  lemma {:induction false} TrimRightKeepsSegments(s: string)
    ensures Segments(TrimRight(s)) == Segments(s)
  {
    if s != [] && s[|s| - 1] == '/' {
      var w := s[..|s| - 1];
      TrimRightKeepsSegments(w);
      assert w + "/" + "" == s;
      SegmentsConcat(w, "");
      assert Segments("") == [];
    }
  }

  lemma NoDoubleSlashSlice(s: string, i: nat, j: nat)
    requires i <= j <= |s| && NoDoubleSlash(s)
    ensures NoDoubleSlash(s[i..j])
  {
    var t := s[i..j];
    forall k | 0 <= k < |t| - 1 ensures t[k] != '/' || t[k + 1] != '/' {
      assert t[k] == s[i + k] && t[k + 1] == s[i + k + 1];
    }
  }

  // ---------------------------------------------------------------------------
  // Properties of CleanPath.

  /** The cleaned path contains no "//" and neither starts nor ends with '/'. */
  lemma CleanPathIsCanonical(path: string)
    ensures NoDoubleSlash(CleanPath(path))
    ensures !StartsWithSlash(CleanPath(path))
    ensures !EndsWithSlash(CleanPath(path))
  {
    var c := CollapseSlashes(path);
    var l := TrimLeft(c);
    NoDoubleSlashSlice(c, |c| - |l|, |c|);
    var r := TrimRight(l);
    NoDoubleSlashSlice(l, 0, |r|);
    if r != [] {
      assert r[0] == l[0];
    }
  }

  /** Cleaning keeps exactly the non-empty segments of the path, in order. */
  lemma CleanPathKeepsSegments(path: string)
    ensures Segments(CleanPath(path)) == Segments(path)
  {
    var c := CollapseSlashes(path);
    CollapseKeepsSegments(path);
    TrimLeftKeepsSegments(c);
    TrimRightKeepsSegments(TrimLeft(c));
  }

  /** The cleaned path is the non-empty segments glued with single slashes; exploding it
      gives back exactly those segments. */
  lemma CleanPathIsJoinOfSegments(path: string)
    ensures CleanPath(path) == Join(Segments(path))
    ensures CleanPath(path) == [] <==> Segments(path) == []
    ensures CleanPath(path) != [] ==> Split(CleanPath(path)) == Segments(path)
  {
    CleanPathIsCanonical(path);
    CleanPathKeepsSegments(path);
    CanonicalIsJoinOfSegments(CleanPath(path));
    if CleanPath(path) == [] {
      assert Segments([]) == [];
    }
  }

  /** Cleaning twice is cleaning once. */
  lemma CleanPathIdempotent(path: string)
    ensures CleanPath(CleanPath(path)) == CleanPath(path)
  {
    CleanPathIsJoinOfSegments(path);
    CleanPathIsJoinOfSegments(CleanPath(path));
    CleanPathKeepsSegments(path);
  }

  lemma JoinOfThree(a: string, b: string, c: string)
    ensures Join([a, b, c]) == a + "/" + b + "/" + c
  {
    assert [a, b, c][1..] == [b, c];
    assert [b, c][1..] == [c];
    assert Join([c]) == c;
    assert Join([b, c]) == b + "/" + c;
  }

  /** A leading '/' adds only an empty piece. */
  lemma SegmentsSlashPrefix(t: string)
    ensures Segments("/" + t) == Segments(t)
  {
    var e: string := [];
    assert "/" + t == e + "/" + t;
    SegmentsConcat(e, t);
    SplitSlashFree(e);
  }

  /** A trailing '/' adds only an empty piece. */
  lemma SegmentsSlashSuffix(t: string)
    ensures Segments(t + "/") == Segments(t)
  {
    var e: string := [];
    assert t + "/" == t + "/" + e;
    SegmentsConcat(t, e);
    SplitSlashFree(e);
  }

  lemma SegmentsOfExampleShape(a: string, b: string, c: string)
    requires a != [] && b != [] && c != []
    requires '/' !in a && '/' !in b && '/' !in c
    ensures Segments(a + "/" + ("/" + (b + "/" + ("/" + ("/" + (c + "/")))))) == [a, b, c]
  {
    SplitSlashFree(a);
    SplitSlashFree(b);
    SplitSlashFree(c);
    var t4 := "/" + (c + "/");
    SegmentsSlashSuffix(c);
    SegmentsSlashPrefix(c + "/");
    assert Segments(t4) == [c];
    var t3 := "/" + t4;
    SegmentsSlashPrefix(t4);
    var t2 := b + "/" + t3;
    SegmentsConcat(b, t3);
    assert Segments(t2) == [b, c];
    var t1 := "/" + t2;
    SegmentsSlashPrefix(t2);
    SegmentsConcat(a, t1);
    assert Segments(a + "/" + t1) == [a] + [b, c];
  }

  /** For any non-empty slash-free names a, b, c: "a//b///c/" is cleaned to "a/b/c". */
  lemma CleanPathExampleShape(a: string, b: string, c: string)
    requires a != [] && b != [] && c != []
    requires '/' !in a && '/' !in b && '/' !in c
    ensures CleanPath(a + "//" + b + "///" + c + "/") == a + "/" + b + "/" + c
  {
    var t := a + "/" + ("/" + (b + "/" + ("/" + ("/" + (c + "/")))));
    assert a + "//" + b + "///" + c + "/" == t;
    SegmentsOfExampleShape(a, b, c);
    CleanPathIsJoinOfSegments(t);
    JoinOfThree(a, b, c);
  }

  /** Example: "a//b///c/" is cleaned to "a/b/c". */
  lemma CleanPathExample()
    ensures CleanPath("a" + "//" + "b" + "///" + "c" + "/") == "a/b/c"
  {
    var a, b, c: string := "a", "b", "c";
    assert '/' !in a && '/' !in b && '/' !in c;
    CleanPathExampleShape(a, b, c);
  }
}
