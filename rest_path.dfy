/** Composing an operation's absolute path from the service base path and the
    operation path (`RestOperationMeta.concatPath`). */
module RestPath {
  import opened Wrappers

  const Separator: char := '/'

  /** A Java `null` path counts as the empty path. */
  function NonNullify(path: Option<string>): string {
    match path
    case None => ""
    case Some(p) => p
  }

  /** Positions `i` and `i + 1` both hold a separator. */
  predicate DoubleSeparatorAt(s: string, i: nat)
    requires i + 1 < |s|
  {
    s[i] == Separator && s[i + 1] == Separator
  }

  /** No two separators stand next to each other. */
  predicate NoDoubleSeparator(s: string) {
    forall i: nat :: i + 1 < |s| ==> !DoubleSeparatorAt(s, i)
  }

  /** A suffix of a string without doubled separators has none either. */
  lemma NoDoubleSuffix(s: string, n: nat)
    requires n <= |s| && NoDoubleSeparator(s)
    ensures NoDoubleSeparator(s[n..])
  {
    forall i: nat | i + 1 < |s[n..]|
      ensures !DoubleSeparatorAt(s[n..], i)
    {
      assert !DoubleSeparatorAt(s, n + i);
    }
  }

  /** Putting a character before a string without doubled separators keeps
      it so, unless a separator meets a separator. */
  lemma NoDoubleCons(c: char, t: string)
    requires NoDoubleSeparator(t)
    requires c == Separator && t != [] ==> t[0] != Separator
    ensures NoDoubleSeparator([c] + t)
  {
    var s := [c] + t;
    forall i: nat | i + 1 < |s|
      ensures !DoubleSeparatorAt(s, i)
    {
      if i > 0 {
        assert !DoubleSeparatorAt(t, i - 1);
      }
    }
  }

  /** The shape `concatPath` promises: rooted, separator-terminated, no empty segment. */
  predicate IsNormalPath(s: string) {
    && |s| >= 1
    && s[0] == Separator
    && s[|s| - 1] == Separator
    && NoDoubleSeparator(s)
  }

  /** The number of separators at the start of `s`. */
  function LeadingSeparators(s: string): (n: nat)
    ensures n <= |s|
    ensures forall i :: 0 <= i < n ==> s[i] == Separator
    ensures n < |s| ==> s[n] != Separator
  {
    if s != [] && s[0] == Separator then 1 + LeadingSeparators(s[1..]) else 0
  }

  /** The length of the separator-free prefix of `s`. */
  function WordLength(s: string): (k: nat)
    ensures k <= |s|
    ensures forall i :: 0 <= i < k ==> s[i] != Separator
    ensures k < |s| ==> s[k] == Separator
  {
    if s != [] && s[0] != Separator then 1 + WordLength(s[1..]) else 0
  }

  /** `s.replaceAll("/{2,}", "/")`: scanning from the left, every maximal run
      of two or more separators becomes a single separator; a lone separator
      matches nothing and stays, which is again a single separator. */
  function CollapseSeparators(s: string): string
    decreases |s|
  {
    if s == [] then []
    else if s[0] != Separator then [s[0]] + CollapseSeparators(s[1..])
    else [Separator] + CollapseSeparators(s[LeadingSeparators(s)..])
  }

  /** The non-empty separator-free words of `s`, in order: the path's segments. */
  function Segments(s: string): (r: seq<string>)
    ensures forall i :: 0 <= i < |r| ==> r[i] != [] && Separator !in r[i]
    decreases |s|
  {
    if s == [] then []
    else if s[0] == Separator then Segments(s[1..])
    else
      var k := WordLength(s);
      [s[..k]] + Segments(s[k..])
  }

  /** `"/" + base + "/" + op + "/"`, before collapsing. */
  function RawPath(basePath: Option<string>, operationPath: Option<string>): string {
    [Separator] + NonNullify(basePath) + [Separator] + NonNullify(operationPath) + [Separator]
  }

  /** `concatPath(basePath, operationPath)`: the raw path with separator runs
      collapsed. The result is a normal path. */
  function ConcatPath(basePath: Option<string>, operationPath: Option<string>): (r: string)
    ensures IsNormalPath(r)
  {
    var s := RawPath(basePath, operationPath);
    CollapseProperties(s);
    CollapseSeparators(s)
  }

  /** The segments of the composed path are the base path's followed by
      the operation path's. */
  lemma ConcatPathSegments(basePath: Option<string>, operationPath: Option<string>)
    ensures Segments(ConcatPath(basePath, operationPath))
            == Segments(NonNullify(basePath)) + Segments(NonNullify(operationPath))
  {
    var b, o := NonNullify(basePath), NonNullify(operationPath);
    var s := RawPath(basePath, operationPath);
    CollapseSegments(s);
    calc {
      Segments(s);
      { assert s == [] + [Separator] + (b + [Separator] + (o + [Separator] + [])); }
      Segments([] + [Separator] + (b + [Separator] + (o + [Separator] + [])));
      { SegmentsConcat([], b + [Separator] + (o + [Separator] + [])); }
      Segments([]) + Segments(b + [Separator] + (o + [Separator] + []));
      { SegmentsConcat(b, o + [Separator] + []); }
      Segments(b) + Segments(o + [Separator] + []);
      { SegmentsConcat(o, []); }
      Segments(b) + (Segments(o) + Segments([]));
    }
  }

  /** A null base or operation path composes exactly like the empty path. */
  lemma NullPathIsEmpty(basePath: Option<string>, operationPath: Option<string>)
    ensures ConcatPath(None, operationPath) == ConcatPath(Some(""), operationPath)
    ensures ConcatPath(basePath, None) == ConcatPath(basePath, Some(""))
  {
  }

  /** A normal path is determined by its segments, so `ConcatPath`'s
      postcondition and `ConcatPathSegments` fix its result completely. */
  lemma {:induction false} NormalPathBySegments(p: string, q: string)
    requires IsNormalPath(p) && IsNormalPath(q)
    requires Segments(p) == Segments(q)
    ensures p == q
    decreases |p|
  {
    var kp := NormalPathSegments(p);
    var kq := NormalPathSegments(q);
    if |p| > 1 && |q| > 1 {
      var wp, wq := p[1..1 + kp], q[1..1 + kq];
      var tp, tq := p[1 + kp..], q[1 + kq..];
      ConsInjective(wp, Segments(tp), wq, Segments(tq));
      NormalPathBySegments(tp, tq);
    }
  }

  lemma ConsInjective<T>(a: T, s: seq<T>, b: T, t: seq<T>)
    requires [a] + s == [b] + t
    ensures a == b && s == t
  {
    assert a == ([a] + s)[0];
    assert s == ([a] + s)[1..];
  }

  /** A normal path is `"/"` (no segments) or a first segment followed by a
      shorter normal path. */
  lemma NormalPathSegments(p: string) returns (k: nat)
    requires IsNormalPath(p)
    ensures |p| == 1 <==> Segments(p) == []
    ensures |p| > 1 ==> 1 <= k && 1 + k < |p| && IsNormalPath(p[1 + k..])
                        && Segments(p) == [p[1..1 + k]] + Segments(p[1 + k..])
                        && p == [Separator] + p[1..1 + k] + p[1 + k..]
  {
    if |p| == 1 {
      k := 0;
      assert Segments(p) == Segments(p[1..]);
    } else {
      var t := p[1..];
      assert !DoubleSeparatorAt(p, 0);
      NoDoubleSuffix(p, 1);
      k := WordLength(t);
      assert Segments(p) == Segments(t) == [t[..k]] + Segments(t[k..]);
      assert t[..k] == p[1..1 + k];
      assert t[k..] == p[1 + k..];
      NoDoubleSuffix(p, 1 + k);
    }
  }

  /** Facts of `CollapseSeparators` that `ConcatPath` needs. */
  lemma CollapseProperties(s: string)
    requires |s| >= 1 && s[0] == Separator && s[|s| - 1] == Separator
    ensures IsNormalPath(CollapseSeparators(s))
    ensures Segments(CollapseSeparators(s)) == Segments(s)
  {
    CollapseKeepsLast(s);
    CollapseNoDouble(s);
    CollapseSegments(s);
  }

  lemma {:induction false} CollapseNoDouble(s: string)
    ensures NoDoubleSeparator(CollapseSeparators(s))
    ensures s != [] ==> CollapseSeparators(s) != [] && CollapseSeparators(s)[0] == s[0]
    decreases |s|
  {
    if s != [] {
      var t := if s[0] != Separator then s[1..] else s[LeadingSeparators(s)..];
      CollapseNoDouble(t);
      NoDoubleCons(s[0], CollapseSeparators(t));
    }
  }

  lemma {:induction false} CollapseKeepsLast(s: string)
    requires s != [] && s[|s| - 1] == Separator
    ensures CollapseSeparators(s) != []
    ensures CollapseSeparators(s)[|CollapseSeparators(s)| - 1] == Separator
    decreases |s|
  {
    if s[0] != Separator {
      CollapseKeepsLast(s[1..]);
    } else {
      var n := LeadingSeparators(s);
      if n < |s| {
        CollapseKeepsLast(s[n..]);
      }
    }
  }

  /** Collapsing leaves a separator-free prefix in place. */
  lemma {:induction false} CollapseAfterWord(w: string, v: string)
    requires Separator !in w
    ensures CollapseSeparators(w + v) == w + CollapseSeparators(v)
    decreases |w|
  {
    if w != [] {
      var s := w + v;
      assert s[0] == w[0] != Separator;
      assert s[1..] == w[1..] + v;
      CollapseAfterWord(w[1..], v);
      assert CollapseSeparators(s) == [w[0]] + (w[1..] + CollapseSeparators(v));
      assert [w[0]] + w[1..] == w;
    } else {
      assert w + v == v;
    }
  }

  /** Skipping separators at the start changes no segment. */
  lemma {:induction false} SegmentsSkip(s: string, n: nat)
    requires n <= |s| && forall i :: 0 <= i < n ==> s[i] == Separator
    ensures Segments(s) == Segments(s[n..])
    decreases n
  {
    if n > 0 {
      SegmentsSkip(s[1..], n - 1);
      assert s[1..][n - 1..] == s[n..];
    }
  }

  /** The three facts in the postcondition of `WordLength` determine it. */
  lemma {:induction false} WordLengthIs(s: string, n: nat)
    requires n <= |s| && forall i :: 0 <= i < n ==> s[i] != Separator
    requires n < |s| ==> s[n] == Separator
    ensures WordLength(s) == n
  {
    if n > 0 {
      WordLengthIs(s[1..], n - 1);
    }
  }

  /** A word followed by nothing or by a separator is the first segment. */
  lemma SegmentsAfterWord(w: string, u: string)
    requires w != [] && Separator !in w
    requires u == [] || u[0] == Separator
    ensures Segments(w + u) == [w] + Segments(u)
  {
    var s := w + u;
    WordLengthIs(s, |w|);
    var k := WordLength(s);
    assert s[..k] == w;
    assert s[k..] == u;
  }

  lemma {:induction false} CollapseSegments(s: string)
    ensures Segments(CollapseSeparators(s)) == Segments(s)
    decreases |s|
  {
    if s == [] {
    } else if s[0] == Separator {
      var n := LeadingSeparators(s);
      CollapseSegments(s[n..]);
      SegmentsSkip(s, n);
      var c := CollapseSeparators(s);
      assert c == [Separator] + CollapseSeparators(s[n..]);
      assert c[1..] == CollapseSeparators(s[n..]);
    } else {
      var k := WordLength(s);
      var w, v := s[..k], s[k..];
      assert s == w + v;
      CollapseAfterWord(w, v);
      CollapseSegments(v);
      CollapseNoDouble(v);
      SegmentsAfterWord(w, v);
      SegmentsAfterWord(w, CollapseSeparators(v));
    }
  }

  /** Joining two paths with a separator concatenates their segments. */
  lemma {:induction false} SegmentsConcat(x: string, y: string)
    ensures Segments(x + [Separator] + y) == Segments(x) + Segments(y)
    decreases |x|
  {
    var s := x + [Separator] + y;
    if x == [] {
      assert s[1..] == y;
    } else if x[0] == Separator {
      assert s[1..] == x[1..] + [Separator] + y;
      SegmentsConcat(x[1..], y);
    } else {
      var k := WordLength(x);
      var w, v := x[..k], x[k..];
      assert x == w + v;
      assert s == w + (v + [Separator] + y);
      SegmentsAfterWord(w, v + [Separator] + y);
      SegmentsAfterWord(w, v);
      SegmentsConcat(v, y);
    }
  }

  /** Base path `"/a/"` and operation path `"/b"` give `"/a/b/"`. */
  lemma ConcatPathExample()
    ensures ConcatPath(Some("/a/"), Some("/b")) == "/a/b/"
  {
    TwoSegments('a', 'b');
  }

  /** The example above with any two one-character segments. */
  lemma TwoSegments(a: char, b: char)
    requires a != Separator && b != Separator
    ensures ConcatPath(Some([Separator, a, Separator]), Some([Separator, b]))
            == [Separator, a, Separator, b, Separator]
  {
    var r := ConcatPath(Some([Separator, a, Separator]), Some([Separator, b]));
    var p := [Separator, a, Separator, b, Separator];
    ConcatPathSegments(Some([Separator, a, Separator]), Some([Separator, b]));
    SegmentsAfterWord([a], [Separator]);
    SegmentsAfterWord([b], []);
    SegmentsAfterWord([b], [Separator]);
    SegmentsAfterWord([a], [Separator, b, Separator]);
    assert Segments([Separator]) == [] by {
      assert [Separator][1..] == [];
    }
    assert Segments([Separator, a, Separator]) == [[a]] by {
      assert [Separator, a, Separator][1..] == [a] + [Separator];
    }
    assert Segments([Separator, b]) == [[b]] by {
      assert [Separator, b][1..] == [b] + [];
    }
    assert Segments(p) == [[a], [b]] by {
      assert p[1..] == [a] + [Separator, b, Separator];
      assert Segments([Separator, b, Separator]) == [[b]] by {
        assert [Separator, b, Separator][1..] == [b] + [Separator];
      }
    }
    NormalPathBySegments(r, p);
  }
}
