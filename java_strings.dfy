/** The two `java.lang.String` operations the REST metadata relies on:
    `split` with a one-character separator that is not a regular-expression
    metacharacter (`","` and `";"`), and `trim`. */
module JavaStrings {

  /** All pieces of `s` between occurrences of `c`, empty pieces included:
      what `split` computes before it drops trailing empty pieces. */
  function Pieces(s: string, c: char): (r: seq<string>)
    ensures |r| >= 1
    ensures forall i :: 0 <= i < |r| ==> c !in r[i]
  {
    if s == [] then [""]
    else
      var rest := Pieces(s[1..], c);
      if s[0] == c then [""] + rest
      else [[s[0]] + rest[0]] + rest[1..]
  }

  /** The pieces glued back together with `c` between neighbours. */
  function Join(pieces: seq<string>, c: char): string
    requires |pieces| >= 1
  {
    if |pieces| == 1 then pieces[0]
    else pieces[0] + [c] + Join(pieces[1..], c)
  }

  /** Gluing the pieces of `s` back together gives `s`. */
  lemma {:induction false} JoinPieces(s: string, c: char)
    ensures Join(Pieces(s, c), c) == s
  {
    if s != [] {
      var rest := Pieces(s[1..], c);
      JoinPieces(s[1..], c);
      if s[0] == c {
        assert Pieces(s, c)[1..] == rest;
      } else {
        var p := Pieces(s, c);
        if |rest| == 1 {
          assert p == [[s[0]] + rest[0]];
        } else {
          assert p[1..] == rest[1..];
          assert Join(rest, c) == rest[0] + [c] + Join(rest[1..], c);
        }
      }
    }
  }

  /** `pieces` with its trailing empty strings removed. */
  function DropTrailingEmpty(pieces: seq<string>): (r: seq<string>)
    ensures |r| <= |pieces| && r == pieces[..|r|]
    ensures r != [] ==> r[|r| - 1] != ""
    ensures forall i :: |r| <= i < |pieces| ==> pieces[i] == ""
  {
    if pieces == [] || pieces[|pieces| - 1] != "" then pieces
    else DropTrailingEmpty(pieces[..|pieces| - 1])
  }

  /** Java's `s.split(c)` for a separator without regular-expression meaning:
      `[s]` when `c` does not occur (so `""` splits to `[""]`), otherwise the
      pieces between separators with trailing empty pieces dropped (so `","`
      splits to `[]`). */
  function Split(s: string, c: char): (r: seq<string>)
    ensures forall i :: 0 <= i < |r| ==> c !in r[i]
    ensures c !in s ==> r == [s]
    ensures c in s ==> r == [] || r[|r| - 1] != ""
  {
    if c !in s then [s] else DropTrailingEmpty(Pieces(s, c))
  }

  /** When `c` occurs in `s`, the split is a prefix of the pieces of `s`, the
      pieces after it are empty, and the pieces glued with `c` give back `s`. */
  lemma SplitRestores(s: string, c: char)
    requires c in s
    ensures var r, p := Split(s, c), Pieces(s, c);
      && |r| <= |p| && p[..|r|] == r
      && (forall i :: |r| <= i < |p| ==> p[i] == "")
      && Join(p, c) == s
  {
    JoinPieces(s, c);
  }

  /** A character other than `c` of a joined string stands in one of the pieces. */
  lemma {:induction false} InJoin(pieces: seq<string>, c: char, ch: char)
    requires |pieces| >= 1 && ch != c && ch in Join(pieces, c)
    ensures exists i :: 0 <= i < |pieces| && ch in pieces[i]
    decreases |pieces|
  {
    if |pieces| > 1 && ch !in pieces[0] {
      InJoin(pieces[1..], c, ch);
      var i :| 0 <= i < |pieces[1..]| && ch in pieces[1..][i];
      assert ch in pieces[i + 1];
    }
  }

  /** Splitting loses no character other than the separator. */
  lemma SplitCovers(s: string, c: char, ch: char)
    requires ch != c && ch in s
    ensures exists i :: 0 <= i < |Split(s, c)| && ch in Split(s, c)[i]
  {
    if c in s {
      var r, p := Split(s, c), Pieces(s, c);
      SplitRestores(s, c);
      InJoin(p, c, ch);
      var i :| 0 <= i < |p| && ch in p[i];
      assert i < |r| && r[i] == p[i];
    } else {
      assert ch in Split(s, c)[0];
    }
  }

  /** A character `String.trim` removes: every code point up to and including the space. */
  predicate IsBlank(ch: char) {
    ch <= ' '
  }

  function TrimStart(s: string): (r: string)
    ensures |r| <= |s| && r == s[|s| - |r|..]
    ensures forall k :: 0 <= k < |s| - |r| ==> IsBlank(s[k])
    ensures r != [] ==> !IsBlank(r[0])
  {
    if s != [] && IsBlank(s[0]) then TrimStart(s[1..]) else s
  }

  function TrimEnd(s: string): (r: string)
    ensures |r| <= |s| && r == s[..|r|]
    ensures forall k :: |r| <= k < |s| ==> IsBlank(s[k])
    ensures r != [] ==> !IsBlank(r[|r| - 1])
  {
    if s != [] && IsBlank(s[|s| - 1]) then TrimEnd(s[..|s| - 1]) else s
  }

  /** `r` stands in `s` at offset `i`, and everything around it is blank. */
  ghost predicate BlankAround(s: string, r: string, i: int) {
    && 0 <= i <= |s| - |r| && s[i..i + |r|] == r
    && (forall k :: 0 <= k < i ==> IsBlank(s[k]))
    && (forall k :: i + |r| <= k < |s| ==> IsBlank(s[k]))
  }

  /** Java's `s.trim()`: `s` without its leading and trailing blanks. */
  function Trim(s: string): (r: string)
    ensures |r| <= |s|
    ensures r != [] ==> !IsBlank(r[0]) && !IsBlank(r[|r| - 1])
    ensures exists i :: BlankAround(s, r, i)
  {
    var t := TrimStart(s);
    var r := TrimEnd(t);
    var i := |s| - |t|;
    assert BlankAround(s, r, i);
    r
  }

  /** A character that is not blank survives trimming. */
  lemma TrimKeeps(s: string, ch: char)
    requires ch in s && !IsBlank(ch)
    ensures ch in Trim(s)
  {
    var r := Trim(s);
    var i :| BlankAround(s, r, i);
    var j :| 0 <= j < |s| && s[j] == ch;
    assert r[j - i] == ch;
  }

  /** Trimming adds no character. */
  lemma TrimOnlyRemoves(s: string, ch: char)
    requires ch in Trim(s)
    ensures ch in s
  {
    var r := Trim(s);
    var i :| BlankAround(s, r, i);
    var j :| 0 <= j < |r| && r[j] == ch;
    assert s[i + j] == ch;
  }

  /** A string with no blank at either end is its own trim. */
  lemma TrimUnchanged(s: string)
    requires s != [] && !IsBlank(s[0]) && !IsBlank(s[|s| - 1])
    ensures Trim(s) == s
  {
    assert TrimStart(s) == s;
    assert TrimEnd(s) == s;
  }

  /** Blanks before a string that starts with a non-blank are all removed. */
  lemma {:induction false} TrimStartBlanks(l: string, t: string)
    requires forall k :: 0 <= k < |l| ==> IsBlank(l[k])
    requires t != [] && !IsBlank(t[0])
    ensures TrimStart(l + t) == t
  {
    if l != [] {
      assert (l + t)[1..] == l[1..] + t;
      TrimStartBlanks(l[1..], t);
    } else {
      assert l + t == t;
    }
  }

  /** Blanks after a string that ends with a non-blank are all removed. */
  lemma {:induction false} TrimEndBlanks(t: string, r: string)
    requires forall k :: 0 <= k < |r| ==> IsBlank(r[k])
    requires t != [] && !IsBlank(t[|t| - 1])
    ensures TrimEnd(t + r) == t
  {
    if r != [] {
      assert (t + r)[..|t + r| - 1] == t + r[..|r| - 1];
      TrimEndBlanks(t, r[..|r| - 1]);
    } else {
      assert t + r == t;
    }
  }

  /** Trimming a string padded with blanks on both sides gives the string,
      when it has no blank at either end. */
  lemma TrimBlanks(l: string, m: string, r: string)
    requires forall k :: 0 <= k < |l| ==> IsBlank(l[k])
    requires forall k :: 0 <= k < |r| ==> IsBlank(r[k])
    requires m != [] && !IsBlank(m[0]) && !IsBlank(m[|m| - 1])
    ensures Trim(l + m + r) == m
  {
    assert l + m + r == l + (m + r);
    TrimStartBlanks(l, m + r);
    TrimEndBlanks(m, r);
  }

  /** A string without the separator is a single piece. */
  lemma {:induction false} PiecesWithout(s: string, c: char)
    requires c !in s
    ensures Pieces(s, c) == [s]
  {
    if s != [] {
      PiecesWithout(s[1..], c);
      assert [s[0]] + s[1..] == s;
    }
  }

  /** A separator-free prefix followed by the separator is the first piece. */
  lemma {:induction false} PiecesCons(a: string, c: char, rest: string)
    requires c !in a
    ensures Pieces(a + [c] + rest, c) == [a] + Pieces(rest, c)
  {
    if a == [] {
      assert a + [c] + rest == [c] + rest;
      assert ([c] + rest)[1..] == rest;
    } else {
      var s := a + [c] + rest;
      PiecesCons(a[1..], c, rest);
      assert s[1..] == a[1..] + [c] + rest;
      assert [a[0]] + a[1..] == a;
    }
  }

  /** Splitting two non-empty separator-free strings joined by the separator
      gives back the two. */
  lemma SplitPair(a: string, b: string, c: char)
    requires c !in a && c !in b && b != []
    ensures Split(a + [c] + b, c) == [a, b]
  {
    assert c in a + [c] + b by {
      assert (a + [c] + b)[|a|] == c;
    }
    PiecesCons(a, c, b);
    PiecesWithout(b, c);
  }
}
