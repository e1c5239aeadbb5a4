/** The value-level rules behind accept-header negotiation in
    `RestOperationMeta`: how one accept token is reduced to its media type,
    and which supported type a client list selects. */
module AcceptNegotiation {
  import opened Wrappers
  import opened JavaStrings

  /** Separates the media ranges of an accept header. */
  const TypeSeparator: char := ','
  /** Separates a media range from its parameters (`q`, `charset`, ...). */
  const ParameterSeparator: char := ';'
  /** Marks the piece of a media range that is its `type/subtype`. */
  const Slash: char := '/'
  /** `MediaType.WILDCARD`. */
  const Wildcard: string := "*/*"

  /** The index of the first item that contains a slash, if any. */
  function FirstWithSlash(items: seq<string>): (r: Option<nat>)
    ensures r.Some? ==> r.value < |items| && Slash in items[r.value]
                        && forall j :: 0 <= j < r.value ==> Slash !in items[j]
    ensures r.None? <==> forall j :: 0 <= j < |items| ==> Slash !in items[j]
  {
    if items == [] then None
    else if Slash in items[0] then Some(0)
    else
      match FirstWithSlash(items[1..])
      case None => None
      case Some(i) => Some(i + 1)
  }

  /** What `splitAcceptTypes` leaves in place of one comma-separated token:
      the trimmed first `;`-piece containing a slash, or, when no piece
      contains one, the token itself, untrimmed. */
  function MediaTypeOf(token: string): string {
    var items := Split(token, ParameterSeparator);
    match FirstWithSlash(items)
    case Some(i) => Trim(items[i])
    case None => token
  }

  /** The first `;`-piece with a slash decides the media type ... */
  lemma MediaTypeFound(token: string, i: nat)
    requires i < |Split(token, ParameterSeparator)|
    requires Slash in Split(token, ParameterSeparator)[i]
    requires forall j :: 0 <= j < i ==> Slash !in Split(token, ParameterSeparator)[j]
    ensures MediaTypeOf(token) == Trim(Split(token, ParameterSeparator)[i])
  {
    var items := Split(token, ParameterSeparator);
    FirstWithSlashAt(items, i);
  }

  /** The first position holding a slash is the one `FirstWithSlash` finds. */
  lemma FirstWithSlashAt(items: seq<string>, i: nat)
    requires i < |items| && Slash in items[i]
    requires forall j :: 0 <= j < i ==> Slash !in items[j]
    ensures FirstWithSlash(items) == Some(i)
  {
  }

  /** ... and without such a piece the token stays as it is. */
  lemma MediaTypeNotFound(token: string)
    requires forall j :: 0 <= j < |Split(token, ParameterSeparator)| ==> Slash !in Split(token, ParameterSeparator)[j]
    ensures MediaTypeOf(token) == token
  {
  }

  /** The array `splitAcceptTypes(types)` returns, as a sequence. */
  function AcceptTypes(types: string): seq<string> {
    MapSeq(MediaTypeOf, Split(types, TypeSeparator))
  }

  /** `f` applied to each element, in order. */
  function MapSeq<A, B>(f: A -> B, s: seq<A>): (r: seq<B>)
    ensures |r| == |s|
  {
    if s == [] then [] else [f(s[0])] + MapSeq(f, s[1..])
  }

  /** Position `i` of the mapped sequence is `f` of element `i`. */
  lemma {:induction false} MapSeqAt<A, B>(f: A -> B, s: seq<A>, i: nat)
    requires i < |s|
    ensures MapSeq(f, s)[i] == f(s[i])
    decreases i
  {
    if i > 0 {
      MapSeqAt(f, s[1..], i - 1);
    }
  }

  /** The reduced list has one entry per comma-separated token of the
      header, entry `i` being token `i` reduced to its media type. */
  lemma AcceptTypesAt(types: string, i: nat)
    requires i < |Split(types, TypeSeparator)|
    ensures |AcceptTypes(types)| == |Split(types, TypeSeparator)|
    ensures AcceptTypes(types)[i] == MediaTypeOf(Split(types, TypeSeparator)[i])
  {
    MapSeqAt(MediaTypeOf, Split(types, TypeSeparator), i);
  }

  /** A token without a slash is kept as it is; a token with one becomes a
      trimmed `type/subtype` with its parameters dropped. */
  lemma MediaTypeOfShape(token: string)
    ensures Slash !in token ==> MediaTypeOf(token) == token
    ensures Slash in token ==>
      var m := MediaTypeOf(token);
      && Slash in m
      && ParameterSeparator !in m
      && !IsBlank(m[0]) && !IsBlank(m[|m| - 1])
  {
    var items := Split(token, ParameterSeparator);
    if Slash in token {
      SplitCovers(token, ParameterSeparator, Slash);
      var i :| 0 <= i < |items| && Slash in items[i];
      var k := FirstWithSlash(items).value;
      TrimKeeps(items[k], Slash);
      if ParameterSeparator in Trim(items[k]) {
        TrimOnlyRemoves(items[k], ParameterSeparator);
      }
    } else {
      forall j | 0 <= j < |items|
        ensures Slash !in items[j]
      {
        if Slash in items[j] {
          SplitKeepsOnly(token, ParameterSeparator, j, Slash);
        }
      }
    }
  }

  /** A token without parameters is its media range, trimmed. */
  lemma MediaTypeWhole(token: string)
    requires ParameterSeparator !in token && Slash in token
    ensures MediaTypeOf(token) == Trim(token)
  {
    FirstWithSlashAt([token], 0);
  }

  /** A media range followed by one parameter loses the parameter. */
  lemma MediaTypeFirstPiece(m: string, p: string)
    requires Slash in m && ParameterSeparator !in m
    requires ParameterSeparator !in p && p != []
    ensures MediaTypeOf(m + [ParameterSeparator] + p) == Trim(m)
  {
    SplitPair(m, p, ParameterSeparator);
    FirstWithSlashAt([m, p], 0);
  }

  /** A leading piece without a slash is skipped, whatever it holds. */
  lemma MediaTypeAfterParameter(p: string, m: string)
    requires Slash !in p && ParameterSeparator !in p
    requires Slash in m && ParameterSeparator !in m
    ensures MediaTypeOf(p + [ParameterSeparator] + m) == Trim(m)
  {
    SplitPair(p, m, ParameterSeparator);
    FirstWithSlashAt([p, m], 1);
  }

  /** `text/html` with a blank on each side loses both blanks. */
  lemma PaddingTrimmedExample()
    ensures Trim(" text/html ") == "text/html"
  {
    assert " text/html " == [' '] + "text/html" + [' '];
    TrimBlanks([' '], "text/html", [' ']);
  }

  /** `q=1; text/html ` reduces to `text/html`: the piece with the slash is
      chosen, not the first piece, and it is trimmed. */
  lemma MediaTypeExample()
    ensures MediaTypeOf("q=1; text/html ") == "text/html"
  {
    assert "q=1; text/html " == "q=1" + [ParameterSeparator] + " text/html ";
    MediaTypeAfterParameter("q=1", " text/html ");
    PaddingTrimmedExample();
  }

  /** A header of two comma-free tokens reduces token by token. */
  lemma AcceptTypesOfPair(a: string, b: string)
    requires TypeSeparator !in a && TypeSeparator !in b && b != []
    ensures AcceptTypes(a + [TypeSeparator] + b) == [MediaTypeOf(a), MediaTypeOf(b)]
  {
    SplitPair(a, b, TypeSeparator);
    assert MapSeq(MediaTypeOf, [a, b]) == [MediaTypeOf(a)] + MapSeq(MediaTypeOf, [b]);
  }

  /** A media range with no blank at its ends keeps exactly that range when
      one parameter follows it. */
  lemma MediaTypeBeforeParameter(m: string, p: string)
    requires Slash in m && ParameterSeparator !in m
    requires !IsBlank(m[0]) && !IsBlank(m[|m| - 1])
    requires ParameterSeparator !in p && p != []
    ensures MediaTypeOf(m + [ParameterSeparator] + p) == m
  {
    MediaTypeFirstPiece(m, p);
    TrimUnchanged(m);
  }

  /** A blank before a media range without parameters is dropped. */
  lemma MediaTypeAfterBlank(m: string)
    requires Slash in m && ParameterSeparator !in m
    requires !IsBlank(m[0]) && !IsBlank(m[|m| - 1])
    ensures MediaTypeOf([' '] + m) == m
  {
    MediaTypeWhole([' '] + m);
    assert TrimStart([' '] + m) == m by { assert ([' '] + m)[1..] == m; }
    TrimUnchanged(m);
  }

  /** `application/json;q=0.9` loses its quality parameter. */
  lemma ParameterDroppedExample()
    ensures MediaTypeOf("application/json;q=0.9") == "application/json"
  {
    assert "application/json;q=0.9" == "application/json" + [ParameterSeparator] + "q=0.9";
    MediaTypeBeforeParameter("application/json", "q=0.9");
  }

  /** ` text/plain` loses the blank left after the comma. */
  lemma BlankTrimmedExample()
    ensures MediaTypeOf(" text/plain") == "text/plain"
  {
    assert " text/plain" == [' '] + "text/plain";
    MediaTypeAfterBlank("text/plain");
  }

  /** `application/json;q=0.9, text/plain` reduces to its two media types. */
  lemma AcceptTypesExample()
    ensures AcceptTypes("application/json;q=0.9, text/plain") == ["application/json", "text/plain"]
  {
    assert "application/json;q=0.9, text/plain" == "application/json;q=0.9" + [TypeSeparator] + " text/plain";
    AcceptTypesOfPair("application/json;q=0.9", " text/plain");
    ParameterDroppedExample();
    BlankTrimmedExample();
  }

  /** A character of a piece of the split is a character of the string. */
  lemma SplitKeepsOnly(s: string, c: char, j: nat, ch: char)
    requires j < |Split(s, c)| && ch in Split(s, c)[j]
    ensures ch in s
  {
    if c in s {
      SplitRestores(s, c);
      PieceInJoin(Pieces(s, c), c, j, ch);
    }
  }

  /** Every character of a piece stands in the joined string. */
  lemma {:induction false} PieceInJoin(pieces: seq<string>, c: char, j: nat, ch: char)
    requires j < |pieces| && ch in pieces[j]
    ensures ch in Join(pieces, c)
    decreases j
  {
    if j > 0 {
      PieceInJoin(pieces[1..], c, j - 1, ch);
    }
  }

  /** `i` is the first position of `tokens` holding a key of `m`. */
  ghost predicate IsFirstSupported<V>(tokens: seq<string>, m: map<string, V>, i: int) {
    && 0 <= i < |tokens|
    && tokens[i] in m
    && forall j :: 0 <= j < i ==> tokens[j] !in m
  }

  /** The position of the first token that is a key of `m`, if any. */
  function FirstSupportedIndex<V>(tokens: seq<string>, m: map<string, V>): (r: Option<nat>)
    ensures r.None? <==> forall j :: 0 <= j < |tokens| ==> tokens[j] !in m
    ensures r.Some? ==> IsFirstSupported(tokens, m, r.value)
  {
    if tokens == [] then None
    else if tokens[0] in m then Some(0)
    else
      match FirstSupportedIndex(tokens[1..], m)
      case None => None
      case Some(i) => Some(i + 1)
  }

  /** The value of the first token, in client order, that is a key of `m`;
      `None` when no token is. */
  function FirstSupported<V>(tokens: seq<string>, m: map<string, V>): (r: Option<V>)
    ensures r.None? <==> forall j :: 0 <= j < |tokens| ==> tokens[j] !in m
    ensures r.Some? ==> exists i :: IsFirstSupported(tokens, m, i) && r.value == m[tokens[i]]
  {
    match FirstSupportedIndex(tokens, m)
    case None => None
    case Some(i) => Some(m[tokens[i]])
  }

  /** The first supported position determines the result. */
  lemma FirstSupportedAt<V>(tokens: seq<string>, m: map<string, V>, i: nat)
    requires IsFirstSupported(tokens, m, i)
    ensures FirstSupported(tokens, m) == Some(m[tokens[i]])
  {
  }
}
