/**
  String behaviour of the Java platform and Apache Commons Lang that the
  search-filter parser depends on: `Character.isWhitespace`, `StringUtils.isBlank`,
  `String.split(",")` and `String.join(",", ...)`.
*/
module JavaStrings {
  import opened JavaLang

  /**
    `Character.isWhitespace(char)`: the Unicode space, line and paragraph
    separators other than the no-break spaces U+00A0, U+2007 and U+202F,
    plus the controls U+0009..U+000D and U+001C..U+001F.
  */
  predicate IsWhitespace(c: char)
    ensures c == ',' ==> !IsWhitespace(c)
    ensures c == '\U{A0}' || c == '\U{2007}' || c == '\U{202F}' ==> !IsWhitespace(c)
    ensures c == ' ' || c == '\t' || c == '\n' || c == '\r' ==> IsWhitespace(c)
  {
    || c == ' '
    || ('\t' <= c <= '\r')
    || ('\U{1C}' <= c <= '\U{1F}')
    || c == '\U{1680}'
    || ('\U{2000}' <= c <= '\U{2006}')
    || ('\U{2008}' <= c <= '\U{200A}')
    || c == '\U{2028}'
    || c == '\U{2029}'
    || c == '\U{205F}'
    || c == '\U{3000}'
  }

  /** `StringUtils.isBlank`: null, empty, or made only of whitespace. */
  predicate IsBlank(cs: Option<string>)
    ensures cs.None? ==> IsBlank(cs)
    ensures cs == Some("") ==> IsBlank(cs)
    ensures IsBlank(cs) && cs.Some? ==> ',' !in cs.value
  {
    match cs
    case None => true
    case Some(s) => forall i :: 0 <= i < |s| ==> IsWhitespace(s[i])
  }

  /** `String.join(",", xs)`: the elements with one comma between neighbours. */
  function Join(xs: seq<string>): string
  {
    if |xs| == 0 then ""
    else if |xs| == 1 then xs[0]
    else xs[0] + "," + Join(xs[1..])
  }

  /**
    Every piece of `s` between commas, empty ones included: a string with k
    commas has k + 1 pieces, and the pieces of "" are [""].
  */
  function Pieces(s: string): (r: seq<string>)
    ensures |r| >= 1
    ensures forall i :: 0 <= i < |r| ==> ',' !in r[i]
  {
    if |s| == 0 then [""]
    else
      var rest := Pieces(s[1..]);
      if s[0] == ',' then [""] + rest
      else [[s[0]] + rest[0]] + rest[1..]
  }

  /** Joining the pieces with commas gives back the original string. */
  lemma {:induction false} JoinPieces(s: string)
    ensures Join(Pieces(s)) == s
  {
    if |s| > 0 {
      var rest := Pieces(s[1..]);
      JoinPieces(s[1..]);
      if s[0] == ',' {
        assert Pieces(s)[1..] == rest;
        assert s == [','] + s[1..];
      } else if |rest| == 1 {
        assert Pieces(s) == [[s[0]] + rest[0]];
        assert s == [s[0]] + s[1..];
      } else {
        var ps := Pieces(s);
        assert ps[0] == [s[0]] + rest[0] && ps[1..] == rest[1..];
        assert Join(rest) == rest[0] + "," + Join(rest[1..]);
        assert s == [s[0]] + s[1..];
      }
    }
  }

  /** The comma-separated pieces are the only comma-free list that joins to `s`. */
  lemma {:induction false} PiecesUnique(s: string, xs: seq<string>)
    requires |xs| >= 1
    requires forall i :: 0 <= i < |xs| ==> ',' !in xs[i]
    requires Join(xs) == s
    ensures xs == Pieces(s)
    decreases |xs|
  {
    if |xs| == 1 {
      PiecesOfCommaFree(xs[0]);
    } else {
      var tail := Join(xs[1..]);
      assert s == xs[0] + "," + tail;
      PiecesUnique(tail, xs[1..]);
      PiecesOfPrefixed(xs[0], tail);
      assert xs == [xs[0]] + xs[1..];
    }
  }

  /** A string without commas is its own single piece. */
  lemma {:induction false} PiecesOfCommaFree(s: string)
    requires ',' !in s
    ensures Pieces(s) == [s]
  {
    if |s| > 0 {
      assert ',' !in s[1..] by {
        forall i | 0 <= i < |s[1..]| ensures s[1..][i] != ',' { assert s[1..][i] == s[i + 1]; }
      }
      PiecesOfCommaFree(s[1..]);
      assert s == [s[0]] + s[1..];
    }
  }

  /** Putting a comma-free head and a comma in front of `t` adds the head as a new first piece. */
  lemma {:induction false} PiecesOfPrefixed(head: string, t: string)
    requires ',' !in head
    ensures Pieces(head + "," + t) == [head] + Pieces(t)
  {
    if |head| == 0 {
      assert head + "," + t == [','] + t;
      assert (head + "," + t)[1..] == t;
    } else {
      var tail := head[1..];
      assert ',' !in tail by {
        forall i | 0 <= i < |tail| ensures tail[i] != ',' { assert tail[i] == head[i + 1]; }
      }
      PiecesOfPrefixed(tail, t);
      assert (head + "," + t)[1..] == tail + "," + t;
      assert head == [head[0]] + tail;
    }
  }

  /** The last piece is empty exactly when `s` is empty or ends with a comma. */
  lemma {:induction false} LastPieceEmpty(s: string)
    ensures var ps := Pieces(s); ps[|ps| - 1] == "" <==> (|s| == 0 || s[|s| - 1] == ',')
  {
    if |s| > 0 {
      LastPieceEmpty(s[1..]);
      var rest := Pieces(s[1..]);
      if |rest| == 1 && s[0] != ',' {
        assert |s[1..]| == 0 || s[|s| - 1] == s[1..][|s[1..]| - 1];
      } else {
        assert |s[1..]| == 0 ==> s[0] == ',';
      }
    }
  }

  /**
    What `split` does with a regex match list when its limit is 0: it removes
    trailing empty strings, and keeps everything before the last non-empty one.
  */
  function DropTrailingEmpties(xs: seq<string>): (r: seq<string>)
    ensures |r| <= |xs| && r == xs[..|r|]
    ensures forall i :: |r| <= i < |xs| ==> xs[i] == ""
    ensures |r| > 0 ==> r[|r| - 1] != ""
  {
    if |xs| > 0 && xs[|xs| - 1] == "" then DropTrailingEmpties(xs[..|xs| - 1]) else xs
  }

  /**
    `s.split(",")` with Java's semantics: a string with no comma is returned
    whole as the only element (even ""); otherwise the pieces between commas,
    leading and interior empty pieces kept and trailing empty pieces dropped.
  */
  function Split(s: string): (r: seq<string>)
    ensures forall i :: 0 <= i < |r| ==> ',' !in r[i]
    ensures ',' !in s ==> r == [s]
    ensures ',' in s ==> |r| <= |Pieces(s)| && r == Pieces(s)[..|r|]
    ensures ',' in s ==> forall i :: |r| <= i < |Pieces(s)| ==> Pieces(s)[i] == ""
    ensures ',' in s ==> |r| == 0 || r[|r| - 1] != ""
  {
    if ',' !in s then [s] else DropTrailingEmpties(Pieces(s))
  }

  /** A string that does not end with a comma splits into exactly its comma-separated pieces. */
  lemma SplitNoTrailingComma(s: string)
    requires |s| > 0 && s[|s| - 1] != ','
    ensures Split(s) == Pieces(s)
  {
    if ',' !in s {
      PiecesOfCommaFree(s);
    } else {
      LastPieceEmpty(s);
    }
  }

  /** A non-empty string made only of commas splits into nothing (",,," gives []). */
  lemma {:induction false} SplitOnlyCommas(s: string)
    requires |s| > 0
    requires forall i :: 0 <= i < |s| ==> s[i] == ','
    ensures Split(s) == []
  {
    AllPiecesEmpty(s);
    assert s[0] == ',';
  }

  lemma {:induction false} AllPiecesEmpty(s: string)
    requires forall i :: 0 <= i < |s| ==> s[i] == ','
    ensures forall i :: 0 <= i < |Pieces(s)| ==> Pieces(s)[i] == ""
  {
    if |s| > 0 {
      AllPiecesEmpty(s[1..]);
    }
  }
}
