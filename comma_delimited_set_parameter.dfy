/**
  The search filter that carries a comma-delimited set of values from a query
  string (payment states, refund states, card brands).
*/
module SearchCommon {
  import opened JavaLang
  import opened JavaStrings

  /** The raw query string as given (possibly null) and the list parsed from it. */
  datatype CommaDelimitedSetParameter = CommaDelimitedSetParameter(queryString: Option<string>, elements: seq<string>)
  {
    /**
      The constructor: a blank query string (null, empty or whitespace only)
      gives no elements; any other is split on commas.
    */
    static function Of(queryString: Option<string>): (p: CommaDelimitedSetParameter)
      ensures p.GetRawString() == queryString
      ensures IsBlank(queryString) ==> p.IsEmpty()
      ensures forall i :: 0 <= i < |p.GetParameters()| ==> ',' !in p.GetParameters()[i]
      ensures !IsBlank(queryString) && ',' !in queryString.value ==> p.GetParameters() == [queryString.value]
    {
      CommaDelimitedSetParameter(queryString, if IsBlank(queryString) then [] else Split(queryString.value))
    }

    predicate IsEmpty() {
      |elements| == 0
    }

    function GetRawString(): Option<string> {
      queryString
    }

    function GetParameters(): seq<string> {
      elements
    }
  }

  /** `isEmpty()` holds exactly when `getParameters()` has no element. */
  lemma IsEmptyIffNoParameters(q: Option<string>)
    ensures CommaDelimitedSetParameter.Of(q).IsEmpty() <==> |CommaDelimitedSetParameter.Of(q).GetParameters()| == 0
  {
  }

  /**
    Elements are neither trimmed nor de-duplicated: for a non-blank query string
    that does not end with a comma, joining the elements with commas gives it back.
  */
  lemma RoundTrip(q: Option<string>)
    requires !IsBlank(q)
    requires q.value[|q.value| - 1] != ','
    ensures Join(CommaDelimitedSetParameter.Of(q).GetParameters()) == q.value
  {
    SplitNoTrailingComma(q.value);
    JoinPieces(q.value);
  }

  /**
    For a non-blank query string the elements are Java's `split(",")`: the
    pieces between commas in order, with only the trailing empty ones dropped.
  */
  lemma NonBlankIsSplit(q: Option<string>)
    requires !IsBlank(q) && ',' in q.value
    ensures var ps, es := Pieces(q.value), CommaDelimitedSetParameter.Of(q).GetParameters();
      && |es| <= |ps| && es == ps[..|es|]
      && (forall i :: |es| <= i < |ps| ==> ps[i] == "")
      && (|es| == 0 || es[|es| - 1] != "")
      && Join(ps) == q.value
  {
    JoinPieces(q.value);
  }

  /** A query string of commas only is not blank, yet gives an empty parameter. */
  lemma OnlyCommasIsEmpty(q: Option<string>)
    requires q.Some? && |q.value| > 0
    requires forall i :: 0 <= i < |q.value| ==> q.value[i] == ','
    ensures !IsBlank(q)
    ensures CommaDelimitedSetParameter.Of(q).IsEmpty()
  {
    assert !IsWhitespace(q.value[0]);
    SplitOnlyCommas(q.value);
  }

  /** A trailing comma adds no empty element: "a,b," gives ["a", "b"]. */
  lemma TrailingEmptyDropped()
    ensures CommaDelimitedSetParameter.Of(Some("a,b,")).GetParameters() == ["a", "b"]
  {
    PiecesUnique("a,b,", ["a", "b", ""]);
  }

  /** Interior empty elements are kept: "a,,b" gives ["a", "", "b"]. */
  lemma InteriorEmptyKept()
    ensures CommaDelimitedSetParameter.Of(Some("a,,b")).GetParameters() == ["a", "", "b"]
  {
    PiecesUnique("a,,b", ["a", "", "b"]);
    SplitNoTrailingComma("a,,b");
  }

  /** A leading empty element is kept: ",a" gives ["", "a"]. */
  lemma LeadingEmptyKept()
    ensures CommaDelimitedSetParameter.Of(Some(",a")).GetParameters() == ["", "a"]
  {
    PiecesUnique(",a", ["", "a"]);
    SplitNoTrailingComma(",a");
  }

  /** Elements are not trimmed: " a , b" gives [" a ", " b"]. */
  lemma NotTrimmed()
    ensures CommaDelimitedSetParameter.Of(Some(" a , b")).GetParameters() == [" a ", " b"]
  {
    PiecesUnique(" a , b", [" a ", " b"]);
    SplitNoTrailingComma(" a , b");
  }

  /** A single value is the only element: "created" gives ["created"]. */
  lemma SingleValue()
    ensures CommaDelimitedSetParameter.Of(Some("created")).GetParameters() == ["created"]
  {
    assert !IsWhitespace("created"[0]);
  }

  /** Commas only give nothing: ",,," gives []. */
  lemma CommasOnlyExample()
    ensures CommaDelimitedSetParameter.Of(Some(",,,")).GetParameters() == []
  {
    OnlyCommasIsEmpty(Some(",,,"));
  }

  /** A whitespace-only string and null give empty parameters; null reads back as null. */
  lemma BlankAndNull()
    ensures CommaDelimitedSetParameter.Of(Some(" \t")).IsEmpty()
    ensures CommaDelimitedSetParameter.Of(None).IsEmpty()
    ensures CommaDelimitedSetParameter.Of(None).GetRawString() == None
  {
  }
}
