/**
  One navigation link (first, prev, next, last) of a paginated search response.
*/
module SearchModel {
  import opened JavaLang

  const LINK_PREFIX: string := "Link{href='"
  const LINK_SUFFIX: string := "'}"

  datatype PaginationLink = PaginationLink(href: Option<string>)
  {
    /** `ofValue(href)`: a link holding `href`, which may be null. */
    static function OfValue(href: Option<string>): (l: PaginationLink)
      ensures l.GetHref() == href
    {
      PaginationLink(href)
    }

    /** The public no-argument constructor: the href is left null. */
    static function Empty(): (l: PaginationLink)
      ensures l.GetHref().None?
    {
      PaginationLink(None)
    }

    function GetHref(): Option<string> {
      href
    }

    /** `toString()`: `Link{href='…'}`, where a null href prints as the text `null`. */
    function ToString(): (s: string)
      ensures |s| == |LINK_PREFIX| + |NullableText(href)| + |LINK_SUFFIX|
      ensures s[..|LINK_PREFIX|] == LINK_PREFIX
      ensures s[|s| - |LINK_SUFFIX|..] == LINK_SUFFIX
      ensures s[|LINK_PREFIX|..|s| - |LINK_SUFFIX|] == NullableText(href)
    {
      LINK_PREFIX + NullableText(href) + LINK_SUFFIX
    }

    /** `equals(o)`: false for null, otherwise `Objects.equals` on the hrefs. */
    predicate Equals(o: Option<PaginationLink>)
      ensures Equals(o) <==> o.Some? && o.value.GetHref() == GetHref()
    {
      o.Some? && href == o.value.href
    }

    /** `Objects.hash(href)`: 31 + the href's hash in `int` arithmetic, so 31 for a null href. */
    function HashCode(): (h: int32)
      ensures h == Wrap(31 + NullableStringHash(href) as int)
      ensures href.None? ==> h == 31
    {
      ObjectsHash1(NullableStringHash(href) as int);
      Fold31(1, [NullableStringHash(href) as int])
    }
  }

  /** Reads the href text back out of a `toString()` rendering. */
  function HrefText(s: string): (t: string)
    requires |s| >= |LINK_PREFIX| + |LINK_SUFFIX|
    ensures |t| == |s| - |LINK_PREFIX| - |LINK_SUFFIX|
  {
    s[|LINK_PREFIX|..|s| - |LINK_SUFFIX|]
  }

  /** `ofValue(h).getHref() == h`, for any h including null. */
  lemma OfValueGetHref(h: Option<string>)
    ensures PaginationLink.OfValue(h).GetHref() == h
  {
  }

  /** The href text can be recovered from `toString()`. */
  lemma ToStringRoundTrip(l: PaginationLink)
    ensures HrefText(l.ToString()) == NullableText(l.GetHref())
  {
  }

  /** Two links with non-null hrefs print the same exactly when they are equal. */
  lemma ToStringInjective(l: PaginationLink, m: PaginationLink)
    requires l.GetHref().Some? && m.GetHref().Some?
    ensures l.ToString() == m.ToString() <==> l.Equals(Some(m))
  {
    if l.ToString() == m.ToString() {
      ToStringRoundTrip(l);
      ToStringRoundTrip(m);
    }
  }

  /** A null href and the href "null" print the same, although the links are not equal. */
  lemma NullHrefPrintsLikeTextNull()
    ensures PaginationLink.Empty().ToString() == PaginationLink.OfValue(Some("null")).ToString() == "Link{href='null'}"
    ensures !PaginationLink.Empty().Equals(Some(PaginationLink.OfValue(Some("null"))))
  {
  }

  lemma EqualsReflexive(l: PaginationLink)
    ensures l.Equals(Some(l))
  {
  }

  lemma EqualsSymmetric(l: PaginationLink, m: PaginationLink)
    ensures l.Equals(Some(m)) <==> m.Equals(Some(l))
  {
  }

  /** Equal links have equal hash codes. */
  lemma EqualsImpliesSameHash(l: PaginationLink, m: PaginationLink)
    requires l.Equals(Some(m))
    ensures l.HashCode() == m.HashCode()
  {
  }
}
