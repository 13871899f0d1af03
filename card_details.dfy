/**
  The card details stored on a transaction: card holder name, billing address
  and card brand, all nullable.
*/
module TransactionModel {
  import opened JavaLang

  /** A billing address; its fields and its own `equals` are not part of this model. */
  type Address(==)

  datatype CardDetails = CardDetails(
    cardHolderName: Option<string>,
    billingAddress: Option<Address>,
    cardBrand: Option<string>)
  {
    function GetCardHolderName(): Option<string> {
      cardHolderName
    }

    function GetBillingAddress(): Option<Address> {
      billingAddress
    }

    /** The stored brand, with null read back as "" so that it is never null. */
    function GetCardBrand(): (brand: string)
      ensures cardBrand.Some? ==> brand == cardBrand.value
      ensures cardBrand.None? ==> brand == ""
    {
      match cardBrand
      case None => ""
      case Some(b) => b
    }

    /**
      `equals(o)`: false for null, otherwise the three RAW fields compared with
      `Objects.equals` (null equal to null). The identity shortcut `this == o`
      is subsumed, since an object equals itself field by field.
    */
    predicate Equals(o: Option<CardDetails>)
      ensures Equals(o) <==> o == Some(this)
    {
      && o.Some?
      && cardHolderName == o.value.cardHolderName
      && billingAddress == o.value.billingAddress
      && cardBrand == o.value.cardBrand
    }

    /** `Objects.hash(cardHolderName, billingAddress, cardBrand)`, given the address's own hash. */
    function HashCode(addressHash: Address -> int32): (h: int32)
      ensures var a := match billingAddress case None => 0 case Some(addr) => addressHash(addr) as int;
        SameLow32(h as int,
          29791 + 961 * NullableStringHash(cardHolderName) as int + 31 * a + NullableStringHash(cardBrand) as int)
    {
      var a: int32 := match billingAddress
        case None => 0
        case Some(addr) => addressHash(addr);
      ObjectsHash3(NullableStringHash(cardHolderName) as int, a as int, NullableStringHash(cardBrand) as int);
      Fold31(1, [NullableStringHash(cardHolderName) as int, a as int, NullableStringHash(cardBrand) as int])
    }
  }

  /** The constructor stores its three arguments, which the getters read back unchanged. */
  lemma ConstructorGetters(name: Option<string>, address: Option<Address>, brand: Option<string>)
    ensures CardDetails(name, address, brand).GetCardHolderName() == name
    ensures CardDetails(name, address, brand).GetBillingAddress() == address
    ensures brand.Some? ==> CardDetails(name, address, brand).GetCardBrand() == brand.value
  {
  }

  /** A null brand and an empty brand read back the same, but the two details are not equal. */
  lemma NullBrandIsNotEmptyBrand(name: Option<string>, address: Option<Address>)
    ensures CardDetails(name, address, None).GetCardBrand() == CardDetails(name, address, Some("")).GetCardBrand()
    ensures !CardDetails(name, address, None).Equals(Some(CardDetails(name, address, Some(""))))
  {
  }

  lemma EqualsReflexive(c: CardDetails)
    ensures c.Equals(Some(c))
  {
  }

  lemma EqualsSymmetric(c: CardDetails, d: CardDetails)
    ensures c.Equals(Some(d)) <==> d.Equals(Some(c))
  {
  }

  lemma EqualsTransitive(c: CardDetails, d: CardDetails, e: CardDetails)
    requires c.Equals(Some(d)) && d.Equals(Some(e))
    ensures c.Equals(Some(e))
  {
  }

  /** Equal details have equal hash codes, for any address hash. */
  lemma EqualsImpliesSameHash(c: CardDetails, d: CardDetails, addressHash: Address -> int32)
    requires c.Equals(Some(d))
    ensures c.HashCode(addressHash) == d.HashCode(addressHash)
  {
  }

  /** Details whose three fields are all null hash to 31^3 = 29791. */
  lemma AllNullHash(addressHash: Address -> int32)
    ensures CardDetails(None, None, None).HashCode(addressHash) == 29791
  {
    var xs: seq<int> := [0, 0, 0];
    assert xs[..2] == [0, 0] && xs[..2][..1] == [0] && xs[..2][..1][..0] == [];
    assert Fold31(1, [0]) == 31;
    assert Fold31(1, [0, 0]) == 961;
    assert Fold31(1, xs) == 29791;
  }
}
