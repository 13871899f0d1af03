# Payment ledger: projection, event-record outcome and search-filter value types

A Dafny model of five small classes at the heart of a payment-ledger service.
The service records payment and refund events and projects them into one
searchable transaction row per resource.

- **Transaction projection** (`EventModel`, from `TransactionEntityFactory`).
  An event digest summarises all events of one resource. `Create` turns it into
  a transaction row. The payload is first serialised as transaction details,
  falling back to `"{}"` when serialisation fails. Then the payload is converted
  to an entity. Seven columns are then overwritten from the digest: details,
  event count, state, created date, external id, parent external id and
  transaction type. The JSON object mapper, the event-type-to-state lookup and
  the resource type's name are a `Collaborators` record of uninterpreted
  functions. The proofs therefore say which column comes from where, whatever
  those functions do.
- **Event-record outcome** (`EventResponses`, from `CreateEventResponse`).
  An insert can return an id (INSERTED), return nothing because the event is a
  duplicate (IGNORED), or throw (ERROR). The model covers the success flag and
  the error message for each case.
- **Comma-delimited filter** (`SearchCommon`, from `CommaDelimitedSetParameter`).
  A blank query string (null, empty or whitespace-only, as `StringUtils.isBlank`
  defines it) gives no values. Any other string is split with Java's
  `split(",")`. That split keeps leading and interior empty pieces, drops
  trailing empty ones, and does not trim. The Java behaviour it relies on
  (`Character.isWhitespace`, `split`, `String.join`) is in `JavaStrings`.
- **Card details** (`TransactionModel`, from `CardDetails`). A null brand reads
  back as `""`. Equality and the hash code use the raw fields.
- **Pagination link** (`SearchModel`, from `PaginationLink`). It holds one
  nullable href, has a fixed `toString` format, and compares and hashes by href.

Java `int` arithmetic, nullable references, exceptions and the `31 * h + x`
hash fold of `String.hashCode` and `Objects.hash` are in `JavaLang`. Nullable
references are `Option`. A call that may throw returns a `Result`.

## Model

| member | source | states |
|---|---|---|
| `EventModel.Create` | src/main/java/uk/gov/pay/ledger/event/model/TransactionEntityFactory.java:24-36 | Creating the row fails exactly when one of the two conversions throws, and the details conversion's exception comes first. On success, the six digest columns hold the digest's values: event count, state from the resolver applied to the most recent salient event type, created date, external id, parent id (absent when absent) and the resource type's name. The details are the serialised payload. Amount and the other payload-only columns are what the conversion produced. |
| `EventModel.ConvertToTransactionDetails` | src/main/java/uk/gov/pay/ledger/event/model/TransactionEntityFactory.java:38-46 | The details computation throws exactly when the payload-to-details conversion throws, and with that exception; a serialisation failure is not thrown |
| `EventModel.DetailsFallback` | src/main/java/uk/gov/pay/ledger/event/model/TransactionEntityFactory.java:38-46 | The details are exactly `"{}"` when serialisation fails, and the serialiser's output otherwise |
| `EventModel.DigestOverridesPayload` | src/main/java/uk/gov/pay/ledger/event/model/TransactionEntityFactory.java:26-33 | Replacing the payload-to-entity conversion by any other one that succeeds leaves all seven digest-derived columns unchanged |
| `EventModel.StateOnlyFromSalientEventType` | src/main/java/uk/gov/pay/ledger/event/model/TransactionEntityFactory.java:29 | Two digests with the same most recent salient event type give the same state, however else they differ |
| `EventModel.RefundCreatedByUser` | src/test/java/uk/gov/pay/ledger/pact/RefundCreatedByUserEventQueueContractTest.java:74-81 | For a refund payload `{amount, refunded_by}`, the row has the refund's id, the parent payment's id, the payload amount, the digest's created date and exactly the serialised details |
| `EventResponses.CreateEventResponse.FromInsertResult` | src/main/java/uk/gov/pay/ledger/event/services/model/response/CreateEventResponse.java:16-19 | A present id gives a successful INSERTED response. An absent one gives a successful IGNORED response, so a duplicate is not a failure. The error message is `""` and the invariant holds. |
| `EventResponses.CreateEventResponse.FromException` | src/main/java/uk/gov/pay/ledger/event/services/model/response/CreateEventResponse.java:21-25 | The response is unsuccessful with state ERROR and reports the exception's own message (which may itself be null). A null exception gives `""`. The invariant holds. |
| `EventResponses.SuccessIffNotError` | src/main/java/uk/gov/pay/ledger/event/services/model/response/CreateEventResponse.java:12-33 | On every constructed response, `isSuccessful()` holds if and only if the state is not ERROR |
| `EventResponses.SuccessHasEmptyMessage` | src/main/java/uk/gov/pay/ledger/event/services/model/response/CreateEventResponse.java:35-37 | A successful response reports the empty error message |
| `EventResponses.CreateEventResponse.GetErrorMessage` | src/main/java/uk/gov/pay/ledger/event/services/model/response/CreateEventResponse.java:35-37 | A response carrying an exception reports that exception's own message (possibly null). A successful response reports `""`. |
| `EventResponses.OnlyPresenceMatters` | src/main/java/uk/gov/pay/ledger/event/services/model/response/CreateEventResponse.java:18 | Two insert results that are both present, or both absent, build identical responses, whatever the id |
| `EventResponses.StatesDistinguishOutcomes` | src/main/java/uk/gov/pay/ledger/event/services/model/response/CreateEventResponse.java:6-10 | Inserted, ignored and failed records get three distinct states |
| `SearchCommon.CommaDelimitedSetParameter.Of` | src/main/java/uk/gov/pay/ledger/transaction/search/common/CommaDelimitedSetParameter.java:12-17 | `getRawString()` is the argument unchanged, even when blank or null. A blank argument gives an empty parameter. No element contains a comma. A non-blank argument with no comma is the only element. |
| `SearchCommon.IsEmptyIffNoParameters` | src/main/java/uk/gov/pay/ledger/transaction/search/common/CommaDelimitedSetParameter.java:19-29 | `isEmpty()` holds if and only if `getParameters()` has no element |
| `SearchCommon.RoundTrip` | src/main/java/uk/gov/pay/ledger/transaction/search/common/CommaDelimitedSetParameter.java:14-16 | For a non-blank string not ending in a comma, joining the elements with `","` gives the string back: nothing is trimmed or de-duplicated |
| `SearchCommon.NonBlankIsSplit` | src/main/java/uk/gov/pay/ledger/transaction/search/common/CommaDelimitedSetParameter.java:16 | A non-blank string with a comma gives its comma-separated pieces in order. Only trailing empty pieces are dropped, and the last element kept is non-empty. |
| `SearchCommon.OnlyCommasIsEmpty` | src/main/java/uk/gov/pay/ledger/transaction/search/common/CommaDelimitedSetParameter.java:14-16 | A string of commas only is not blank, yet `isEmpty()` holds |
| `SearchCommon.TrailingEmptyDropped` | src/main/java/uk/gov/pay/ledger/transaction/search/common/CommaDelimitedSetParameter.java:16 | `"a,b,"` gives `["a","b"]` |
| `SearchCommon.InteriorEmptyKept` | src/main/java/uk/gov/pay/ledger/transaction/search/common/CommaDelimitedSetParameter.java:16 | `"a,,b"` gives `["a","","b"]` |
| `SearchCommon.LeadingEmptyKept` | src/main/java/uk/gov/pay/ledger/transaction/search/common/CommaDelimitedSetParameter.java:16 | `",a"` gives `["","a"]` |
| `SearchCommon.NotTrimmed` | src/main/java/uk/gov/pay/ledger/transaction/search/common/CommaDelimitedSetParameter.java:16 | `" a , b"` gives `[" a "," b"]` |
| `SearchCommon.SingleValue` | src/test/java/uk/gov/pay/ledger/transaction/dao/TransactionDaoSearchIT.java:303 | `"created"` gives `["created"]` |
| `SearchCommon.CommasOnlyExample` | src/main/java/uk/gov/pay/ledger/transaction/search/common/CommaDelimitedSetParameter.java:14-16 | `",,,"` gives `[]` |
| `SearchCommon.BlankAndNull` | src/main/java/uk/gov/pay/ledger/transaction/search/common/CommaDelimitedSetParameter.java:12-21 | A whitespace-only string and null give empty parameters, and null reads back as null |
| `JavaStrings.IsWhitespace` | src/main/java/uk/gov/pay/ledger/transaction/search/common/CommaDelimitedSetParameter.java:14 | `Character.isWhitespace`: space, tab, newline and carriage return are whitespace. A comma and the no-break spaces U+00A0, U+2007 and U+202F are not. |
| `JavaStrings.IsBlank` | src/main/java/uk/gov/pay/ledger/transaction/search/common/CommaDelimitedSetParameter.java:14 | `StringUtils.isBlank`: null and the empty string are blank, and a blank string contains no comma |
| `JavaStrings.Pieces` | src/main/java/uk/gov/pay/ledger/transaction/search/common/CommaDelimitedSetParameter.java:16 | There is always at least one piece, and no piece contains a comma |
| `JavaStrings.JoinPieces` | src/main/java/uk/gov/pay/ledger/transaction/search/common/CommaDelimitedSetParameter.java:16 | Joining the pieces with commas reproduces the string |
| `JavaStrings.PiecesUnique` | src/main/java/uk/gov/pay/ledger/transaction/search/common/CommaDelimitedSetParameter.java:16 | Any non-empty, comma-free list that joins to the string is its list of pieces, so the pieces are exactly the split |
| `JavaStrings.LastPieceEmpty` | src/main/java/uk/gov/pay/ledger/transaction/search/common/CommaDelimitedSetParameter.java:16 | The last piece is empty if and only if the string is empty or ends in a comma |
| `JavaStrings.DropTrailingEmpties` | src/main/java/uk/gov/pay/ledger/transaction/search/common/CommaDelimitedSetParameter.java:16 | The result is a prefix of the list, everything removed is empty, and its last element is non-empty |
| `JavaStrings.Split` | src/main/java/uk/gov/pay/ledger/transaction/search/common/CommaDelimitedSetParameter.java:16 | Java `split(",")`: no element contains a comma. A string without a comma is the single element. Otherwise the result is the pieces, cut just before the trailing empty ones. |
| `JavaStrings.SplitNoTrailingComma` | src/main/java/uk/gov/pay/ledger/transaction/search/common/CommaDelimitedSetParameter.java:16 | A non-empty string not ending in a comma splits into all of its pieces |
| `JavaStrings.SplitOnlyCommas` | src/main/java/uk/gov/pay/ledger/transaction/search/common/CommaDelimitedSetParameter.java:16 | A non-empty string of commas splits into nothing |
| `TransactionModel.CardDetails.GetCardBrand` | src/main/java/uk/gov/pay/ledger/transaction/model/CardDetails.java:33-36 | The stored brand is returned, with `""` for a null brand, so the result is never null |
| `TransactionModel.CardDetails.Equals` | src/main/java/uk/gov/pay/ledger/transaction/model/CardDetails.java:38-46 | `equals(o)` holds exactly when `o` is non-null and its holder name, address and raw brand all equal this one's (null equal to null) |
| `TransactionModel.CardDetails.HashCode` | src/main/java/uk/gov/pay/ledger/transaction/model/CardDetails.java:48-51 | `Objects.hash(name, address, brand)` equals `31³ + 31²·hash(name) + 31·hash(address) + hash(brand)` modulo 2^32, with 0 for each null field |
| `TransactionModel.ConstructorGetters` | src/main/java/uk/gov/pay/ledger/transaction/model/CardDetails.java:17-31 | The holder-name and billing-address getters return the constructor arguments unchanged, and a non-null brand reads back unchanged |
| `TransactionModel.NullBrandIsNotEmptyBrand` | src/main/java/uk/gov/pay/ledger/transaction/model/CardDetails.java:33-46 | A null brand and a `""` brand read back the same, but the two details are not equal |
| `TransactionModel.EqualsReflexive` | src/main/java/uk/gov/pay/ledger/transaction/model/CardDetails.java:38-46 | `equals` is reflexive |
| `TransactionModel.EqualsSymmetric` | src/main/java/uk/gov/pay/ledger/transaction/model/CardDetails.java:38-46 | `equals` is symmetric |
| `TransactionModel.EqualsTransitive` | src/main/java/uk/gov/pay/ledger/transaction/model/CardDetails.java:38-46 | `equals` is transitive |
| `TransactionModel.EqualsImpliesSameHash` | src/main/java/uk/gov/pay/ledger/transaction/model/CardDetails.java:48-51 | Equal card details have equal hash codes |
| `TransactionModel.AllNullHash` | src/main/java/uk/gov/pay/ledger/transaction/model/CardDetails.java:48-51 | Card details with all three fields null hash to 31³ = 29791 |
| `JavaLang.Wrap` | src/main/java/uk/gov/pay/ledger/transaction/model/CardDetails.java:50 | The result is the one 32-bit `int` with the same low 32 bits as the exact value, and equals the exact value when that is in range |
| `JavaLang.Fold31ClosedForm` | src/main/java/uk/gov/pay/ledger/transaction/model/CardDetails.java:50 | The wrapped `h = 31*h + x` fold matches the documented closed form `seed*31^n + x0*31^(n-1) + … + x(n-1)` modulo 2^32 |
| `JavaLang.ObjectsHash3` | src/main/java/uk/gov/pay/ledger/transaction/model/CardDetails.java:50 | `Objects.hash` of three elements x, y, z is `29791 + 961·x + 31·y + z` modulo 2^32 |
| `JavaLang.ObjectsHash1` | src/main/java/uk/gov/pay/ledger/transaction/search/model/PaginationLink.java:44 | `Objects.hash` of one element x is `31 + x` in `int` arithmetic |
| `SearchModel.PaginationLink.OfValue` | src/main/java/uk/gov/pay/ledger/transaction/search/model/PaginationLink.java:23-25 | The link holds the given href, null included |
| `SearchModel.PaginationLink.Empty` | src/main/java/uk/gov/pay/ledger/transaction/search/model/PaginationLink.java:16-17 | A link built with the no-argument constructor has a null href |
| `SearchModel.PaginationLink.ToString` | src/main/java/uk/gov/pay/ledger/transaction/search/model/PaginationLink.java:27-32 | The text is `Link{href='` followed by the href and then `'}`, and a null href prints as `null` |
| `SearchModel.PaginationLink.Equals` | src/main/java/uk/gov/pay/ledger/transaction/search/model/PaginationLink.java:34-40 | `equals(o)` holds exactly when `o` is non-null and the hrefs are equal (null equal to null) |
| `SearchModel.OfValueGetHref` | src/main/java/uk/gov/pay/ledger/transaction/search/model/PaginationLink.java:19-25 | `ofValue(h).getHref() == h` |
| `SearchModel.ToStringRoundTrip` | src/main/java/uk/gov/pay/ledger/transaction/search/model/PaginationLink.java:27-32 | The href text can be read back from the `toString()` text |
| `SearchModel.ToStringInjective` | src/main/java/uk/gov/pay/ledger/transaction/search/model/PaginationLink.java:27-40 | Two links with non-null hrefs print the same if and only if they are equal |
| `SearchModel.NullHrefPrintsLikeTextNull` | src/main/java/uk/gov/pay/ledger/transaction/search/model/PaginationLink.java:27-40 | A null href and the href `"null"` both print `Link{href='null'}`, but the two links are not equal |
| `SearchModel.EqualsReflexive` | src/main/java/uk/gov/pay/ledger/transaction/search/model/PaginationLink.java:34-40 | `equals` is reflexive |
| `SearchModel.EqualsSymmetric` | src/main/java/uk/gov/pay/ledger/transaction/search/model/PaginationLink.java:34-40 | `equals` is symmetric |
| `SearchModel.EqualsImpliesSameHash` | src/main/java/uk/gov/pay/ledger/transaction/search/model/PaginationLink.java:42-45 | Equal links have equal hash codes |
| `SearchModel.PaginationLink.HashCode` | src/main/java/uk/gov/pay/ledger/transaction/search/model/PaginationLink.java:42-45 | `Objects.hash(href)` is `31 + href.hashCode()` in `int` arithmetic, and exactly 31 for a null href |

## Left out

- `SearchCommon.CommaDelimitedSetParameter.Of`: `getParameters()` returns the object's own list by reference. For blank input it is a fresh mutable `ArrayList`, so a caller's `add` would make a later `isEmpty()` false. For other input it is an immutable `List.of(...)`, on which `add` throws `UnsupportedOperationException`. The model holds the elements as an immutable sequence. It assumes callers do not mutate the returned list, so `isEmpty()` for blank input is promised as built, not after such a mutation.
- The JSON object mapper (`convertValue`, `writeValueAsString`), `ConvertedTransactionDetails`, `TransactionState.fromEventType`, `ResourceType` and `Address` are not part of this model. They are uninterpreted functions (the `Collaborators` record) and opaque types. No event-type-to-state table is assumed.
- `TransactionEntity` is not part of this model beyond what the factory touches. Only `amount` is named, because the refund test reads it. The other payload-filled columns are one opaque value.
- `EventModel.RefundCreatedByUser` takes the serialiser's output and the digest's created date as given. The test's expected text `{"refunded_by": …}` depends on `ConvertedTransactionDetails`, Jackson and the database's JSON rendering. The date depends on the event digest builder. None of these is part of this model.
- `EventModel.Create`: runtime exceptions other than those of the two conversions are not modelled. These are a `writeValueAsString` failure that is not a `JsonProcessingException`, a null resource type, or a null state from the lookup. `writeValueAsString` failure is modelled only as the caught `JsonProcessingException`.
- The error log line in `convertToTransactionDetails` is not modelled (logging is I/O).
- Timestamps are opaque and compared only for equality; no date arithmetic is modelled.
- The event store, digest builder, queue consumer, search DAO and per-resource concurrency control are not part of this model. Their source is not among the modelled files.
- `equals` called with an object of another class returns false in Java. Dafny's typing rules out any other class, so only the null and same-class cases are modelled.
- `TransactionModel.CardDetails.Equals` compares addresses with Dafny equality. It therefore assumes `Address.equals` is value equality and agrees with the address hash passed to `HashCode`.
- `JavaLang.StringHash` hashes Dafny characters (Unicode scalar values). For characters outside the Basic Multilingual Plane, Java hashes the two UTF-16 units instead, so those hashes differ.
- Passing a null `Optional` to the first `CreateEventResponse` constructor throws a `NullPointerException` in Java. This is not modelled: an `Option` argument is never null.
- The entity's setters change a freshly built local object. They are modelled as one record update that returns the finished row, because no other code can see the object in between.
