/**
  The outcome of recording one event in the event store: inserted, ignored as
  a duplicate, or failed with an exception.
*/
module EventResponses {
  import opened JavaLang

  datatype CreateEventState = INSERTED | IGNORED | ERROR

  /** The three fields the two constructors set; `exception` stays null on success. */
  datatype CreateEventResponse = CreateEventResponse(
    successful: bool,
    state: CreateEventState,
    exception: Option<JavaException>)
  {
    /** Invariant both constructors establish: success is exactly "not ERROR", and only errors carry an exception. */
    predicate Valid() {
      && (successful <==> state != ERROR)
      && (successful ==> exception.None?)
    }

    /**
      Built from the store's insert result: an id when the row was inserted,
      nothing when the event was a duplicate. Either way it is a success.
    */
    static function FromInsertResult(status: Option<int>): (r: CreateEventResponse)
      ensures r.Valid()
      ensures r.IsSuccessful()
      ensures r.GetState() == (if status.Some? then INSERTED else IGNORED)
      ensures r.GetErrorMessage() == Some("")
    {
      CreateEventResponse(true, if status.Some? then INSERTED else IGNORED, None)
    }

    /**
      Built from the exception the store threw (a null one is accepted):
      never a success, always ERROR, and reporting the exception's own message.
    */
    static function FromException(exception: Option<JavaException>): (r: CreateEventResponse)
      ensures r.Valid()
      ensures !r.IsSuccessful()
      ensures r.GetState() == ERROR
      ensures exception.Some? ==> r.GetErrorMessage() == exception.value.message
      ensures exception.None? ==> r.GetErrorMessage() == Some("")
    {
      CreateEventResponse(false, ERROR, exception)
    }

    predicate IsSuccessful() {
      successful
    }

    function GetState(): CreateEventState {
      state
    }

    /** The exception's message (itself possibly null), or "" when there is no exception. */
    function GetErrorMessage(): (m: Option<string>)
      ensures Valid() && IsSuccessful() ==> m == Some("")
      ensures exception.Some? ==> m == exception.value.message
    {
      match exception
      case Some(e) => e.message
      case None => Some("")
    }
  }

  /** On every response the constructors can build, `isSuccessful()` holds exactly when the state is not ERROR. */
  lemma SuccessIffNotError(r: CreateEventResponse)
    requires r.Valid()
    ensures r.IsSuccessful() <==> r.GetState() != ERROR
  {
  }

  /** A successful response reports the empty error message. */
  lemma SuccessHasEmptyMessage(r: CreateEventResponse)
    requires r.Valid() && r.IsSuccessful()
    ensures r.GetErrorMessage() == Some("")
  {
  }

  /** Only whether an id came back matters, not which id. */
  lemma OnlyPresenceMatters(a: Option<int>, b: Option<int>)
    requires a.Some? == b.Some?
    ensures CreateEventResponse.FromInsertResult(a) == CreateEventResponse.FromInsertResult(b)
  {
  }

  /** The three constructions give three distinct states, so a caller can tell them apart by state alone. */
  lemma StatesDistinguishOutcomes(id: int, e: Option<JavaException>)
    ensures CreateEventResponse.FromInsertResult(Some(id)).GetState() != CreateEventResponse.FromInsertResult(None).GetState()
    ensures CreateEventResponse.FromInsertResult(Some(id)).GetState() != CreateEventResponse.FromException(e).GetState()
    ensures CreateEventResponse.FromInsertResult(None).GetState() != CreateEventResponse.FromException(e).GetState()
  {
  }
}
