/**
 * The add-book form: its fields, the submit handler's validation, the new book
 * record, the reset after a save and the classification of a failed save.  The
 * database write raced against its 3-second timeout is an input: it is
 * acknowledged, times out (treated as saved offline) or is rejected with an error code.
 */
module AddBook {
  import opened Wrappers
  import opened JsText
  import BookProgress

  const MissingFieldsMessage: string := "Todos los campos marcados son obligatorios."
  const InvalidPagesMessage: string := "El número de páginas debe ser válido."
  const PermissionDeniedMessage: string := "No tienes permiso para guardar."
  const PermissionDenied: string := "permission-denied"

  /** The document written for a new book. */
  datatype NewBook = NewBook(
    title: string, author: string, status: string, rating: int, review: string,
    createdAt: string, totalPages: int, currentPage: int)

  datatype FormError = MissingFields | InvalidPages

  function ErrorMessage(e: FormError): string {
    match e
    case MissingFields => MissingFieldsMessage
    case InvalidPages => InvalidPagesMessage
  }

  /** The outcome of checking the form: the parsed page count, or the error to show. */
  datatype Validation = Accepted(pages: int) | Rejected(error: FormError)

  /**
   * Title and author must not be blank after trimming and the page text must not be
   * empty; then `parseInt(pages, 10)` must give a number above zero.
   */
  function Validate(title: string, author: string, totalPages: string): (v: Validation)
    ensures v == Rejected(MissingFields) <==> IsBlank(title) || IsBlank(author) || totalPages == ""
    ensures v == Rejected(InvalidPages) <==>
      !IsBlank(title) && !IsBlank(author) && totalPages != ""
      && (ParseInt(totalPages).NaN? || ParseInt(totalPages).value <= 0)
    ensures v.Accepted? <==>
      !IsBlank(title) && !IsBlank(author) && ParseInt(totalPages).Num? && ParseInt(totalPages).value > 0
    ensures v.Accepted? ==> v.pages > 0 && ParseInt(totalPages) == Num(v.pages)
  {
    if Trim(title) == [] || Trim(author) == [] || totalPages == "" then Rejected(MissingFields)
    else
      var pagesNumber := ParseInt(totalPages);
      if pagesNumber.NaN? || pagesNumber.value <= 0 then Rejected(InvalidPages)
      else Accepted(pagesNumber.value)
  }

  /** The record built from an accepted form: trimmed names, the parsed count, page 0, no rating or review. */
  function NewBookRecord(title: string, author: string, status: string, pages: int, createdAt: string): (b: NewBook)
    ensures b.title == Trim(title) && b.author == Trim(author) && b.status == status
    ensures b.totalPages == pages && b.currentPage == 0 && b.rating == 0 && b.review == ""
    ensures b.createdAt == createdAt
  {
    NewBook(Trim(title), Trim(author), status, 0, "", createdAt, pages, 0)
  }

  /** The outcome of `timeoutPromise(3000, setDoc(...))`. */
  datatype SaveOutcome = Acknowledged | TimedOut | Failed(code: string)

  /** What the handler does after the save: the success callback (with or without the form reset), or an error. */
  datatype AfterSave = SavedAndReset | AssumedSaved | ShowError(message: string)

  /** A timeout counts as saved; a failure other than a permission error is treated as a deferred save. */
  function AfterSaveOf(outcome: SaveOutcome): (a: AfterSave)
    ensures a.SavedAndReset? <==> !outcome.Failed?
    ensures a.ShowError? <==> outcome == Failed(PermissionDenied)
    ensures a.ShowError? ==> a.message == PermissionDeniedMessage
  {
    match outcome
    case Acknowledged => SavedAndReset
    case TimedOut => SavedAndReset
    case Failed(code) => if code == PermissionDenied then ShowError(PermissionDeniedMessage) else AssumedSaved
  }

  /**
   * Only the leading integer counts: a positive number followed by anything that does
   * not start with a digit is accepted as that number.
   */
  lemma LeadingIntegerAccepted(title: string, author: string, n: int, rest: string)
    requires !IsBlank(title) && !IsBlank(author) && n > 0
    requires rest == [] || !IsDigit(rest[0])
    ensures Validate(title, author, IntToString(n) + rest) == Accepted(n)
  {
    var ds := NatToString(n);
    assert [] + "" + ds + rest == IntToString(n) + rest;
    ParseIntPrefix([], "", ds, rest);
  }

  /** "12abc" is accepted as 12. */
  lemma TwelveAbcAccepted()
    ensures Validate("Rayuela", "Cortázar", "12abc") == Accepted(12)
  {
    TwelveAbcPieces();
    LeadingIntegerAccepted("Rayuela", "Cortázar", 12, "abc");
  }

  lemma TwelveAbcPieces()
    ensures IntToString(12) + "abc" == "12abc"
    ensures !IsBlank("Rayuela") && !IsBlank("Cortázar")
  {
    assert IntToString(12) == "12";
    assert !IsWhiteSpace("Rayuela"[0]);
    assert !IsWhiteSpace("Cortázar"[0]);
  }

  /** A page count of zero or below, written as a number, is refused as invalid. */
  lemma NonPositiveCountRejected(title: string, author: string, n: int)
    requires !IsBlank(title) && !IsBlank(author) && n <= 0
    ensures Validate(title, author, IntToString(n)) == Rejected(InvalidPages)
  {
    ParseIntRoundTrip(n);
  }

  /** A page text of only white space passes the emptiness check but is refused as invalid. */
  lemma BlankCountRejected(title: string, author: string, pages: string)
    requires !IsBlank(title) && !IsBlank(author) && pages != [] && IsBlank(pages)
    ensures Validate(title, author, pages) == Rejected(InvalidPages)
  {
    TrimStartSkips(pages, []);
    assert pages + [] == pages;
  }

  /** Every positive page count typed as a plain number is accepted as that number. */
  lemma PositiveCountAccepted(title: string, author: string, n: int)
    requires !IsBlank(title) && !IsBlank(author) && n > 0
    ensures Validate(title, author, IntToString(n)) == Accepted(n)
  {
    ParseIntRoundTrip(n);
  }

  /** The form's state. */
  class AddBookForm {
    var title: string
    var author: string
    var totalPages: string
    var status: string
    var loading: bool
    var error: Option<string>

    constructor ()
      ensures title == "" && author == "" && totalPages == "" && status == BookProgress.ToRead
      ensures !loading && error == None
    {
      title, author, totalPages, status := "", "", "", BookProgress.ToRead;
      loading, error := false, None;
    }

    /** The four text fields, unchanged since the handler started. */
    predicate FieldsAre(t: string, a: string, p: string, s: string)
      reads this
    {
      title == t && author == a && totalPages == p && status == s
    }

    /**
     * The submit handler.  Returns the record handed to the database (when the form
     * was accepted) and whether the success callback ran.  Without a user it returns at
     * once, leaving `loading` set.
     */
    method HandleSubmit(userId: Option<string>, createdAt: string, save: SaveOutcome)
      returns (written: Option<NewBook>, successCalled: bool)
      modifies this
      ensures var v := Validate(old(title), old(author), old(totalPages));
        written == (if IsTruthy(userId) && v.Accepted?
                    then Some(NewBookRecord(old(title), old(author), old(status), v.pages, createdAt))
                    else None)
      ensures !IsTruthy(userId) ==>
        !successCalled && loading && error == None
        && FieldsAre(old(title), old(author), old(totalPages), old(status))
      ensures IsTruthy(userId) ==> !loading
      ensures IsTruthy(userId) && Validate(old(title), old(author), old(totalPages)).Rejected? ==>
        !successCalled
        && error == Some(ErrorMessage(Validate(old(title), old(author), old(totalPages)).error))
        && FieldsAre(old(title), old(author), old(totalPages), old(status))
      ensures written.Some? && AfterSaveOf(save).SavedAndReset? ==>
        successCalled && error == None && FieldsAre("", "", "", BookProgress.ToRead)
      ensures written.Some? && AfterSaveOf(save).AssumedSaved? ==>
        successCalled && error == None && FieldsAre(old(title), old(author), old(totalPages), old(status))
      ensures written.Some? && AfterSaveOf(save).ShowError? ==>
        !successCalled && error == Some(AfterSaveOf(save).message)
        && FieldsAre(old(title), old(author), old(totalPages), old(status))
    {
      written, successCalled := None, false;
      loading := true;
      error := None;

      if !IsTruthy(userId) {
        return;
      }

      ghost var v := Validate(title, author, totalPages);
      if Trim(title) == [] || Trim(author) == [] || totalPages == "" {
        assert v == Rejected(MissingFields);
        error := Some(MissingFieldsMessage);
        loading := false;
        return;
      }

      var pagesNumber := ParseInt(totalPages);
      if pagesNumber.NaN? || pagesNumber.value <= 0 {
        assert v == Rejected(InvalidPages);
        error := Some(InvalidPagesMessage);
        loading := false;
        return;
      }

      assert v == Accepted(pagesNumber.value);
      var newBook := NewBookRecord(title, author, status, pagesNumber.value, createdAt);
      written := Some(newBook);

      successCalled := FinishSave(save);
    }

    /**
     * The rest of the `try` block and its `catch` and `finally`, once the write has
     * resolved, timed out (assumed saved offline) or been rejected.
     */
    method FinishSave(save: SaveOutcome) returns (successCalled: bool)
      modifies this
      ensures !loading
      ensures AfterSaveOf(save).SavedAndReset? ==>
        successCalled && error == old(error) && FieldsAre("", "", "", BookProgress.ToRead)
      ensures AfterSaveOf(save).AssumedSaved? ==>
        successCalled && error == old(error) && FieldsAre(old(title), old(author), old(totalPages), old(status))
      ensures AfterSaveOf(save).ShowError? ==>
        !successCalled && error == Some(AfterSaveOf(save).message)
        && FieldsAre(old(title), old(author), old(totalPages), old(status))
    {
      successCalled := false;
      var after := AfterSaveOf(save);
      if after.SavedAndReset? {
        successCalled := true;
        title, author, totalPages, status := "", "", "", BookProgress.ToRead;
      } else if after.ShowError? {
        error := Some(after.message);
      } else {
        successCalled := true;
      }
      loading := false;
    }
  }
}
