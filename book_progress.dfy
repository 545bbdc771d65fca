/**
 * The page-progress editor of the book list: the status a book moves to when its
 * current page is edited, the update record written to the book's document, and
 * the numeric page input's clamp.  Status values are the strings stored in the
 * database.
 */
module BookProgress {
  import opened Wrappers
  import opened JsText

  const ToRead: string := "Por Leer"
  const Reading: string := "Leyendo"
  const Read: string := "Leído"

  /** A book document as the list reads it; a missing or NaN number is 0. */
  datatype BookData = BookData(
    id: string, title: string, author: string, status: string,
    totalPages: int, currentPage: int)

  /** A field value of an update record; `ServerTimestamp` is the database's server-time sentinel. */
  datatype FieldValue = NumberValue(n: int) | StringValue(s: string) | ServerTimestamp

  /** A partial update of a book document: field name to new value. */
  type Update = map<string, FieldValue>

  /** `totalPages || 1`: a zero page count is read as 1. */
  function EffectiveTotal(totalPages: int): (total: int)
    ensures total != 0
    ensures totalPages == 0 ==> total == 1
    ensures totalPages != 0 ==> total == totalPages
    ensures totalPages >= 0 ==> total >= 1
  {
    if totalPages == 0 then 1 else totalPages
  }

  /**
   * The status after an edit to `page`, stated as a decision list.  The source applies
   * three rules in sequence, A (To-Read to Reading), B (to Read) and C (Reading back to
   * To-Read), each overriding the previous one, so the last matching rule decides.
   */
  function NextStatus(prev: string, totalPages: int, page: int): (s: string)
    ensures page >= EffectiveTotal(totalPages) && !(page == 0 && prev == Reading) ==> s == Read
    ensures prev == ToRead && 0 < page < EffectiveTotal(totalPages) ==> s == Reading
    ensures page == 0 && prev == Reading ==> s == ToRead
    ensures s == prev || s == ToRead || s == Reading || s == Read
    ensures s != prev ==>
      page >= EffectiveTotal(totalPages) || (prev == ToRead && 0 < page) || (page == 0 && prev == Reading)
  {
    var total := EffectiveTotal(totalPages);
    if page == 0 && prev == Reading then ToRead
    else if page >= total then Read
    else if prev == ToRead && 0 < page then Reading
    else prev
  }

  /** The completion date is stamped when the page reaches the total and the book was not already read. */
  predicate StampsFinished(prev: string, totalPages: int, page: int) {
    page >= EffectiveTotal(totalPages) && prev != Read
  }

  /** The update record an edit produces: the page, the new status and, on completion, the server time. */
  function ProgressUpdate(prev: string, totalPages: int, page: int): (u: Update)
    ensures u.Keys == {"currentPage", "status"} + (if StampsFinished(prev, totalPages, page) then {"finishedAt"} else {})
    ensures u["currentPage"] == NumberValue(page)
    ensures u["status"] == StringValue(NextStatus(prev, totalPages, page))
    ensures "finishedAt" in u ==> u["finishedAt"] == ServerTimestamp
  {
    var base := map["currentPage" := NumberValue(page), "status" := StringValue(NextStatus(prev, totalPages, page))];
    if StampsFinished(prev, totalPages, page) then base["finishedAt" := ServerTimestamp] else base
  }

  /** The numeric input's handler: `Math.min(totalPages || 1, Math.max(0, value))`. */
  function ClampPage(value: int, totalPages: int): (page: int)
    ensures totalPages >= 0 ==> 0 <= page <= EffectiveTotal(totalPages)
    ensures 0 <= value <= EffectiveTotal(totalPages) ==> page == value
    ensures value < 0 && totalPages >= 0 ==> page == 0
    ensures value > EffectiveTotal(totalPages) ==> page == EffectiveTotal(totalPages)
  {
    var atLeastZero := if value < 0 then 0 else value;
    var total := EffectiveTotal(totalPages);
    if total < atLeastZero then total else atLeastZero
  }

  /**
   * The status rules read as a priority list, first match wins: (a) reaching the
   * total gives Read; (b) To-Read with a page strictly inside the book gives Reading;
   * (c) page 0 while Reading gives To-Read; (d) otherwise unchanged.
   */
  function PriorityStatus(prev: string, totalPages: int, page: int): string {
    var total := EffectiveTotal(totalPages);
    if page >= total then Read
    else if prev == ToRead && 0 < page && page < total then Reading
    else if page == 0 && prev == Reading then ToRead
    else prev
  }

  /** For every book the add form can create (totalPages >= 0) the sequential overrides agree with the priority list. */
  lemma NextStatusMatchesPriority(prev: string, totalPages: int, page: int)
    requires totalPages >= 0
    ensures NextStatus(prev, totalPages, page) == PriorityStatus(prev, totalPages, page)
  {
  }

  /** With a negative page count, rule C (applied last) wins over rule B, unlike the priority list. */
  lemma NegativeTotalDiverges()
    ensures NextStatus(Reading, -5, 0) == ToRead
    ensures PriorityStatus(Reading, -5, 0) == Read
    ensures StampsFinished(Reading, -5, 0)
  {
  }

  /** With a page count of at least 1, the book ends Read exactly when the page reaches the total or it was Read. */
  lemma ReadCharacterisation(prev: string, totalPages: int, page: int)
    requires totalPages >= 0
    ensures NextStatus(prev, totalPages, page) == Read <==> page >= EffectiveTotal(totalPages) || prev == Read
  {
  }

  /** The status is unchanged in every case none of the three rules covers. */
  lemma UnchangedOtherwise(prev: string, totalPages: int, page: int)
    requires page < EffectiveTotal(totalPages)
    requires !(prev == ToRead && 0 < page)
    requires !(page == 0 && prev == Reading)
    ensures NextStatus(prev, totalPages, page) == prev
  {
  }

  /** Saving the same page again with the resulting status changes nothing. */
  lemma NextStatusIdempotent(prev: string, totalPages: int, page: int)
    requires totalPages >= 0
    ensures var s := NextStatus(prev, totalPages, page); NextStatus(s, totalPages, page) == s
  {
  }

  /**
   * The completion date is written at most once: it is stamped only on entry into Read,
   * and a save that starts from Read, or that follows a save reaching the total, never stamps it.
   */
  lemma FinishedStampedOnce(prev: string, totalPages: int, page: int, page2: int)
    requires totalPages >= 0
    ensures StampsFinished(prev, totalPages, page) ==> NextStatus(prev, totalPages, page) == Read && prev != Read
    ensures !StampsFinished(Read, totalPages, page2)
    ensures StampsFinished(prev, totalPages, page) ==>
      !StampsFinished(NextStatus(prev, totalPages, page), totalPages, page2)
  {
  }

  /** Re-entering the same page is a fixed point of the whole update, not only of the status. */
  lemma ProgressUpdateResave(prev: string, totalPages: int, page: int)
    requires totalPages >= 0
    ensures var s := NextStatus(prev, totalPages, page);
      ProgressUpdate(s, totalPages, page) == ProgressUpdate(prev, totalPages, page) - {"finishedAt"}
  {
    var s := NextStatus(prev, totalPages, page);
    var u1 := ProgressUpdate(s, totalPages, page);
    var u0 := ProgressUpdate(prev, totalPages, page) - {"finishedAt"};
    assert u1.Keys == u0.Keys;
  }

  /** The progress modal's state: the book being edited (a copy taken when it opened) and the page shown. */
  class ProgressEditor {
    var editingBook: Option<BookData>
    var tempPage: int

    constructor ()
      ensures editingBook == None && tempPage == 0
    {
      editingBook := None;
      tempPage := 0;
    }

    /** Opening the modal on a book shows its current page. */
    method OpenProgressModal(book: BookData)
      modifies this
      ensures editingBook == Some(book) && tempPage == book.currentPage
    {
      editingBook := Some(book);
      tempPage := book.currentPage;
    }

    /** Closing the modal (backdrop or close button) discards the edit. */
    method Close()
      modifies this`editingBook
      ensures editingBook == None
    {
      editingBook := None;
    }

    /** A value typed into the numeric input is clamped into [0, totalPages || 1]. */
    method EnterPage(value: int)
      requires editingBook.Some?
      modifies this`tempPage
      ensures tempPage == ClampPage(value, editingBook.value.totalPages)
      ensures editingBook.value.totalPages >= 0 ==> 0 <= tempPage <= EffectiveTotal(editingBook.value.totalPages)
    {
      tempPage := ClampPage(value, editingBook.value.totalPages);
    }

    /**
     * Saving: builds the update record and hands it to the database write, whose outcome is
     * `writeSucceeds`.  Without a user or without an open modal nothing is written.  A
     * successful write closes the modal; a failed one leaves it open.
     */
    method SaveProgress(userId: Option<string>, writeSucceeds: bool) returns (written: Option<Update>)
      modifies this`editingBook
      ensures written.None? <==> !IsTruthy(userId) || old(editingBook).None?
      ensures written.Some? ==>
        written.value == ProgressUpdate(old(editingBook).value.status, old(editingBook).value.totalPages, tempPage)
      ensures editingBook == if written.Some? && writeSucceeds then None else old(editingBook)
    {
      if !IsTruthy(userId) || editingBook.None? {
        return None;
      }
      var book := editingBook.value;
      var newStatus := book.status;
      var total := EffectiveTotal(book.totalPages);
      var updateData: Update := map["currentPage" := NumberValue(tempPage)];

      // A) To-Read becomes Reading
      if book.status == ToRead && tempPage > 0 && tempPage < total {
        newStatus := Reading;
      }
      // B) reaching the total becomes Read, stamping the date unless it was Read already
      if tempPage >= total {
        newStatus := Read;
        if book.status != Read {
          updateData := updateData["finishedAt" := ServerTimestamp];
        }
      }
      // C) back to page 0 while Reading returns to To-Read
      if tempPage == 0 && book.status == Reading {
        newStatus := ToRead;
      }
      updateData := updateData["status" := StringValue(newStatus)];

      assert updateData.Keys == ProgressUpdate(book.status, book.totalPages, tempPage).Keys;
      written := Some(updateData);
      if writeSucceeds {
        editingBook := None;
      }
    }
  }
}
