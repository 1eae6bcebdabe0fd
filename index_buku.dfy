/** The book list page with a detail view and a staged delete confirmation. */
module IndexBuku {
  import opened Js
  import opened Api
  import Books

  const Base := "/buku"

  /** What the delete dialog is asked to confirm: the id and the title it shows. */
  datatype DeleteConfirmation = DeleteConfirmation(id: Id, judul: string)

  /** Every piece of the page's session state, with the call and toast logs. */
  datatype PageState = PageState(
    buku: seq<Books.Book>,
    form: Body,
    editingId: Id,
    loading: bool,
    showForm: bool,
    selectedBuku: Option<Books.Book>,
    deleteConfirmation: Option<DeleteConfirmation>,
    requests: seq<Request>,
    notices: seq<Notice>)

  class Page {
    var buku: seq<Books.Book>
    var form: Body
    var editingId: Id
    var loading: bool
    var showForm: bool
    var selectedBuku: Option<Books.Book>
    var deleteConfirmation: Option<DeleteConfirmation>
    /** The calls issued on the API client, oldest first. */
    var requests: seq<Request>
    /** The toasts shown, oldest first. */
    var notices: seq<Notice>

    ghost function View(): PageState
      reads this
    {
      PageState(buku, form, editingId, loading, showForm, selectedBuku, deleteConfirmation, requests, notices)
    }

    /** The draft always carries the five book fields. */
    ghost predicate Valid()
      reads this
    {
      Books.BookFields <= form.Keys
    }

    /** The initial `useState` values. */
    constructor ()
      ensures Valid()
      ensures View() == PageState([], Books.EmptyDraft(), Null, false, false, None, None, [], [])
    {
      buku := [];
      form := Books.EmptyDraft();
      editingId := Null;
      loading := false;
      showForm := false;
      selectedBuku := None;
      deleteConfirmation := None;
      requests := [];
      notices := [];
    }

    /** `fetchBuku(mountedRef)`; `live` is `mountedRef.current` when the response arrives.
        While live, the collection becomes the listed array (or `[]` if the payload is not
        an array) and a failure shows one toast; a failure leaves the collection as it was.
        Once the page is gone, nothing but the issued call is recorded. */
    method FetchBuku(live: bool, result: ListResult<Books.Book>)
      requires Valid()
      modifies this
      ensures Valid()
      ensures View() == old(View()).(
                buku := if live then Refreshed(old(buku), result) else old(buku),
                requests := old(requests) + [Get(Base)],
                notices := old(notices) + ListNotices(live, result, Books.LoadFailedText))
    {
      requests := requests + [Get(Base)];
      if live {
        match result
        case Listed(data) =>
          buku := ListedItems(data);
        case ListFailed =>
          notices := notices + [Error(Books.LoadFailedText)];
      }
    }

    /** `handleChange`: sets the named draft field and nothing else. */
    method HandleChange(name: string, value: string)
      requires Valid()
      modifies this
      ensures Valid()
      ensures View() == old(View()).(form := old(form)[name := value])
      ensures name in Books.BookFields ==> form.Keys == old(form).Keys
    {
      form := form[name := value];
    }

    /** `handleSubmit`: `save` is the outcome of the create or update call, `list` that of
        the refresh awaited after a success (through a fresh, always live ref). */
    method HandleSubmit(save: CallResult, list: ListResult<Books.Book>)
      requires Valid()
      modifies this
      ensures Valid()
      ensures !loading
      ensures |requests| > |old(requests)|
      ensures var r := requests[|old(requests)|];
              (r.Put? || r.Post?) && Books.BookFields <= r.body.Keys
      ensures save.Ok? ==> View() == old(View()).(
                buku := Refreshed(old(buku), list),
                form := Books.EmptyDraft(),
                editingId := Null,
                loading := false,
                showForm := false,
                requests := old(requests) + [SaveRequest(Base, old(editingId), old(form)), Get(Base)],
                notices := old(notices)
                           + [Success(if IdTruthy(old(editingId)) then Books.UpdatedText else Books.CreatedText)]
                           + ListNotices(true, list, Books.LoadFailedText))
      ensures save.Failed? ==> View() == old(View()).(
                loading := false,
                requests := old(requests) + [SaveRequest(Base, old(editingId), old(form))],
                notices := old(notices) + [Error(SaveFailureText(save.failure, Books.SaveFailedText))])
    {
      loading := true;
      var call := SaveRequest(Base, editingId, form);
      requests := requests + [call];
      match save {
        case Ok =>
          notices := notices + [Success(if IdTruthy(editingId) then Books.UpdatedText else Books.CreatedText)];
          FetchBuku(true, list);
          ResetForm();
          showForm := false;
          assert requests == old(requests) + [call, Get(Base)];
        case Failed(f) =>
          notices := notices + [Error(SaveFailureText(f, Books.SaveFailedText))];
          assert requests == old(requests) + [call];
      }
      loading := false;
    }

    /** `handleEdit`: loads the book into the draft, remembers its id, opens the form. */
    method HandleEdit(b: Books.Book)
      requires Valid()
      modifies this
      ensures Valid()
      ensures View() == old(View()).(form := Books.EditDraft(b), editingId := b.id, showForm := true)
    {
      form := Books.EditDraft(b);
      editingId := b.id;
      showForm := true;
    }

    /** `openDeleteConfirmation`: stages `{id, judul}`; no call, no collection change. */
    method OpenDeleteConfirmation(b: Books.Book)
      requires Valid()
      modifies this
      ensures Valid()
      ensures View() == old(View()).(deleteConfirmation := Some(DeleteConfirmation(b.id, b.judul)))
    {
      deleteConfirmation := Some(DeleteConfirmation(b.id, b.judul));
    }

    /** `confirmDelete`: the confirmation is cleared before the delete call, so it is
        gone whatever the outcome; `del` is the delete's outcome and `list` that of the
        refresh that follows a success. Without a staged confirmation the handler throws
        at its first line and changes nothing. */
    method ConfirmDelete(del: CallResult, list: ListResult<Books.Book>)
      requires Valid()
      modifies this
      ensures Valid()
      ensures deleteConfirmation == None
      ensures old(deleteConfirmation).None? ==> View() == old(View())
      ensures old(deleteConfirmation).Some? && del.Ok? ==> View() == old(View()).(
                deleteConfirmation := None,
                buku := Refreshed(old(buku), list),
                requests := old(requests) + [Delete(ItemPath(Base, old(deleteConfirmation).value.id)), Get(Base)],
                notices := old(notices) + [Success(Books.DeletedText)] + ListNotices(true, list, Books.LoadFailedText))
      ensures old(deleteConfirmation).Some? && del.Failed? ==> View() == old(View()).(
                deleteConfirmation := None,
                requests := old(requests) + [Delete(ItemPath(Base, old(deleteConfirmation).value.id))],
                notices := old(notices) + [Error(DeleteFailureText(del.failure, Books.DeleteFailedText))])
    {
      if deleteConfirmation.Some? {
        var id := deleteConfirmation.value.id;
        deleteConfirmation := None;
        requests := requests + [Delete(ItemPath(Base, id))];
        match del {
          case Ok =>
            notices := notices + [Success(Books.DeletedText)];
            FetchBuku(true, list);
          case Failed(f) =>
            notices := notices + [Error(DeleteFailureText(f, Books.DeleteFailedText))];
        }
      }
    }

    /** `cancelDelete`: clears only the confirmation. */
    method CancelDelete()
      requires Valid()
      modifies this
      ensures Valid()
      ensures View() == old(View()).(deleteConfirmation := None)
    {
      deleteConfirmation := None;
    }

    /** `handleViewDetail`: opens the detail view on the book. */
    method HandleViewDetail(b: Books.Book)
      requires Valid()
      modifies this
      ensures Valid()
      ensures View() == old(View()).(selectedBuku := Some(b))
    {
      selectedBuku := Some(b);
    }

    /** `closeModal`: closes the detail view. */
    method CloseModal()
      requires Valid()
      modifies this
      ensures Valid()
      ensures View() == old(View()).(selectedBuku := None)
    {
      selectedBuku := None;
    }

    /** `resetForm`: five empty strings and no record under edit. */
    method ResetForm()
      requires Valid()
      modifies this
      ensures Valid()
      ensures View() == old(View()).(form := Books.EmptyDraft(), editingId := Null)
    {
      form := Books.EmptyDraft();
      editingId := Null;
    }

    /** The header button: resets the draft, then flips the form's visibility. */
    method ToggleForm()
      requires Valid()
      modifies this
      ensures Valid()
      ensures View() == old(View()).(form := Books.EmptyDraft(), editingId := Null, showForm := !old(showForm))
    {
      ResetForm();
      showForm := !showForm;
    }

    /** The form's cancel button: resets the draft and hides the form. */
    method CancelEdit()
      requires Valid()
      modifies this
      ensures Valid()
      ensures View() == old(View()).(form := Books.EmptyDraft(), editingId := Null, showForm := false)
    {
      ResetForm();
      showForm := false;
    }
  }

  /** The year and stock the scenario types are the decimal renderings of 2018 and 25. */
  lemma TypedNumerals()
    ensures IntToString(2018) == "2018" && IntToString(25) == "25"
    ensures ParseInt("2018") == Some(2018) && ParseInt("25") == Some(25)
  {
    ParseIntRoundTrip(2018);
    ParseIntRoundTrip(25);
    assert NatToString(2) == "2";
    assert NatToString(20) == "20";
    assert NatToString(201) == "201";
    assert NatToString(2018) == "2018";
    assert NatToString(25) == "25";
  }

  /** The draft the scenario types, read back with the id the server assigns. */
  function TypedDraft(): Body
  {
    Books.EmptyDraft()["judul" := "Atomic Habits"]["penulis" := "James Clear"]
      ["penerbit" := "Gramedia"]["tahun_terbit" := "2018"]["stok" := "25"]
  }

  lemma TypedDraftReadsBack()
    ensures Books.DraftToBook(Num(7), TypedDraft())
            == Some(Books.Book(Num(7), "Atomic Habits", "James Clear", "Gramedia", 2018, 25))
  {
    TypedNumerals();
  }

  /** The user opens the form from the header button and types the book field by field. */
  method TypeBook(p: Page)
    requires p.Valid() && !p.showForm
    modifies p
    ensures p.Valid()
    ensures p.View() == old(p.View()).(form := TypedDraft(), editingId := Null, showForm := true)
  {
    p.ToggleForm();
    p.HandleChange("judul", "Atomic Habits");
    p.HandleChange("penulis", "James Clear");
    p.HandleChange("penerbit", "Gramedia");
    p.HandleChange("tahun_terbit", "2018");
    p.HandleChange("stok", "25");
  }

  /** Mounting the page on an empty server (the constructor, then the mount effect's
      fetch), opening the form, typing a book and submitting it; the server assigns id 7
      and the refresh lists it. */
  method CreateBookScenario() returns (p: Page, added: Books.Book)
    ensures added == Books.Book(Num(7), "Atomic Habits", "James Clear", "Gramedia", 2018, 25)
    ensures p.buku == [added]
    ensures |p.requests| == 3 && p.requests[0] == Get(Base) && p.requests[2] == Get(Base)
    ensures p.requests[1].Post? && p.requests[1].path == Base
    ensures Books.DraftToBook(Num(7), p.requests[1].body) == Some(added)
    ensures p.notices == [Success(Books.CreatedText)]
    ensures p.editingId == Null && !p.showForm && !p.loading && p.form == Books.EmptyDraft()
  {
    p := new Page();
    p.FetchBuku(true, Listed(Array([])));
    TypeBook(p);
    added := Books.Book(Num(7), "Atomic Habits", "James Clear", "Gramedia", 2018, 25);
    TypedDraftReadsBack();
    p.HandleSubmit(Ok, Listed(Array([added])));
  }
}
