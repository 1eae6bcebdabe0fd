/** The older book list page: no detail view, and a delete gated by the
    browser's `confirm()` answer instead of staged state. */
module BukuListPage {
  import opened Js
  import opened Api
  import Books

  const Base := "/buku"

  /** Every piece of the page's session state, with the call and toast logs. */
  datatype PageState = PageState(
    buku: seq<Books.Book>,
    form: Body,
    editingId: Id,
    loading: bool,
    showForm: bool,
    requests: seq<Request>,
    notices: seq<Notice>)

  class Page {
    var buku: seq<Books.Book>
    var form: Body
    var editingId: Id
    var loading: bool
    var showForm: bool
    /** The calls issued on the API client, oldest first. */
    var requests: seq<Request>
    /** The toasts shown, oldest first. */
    var notices: seq<Notice>

    ghost function View(): PageState
      reads this
    {
      PageState(buku, form, editingId, loading, showForm, requests, notices)
    }

    /** The draft always carries the five book fields. */
    ghost predicate Valid()
      reads this
    {
      Books.BookFields <= form.Keys
    }

    /** The initial `useState` values. */
    constructor ()
      ensures Valid()
      ensures View() == PageState([], Books.EmptyDraft(), Null, false, false, [], [])
    {
      buku := [];
      form := Books.EmptyDraft();
      editingId := Null;
      loading := false;
      showForm := false;
      requests := [];
      notices := [];
    }

    /** `fetchBuku(mountedRef)`; `live` is `mountedRef.current` when the response arrives.
        While live, the collection becomes the listed array (or `[]` if the payload is not
        an array) and a failure shows one toast; a failure leaves the collection as it was. */
    method FetchBuku(live: bool, result: ListResult<Books.Book>)
      requires Valid()
      modifies this
      ensures Valid()
      ensures View() == old(View()).(
                buku := if live then Refreshed(old(buku), result) else old(buku),
                requests := old(requests) + [Get(Base)],
                notices := old(notices) + ListNotices(live, result, Books.LoadFailedText))
    {
      requests := requests + [Get(Base)];
      if live {
        match result
        case Listed(data) =>
          buku := ListedItems(data);
        case ListFailed =>
          notices := notices + [Error(Books.LoadFailedText)];
      }
    }

    /** `handleChange`: sets the named draft field and nothing else. */
    method HandleChange(name: string, value: string)
      requires Valid()
      modifies this
      ensures Valid()
      ensures View() == old(View()).(form := old(form)[name := value])
      ensures name in Books.BookFields ==> form.Keys == old(form).Keys
    {
      form := form[name := value];
    }

    /** `handleSubmit`: `save` is the outcome of the create or update call, `list` that of
        the refresh awaited after a success. */
    method HandleSubmit(save: CallResult, list: ListResult<Books.Book>)
      requires Valid()
      modifies this
      ensures Valid()
      ensures !loading
      ensures |requests| > |old(requests)|
      ensures var r := requests[|old(requests)|];
              (r.Put? || r.Post?) && Books.BookFields <= r.body.Keys
      ensures save.Ok? ==> View() == old(View()).(
                buku := Refreshed(old(buku), list),
                form := Books.EmptyDraft(),
                editingId := Null,
                loading := false,
                showForm := false,
                requests := old(requests) + [SaveRequest(Base, old(editingId), old(form)), Get(Base)],
                notices := old(notices)
                           + [Success(if IdTruthy(old(editingId)) then Books.UpdatedText else Books.CreatedText)]
                           + ListNotices(true, list, Books.LoadFailedText))
      ensures save.Failed? ==> View() == old(View()).(
                loading := false,
                requests := old(requests) + [SaveRequest(Base, old(editingId), old(form))],
                notices := old(notices) + [Error(SaveFailureText(save.failure, Books.SaveFailedText))])
    {
      loading := true;
      var call := SaveRequest(Base, editingId, form);
      requests := requests + [call];
      match save {
        case Ok =>
          notices := notices + [Success(if IdTruthy(editingId) then Books.UpdatedText else Books.CreatedText)];
          FetchBuku(true, list);
          ResetForm();
          showForm := false;
          assert requests == old(requests) + [call, Get(Base)];
        case Failed(f) =>
          notices := notices + [Error(SaveFailureText(f, Books.SaveFailedText))];
          assert requests == old(requests) + [call];
      }
      loading := false;
    }

    /** `handleEdit`: loads the book into the draft, remembers its id, opens the form. */
    method HandleEdit(b: Books.Book)
      requires Valid()
      modifies this
      ensures Valid()
      ensures View() == old(View()).(form := Books.EditDraft(b), editingId := b.id, showForm := true)
    {
      form := Books.EditDraft(b);
      editingId := b.id;
      showForm := true;
    }

    /** `handleDelete(id)`: `confirmed` is the answer to the `confirm()` dialog, `del`
        the delete's outcome and `list` that of the refresh after a success. A declined
        confirmation returns at once: no call, no change. The collection is only ever
        replaced through the refresh. */
    method HandleDelete(id: Id, confirmed: bool, del: CallResult, list: ListResult<Books.Book>)
      requires Valid()
      modifies this
      ensures Valid()
      ensures !confirmed ==> View() == old(View())
      ensures confirmed && del.Ok? ==> View() == old(View()).(
                buku := Refreshed(old(buku), list),
                requests := old(requests) + [Delete(ItemPath(Base, id)), Get(Base)],
                notices := old(notices) + [Success(Books.DeletedText)] + ListNotices(true, list, Books.LoadFailedText))
      ensures confirmed && del.Failed? ==> View() == old(View()).(
                requests := old(requests) + [Delete(ItemPath(Base, id))],
                notices := old(notices) + [Error(DeleteFailureText(del.failure, Books.DeleteFailedText))])
    {
      if !confirmed {
        return;
      }
      requests := requests + [Delete(ItemPath(Base, id))];
      match del {
        case Ok =>
          notices := notices + [Success(Books.DeletedText)];
          FetchBuku(true, list);
        case Failed(f) =>
          notices := notices + [Error(DeleteFailureText(f, Books.DeleteFailedText))];
      }
    }

    /** `resetForm`: five empty strings and no record under edit. */
    method ResetForm()
      requires Valid()
      modifies this
      ensures Valid()
      ensures View() == old(View()).(form := Books.EmptyDraft(), editingId := Null)
    {
      form := Books.EmptyDraft();
      editingId := Null;
    }

    /** The header button: resets the draft, then flips the form's visibility. */
    method ToggleForm()
      requires Valid()
      modifies this
      ensures Valid()
      ensures View() == old(View()).(form := Books.EmptyDraft(), editingId := Null, showForm := !old(showForm))
    {
      ResetForm();
      showForm := !showForm;
    }

    /** The form's cancel button: resets the draft and hides the form. */
    method CancelEdit()
      requires Valid()
      modifies this
      ensures Valid()
      ensures View() == old(View()).(form := Books.EmptyDraft(), editingId := Null, showForm := false)
    {
      ResetForm();
      showForm := false;
    }
  }

  /** Editing a book and submitting the draft unchanged updates that book's own path
      when its id is truthy, with a body that reads back as the book. A book whose id is
      0 is posted as a new one instead. */
  method EditThenSubmitScenario(p: Page, b: Books.Book, list: ListResult<Books.Book>)
    requires p.Valid()
    modifies p
    ensures |p.requests| == |old(p.requests)| + 2
    ensures var r := p.requests[|old(p.requests)|];
            && (r.Put? || r.Post?)
            && r.body == Books.EditDraft(b)
            && Books.DraftToBook(b.id, r.body) == Some(b)
            && (IdTruthy(b.id) ==> r == Put(ItemPath(Base, b.id), r.body))
            && (b.id == Num(0) ==> r == Post(Base, r.body))
    ensures p.editingId == Null && !p.showForm && !p.loading && p.form == Books.EmptyDraft()
  {
    p.HandleEdit(b);
    p.HandleSubmit(Ok, list);
    Books.EditDraftRoundTrip(b);
  }
}
