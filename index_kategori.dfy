/** The category list page: a single `nama` field, a detail view and a staged
    delete confirmation. */
module IndexKategori {
  import opened Js
  import opened Api
  import Categories

  const Base := "/kategori"

  /** What the delete dialog is asked to confirm: the id and the name it shows. */
  datatype DeleteConfirmation = DeleteConfirmation(id: Id, nama: string)

  /** Every piece of the page's session state, with the call and toast logs. */
  datatype PageState = PageState(
    kategori: seq<Categories.Category>,
    form: Body,
    editingId: Id,
    loading: bool,
    showForm: bool,
    selectedKategori: Option<Categories.Category>,
    deleteConfirmation: Option<DeleteConfirmation>,
    requests: seq<Request>,
    notices: seq<Notice>)

  class Page {
    var kategori: seq<Categories.Category>
    var form: Body
    var editingId: Id
    var loading: bool
    var showForm: bool
    var selectedKategori: Option<Categories.Category>
    var deleteConfirmation: Option<DeleteConfirmation>
    /** The calls issued on the API client, oldest first. */
    var requests: seq<Request>
    /** The toasts shown, oldest first. */
    var notices: seq<Notice>

    ghost function View(): PageState
      reads this
    {
      PageState(kategori, form, editingId, loading, showForm, selectedKategori, deleteConfirmation, requests, notices)
    }

    /** The draft always carries the `nama` field. */
    ghost predicate Valid()
      reads this
    {
      Categories.CategoryFields <= form.Keys
    }

    /** The initial `useState` values. */
    constructor ()
      ensures Valid()
      ensures View() == PageState([], Categories.EmptyDraft(), Null, false, false, None, None, [], [])
    {
      kategori := [];
      form := Categories.EmptyDraft();
      editingId := Null;
      loading := false;
      showForm := false;
      selectedKategori := None;
      deleteConfirmation := None;
      requests := [];
      notices := [];
    }

    /** `fetchKategori(mountedRef)`; `live` is `mountedRef.current` when the response arrives.
        While live, the collection becomes the listed array (or `[]` if the payload is not
        an array) and a failure shows one toast; a failure leaves the collection as it was.
        Once the page is gone, nothing but the issued call is recorded. */
    method FetchKategori(live: bool, result: ListResult<Categories.Category>)
      requires Valid()
      modifies this
      ensures Valid()
      ensures View() == old(View()).(
                kategori := if live then Refreshed(old(kategori), result) else old(kategori),
                requests := old(requests) + [Get(Base)],
                notices := old(notices) + ListNotices(live, result, Categories.LoadFailedText))
    {
      requests := requests + [Get(Base)];
      if live {
        match result
        case Listed(data) =>
          kategori := ListedItems(data);
        case ListFailed =>
          notices := notices + [Error(Categories.LoadFailedText)];
      }
    }

    /** `handleChange`: sets the named draft field and nothing else. */
    method HandleChange(name: string, value: string)
      requires Valid()
      modifies this
      ensures Valid()
      ensures View() == old(View()).(form := old(form)[name := value])
      ensures name in Categories.CategoryFields ==> form.Keys == old(form).Keys
    {
      form := form[name := value];
    }

    /** `handleSubmit`: `save` is the outcome of the create or update call, `list` that of
        the refresh awaited after a success (through a fresh, always live ref). */
    method HandleSubmit(save: CallResult, list: ListResult<Categories.Category>)
      requires Valid()
      modifies this
      ensures Valid()
      ensures !loading
      ensures |requests| > |old(requests)|
      ensures var r := requests[|old(requests)|];
              (r.Put? || r.Post?) && Categories.CategoryFields <= r.body.Keys
      ensures save.Ok? ==> View() == old(View()).(
                kategori := Refreshed(old(kategori), list),
                form := Categories.EmptyDraft(),
                editingId := Null,
                loading := false,
                showForm := false,
                requests := old(requests) + [SaveRequest(Base, old(editingId), old(form)), Get(Base)],
                notices := old(notices)
                           + [Success(if IdTruthy(old(editingId)) then Categories.UpdatedText else Categories.CreatedText)]
                           + ListNotices(true, list, Categories.LoadFailedText))
      ensures save.Failed? ==> View() == old(View()).(
                loading := false,
                requests := old(requests) + [SaveRequest(Base, old(editingId), old(form))],
                notices := old(notices) + [Error(SaveFailureText(save.failure, Categories.SaveFailedText))])
    {
      loading := true;
      var call := SaveRequest(Base, editingId, form);
      requests := requests + [call];
      match save {
        case Ok =>
          notices := notices + [Success(if IdTruthy(editingId) then Categories.UpdatedText else Categories.CreatedText)];
          FetchKategori(true, list);
          ResetForm();
          showForm := false;
          assert requests == old(requests) + [call, Get(Base)];
        case Failed(f) =>
          notices := notices + [Error(SaveFailureText(f, Categories.SaveFailedText))];
          assert requests == old(requests) + [call];
      }
      loading := false;
    }

    /** `handleEdit`: loads the category into the draft, remembers its id, opens the form. */
    method HandleEdit(k: Categories.Category)
      requires Valid()
      modifies this
      ensures Valid()
      ensures View() == old(View()).(form := Categories.EditDraft(k), editingId := k.id, showForm := true)
    {
      form := Categories.EditDraft(k);
      editingId := k.id;
      showForm := true;
    }

    /** `openDeleteConfirmation`: stages `{id, nama}`; no call, no collection change. */
    method OpenDeleteConfirmation(k: Categories.Category)
      requires Valid()
      modifies this
      ensures Valid()
      ensures View() == old(View()).(deleteConfirmation := Some(DeleteConfirmation(k.id, k.nama)))
    {
      deleteConfirmation := Some(DeleteConfirmation(k.id, k.nama));
    }

    /** `confirmDelete`: the confirmation is cleared before the delete call, so it is
        gone whatever the outcome; `del` is the delete's outcome and `list` that of the
        refresh that follows a success. Without a staged confirmation the handler throws
        at its first line and changes nothing. */
    method ConfirmDelete(del: CallResult, list: ListResult<Categories.Category>)
      requires Valid()
      modifies this
      ensures Valid()
      ensures deleteConfirmation == None
      ensures old(deleteConfirmation).None? ==> View() == old(View())
      ensures old(deleteConfirmation).Some? && del.Ok? ==> View() == old(View()).(
                deleteConfirmation := None,
                kategori := Refreshed(old(kategori), list),
                requests := old(requests) + [Delete(ItemPath(Base, old(deleteConfirmation).value.id)), Get(Base)],
                notices := old(notices) + [Success(Categories.DeletedText)] + ListNotices(true, list, Categories.LoadFailedText))
      ensures old(deleteConfirmation).Some? && del.Failed? ==> View() == old(View()).(
                deleteConfirmation := None,
                requests := old(requests) + [Delete(ItemPath(Base, old(deleteConfirmation).value.id))],
                notices := old(notices) + [Error(DeleteFailureText(del.failure, Categories.DeleteFailedText))])
    {
      if deleteConfirmation.Some? {
        var id := deleteConfirmation.value.id;
        deleteConfirmation := None;
        requests := requests + [Delete(ItemPath(Base, id))];
        match del {
          case Ok =>
            notices := notices + [Success(Categories.DeletedText)];
            FetchKategori(true, list);
          case Failed(f) =>
            notices := notices + [Error(DeleteFailureText(f, Categories.DeleteFailedText))];
        }
      }
    }

    /** `cancelDelete`: clears only the confirmation. */
    method CancelDelete()
      requires Valid()
      modifies this
      ensures Valid()
      ensures View() == old(View()).(deleteConfirmation := None)
    {
      deleteConfirmation := None;
    }

    /** `handleViewDetail`: opens the detail view on the category. */
    method HandleViewDetail(k: Categories.Category)
      requires Valid()
      modifies this
      ensures Valid()
      ensures View() == old(View()).(selectedKategori := Some(k))
    {
      selectedKategori := Some(k);
    }

    /** `closeModal`: closes the detail view. */
    method CloseModal()
      requires Valid()
      modifies this
      ensures Valid()
      ensures View() == old(View()).(selectedKategori := None)
    {
      selectedKategori := None;
    }

    /** `resetForm`: `{ nama: '' }` and no record under edit. */
    method ResetForm()
      requires Valid()
      modifies this
      ensures Valid()
      ensures View() == old(View()).(form := Categories.EmptyDraft(), editingId := Null)
    {
      form := Categories.EmptyDraft();
      editingId := Null;
    }

    /** The header button: resets the draft, then flips the form's visibility. */
    method ToggleForm()
      requires Valid()
      modifies this
      ensures Valid()
      ensures View() == old(View()).(form := Categories.EmptyDraft(), editingId := Null, showForm := !old(showForm))
    {
      ResetForm();
      showForm := !showForm;
    }

    /** The form's cancel button: resets the draft and hides the form. */
    method CancelEdit()
      requires Valid()
      modifies this
      ensures Valid()
      ensures View() == old(View()).(form := Categories.EmptyDraft(), editingId := Null, showForm := false)
    {
      ResetForm();
      showForm := false;
    }
  }

  /** A page listing one category: staging its delete and confirming it, with a
      successful delete and a refresh that lists nothing, empties the collection, leaves
      no confirmation pending and brings every card to 0. */
  method DeleteCategoryScenario() returns (p: Page)
    ensures p.kategori == [] && p.deleteConfirmation == None
    ensures p.requests == [Get(Base), Delete("/kategori/1"), Get(Base)]
    ensures p.notices == [Success(Categories.DeletedText)]
    ensures Categories.Stats(p.kategori) == Categories.CategoryStats(0, 0, 0)
  {
    p := new Page();
    var fiksi := Categories.Category(Num(1), "Fiksi");
    p.FetchKategori(true, Listed(Array([fiksi])));
    assert p.kategori == [fiksi];
    p.OpenDeleteConfirmation(fiksi);
    p.ConfirmDelete(Ok, Listed(Array([])));
    assert IntToString(1) == "1";
    assert ItemPath(Base, fiksi.id) == "/kategori/1";
  }
}
