/** The banners page: a form with a required image, a save that only
    closes on success, and the active window of a banner. */
module BannersPage {
  import opened Basics
  import opened Forms

  /** The empty banner form. */
  const Defaults: Record := map[
    "title" := JStr(""), "sub_title" := JStr(""), "btn_text" := JStr(""), "add_link" := JStr(""),
    "add_button" := JBool(false), "image" := JStr(""), "start_date" := JStr(""), "end_date" := JStr("")]

  /** The eight fields a banner is edited through. */
  const Fields: set<string> := {"title", "sub_title", "btn_text", "add_link", "add_button", "image", "start_date", "end_date"}

  /** "Add new": the empty form for a new banner. */
  function AddNew(p: Page): (r: Page)
    ensures r.open && r.editing.None? && r.form == Defaults && r.form.Keys == Fields
  {
    OpenForCreate(Defaults)
  }

  /** "Cancel": hide the form and forget the edited banner; the form data is
      left as it was. */
  function Cancel(p: Page): (r: Page)
    ensures !r.open && r.editing.None? && r.form == p.form
  {
    p.(open := false, editing := None)
  }

  /** The form is only shown again through "Add new" or "Edit", which both
      replace its data, so what a cancel leaves behind is never shown. */
  lemma CancelledDataNeverShown(p: Page, banner: Record)
    ensures AddNew(Cancel(p)).form == Defaults
    ensures HandleEdit(Cancel(p), banner).form == CopyFields(banner, Fields)
  {
  }

  /** `handleInputChange`: checkboxes give their checked state, other inputs
      their value; no other field changes. */
  function HandleInputChange(p: Page, ev: InputEvent): (r: Page)
    ensures r.editing == p.editing && r.open == p.open
    ensures r.form == InputChange(p.form, ev)
  {
    p.(form := InputChange(p.form, ev))
  }

  /** `handleImageUpload`: without a picked file nothing happens; otherwise
      the file is stored under the fresh name `fileName` and, when the upload
      reports no error, the form's image becomes that name. */
  function HandleImageUpload(p: Page, picked: bool, fileName: string, reply: Option<string>): (r: Page)
    ensures !picked || reply.Some? ==> r == p
    ensures picked && reply.None? ==> r.form == p.form["image" := JStr(fileName)]
    ensures r.editing == p.editing && r.open == p.open
  {
    if picked && reply.None? then p.(form := p.form["image" := JStr(fileName)]) else p
  }

  /** `handleSubmit`: without an image nothing is called and nothing
      changes. Otherwise the edited banner is updated, or a new one created;
      on success the list reloads and the form resets and closes, and on an
      error the form stays open with its data. */
  function HandleSubmit(p: Page, reply: Option<string>): (r: Step)
    ensures !Truthy(Get(p.form, "image")) ==> r == Step([], p, false)
    ensures Truthy(Get(p.form, "image")) ==> r.calls == [SaveCall(p)]
    ensures Truthy(Get(p.form, "image")) && reply.None? ==> r.reload && r.page == Closed(Defaults)
    ensures reply.Some? ==> !r.reload && r.page == p
  {
    if !Truthy(Get(p.form, "image")) then Step([], p, false)
    else if reply.None? then Step([SaveCall(p)], Closed(Defaults), true)
    else Step([SaveCall(p)], p, false)
  }

  /** `handleEdit`: remember the banner and copy exactly its eight fields. */
  function HandleEdit(p: Page, banner: Record): (r: Page)
    ensures r.open && r.editing == Some(banner)
    ensures r.form.Keys == Fields && forall k :: k in Fields ==> r.form[k] == Get(banner, k)
  {
    OpenForEdit(banner, Fields)
  }

  /** Opening a banner that has an image and saving it untouched writes its
      own eight fields back to its own id. */
  lemma EditThenSaveWritesBack(p: Page, banner: Record, reply: Option<string>)
    requires Truthy(Get(banner, "image"))
    ensures HandleSubmit(HandleEdit(p, banner), reply).calls == [Update(Get(banner, "id"), CopyFields(banner, Fields))]
  {
  }

  /** `handleDelete`: after confirmation, delete; the service's error is
      rethrown, so the list reloads only on success. */
  function HandleDelete(id: Json, confirmed: bool, reply: Option<string>): (d: Deletion)
    ensures d.calls == (if confirmed then [Delete(id)] else [])
    ensures d.reload <==> confirmed && reply.None?
  {
    ConfirmedDelete(id, confirmed, reply, false)
  }

  /** `isActive`: the start and end dates, as `parse` reads them (None for
      an invalid date, whose comparisons are all false), enclose now, both
      ends included. */
  predicate IsActive(banner: Record, now: int, parse: Json -> Option<int>) {
    var start := parse(Get(banner, "start_date"));
    var end := parse(Get(banner, "end_date"));
    start.Some? && end.Some? && start.value <= now <= end.value
  }

  /** A banner is active at both ends of its window and never outside it,
      and one whose end precedes its start is never active. */
  lemma ActiveWindow(banner: Record, now: int, parse: Json -> Option<int>)
    requires parse(Get(banner, "start_date")).Some? && parse(Get(banner, "end_date")).Some?
    ensures
      var start := parse(Get(banner, "start_date")).value;
      var end := parse(Get(banner, "end_date")).value;
      && (start <= end ==> IsActive(banner, start, parse) && IsActive(banner, end, parse))
      && (now < start || end < now ==> !IsActive(banner, now, parse))
      && (end < start ==> !IsActive(banner, now, parse))
  {
  }
}
