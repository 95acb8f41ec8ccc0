/** The form and list-controller pattern every admin page repeats: a form is
    a plain JavaScript object keyed by field name, seeded from a record on
    edit, reset to the page's defaults, and submitted as one create, update
    or delete call to the page's service. */
module Forms {
  import opened Basics

  type Record = map<string, Json>

  /** `record.key`, with a missing key read as null. */
  function Get(r: Record, key: string): (v: Json)
    ensures key !in r ==> v == JNull
    ensures key in r ==> v == r[key]
  {
    if key in r then r[key] else JNull
  }

  /** The target of an input's change event. */
  datatype InputEvent = InputEvent(name: string, value: string, isCheckbox: bool, checked: bool)

  /** `{...prev, [name]: type === 'checkbox' ? checked : value}`. */
  function InputChange(form: Record, ev: InputEvent): (r: Record)
    ensures ev.name in r
    ensures ev.isCheckbox ==> r[ev.name] == JBool(ev.checked)
    ensures !ev.isCheckbox ==> r[ev.name] == JStr(ev.value)
    ensures r.Keys == form.Keys + {ev.name}
    ensures forall k :: k in form && k != ev.name ==> r[k] == form[k]
  {
    form[ev.name := if ev.isCheckbox then JBool(ev.checked) else JStr(ev.value)]
  }

  /** `{...prev, [name]: value}`: the handlers that take the value of every
      input, checkboxes included. */
  function ValueChange(form: Record, ev: InputEvent): (r: Record)
    ensures ev.name in r && r[ev.name] == JStr(ev.value)
    ensures r.Keys == form.Keys + {ev.name}
    ensures forall k :: k in form && k != ev.name ==> r[k] == form[k]
  {
    form[ev.name := JStr(ev.value)]
  }

  /** `{a: record.a, b: record.b, ...}`: copy exactly the named fields. */
  function CopyFields(record: Record, fields: set<string>): (r: Record)
    ensures r.Keys == fields
    ensures forall k :: k in fields ==> r[k] == Get(record, k)
  {
    map k | k in fields :: Get(record, k)
  }

  /** `{a: record.a || defaults.a, ...}`: each field of the defaults, taken
      from the record when the record's value is truthy. */
  function SeedOrDefault(record: Record, defaults: Record): (r: Record)
    ensures r.Keys == defaults.Keys
    ensures forall k :: k in defaults && Truthy(Get(record, k)) ==> r[k] == record[k]
    ensures forall k :: k in defaults && !Truthy(Get(record, k)) ==> r[k] == defaults[k]
  {
    map k | k in defaults :: Or(Get(record, k), defaults[k])
  }

  /** Seeding from a record that has no truthy field gives the defaults. */
  lemma SeedOfEmptyIsDefaults(defaults: Record)
    ensures SeedOrDefault(map[], defaults) == defaults
  {
  }

  /** The calls a page makes to its service. */
  datatype Call = Create(payload: Record) | Update(id: Json, payload: Record) | Delete(id: Json)

  /** A page's form controller: the form data, the record being edited (if
      any) and whether the form is shown. */
  datatype Page = Page(form: Record, editing: Option<Record>, open: bool)

  /** What handling one event did: the calls issued, the next page state and
      whether the list was reloaded. */
  datatype Step = Step(calls: seq<Call>, page: Page, reload: bool)

  /** The create-or-update call a submit issues: update of the edited
      record's id when editing, create otherwise. */
  function SaveCall(p: Page): (c: Call)
    ensures p.editing.Some? <==> c.Update?
    ensures !c.Delete? && c.payload == p.form
    ensures c.Update? ==> c.id == Get(p.editing.value, "id")
  {
    match p.editing
    case Some(rec) => Update(Get(rec, "id"), p.form)
    case None => Create(p.form)
  }

  /** "Add new": an empty form for a new record. */
  function OpenForCreate(defaults: Record): (p: Page)
    ensures p.open && p.editing.None? && p.form == defaults
  {
    Page(defaults, None, true)
  }

  /** `handleEdit`: remember the record, copy its listed fields, show the form. */
  function OpenForEdit(record: Record, fields: set<string>): (p: Page)
    ensures p.open && p.editing == Some(record)
    ensures p.form.Keys == fields
    ensures forall k :: k in fields ==> p.form[k] == Get(record, k)
  {
    Page(CopyFields(record, fields), Some(record), true)
  }

  /** The closed, reset form a successful submit leaves behind. */
  function Closed(defaults: Record): (p: Page)
    ensures !p.open && p.editing.None? && p.form == defaults
  {
    Page(defaults, None, false)
  }

  /** What a delete handler did: the calls issued and whether it reloaded. */
  datatype Deletion = Deletion(calls: seq<Call>, reload: bool)

  /** A delete guarded by the confirmation prompt: nothing happens unless the
      user confirms; `reply` is the service's error, if any, and
      `reloadOnError` says whether the page reloads even after an error. */
  function ConfirmedDelete(id: Json, confirmed: bool, reply: Option<string>, reloadOnError: bool): (d: Deletion)
    ensures !confirmed ==> d.calls == [] && !d.reload
    ensures confirmed ==> d.calls == [Delete(id)]
    ensures d.reload <==> confirmed && (reply.None? || reloadOnError)
  {
    if !confirmed then Deletion([], false)
    else Deletion([Delete(id)], reply.None? || reloadOnError)
  }
}
