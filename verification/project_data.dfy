/** The project-data form: thirteen controls, five of them required, behind an
    edit toggle. Saving is not wired to the backend; it only leaves edit mode. */
module ProjectData {

  /** A control's value: the form mixes strings with one number */
  datatype Value = Text(text: string) | Number(n: int) | Null

  datatype ProjectForm = ProjectForm(values: map<string, Value>, pristine: bool)

  datatype ProjectDataState = ProjectDataState(isEdit: bool, form: ProjectForm)

  /** The controls that carry `Validators.required` */
  const RequiredControls: set<string> := {"owner", "sector", "type", "name", "scale"}

  /** The values the form is built with */
  const InitialValues: map<string, Value> := map[
    "owner" := Text("GV"),
    "sector" := Text("HLT"),
    "type" := Text("مستشفى"),
    "name" := Text("تجهيزي"),
    "scale" := Text("SM"),
    "budgetFrom" := Text("000.000"),
    "budgetTo" := Text("000.000"),
    "region" := Text("عام"),
    "centerType" := Text("مركزي"),
    "costPerM2" := Text("200,000"),
    "duration" := Text("000"),
    "shadedRatio" := Text("000"),
    "floors" := Number(4)]

  /** `Validators.required` rejects null and the empty string; a number, even
      0, passes */
  predicate RequiredFails(v: Value) {
    v == Null || v == Text("")
  }

  /** `projectForm.valid`: no required control is empty */
  predicate FormValid(values: map<string, Value>) {
    forall name :: name in values && name in RequiredControls ==> !RequiredFails(values[name])
  }

  /** The component as constructed: out of edit mode, pristine, valid */
  function Create(): (p: ProjectDataState)
    ensures !p.isEdit && p.form.pristine
    ensures p.form.values == InitialValues
    ensures FormValid(p.form.values)
    ensures RequiredControls <= p.form.values.Keys
  {
    ProjectDataState(false, ProjectForm(InitialValues, true))
  }

  /** The user types `v` into control `name`: the value changes and the form
      becomes dirty */
  function UserInput(p: ProjectDataState, name: string, v: Value): (r: ProjectDataState)
    requires name in p.form.values
    ensures r.form.values.Keys == p.form.values.Keys
    ensures r.form.values[name] == v && !r.form.pristine
    ensures forall other :: other in p.form.values && other != name ==> r.form.values[other] == p.form.values[other]
    ensures r.isEdit == p.isEdit
  {
    p.(form := ProjectForm(p.form.values[name := v], false))
  }

  /** `toggleEdit()`: flips edit mode; leaving it marks the form pristine,
      entering it leaves the pristine flag alone. Values never change. */
  function ToggleEdit(p: ProjectDataState): (r: ProjectDataState)
    ensures r.isEdit == !p.isEdit
    ensures r.form.values == p.form.values
    ensures p.isEdit ==> r.form.pristine
    ensures !p.isEdit ==> r.form.pristine == p.form.pristine
  {
    var flipped := p.(isEdit := !p.isEdit);
    if !flipped.isEdit then flipped.(form := flipped.form.(pristine := true)) else flipped
  }

  /** `save()`: out of edit mode and pristine from any state, whether or not
      the form is valid. Values never change. */
  function Save(p: ProjectDataState): (r: ProjectDataState)
    ensures !r.isEdit && r.form.pristine
    ensures r.form.values == p.form.values
  {
    p.(isEdit := false, form := p.form.(pristine := true))
  }

  /** Two toggles restore edit mode and the values; the form is pristine
      afterwards if it was before, or if editing was on at the start */
  lemma ToggleTwice(p: ProjectDataState)
    ensures ToggleEdit(ToggleEdit(p)).isEdit == p.isEdit
    ensures ToggleEdit(ToggleEdit(p)).form.values == p.form.values
    ensures !p.isEdit ==> ToggleEdit(ToggleEdit(p)).form.pristine
    ensures p.form.pristine ==> ToggleEdit(ToggleEdit(p)) == p
  {
  }

  /** Saving twice is saving once, and saving ends where leaving edit mode by
      the toggle ends */
  lemma SaveIsIdempotent(p: ProjectDataState)
    ensures Save(Save(p)) == Save(p)
    ensures p.isEdit ==> Save(p) == ToggleEdit(p)
  {
  }

  /** Only the five required controls can make the form invalid: changing any
      other control never changes validity, and emptying a required one always
      makes the form invalid */
  lemma OnlyRequiredControlsMatter(values: map<string, Value>, name: string, v: Value)
    ensures name !in RequiredControls ==> (FormValid(values[name := v]) <==> FormValid(values))
    ensures name in RequiredControls && RequiredFails(v) ==> !FormValid(values[name := v])
    ensures name in RequiredControls && !RequiredFails(v) && FormValid(values) ==> FormValid(values[name := v])
  {
    if name !in RequiredControls {
      if FormValid(values) {
        forall k | k in values[name := v] && k in RequiredControls
          ensures !RequiredFails(values[name := v][k])
        {
          assert k != name;
        }
      }
      if FormValid(values[name := v]) {
        forall k | k in values && k in RequiredControls
          ensures !RequiredFails(values[k])
        {
          assert k != name && values[name := v][k] == values[k];
        }
      }
    }
  }
}
