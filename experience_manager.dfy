/** The form logic of src/components/admin/ExperienceManager.tsx: the form an
    entry is edited in, the payload the form submits to the experience route,
    and the `current` checkbox. Where the payload is sent is
    `AdminForms.SaveTarget`. Dates reach the form as the strings the listing
    returns. */
module ExperienceManager {
  import opened JsValues
  import Text
  import AdminForms
  import ExperienceRoute

  /** An entry as the listing returns it. */
  datatype ExperienceView = ExperienceView(
    id: string,
    company: string,
    position: string,
    location: Option<string>,
    startDate: string,
    endDate: Option<string>,
    current: bool,
    description: string,
    technologies: seq<string>,
    achievements: seq<string>,
    order: int)

  /** The form state: every list is one text field. */
  datatype ExperienceForm = ExperienceForm(
    company: string,
    position: string,
    location: string,
    startDate: string,
    endDate: string,
    current: bool,
    description: string,
    technologies: string,
    achievements: string,
    order: int)

  const TechnologySeparator := ','
  const AchievementSeparator := '\n'
  /** Technologies are shown joined by a comma and a space. */
  const TechnologyPadding := " "

  /** The form before any edit, and after a reset. */
  function BlankForm(): (f: ExperienceForm)
    ensures f.company == "" && f.position == "" && f.location == "" && f.startDate == "" && f.endDate == ""
    ensures !f.current && f.description == "" && f.technologies == "" && f.achievements == "" && f.order == 0
  {
    ExperienceForm("", "", "", "", "", false, "", "", "", 0)
  }

  /** `date.split('T')[0]`: the date part of an ISO timestamp. */
  function FormDate(s: string): (r: string)
    ensures 'T' !in r && Text.StartsWith(s, r)
    ensures 'T' in s ==> |r| < |s| && s[|r|] == 'T'
    ensures 'T' !in s ==> r == s
  {
    var pieces := Text.Split(s, 'T');
    if |pieces| == 1 then
      pieces[0]
    else
      assert s == pieces[0] + "T" + Text.Join(pieces[1..], "T");
      pieces[0]
  }

  /** `handleEdit`: the form filled from an entry. */
  function EditForm(e: ExperienceView): (f: ExperienceForm)
    ensures f.company == e.company && f.position == e.position && f.description == e.description
    ensures f.current == e.current && f.order == e.order
    ensures f.location == OrElse(e.location, "")
    ensures f.startDate == FormDate(e.startDate)
    ensures !Truthy(e.endDate) ==> f.endDate == ""
    ensures Truthy(e.endDate) ==> f.endDate == FormDate(e.endDate.value)
    ensures f.technologies == AdminForms.ShowList(e.technologies, [TechnologySeparator] + TechnologyPadding)
    ensures f.achievements == AdminForms.ShowList(e.achievements, [AchievementSeparator])
  {
    assert [TechnologySeparator] + TechnologyPadding == ", " && [AchievementSeparator] == "\n";
    ExperienceForm(e.company, e.position, OrElse(e.location, ""), FormDate(e.startDate),
                   if Truthy(e.endDate) then FormDate(e.endDate.value) else "",
                   e.current, e.description,
                   AdminForms.ShowList(e.technologies, ", "), AdminForms.ShowList(e.achievements, "\n"),
                   e.order)
  }

  /** The `current` checkbox: checking it clears the end date, unchecking it
      keeps the end date as it is. */
  function ToggleCurrent(f: ExperienceForm, checked: bool): (g: ExperienceForm)
    ensures g.current == checked
    ensures checked ==> g.endDate == ""
    ensures !checked ==> g.endDate == f.endDate
    ensures g.(current := f.current, endDate := f.endDate) == f
  {
    f.(current := checked, endDate := if checked then "" else f.endDate)
  }

  /** `handleSubmit`: the body sent to the route, every form field as it is
      and the two lists parsed. */
  function Payload(f: ExperienceForm): (b: ExperienceRoute.ExperienceBody)
    ensures b.company == Some(f.company) && b.position == Some(f.position) && b.location == Some(f.location)
    ensures b.startDate == Some(f.startDate) && b.endDate == Some(f.endDate) && b.current == Some(f.current)
    ensures b.description == Some(f.description) && b.order == Some(f.order) && b.companyLogo.None?
    ensures b.technologies == Some(AdminForms.ParseList(f.technologies, TechnologySeparator))
    ensures b.achievements == Some(AdminForms.ParseList(f.achievements, AchievementSeparator))
  {
    ExperienceRoute.ExperienceBody(
      Some(f.company), Some(f.position), Some(f.location), Some(f.startDate), Some(f.endDate), Some(f.current),
      Some(f.description), Some(AdminForms.ParseList(f.technologies, ',')),
      Some(AdminForms.ParseList(f.achievements, '\n')), None, Some(f.order))
  }

  /** Opening an entry in the form and saving it unchanged sends back the
      same text fields, order and lists, for lists the codec keeps as they
      are; the dates are sent as their date part, an absent location or end
      date as the empty string. */
  lemma EditThenSubmit(e: ExperienceView)
    requires forall i :: 0 <= i < |e.technologies| ==> AdminForms.Storable(e.technologies[i], TechnologySeparator)
    requires forall i :: 0 <= i < |e.achievements| ==> AdminForms.Storable(e.achievements[i], AchievementSeparator)
    ensures var b := Payload(EditForm(e));
      && b.company == Some(e.company) && b.position == Some(e.position) && b.description == Some(e.description)
      && b.current == Some(e.current) && b.order == Some(e.order)
      && b.technologies == Some(e.technologies) && b.achievements == Some(e.achievements)
      && b.startDate == Some(FormDate(e.startDate))
      && b.location == Some(OrElse(e.location, ""))
      && (Truthy(e.endDate) ==> b.endDate == Some(FormDate(e.endDate.value)))
      && (!Truthy(e.endDate) ==> b.endDate == Some(""))
  {
    assert Text.AllSpace(TechnologyPadding);
    AdminForms.ParseShowRoundTrip(e.technologies, TechnologySeparator, TechnologyPadding);
    assert Text.AllSpace("") && [AchievementSeparator] + "" == [AchievementSeparator];
    AdminForms.ParseShowRoundTrip(e.achievements, AchievementSeparator, "");
  }

  /** A form saved with `current` checked creates an entry that is current
      and has no end date, whatever end date was typed before. */
  lemma CurrentMeansNoEndDate(f: ExperienceForm, castDate: ExperienceRoute.DateCast, id: nat, now: int)
    requires var b := Payload(ToggleCurrent(f, true));
      ExperienceRoute.HasRequiredFields(b) && !ExperienceRoute.SchemaRejects(b, castDate)
    ensures var x := ExperienceRoute.NewExperience(Payload(ToggleCurrent(f, true)), castDate, id, now);
      x.current && x.endDate.None?
  {
  }
}
