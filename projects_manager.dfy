/** The form logic of src/components/admin/ProjectsManager.tsx: the blank
    form, the form a project is edited in, the payload the form submits to
    the projects route. Where the payload is sent is `AdminForms.SaveTarget`. */
module ProjectsManager {
  import opened JsValues
  import Portfolio
  import Text
  import AdminForms
  import ProjectsRoute

  /** A project as the listing returns it. */
  datatype ProjectView = ProjectView(
    id: string,
    title: string,
    description: string,
    shortDescription: Option<string>,
    technologies: seq<string>,
    githubUrl: Option<string>,
    liveUrl: Option<string>,
    image: Option<string>,
    featured: bool,
    status: string,
    order: int)

  /** The form state: the technologies are one text field. */
  datatype ProjectForm = ProjectForm(
    title: string,
    description: string,
    shortDescription: string,
    technologies: string,
    githubUrl: string,
    liveUrl: string,
    image: string,
    featured: bool,
    status: string,
    order: int)

  const TechnologySeparator := ','
  /** Technologies are shown joined by a comma and a space. */
  const TechnologyPadding := " "
  /** The choices of the status selector. */
  const Statuses := ["Completed", "In Progress", "Planned"]

  /** The form before any edit, and after a reset: empty text, not featured,
      Completed, order 0. */
  function BlankForm(): (f: ProjectForm)
    ensures f.title == "" && f.description == "" && f.shortDescription == "" && f.technologies == ""
    ensures f.githubUrl == "" && f.liveUrl == "" && f.image == ""
    ensures !f.featured && f.status == "Completed" && f.order == 0
  {
    ProjectForm("", "", "", "", "", "", "", false, "Completed", 0)
  }

  /** Every choice of the status selector, and so the blank form's status, is
      a status the schema accepts. */
  lemma StatusChoicesAreSchemaValues()
    ensures forall i :: 0 <= i < |Statuses| ==> Portfolio.ParseStatus(Statuses[i]).Some?
    ensures BlankForm().status in Statuses
  {
  }

  /** `handleEdit`: the form filled from a project. */
  function EditForm(p: ProjectView): (f: ProjectForm)
    ensures f.title == p.title && f.description == p.description
    ensures f.featured == p.featured && f.status == p.status && f.order == p.order
    ensures f.shortDescription == OrElse(p.shortDescription, "") && f.githubUrl == OrElse(p.githubUrl, "")
    ensures f.liveUrl == OrElse(p.liveUrl, "") && f.image == OrElse(p.image, "")
    ensures p.shortDescription.None? ==> f.shortDescription == ""
    ensures p.githubUrl.None? ==> f.githubUrl == ""
    ensures p.liveUrl.None? ==> f.liveUrl == ""
    ensures p.image.None? ==> f.image == ""
    ensures f.technologies == AdminForms.ShowList(p.technologies, [TechnologySeparator] + TechnologyPadding)
  {
    assert [TechnologySeparator] + TechnologyPadding == ", ";
    ProjectForm(p.title, p.description, OrElse(p.shortDescription, ""), AdminForms.ShowList(p.technologies, ", "),
                OrElse(p.githubUrl, ""), OrElse(p.liveUrl, ""), OrElse(p.image, ""),
                p.featured, p.status, p.order)
  }

  /** `handleSubmit`: the body sent to the route, every form field as it is
      and the technologies parsed. */
  function Payload(f: ProjectForm): (b: ProjectsRoute.ProjectBody)
    ensures b.title == Some(f.title) && b.description == Some(f.description)
    ensures b.shortDescription == Some(f.shortDescription) && b.githubUrl == Some(f.githubUrl)
    ensures b.liveUrl == Some(f.liveUrl) && b.image == Some(f.image)
    ensures b.featured == Some(f.featured) && b.status == Some(f.status) && b.order == Some(f.order)
    ensures b.technologies == Some(AdminForms.ParseList(f.technologies, TechnologySeparator))
  {
    ProjectsRoute.ProjectBody(
      Some(f.title), Some(f.description), Some(f.shortDescription), Some(AdminForms.ParseList(f.technologies, ',')),
      Some(f.githubUrl), Some(f.liveUrl), Some(f.image), Some(f.featured), Some(f.status), Some(f.order))
  }

  /** Opening a project in the form and saving it unchanged sends back the
      same title, description, flags, order and technologies, for
      technologies the codec keeps as they are; an absent optional text is
      sent as the empty string. */
  lemma EditThenSubmit(p: ProjectView)
    requires forall i :: 0 <= i < |p.technologies| ==> AdminForms.Storable(p.technologies[i], TechnologySeparator)
    ensures var b := Payload(EditForm(p));
      && b.title == Some(p.title) && b.description == Some(p.description)
      && b.featured == Some(p.featured) && b.status == Some(p.status) && b.order == Some(p.order)
      && b.technologies == Some(p.technologies)
      && (p.shortDescription.None? ==> b.shortDescription == Some(""))
      && (p.shortDescription.Some? ==> b.shortDescription == p.shortDescription)
      && (p.githubUrl.None? ==> b.githubUrl == Some(""))
      && (p.githubUrl.Some? ==> b.githubUrl == p.githubUrl)
      && (p.liveUrl.None? ==> b.liveUrl == Some(""))
      && (p.liveUrl.Some? ==> b.liveUrl == p.liveUrl)
      && (p.image.None? ==> b.image == Some(""))
      && (p.image.Some? ==> b.image == p.image)
  {
    var f := EditForm(p);
    var b := Payload(f);
    assert Text.AllSpace(TechnologyPadding);
    AdminForms.ParseShowRoundTrip(p.technologies, TechnologySeparator, TechnologyPadding);
    assert b.technologies == Some(p.technologies);
    SentAsStored(p.shortDescription);
    SentAsStored(p.githubUrl);
    SentAsStored(p.liveUrl);
    SentAsStored(p.image);
  }

  /** An optional text shown as `x || ''` and sent back is the stored text,
      or the empty string when there was none. */
  lemma SentAsStored(o: Option<string>)
    ensures o.None? ==> Some(OrElse(o, "")) == Some("")
    ensures o.Some? ==> Some(OrElse(o, "")) == o
  {
  }

  /** A blank form with only a title and a description filled in creates a
      project with the schema's defaults: no technologies, not featured,
      Completed, order 0. */
  lemma BlankFormCreatesDefaults(title: string, description: string, id: nat, now: int)
    requires title != "" && description != ""
    ensures var b := Payload(BlankForm().(title := title, description := description));
      && !ProjectsRoute.SchemaRejects(b)
      && var x := ProjectsRoute.NewProject(b, id, now);
         x.technologies == [] && !x.featured && x.status == Portfolio.Completed && x.order == 0
  {
    AdminForms.ParseEmpty(TechnologySeparator);
  }
}
