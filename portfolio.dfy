/** The content schemas of src/models/Portfolio.ts: one record per stored
    document, the enumerations, the defaults, and what the schema's `required`
    flags demand of a document before it can be saved (a required string
    field must be non-empty). `id` stands for the store's `_id` and
    `createdAt` for the `timestamps` field. */
module Portfolio {
  import opened JsValues

  datatype SkillCategory = Frontend | Backend | Database | Tools | Other

  function CategoryName(c: SkillCategory): string {
    match c
    case Frontend => "Frontend"
    case Backend => "Backend"
    case Database => "Database"
    case Tools => "Tools"
    case Other => "Other"
  }

  /** The schema's `enum` check on a category string. */
  function ParseCategory(s: string): (r: Option<SkillCategory>)
    ensures r.Some? ==> CategoryName(r.value) == s
    ensures r.None? ==> forall c :: CategoryName(c) != s
  {
    if s == "Frontend" then Some(Frontend)
    else if s == "Backend" then Some(Backend)
    else if s == "Database" then Some(Database)
    else if s == "Tools" then Some(Tools)
    else if s == "Other" then Some(Other)
    else None
  }

  datatype SkillLevel = Beginner | Intermediate | Advanced | Expert

  function LevelName(l: SkillLevel): string {
    match l
    case Beginner => "Beginner"
    case Intermediate => "Intermediate"
    case Advanced => "Advanced"
    case Expert => "Expert"
  }

  function ParseLevel(s: string): (r: Option<SkillLevel>)
    ensures r.Some? ==> LevelName(r.value) == s
    ensures r.None? ==> forall l :: LevelName(l) != s
  {
    if s == "Beginner" then Some(Beginner)
    else if s == "Intermediate" then Some(Intermediate)
    else if s == "Advanced" then Some(Advanced)
    else if s == "Expert" then Some(Expert)
    else None
  }

  const DefaultLevel := "Intermediate"

  datatype ProjectStatus = Completed | InProgress | Planned

  function StatusName(s: ProjectStatus): string {
    match s
    case Completed => "Completed"
    case InProgress => "In Progress"
    case Planned => "Planned"
  }

  function ParseStatus(s: string): (r: Option<ProjectStatus>)
    ensures r.Some? ==> StatusName(r.value) == s
    ensures r.None? ==> forall st :: StatusName(st) != s
  {
    if s == "Completed" then Some(Completed)
    else if s == "In Progress" then Some(InProgress)
    else if s == "Planned" then Some(Planned)
    else None
  }

  const DefaultStatus := "Completed"

  datatype Availability = Available | Busy | NotAvailable

  function AvailabilityName(a: Availability): string {
    match a
    case Available => "Available"
    case Busy => "Busy"
    case NotAvailable => "Not Available"
  }

  function ParseAvailability(s: string): (r: Option<Availability>)
    ensures r.Some? ==> AvailabilityName(r.value) == s
    ensures r.None? ==> forall a :: AvailabilityName(a) != s
  {
    if s == "Available" then Some(Available)
    else if s == "Busy" then Some(Busy)
    else if s == "Not Available" then Some(NotAvailable)
    else None
  }

  const DefaultAvailability := "Available"

  /** Every enumeration value is accepted under its own name, so a stored
      value survives being read back. */
  lemma CategoryRoundTrip(c: SkillCategory)
    ensures ParseCategory(CategoryName(c)) == Some(c)
  {
    match c
    case Frontend => case Backend => case Database => case Tools => case Other =>
  }

  lemma LevelRoundTrip(l: SkillLevel)
    ensures ParseLevel(LevelName(l)) == Some(l)
  {
    match l
    case Beginner => case Intermediate => case Advanced => case Expert =>
  }

  lemma StatusRoundTrip(s: ProjectStatus)
    ensures ParseStatus(StatusName(s)) == Some(s)
  {
    match s
    case Completed => case InProgress => case Planned =>
  }

  lemma AvailabilityRoundTrip(a: Availability)
    ensures ParseAvailability(AvailabilityName(a)) == Some(a)
  {
    match a
    case Available => case Busy => case NotAvailable =>
  }

  /** The schema default of `order` for skills, projects and experience. */
  const DefaultOrder := 0

  /** The schema defaults, read back through the enum checks: each default
      string is an accepted value, and it is the one the source names. */
  lemma DefaultsAreSchemaValues()
    ensures ParseLevel(DefaultLevel) == Some(Intermediate)
    ensures ParseStatus(DefaultStatus) == Some(Completed)
    ensures ParseAvailability(DefaultAvailability) == Some(Available)
  {
  }

  datatype Bio = Bio(
    id: nat,
    title: string,
    subtitle: string,
    description: string,
    profileImage: Option<string>,
    resumeLink: Option<string>,
    createdAt: int)

  predicate BioMeetsSchema(b: Bio) {
    b.title != "" && b.subtitle != "" && b.description != ""
  }

  datatype Skill = Skill(
    id: nat,
    name: string,
    category: SkillCategory,
    level: SkillLevel,
    icon: Option<string>,
    order: int,
    createdAt: int)

  predicate SkillMeetsSchema(s: Skill) {
    s.name != ""
  }

  datatype Project = Project(
    id: nat,
    title: string,
    description: string,
    shortDescription: Option<string>,
    technologies: seq<string>,
    githubUrl: Option<string>,
    liveUrl: Option<string>,
    image: Option<string>,
    featured: bool,
    status: ProjectStatus,
    order: int,
    createdAt: int)

  predicate ProjectMeetsSchema(p: Project) {
    p.title != "" && p.description != ""
  }

  /** `startDate` and `endDate` are the store's dates, as milliseconds; a
      missing `endDate` is a current position. */
  datatype Experience = Experience(
    id: nat,
    company: string,
    position: string,
    location: Option<string>,
    startDate: int,
    endDate: Option<int>,
    current: bool,
    description: string,
    technologies: seq<string>,
    achievements: seq<string>,
    companyLogo: Option<string>,
    order: int,
    createdAt: int)

  predicate ExperienceMeetsSchema(e: Experience) {
    e.company != "" && e.position != "" && e.description != ""
  }

  datatype ContactInfo = ContactInfo(
    id: nat,
    email: string,
    phone: Option<string>,
    location: Option<string>,
    linkedin: Option<string>,
    github: Option<string>,
    twitter: Option<string>,
    website: Option<string>,
    availability: Availability,
    createdAt: int)

  predicate ContactInfoMeetsSchema(c: ContactInfo) {
    c.email != ""
  }
}
