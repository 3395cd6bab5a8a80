# Portfolio content API — a Dafny model

This project models the server side of a personal portfolio site, plus the form logic of two of its admin screens:

- **Request guard.** A request carries a bearer token in the `authorization` header or in the `auth-token` cookie. A JWT verifier, which is foreign code, admits or rejects the token.
- **Content schemas.** Bio, skill, project, experience and contact info each have:
  - enumerations (skill category and level, project status, availability)
  - required fields
  - defaults
- **Route handlers.**
  - The public GET reads each collection: the newest bio and contact info, and skills, projects and experience sorted by `order` and then by date.
  - The guarded POST creates or updates entries, with the checks in the handler's own order:
    1. guard
    2. body
    3. required fields
    4. duplicate name or title
    5. schema enumeration at save
- **Upload route.** A validation chain, the file name built from the clock and the original extension, and the public URL it answers with.
- **Admin setup route.** Creates the single admin account once.
- **Contact form route.** Checks the fields and the email format, then sends the owner's notification and the sender's auto-reply, in that order.
- **Admin managers** (experience and projects):
  - the list fields edited as one line of text: split, trim, drop the empty pieces, and join back
  - the edit and blank forms
  - the payload sent to the routes
  - the `current` checkbox
  - the choice between PUT to the edited entry and POST to the collection

Each collection that the handlers query and mutate is a class holding a `seq` of documents: `BioStore`, `SkillStore`, `ProjectStore`, `ExperienceStore`, `ContactInfoStore` and `UserStore`. The upload directory is `UploadDir`, a map from public URL to file. Each POST is a method that `modifies` its store and states the whole new state for every branch.

A JavaScript value in a request body is an `Option`. Absent means `None`. Truthiness follows JavaScript: `""`, `0` and `false` are falsy, and arrays are always truthy. Every `||` default of the source is modelled by one of JsValues' `Or`, `OrElse`, `NumberOr`, `BoolOrFalse` or `ArrayOrEmpty`.

Foreign calls and I/O become parameters:

- the JWT verifier: `Auth.Jwt`
- the store's date cast: `ExperienceRoute.DateCast`
- the clock: `now`
- the mail transport: `deliver`
- the owner's mail address: `owner`

A body that `request.json()` cannot parse is `None`.

Files, one module each: `js_values.dfy`, `http.dfy`, `text.dfy`, `ordering.dfy`, `auth.dfy`, `portfolio.dfy`, `bio_route.dfy`, `contact_info_route.dfy`, `skills_route.dfy`, `projects_route.dfy`, `experience_route.dfy`, `upload_route.dfy`, `setup_route.dfy`, `contact_route.dfy`, `admin_forms.dfy`, `experience_manager.dfy`, `projects_manager.dfy`.

## Model

| member | source | states |
|---|---|---|
| Auth.TokenFromRequest | src/lib/auth.ts:33-47 | A `Bearer ` header wins, and its token is the rest of the header. Otherwise a non-empty cookie is used, otherwise there is no token. The only empty token comes from a header of exactly `Bearer `. |
| Auth.VerifyToken | src/lib/auth.ts:24-30 | Rejected exactly when the verifier fails, and always with the single error `Invalid token`. Otherwise it returns the verifier's payload. |
| Auth.RequireAuth | src/lib/auth.ts:50-58 | A falsy token gives `No token provided`. Otherwise the answer is the verification of that token. |
| Auth.AdmittedIff | src/lib/auth.ts:33-58 | A request is admitted if and only if it carries a non-empty token that the verifier accepts. A header of exactly `Bearer ` is refused without looking at the cookie. |
| Auth.RejectionIsUnauthorized | src/app/api/upload/route.ts:92-97 | Every rejection of the guard carries one of the two texts, `No token provided` or `Invalid token`, that the handlers answer with 401. |
| Auth.NoTokenIgnoresVerifier | src/lib/auth.ts:51-55 | Without a token, every verifier gives the same rejection, so the verifier is never consulted. |
| Portfolio.ParseCategory | src/models/Portfolio.ts:15-19 | The enum check accepts a string exactly when it is the name of a category (both directions). |
| Portfolio.ParseLevel | src/models/Portfolio.ts:20-24 | The enum check accepts a string exactly when it is the name of a level. |
| Portfolio.ParseStatus | src/models/Portfolio.ts:39-43 | The enum check accepts a string exactly when it is the name of a status (`In Progress` with its space). |
| Portfolio.ParseAvailability | src/models/Portfolio.ts:98-102 | The enum check accepts a string exactly when it is the name of an availability value. |
| Portfolio.CategoryRoundTrip | src/models/Portfolio.ts:15-19 | Every category is accepted under its own name. |
| Portfolio.LevelRoundTrip | src/models/Portfolio.ts:20-24 | Every level is accepted under its own name. |
| Portfolio.StatusRoundTrip | src/models/Portfolio.ts:39-43 | Every status is accepted under its own name. |
| Portfolio.AvailabilityRoundTrip | src/models/Portfolio.ts:98-102 | Every availability value is accepted under its own name. |
| Portfolio.DefaultsAreSchemaValues | src/models/Portfolio.ts:20-43 | The default level, status and availability are accepted values and are Intermediate, Completed and Available. |
| Ordering.SortBy | src/app/api/portfolio/skills/route.ts:11 | The listing is a permutation of the collection and is ordered by its two-part key. |
| Ordering.Insert | src/app/api/portfolio/skills/route.ts:11 | Inserting into an ordered list keeps it ordered and adds exactly the new element. |
| Ordering.Newest | src/app/api/portfolio/bio/route.ts:11 | The result is absent only for an empty collection. Otherwise it is an element of the collection, created no earlier than any other. |
| BioRoute.Merge | src/app/api/portfolio/bio/route.ts:45-52 | An update overwrites title, subtitle and description. Each link keeps its stored value unless the request has a truthy one. The id and creation time stay, and the result meets the schema. |
| BioRoute.MergeIdempotent | src/app/api/portfolio/bio/route.ts:45-52 | Repeating an update changes nothing further. |
| BioRoute.BioStore.Get | src/app/api/portfolio/bio/route.ts:7-22 | Returns the newest bio, or nothing when there is none. |
| BioRoute.BioStore.Post | src/app/api/portfolio/bio/route.ts:25-85 | 401 on a rejected guard, 500 on an unreadable body, 400 on a missing field, each with the store unchanged. Otherwise 200: the first stored bio is merged in place and the others are untouched, or the first bio is created. The count is max(old, 1). |
| ContactInfoRoute.Merge | src/app/api/portfolio/contact-info/route.ts:32-41 | The email is overwritten. Each of phone, location, linkedin, github, twitter and website takes the request's value when it is truthy and keeps its stored value otherwise. A truthy availability is stored under its own name, and a falsy one keeps the stored value. |
| ContactInfoRoute.Create | src/app/api/portfolio/contact-info/route.ts:42-47 | The first record holds the fields as sent, with availability defaulting to Available. |
| ContactInfoRoute.ContactInfoStore.Get | src/app/api/portfolio/contact-info/route.ts:7-16 | Returns the newest record, or nothing. |
| ContactInfoRoute.ContactInfoStore.Post | src/app/api/portfolio/contact-info/route.ts:19-59 | 401, 500 (unreadable body), 400 `Email is required`, 500 (availability outside the enumeration), each with the store unchanged. Otherwise 200: the first record is merged, or one is created. |
| SkillsRoute.NewSkill | src/app/api/portfolio/skills/route.ts:51-57 | The new skill has the given name, category and icon. Level defaults to Intermediate and order to 0 (also for an order of 0). It meets the schema. |
| SkillsRoute.SkillStore.Get | src/app/api/portfolio/skills/route.ts:7-22 | A permutation of the stored skills, by order and then by creation time, both ascending. |
| SkillsRoute.SkillStore.Post | src/app/api/portfolio/skills/route.ts:25-82 | The checks answer in order: 401, 500 (body), 400 required, 400 duplicate name ignoring case, 500 (enum at save), each with the store unchanged. Otherwise exactly one skill is appended with 201. With requests handled one at a time, the store stays free of case-variant duplicates and of repeated ids. |
| SkillsRoute.CaseVariantIsDuplicate | src/app/api/portfolio/skills/route.ts:43-49 | A name differing from a stored one only in letter case counts as taken. |
| ProjectsRoute.NewProject | src/app/api/portfolio/projects/route.ts:64-75 | The new project has the given texts. Technologies default to `[]`, featured holds only when sent as true, status defaults to Completed and order to 0. It meets the schema. |
| ProjectsRoute.MinimalRequestDefaults | src/app/api/portfolio/projects/route.ts:64-75 | A request with only a title and a description gets every default. |
| ProjectsRoute.ProjectStore.Get | src/app/api/portfolio/projects/route.ts:7-22 | A permutation of the stored projects, by order ascending and then newest first. |
| ProjectsRoute.ProjectStore.Post | src/app/api/portfolio/projects/route.ts:25-99 | The checks answer in order: 401, 500, 400 required, 400 duplicate title ignoring case, 500 (status outside the enumeration), each with the store unchanged. Otherwise exactly one project is appended with 201. With requests handled one at a time, the titles stay distinct ignoring case. |
| ExperienceRoute.NewExperience | src/app/api/portfolio/experience/route.ts:30-34 | The new entry has the given texts and the dates as cast. An absent or empty end date is no date. current holds only when sent as true, the lists default to empty and order to 0. It meets the schema. |
| ExperienceRoute.ExperienceStore.Get | src/app/api/portfolio/experience/route.ts:7-16 | A permutation of the stored entries, by order ascending and then latest start first. |
| ExperienceRoute.ExperienceStore.Post | src/app/api/portfolio/experience/route.ts:19-46 | 401, 500 (body), 400 required, 500 (a date the store cannot cast), each with the store unchanged. Otherwise exactly one entry is appended with 201. |
| ExperienceRoute.PostTwice | src/app/api/portfolio/experience/route.ts:30-37 | There is no uniqueness check: two identical valid requests create two entries with distinct ids. |
| UploadRoute.ParseKind | src/app/api/upload/route.ts:22-27 | Exactly `image` and `resume` are accepted types. |
| UploadRoute.Validate | src/app/api/upload/route.ts:15-55 | The first failing check answers: no file, bad type, over 10 MiB, MIME outside the type's list. A file passes if and only if none of them fails. |
| UploadRoute.Extension | src/app/api/upload/route.ts:71 | The extension is the dot-free suffix after the last dot, or the whole name when there is no dot. |
| UploadRoute.UrlShape | src/app/api/upload/route.ts:70-79 | The URL is the type's directory and prefix, the decimal digits of the timestamp (which read back as it), a dot and a dot-free extension. |
| UploadRoute.DistinctTimesDistinctUrls | src/app/api/upload/route.ts:70-79 | Two uploads of one type at different milliseconds never share a URL. |
| UploadRoute.SizeLimitIsInclusive | src/app/api/upload/route.ts:30-36 | A file of exactly 10 MiB passes the size check, and one byte more fails it. |
| UploadRoute.UploadDir.Post | src/app/api/upload/route.ts:6-104 | 401, 500 (unreadable form), 400 with the validation message, each with the directory unchanged. Then 500 with the directory unchanged when the extension holds a `/` or a NUL character, so the file cannot be written. Otherwise the file is stored under its public URL and the reply names that URL, the file name, the size and the type. |
| UploadRoute.SlashInExtensionIsUnwritable | src/app/api/upload/route.ts:71-76 | A name such as `a.b/c` has the extension `b/c`, which cannot be written. |
| SetupRoute.AdminCount | src/app/api/auth/setup/route.ts:10-11 | The count of admin accounts is zero exactly when no admin is found. |
| SetupRoute.NewAdmin | src/app/api/auth/setup/route.ts:29-34 | The account has the admin role and the given password, and its email is the given one lower-cased. The name defaults to `Admin User`. |
| SetupRoute.UserStore.Post | src/app/api/auth/setup/route.ts:5-53 | An existing admin gives 400 before the body is read. Then 500 on an unreadable body, then 400 when email or password is missing. Otherwise one admin is appended and 201 echoes the email as sent. With requests handled one at a time, there is never more than one admin. |
| SetupRoute.SetupTwice | src/app/api/auth/setup/route.ts:10-16 | After one successful setup, any second request is refused, and exactly one admin remains. |
| ContactRoute.EmailCheckMatchesPattern | src/app/api/contact/route.ts:17-23 | The runnable format check accepts exactly the strings that the `[^\s@]+@[^\s@]+\.[^\s@]+` pattern describes (both directions). |
| ContactRoute.ReplaceNewlines | src/app/api/contact/route.ts:54 | The owner's copy has no line break left, and text without one is unchanged. |
| ContactRoute.ReplaceNewlinesBreak | src/app/api/contact/route.ts:54 | A line break becomes `<br>` in its place, and the text on either side of it is replaced on its own. |
| ContactRoute.ReplaceNewlinesLength | src/app/api/contact/route.ts:54 | Each line break grows the text by three characters. |
| ContactRoute.ReplaceNewlinesAppend | src/app/api/contact/route.ts:54 | The replacement works piece by piece over concatenation. |
| ContactRoute.Summary | src/app/api/contact/route.ts:92 | A message of at most 100 characters is kept whole. A longer one becomes its first 100 characters and `...`. |
| ContactRoute.Post | src/app/api/contact/route.ts:4-135 | 500 on an unreadable body, 400 `All fields are required`, then 400 `Invalid email format`, with no mail sent. Then the notification and the auto-reply go out in order, and any failed send gives 500 after what went out. Success (200) means both mails were sent. The transport is the parameter `deliver`, which stands for a working transport (see Findings). |
| ContactRoute.CreateTransporterFails | src/app/api/contact/route.ts:25-32 | With the transport the handler obtains, nothing is ever sent and no request answers 200. A request that passes validation answers 500 `Failed to send email`. |
| ContactRoute.WorkingTransportSendsBoth | src/app/api/contact/route.ts:120-126 | With a transport that delivers, a valid request sends the notification and then the auto-reply to the sender, and answers 200. |
| ContactRoute.MailGoesOnlyToCheckedAddresses | src/app/api/contact/route.ts:35-74 | Mail goes only to the owner and to the submitted address, which has the pattern's shape. The owner's copy has the prefixed subject and the message with `<br>` line breaks. |
| AdminForms.ParseList | src/components/admin/ExperienceManager.tsx:63-64 | Every parsed element is non-empty, trimmed and free of the separator. |
| AdminForms.DropEmpty | src/components/admin/ProjectsManager.tsx:65 | The filter keeps only non-empty elements of the input. It keeps everything when none is empty and drops everything when all are. |
| AdminForms.DropEmptyKeepsNonEmpty | src/components/admin/ProjectsManager.tsx:65 | The result holds every non-empty element of the input as often as it occurs there, and no empty one. |
| AdminForms.DropEmptyAppend | src/components/admin/ProjectsManager.tsx:65 | The filter keeps order: it works piece by piece over concatenation. |
| AdminForms.DropEmptyOne | src/components/admin/ProjectsManager.tsx:65 | A single element is kept exactly when it is non-empty. |
| AdminForms.ParseSkipsEmptyPieces | src/components/admin/ExperienceManager.tsx:63 | A doubled separator stands for no element: `x` and `y` joined by two separators parse to `[x, y]`, for non-empty, trimmed, separator-free `x` and `y`. |
| AdminForms.ParseShowRoundTrip | src/components/admin/ExperienceManager.tsx:61-112 | Parsing the shown text gives the list back. This holds for elements that are non-empty, trimmed and free of the separator, joined by the separator and whitespace. |
| AdminForms.ParseIsStable | src/components/admin/ProjectsManager.tsx:65 | A parsed list, shown and parsed again, is unchanged. |
| AdminForms.SaveTarget | src/components/admin/ProjectsManager.tsx:69-73 | PUT exactly when an entry is being edited, to the collection URL followed by `/` and the id. Otherwise POST to the collection. |
| ExperienceManager.FormDate | src/components/admin/ExperienceManager.tsx:107-108 | The form date is the prefix of the timestamp before its first `T`, or the whole string when there is none. |
| ExperienceManager.EditForm | src/components/admin/ExperienceManager.tsx:101-116 | Text fields are copied and a missing location becomes `""`. The dates are cut to their date part, and a missing end date becomes `""`. The lists are shown joined by `, ` and by a line break. |
| ExperienceManager.ToggleCurrent | src/components/admin/ExperienceManager.tsx:261 | Checking `current` clears the end date, unchecking keeps it, and nothing else changes. |
| ExperienceManager.Payload | src/components/admin/ExperienceManager.tsx:61-65 | Every form field is sent as it is, and the two lists are parsed. |
| AdminForms.ManagerSaveTargets | src/components/admin/ExperienceManager.tsx:68-72 | The experience manager PUTs to `/api/portfolio/experience/{id}` while editing and otherwise POSTs to `/api/portfolio/experience`. The projects manager (ProjectsManager.tsx lines 69 to 73) does the same with `/api/portfolio/projects`. |
| ExperienceManager.BlankForm | src/components/admin/ExperienceManager.tsx:25-36 | The initial and reset form is empty, not current, with order 0. |
| ExperienceManager.EditThenSubmit | src/components/admin/ExperienceManager.tsx:61-114 | Opening an entry and saving it unchanged sends back its texts, flag, order and lists, and its start date as its date part. The location is sent as stored or as `""`, and the end date as its date part or as `""` when absent. |
| ExperienceManager.CurrentMeansNoEndDate | src/components/admin/ExperienceManager.tsx:261 | A form saved with `current` checked creates an entry that is current and has no end date. |
| ProjectsManager.BlankForm | src/components/admin/ProjectsManager.tsx:25-36 | The initial form is empty, not featured, Completed, with order 0. |
| ProjectsManager.StatusChoicesAreSchemaValues | src/components/admin/ProjectsManager.tsx:39 | Every choice of the status selector, including the blank form's status, is accepted by the schema. |
| ProjectsManager.EditForm | src/components/admin/ProjectsManager.tsx:102-117 | Texts, flag, status and order are copied. An absent short description, repository link, live link or image becomes `""`. Technologies are shown joined by `, `. |
| ProjectsManager.Payload | src/components/admin/ProjectsManager.tsx:63-66 | Every form field is sent as it is, and the technologies are parsed. |
| ProjectsManager.EditThenSubmit | src/components/admin/ProjectsManager.tsx:63-115 | Opening a project and saving it unchanged sends back its texts, flags, order and technologies. Each of the short description, repository link, live link and image is sent as stored, or as `""` when absent. |
| ProjectsManager.BlankFormCreatesDefaults | src/components/admin/ProjectsManager.tsx:145-157 | A reset form with only a title and a description creates a project with no technologies, not featured, Completed, order 0. |
| Text.Split | src/app/api/upload/route.ts:71 | `split` on one character: at least one piece, no piece holds the separator, and joining the pieces gives the input back. |
| Text.SplitJoin | src/components/admin/ProjectsManager.tsx:108 | Splitting a join of separator-free pieces gives the pieces back. |
| Text.Trim | src/components/admin/ProjectsManager.tsx:65 | The result has no surrounding whitespace. |
| Text.TrimOfPadded | src/components/admin/ProjectsManager.tsx:65 | `trim` removes exactly the surrounding whitespace of a trimmed string. |
| Text.DecimalRoundTrip | src/app/api/upload/route.ts:70-72 | The decimal digits of a timestamp read back as the timestamp. |

## Left out

- Signature, expiry and secret handling of the JWT library, and `generateToken`. The verifier is the parameter `jwt`.
- The database connection and storage failures other than a schema rejection. In the store handlers (bio, contact-info, skills, projects, experience, setup), only an unreadable body and a value that fails the schema lead to 500 in the model.
- SkillsRoute.NameTaken: weaker than the source. The source builds a case-insensitive regular expression from the raw name (`^name$`), and the model uses equality ignoring ASCII letter case, which is what the lookup evidently intends. With regular-expression characters in the name the source behaves otherwise: a `.` matches any character, and a name such as `C++` makes the expression invalid, so that request answers 500.
- ProjectsRoute.TitleTaken: weaker than the source in the same way as the skill name check.
- Text.ToLower: lower-cases ASCII letters only. JavaScript's full Unicode case mapping is not modelled.
- ContactRoute.Summary: strings are sequences of code points, not UTF-16 code units, so the model's `length` and `substring` count code points. A message holding characters outside the Basic Multilingual Plane (the first 65,536 code points, such as emoji) is cut at a different place than in the source, and its length test can differ too.
- Non-string JSON values in a body, such as a number where a string is expected. Body fields are modelled as absent or of their declared type.
- The `order` field of skills, projects and experience is a JavaScript number in the schema, so it may hold a fraction such as 1.5. The model keeps `order` as an integer, so it does not cover non-integer orders in a request, in a stored document or in the sorting keys.
- The `updatedAt` timestamp, and the `_id` values as the store generates them. Ids are a counter in each store.
- The Education and Certification schemas. No handler among the modelled files uses them.
- The PUT and DELETE routes under `[id]`, and the login and logout routes. These are not part of this model.
- The User model, including password hashing and a unique email, is not part of this model. A save failure of the admin account is not modelled.
- The bytes of an uploaded file and `mkdir`. The upload directory is the map `UploadDir.files`, keyed by public URL.
- UploadRoute.UploadDir.Post: write failures other than an unwritable extension are not modelled. These include a full disk, missing permissions and a failed `mkdir`. The source answers 500 for them, and the model stores the file.
- nodemailer, its configuration, and the HTML around the submitted text in both mails. The transport is the parameter `deliver`. The handler calls `createTransporter`, which nodemailer does not provide, so as written every validated request answers 500 and sends nothing (see Findings).
- React state, effects, fetch and response handling, and the messages shown in the admin managers. The BioManager and ContactInfoManager screens and the public contact forms are also left out.
- SetupRoute.UserStore.Post, SkillsRoute.SkillStore.Post, ProjectsRoute.ProjectStore.Post: requests are modelled one at a time, each running to completion. In the source, each of these handlers awaits a lookup of the store and later awaits the save, so another request can run in between. Two concurrent requests can therefore both pass the check, and the database then holds two admins, or two skills or projects whose names differ only in case. The `Valid()` invariants (at most one admin, no case-variant duplicates) hold only for requests handled one at a time. The regular-expression lookup admitted on the SkillsRoute.NameTaken and ProjectsRoute.TitleTaken lines is a second way the duplicate invariant can fail in the source.
- The singleton routes (bio, contact-info) write the first stored record, while GET answers the newest one. The model keeps both as written and does not claim they are the same record when more than one exists.
- The contact-info POST checks only that an email is present, not its format. The model does the same.
- The experience POST does not require an end date for a position that is not current, and neither does the model.
- The error replies' JSON key (`error`, or `message` for an existing admin) is not distinguished. Every failure is an `Error(status, text)` reply.

## Findings

| source | as written | input that shows it | evidently intended | confidence | as-written member | corrected member |
|---|---|---|---|---|---|---|
| src/app/api/contact/route.ts:26 | The transport is built with `nodemailer.createTransporter`. nodemailer's factory is `createTransport`, so the call throws a TypeError and the catch answers 500 `Failed to send email`. | Any body with name, a valid email, subject and message, for example `{name: "A", email: "a@b.co", subject: "Hi", message: "x"}`: it answers 500 and no mail is sent. | Build a working transport, send the notification and then the auto-reply, and answer 200. | not executed; it rests on nodemailer's published API | ContactRoute.CreateTransporterFails | ContactRoute.WorkingTransportSendsBoth |
