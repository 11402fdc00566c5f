/** The jobs page: the create form and the payload it posts, the edit form
    and the patch it sends, the employer list, registering an employer from
    inside the create form, and merging a point picked on the map. */
module Jobs {
  import opened Js
  import opened Text
  import opened Seqs

  /** A form input's value: text the admin typed, or a number the page put
      there itself (`notify_radius_m: 500`, or a job's stored radius). */
  datatype Value = Text(text: string) | Number(n: int)

  /** Truthiness of a form value: the empty text and 0 are falsy. */
  predicate IsSet(v: Value)
  {
    if v.Text? then v.text != "" else v.n != 0
  }

  /** JavaScript's `Number()` on typed text: the number it denotes, or
      `None` for NaN, which `JSON.stringify` sends as `null`. Parsing
      decimal text is outside the model, so every operation that converts
      text takes the conversion as a parameter; nothing is assumed of it,
      so it may fail on any text and may map different texts (`"40.4"`
      and `"40.40"`) to the same number. */
  type NumberParser = string -> Option<real>

  /** `v ? Number(v) : null`: a blank value, or text that is not a number,
      is sent as `null`; a number the page put there itself is sent as is. */
  function NumberOrNull(num: NumberParser, v: Value): (r: Option<real>)
    ensures r.None? <==> !IsSet(v) || (v.Text? && num(v.text).None?)
    ensures r.Some? && v.Number? ==> r.value == v.n as real
    ensures r.Some? && v.Text? ==> r == num(v.text)
  {
    if !IsSet(v) then None
    else if v.Number? then Some(v.n as real)
    else num(v.text)
  }

  /** `v ? Number(v) : null` for a coordinate typed or picked as text. */
  function CoordinateOrNull(num: NumberParser, v: string): (r: Option<real>)
    ensures r.Some? <==> v != "" && num(v).Some?
    ensures r.Some? ==> r == num(v)
  {
    if v != "" then num(v) else None
  }

  const PhonePrefix: string := "+994"
  const DefaultRadius: int := 500
  const OpenStatus: string := "open"

  // ---------------------------------------------------------------- creating a job

  /** `createForm`. Coordinates are the text of the two inputs. */
  datatype CreateForm = CreateForm(
    createdBy: string, title: string, category: string, wage: string,
    whatsapp: string, contactPhone: string, contactLink: string, description: string,
    isDaily: bool, notifyRadius: Value, lat: string, lng: string, address: string)

  /** `openCreate`: an empty form with both phone fields at the country
      prefix, a 500 m radius and not daily. */
  function OpenCreate(): (f: CreateForm)
    ensures f.createdBy == "" && f.title == "" && f.lat == "" && f.lng == ""
    ensures f.whatsapp == PhonePrefix && f.contactPhone == PhonePrefix
    ensures f.notifyRadius == Number(DefaultRadius) && !f.isDaily
    ensures f.category == "" && f.wage == "" && f.contactLink == "" && f.description == "" && f.address == ""
  {
    CreateForm("", "", "", "", PhonePrefix, PhonePrefix, "", "", false, Number(DefaultRadius), "", "", "")
  }

  /** The body of `POST /admin/jobs`. */
  datatype JobPayload = JobPayload(
    createdBy: string, title: string, category: Option<string>, wage: Option<string>,
    whatsapp: Option<string>, contactPhone: Option<string>, contactLink: Option<string>,
    description: string, isDaily: bool, notifyRadius: Option<real>,
    lat: Option<real>, lng: Option<real>, address: Option<string>, status: string)

  datatype CreateResult = Refused(message: string) | Post(payload: JobPayload)

  const TitleRequired: string := "Başlıq boş ola bilməz"
  const EmployerRequired: string := "Elanı hansı işçi axtaran (employer) adına yaratmaq lazımdır?"
  const LocationRequired: string := "Lokasiya seçilməlidir (xəritədən seçin)"

  /** The payload `createJob` builds from a form that passed its checks. */
  function CreatePayload(num: NumberParser, f: CreateForm): JobPayload
  {
    JobPayload(f.createdBy, f.title, OrNull(f.category), OrNull(f.wage),
               OrNull(f.whatsapp), OrNull(f.contactPhone), OrNull(f.contactLink),
               f.description, f.isDaily, NumberOrNull(num, f.notifyRadius),
               CoordinateOrNull(num, f.lat), CoordinateOrNull(num, f.lng), OrNull(f.address), OpenStatus)
  }

  /** `createJob`: a job is posted exactly when its trimmed title, its
      employer and both coordinates are present; otherwise the first failing
      check's message is shown and nothing is sent. A posted job is always
      `open`; each coordinate goes as the number its text denotes, or as
      `null` when the text is not a number (the check only asks for text). */
  function CreateJob(num: NumberParser, f: CreateForm): (r: CreateResult)
    ensures r.Post? <==> Trim(f.title) != "" && f.createdBy != "" && f.lat != "" && f.lng != ""
    ensures r.Refused? && Trim(f.title) == "" ==> r.message == TitleRequired
    ensures r.Refused? && Trim(f.title) != "" && f.createdBy == "" ==> r.message == EmployerRequired
    ensures r.Refused? && Trim(f.title) != "" && f.createdBy != "" ==> r.message == LocationRequired
    ensures r.Post? ==> r.payload.status == OpenStatus
    ensures r.Post? ==> (r.payload.lat.Some? <==> num(f.lat).Some?) && (r.payload.lng.Some? <==> num(f.lng).Some?)
    ensures r.Post? ==> r.payload == CreatePayload(num, f)
  {
    if Trim(f.title) == "" then Refused(TitleRequired)
    else if f.createdBy == "" then Refused(EmployerRequired)
    else if f.lat == "" || f.lng == "" then Refused(LocationRequired)
    else Post(CreatePayload(num, f))
  }

  /** Reads the text fields of a form back from a payload (`null` back to
      the empty text); the numeric fields are left blank, since `Number()`
      does not keep the text it was given. */
  function TextsOf(p: JobPayload): CreateForm
  {
    CreateForm(p.createdBy, p.title, OrElse(p.category, ""), OrElse(p.wage, ""),
               OrElse(p.whatsapp, ""), OrElse(p.contactPhone, ""), OrElse(p.contactLink, ""),
               p.description, p.isDaily, Text(""), "", "", OrElse(p.address, ""))
  }

  /** The payload loses none of the form's text fields: blank ones go as
      `null` and every other one as typed. The radius and the coordinates
      go as the numbers their texts denote. */
  lemma CreatePayloadKeepsForm(num: NumberParser, f: CreateForm)
    ensures TextsOf(CreatePayload(num, f)) == f.(notifyRadius := Text(""), lat := "", lng := "")
    ensures CreatePayload(num, f).lat == CoordinateOrNull(num, f.lat)
    ensures CreatePayload(num, f).lng == CoordinateOrNull(num, f.lng)
    ensures CreatePayload(num, f).notifyRadius == NumberOrNull(num, f.notifyRadius)
  {
  }

  /** The location check only asks for text: a typed coordinate that is not
      a number passes it, and the job is posted with a `null` coordinate. */
  lemma NonNumericCoordinateIsPostedAsNull(num: NumberParser, f: CreateForm)
    requires Trim(f.title) != "" && f.createdBy != "" && f.lat != "" && f.lng != ""
    requires num(f.lat).None?
    ensures CreateJob(num, f).Post? && CreateJob(num, f).payload.lat.None?
  {
  }

  /** A freshly opened form cannot be posted: its title is the first thing missing. */
  lemma OpenCreateIsRefused(num: NumberParser)
    ensures CreateJob(num, OpenCreate()) == Refused(TitleRequired)
  {
    assert AllWhitespace(OpenCreate().title);
    TrimBlankIff(OpenCreate().title);
  }

  // ---------------------------------------------------------------- editing a job

  /** A job as the server lists it; text fields may be missing. */
  datatype Job = Job(
    id: string, createdBy: string, status: Option<string>, title: Option<string>,
    category: Option<string>, wage: Option<string>, whatsapp: Option<string>,
    contactPhone: Option<string>, contactLink: Option<string>, description: Option<string>,
    isDaily: Option<bool>, notifyRadius: Option<int>, lat: Option<real>, lng: Option<real>,
    address: Option<string>)

  /** `selected`: the edit form, a copy of the job with its text fields filled in. */
  datatype EditForm = EditForm(
    id: string, createdBy: string, status: string, title: string, category: string,
    wage: string, whatsapp: string, contactPhone: string, contactLink: string,
    description: string, isDaily: Option<bool>, notifyRadius: Value,
    lat: Option<real>, lng: Option<real>, address: string)

  /** `n || ''` for a stored number: a missing radius or 0 becomes blank. */
  function RadiusValue(n: Option<int>): (v: Value)
    ensures IsSet(v) <==> n.Some? && n.value != 0
  {
    if n.Some? && n.value != 0 then Number(n.value) else Text("")
  }

  /** `openEdit`: status defaults to `open`, the contact phone to the
      country prefix, every other missing text to the empty text; the id,
      owner, daily flag and coordinates are kept as they are. */
  function OpenEdit(j: Job): (f: EditForm)
    ensures f.id == j.id && f.createdBy == j.createdBy && f.isDaily == j.isDaily
    ensures f.lat == j.lat && f.lng == j.lng
    ensures f.status == OrElse(j.status, OpenStatus) && f.contactPhone == OrElse(j.contactPhone, PhonePrefix)
    ensures f.title == OrElse(j.title, "") && f.category == OrElse(j.category, "")
    ensures f.wage == OrElse(j.wage, "") && f.whatsapp == OrElse(j.whatsapp, "")
    ensures f.contactLink == OrElse(j.contactLink, "") && f.description == OrElse(j.description, "")
    ensures f.address == OrElse(j.address, "")
    ensures IsSet(f.notifyRadius) <==> j.notifyRadius.Some? && j.notifyRadius.value != 0
  {
    EditForm(j.id, j.createdBy, OrElse(j.status, OpenStatus), OrElse(j.title, ""), OrElse(j.category, ""),
             OrElse(j.wage, ""), OrElse(j.whatsapp, ""), OrElse(j.contactPhone, PhonePrefix),
             OrElse(j.contactLink, ""), OrElse(j.description, ""), j.isDaily,
             RadiusValue(j.notifyRadius), j.lat, j.lng, OrElse(j.address, ""))
  }

  /** The body of `PATCH /admin/jobs/:id`. */
  datatype JobPatch = JobPatch(
    status: string, title: string, category: Option<string>, wage: Option<string>,
    whatsapp: Option<string>, contactPhone: Option<string>, contactLink: Option<string>,
    description: string, isDaily: bool, notifyRadius: Option<real>, address: Option<string>)

  function PatchOf(num: NumberParser, f: EditForm): JobPatch
  {
    JobPatch(f.status, f.title, OrNull(f.category), OrNull(f.wage), OrNull(f.whatsapp),
             OrNull(f.contactPhone), OrNull(f.contactLink), f.description,
             f.isDaily == Some(true), NumberOrNull(num, f.notifyRadius), OrNull(f.address))
  }

  /** `save`: with a form open, the patch goes to that job's id; with none, nothing. */
  function Save(num: NumberParser, selected: Option<EditForm>): (r: Option<(string, JobPatch)>)
    ensures r.Some? <==> selected.Some?
    ensures r.Some? ==> r.value.0 == selected.value.id && r.value.1 == PatchOf(num, selected.value)
  {
    if selected.None? then None else Some((selected.value.id, PatchOf(num, selected.value)))
  }

  /** The patch sends only the listed fields: two forms that differ only in
      the owner and the coordinates send the same patch. */
  lemma PatchIgnoresOwnerAndLocation(num: NumberParser, f: EditForm, createdBy: string, lat: Option<real>, lng: Option<real>)
    ensures PatchOf(num, f.(createdBy := createdBy, lat := lat, lng := lng)) == PatchOf(num, f)
  {
  }

  /** Opening a job and saving it unchanged writes back what the job had:
      each present text field as it was, each missing optional text as
      `null`, a missing description as the empty text. Two fields are
      filled in rather than kept: a missing status is saved as `open` and a
      missing contact phone as the bare country prefix. */
  lemma EditRoundTrip(num: NumberParser, j: Job)
    ensures var p := PatchOf(num, OpenEdit(j));
            p.status == (if Truthy(j.status) then j.status.value else OpenStatus) &&
            p.title == OrElse(j.title, "") &&
            p.category == (if Truthy(j.category) then j.category else None) &&
            p.wage == (if Truthy(j.wage) then j.wage else None) &&
            p.whatsapp == (if Truthy(j.whatsapp) then j.whatsapp else None) &&
            p.contactLink == (if Truthy(j.contactLink) then j.contactLink else None) &&
            p.address == (if Truthy(j.address) then j.address else None) &&
            p.contactPhone == Some(if Truthy(j.contactPhone) then j.contactPhone.value else PhonePrefix) &&
            p.description == OrElse(j.description, "") &&
            (p.isDaily <==> j.isDaily == Some(true)) &&
            (p.notifyRadius.Some? <==> j.notifyRadius.Some? && j.notifyRadius.value != 0) &&
            (p.notifyRadius.Some? ==> p.notifyRadius.value == j.notifyRadius.value as real)
  {
  }

  // ---------------------------------------------------------------- employers

  /** A user as `/admin/users` lists it, as far as the employer list reads it. */
  datatype Account = Account(id: string, role: Option<string>)

  /** `String(x.role || '').toLowerCase() === 'employer'`. */
  predicate IsEmployer(u: Account)
  {
    Lower(OrElse(u.role, "")) == "employer"
  }

  /** The employer choices of the create form: the users whose role is
      `employer` in any letter case. */
  function Employers(users: seq<Account>): seq<Account>
  {
    Filter(users, IsEmployer)
  }

  /** The employer list keeps exactly the employers, each as often as it was
      listed, in the order the server sent them; a role written in capitals
      still counts. */
  lemma EmployersSpec(users: seq<Account>)
    ensures forall u :: u in Employers(users) <==> u in users && IsEmployer(u)
    ensures forall u :: multiset(Employers(users))[u] == if IsEmployer(u) then multiset(users)[u] else 0
    ensures forall i :: 0 <= i < |Employers(users)| ==> IsEmployer(Employers(users)[i])
    ensures forall u: Account :: u.role == Some("Employer") || u.role == Some("EMPLOYER") ==> IsEmployer(u)
  {
    forall u ensures u in Employers(users) <==> u in users && IsEmployer(u) {
      FilterIn(users, IsEmployer, u);
    }
    forall u ensures multiset(Employers(users))[u] == if IsEmployer(u) then multiset(users)[u] else 0 {
      FilterCount(users, IsEmployer, u);
    }
    assert Lower("Employer") == "employer";
    assert Lower("EMPLOYER") == "employer";
  }

  // ---------------------------------------------------------------- registering an employer

  datatype EmployerForm = EmployerForm(fullName: string, email: string, phone: string, password: string, companyName: string)

  /** The body of `POST /auth/register`. */
  datatype Registration = Registration(
    role: string, fullName: string, email: string, phone: Option<string>,
    password: string, companyName: Option<string>)

  datatype EmployerResult = Incomplete(message: string) | Register(payload: Registration)

  const EmployerFieldsRequired: string := "Ad, Email və Şifrə mütləqdir"

  /** `createEmployer`: registered exactly when name, email and password are
      all given, always with the `employer` role; blank phone and company go
      as `null`. */
  function CreateEmployer(f: EmployerForm): (r: EmployerResult)
    ensures r.Register? <==> f.fullName != "" && f.email != "" && f.password != ""
    ensures r.Incomplete? ==> r.message == EmployerFieldsRequired
    ensures r.Register? ==> r.payload.role == "employer"
    ensures r.Register? ==> r.payload.fullName == f.fullName && r.payload.email == f.email && r.payload.password == f.password
    ensures r.Register? ==> r.payload.phone == OrNull(f.phone) && r.payload.companyName == OrNull(f.companyName)
  {
    if f.fullName == "" || f.email == "" || f.password == "" then Incomplete(EmployerFieldsRequired)
    else Register(Registration("employer", f.fullName, f.email, OrNull(f.phone), f.password, OrNull(f.companyName)))
  }

  /** After registering, the new profile's id becomes the job's owner when
      the server returned one; nothing else in the form changes. */
  function AdoptEmployer(f: CreateForm, newId: Option<string>): (g: CreateForm)
    ensures g.(createdBy := f.createdBy) == f
    ensures Truthy(newId) ==> g.createdBy == newId.value
    ensures !Truthy(newId) ==> g == f
  {
    if Truthy(newId) then f.(createdBy := newId.value) else f
  }

  /** Registering an employer that got an id settles the employer check of
      `createJob`: the form can then only be refused for its title or its
      location. */
  lemma AdoptedEmployerPassesCheck(num: NumberParser, f: CreateForm, newId: Option<string>)
    requires Truthy(newId)
    ensures CreateJob(num, AdoptEmployer(f, newId)) != Refused(EmployerRequired)
  {
  }

  // ---------------------------------------------------------------- the map picker

  /** A point picked on the map: the coordinates as `String(lat)` and
      `String(lng)` print them, and the geocoded address, when there is one. */
  datatype Pick = Pick(latText: string, lngText: string, address: Option<string>)

  /** The picker's `onChange`: both coordinates are overwritten; an address
      the admin already typed (not blank) is kept, otherwise the picked one
      (or the empty text) is used. */
  function ApplyPick(f: CreateForm, p: Pick): (g: CreateForm)
    ensures g.lat == p.latText && g.lng == p.lngText
    ensures Trim(f.address) != "" ==> g.address == f.address
    ensures Trim(f.address) == "" ==> g.address == OrElse(p.address, "")
    ensures g.(lat := f.lat, lng := f.lng, address := f.address) == f
  {
    f.(lat := p.latText, lng := p.lngText,
       address := if Trim(f.address) != "" then f.address else OrElse(p.address, ""))
  }

  /** Picking the same point twice is the same as picking it once. */
  lemma ApplyPickIdempotent(f: CreateForm, p: Pick)
    ensures ApplyPick(ApplyPick(f, p), p) == ApplyPick(f, p)
  {
  }

  /** A picked point settles the location check of `createJob` (a printed
      number is never the empty text), and once posted the job carries the
      numbers the picked texts denote. */
  lemma PickPassesLocationCheck(num: NumberParser, f: CreateForm, p: Pick)
    requires p.latText != "" && p.lngText != ""
    ensures CreateJob(num, ApplyPick(f, p)) != Refused(LocationRequired)
    ensures Trim(f.title) != "" && f.createdBy != "" ==> CreateJob(num, ApplyPick(f, p)).Post?
    ensures CreateJob(num, ApplyPick(f, p)).Post? ==>
              CreateJob(num, ApplyPick(f, p)).payload.lat == num(p.latText) &&
              CreateJob(num, ApplyPick(f, p)).payload.lng == num(p.lngText)
  {
  }
}
