/** The job detail page: what it renders while loading, on an error and for
    a missing job; the status pill and the actions offered for each status;
    whether the job has a usable location; and the wage, job-type and
    description texts. */
module JobDetail {
  import opened Js

  const Pending: string := "pending"
  const Open: string := "open"
  const Closed: string := "closed"

  // ---------------------------------------------------------------- render precedence

  /** A job's location as the server sends it; a coordinate may be missing. */
  datatype Location = Location(lat: Option<real>, lng: Option<real>)

  /** The fields of a job the page interprets. `durationText` is
      `${job.durationDays}`, the days as the template prints them. */
  datatype Job = Job(
    status: Option<string>, wage: Option<string>, jobType: Option<string>,
    durationText: string, description: Option<string>, location: Option<Location>)

  /** What the page shows. */
  datatype View = Loading | Failed(message: string) | NotFound | Details(job: Job)

  const NotFoundText: string := "Elan tapılmadı"

  /** The page: the loading text, then the error, then "not found" when the
      request gave no job, and only then the details. */
  function Render(loading: bool, error: string, job: Option<Job>): (v: View)
    ensures v.Details? <==> !loading && error == "" && job.Some?
    ensures v.Details? ==> v.job == job.value
    ensures v == Loading <==> loading
    ensures v.Failed? <==> !loading && error != ""
    ensures v.Failed? ==> v.message == error
    ensures v == NotFound <==> !loading && error == "" && job.None?
  {
    if loading then Loading
    else if error != "" then Failed(error)
    else if job.None? then NotFound
    else Details(job.value)
  }

  /** The error `load` records when the request fails, falling back to "not found". */
  function LoadError(responseError: Option<string>, message: Option<string>): (r: string)
    ensures r != ""
    ensures Truthy(responseError) ==> r == responseError.value
    ensures !Truthy(responseError) && Truthy(message) ==> r == message.value
    ensures !Truthy(responseError) && !Truthy(message) ==> r == NotFoundText
  {
    ErrorMessage(responseError, message, NotFoundText)
  }

  /** A failed request always shows an error, never the details or the
      "not found" text of a missing job. */
  lemma FailedLoadShowsError(responseError: Option<string>, message: Option<string>, job: Option<Job>)
    ensures Render(false, LoadError(responseError, message), job).Failed?
  {
  }

  // ---------------------------------------------------------------- status

  /** The status pill: `Gözləyir`, `Aktiv` or `Bağlı`, and none for any other status. */
  function StatusPill(status: Option<string>): (r: Option<string>)
    ensures r.Some? <==> status == Some(Pending) || status == Some(Open) || status == Some(Closed)
    ensures status == Some(Pending) ==> r == Some("Gözləyir")
    ensures status == Some(Open) ==> r == Some("Aktiv")
    ensures status == Some(Closed) ==> r == Some("Bağlı")
  {
    if status == Some(Pending) then Some("Gözləyir")
    else if status == Some(Open) then Some("Aktiv")
    else if status == Some(Closed) then Some("Bağlı")
    else None
  }

  /** A button of the actions row. */
  datatype Action = SetStatus(caption: string, target: string) | Delete

  /** The actions row: approve a pending job, close an open one, reopen a
      closed one, and delete in every case. */
  function Actions(status: Option<string>): (r: seq<Action>)
    ensures 1 <= |r| <= 2 && r[|r| - 1] == Delete
    ensures forall i :: 0 <= i < |r| - 1 ==> r[i].SetStatus?
    ensures status == Some(Pending) ==> r[0] == SetStatus("✅ Təsdiqlə", Open)
    ensures status == Some(Open) ==> r[0] == SetStatus("🚫 Bağla", Closed)
    ensures status == Some(Closed) ==> r[0] == SetStatus("🔄 Yenidən aç", Open)
  {
    if status == Some(Pending) then [SetStatus("✅ Təsdiqlə", Open), Delete]
    else if status == Some(Open) then [SetStatus("🚫 Bağla", Closed), Delete]
    else if status == Some(Closed) then [SetStatus("🔄 Yenidən aç", Open), Delete]
    else [Delete]
  }

  /** The status a job moves to from `status` through the page, if any. */
  function NextStatus(status: Option<string>): Option<string>
  {
    if |Actions(status)| == 2 then Some(Actions(status)[0].target) else None
  }

  /** The status rule: pending and closed jobs can be opened, open jobs
      closed, nothing else changed; no action ever leads back to `pending`;
      and a job the page has moved can always be moved again. */
  lemma StatusRule(status: Option<string>)
    ensures NextStatus(status) == (if status == Some(Pending) || status == Some(Closed) then Some(Open)
                                   else if status == Some(Open) then Some(Closed) else None)
    ensures NextStatus(status) != Some(Pending)
    ensures NextStatus(status).Some? <==> StatusPill(status).Some?
    ensures NextStatus(status).Some? ==> NextStatus(NextStatus(status)).Some?
    ensures Delete in Actions(status)
  {
    assert Actions(status)[|Actions(status)| - 1] == Delete;
  }

  /** `updateStatus` and `del` send their request only after the admin confirms. */
  function StatusRequest(confirmed: bool, target: string): (r: Option<string>)
    ensures r.Some? <==> confirmed
    ensures r.Some? ==> r.value == target
  {
    if confirmed then Some(target) else None
  }

  // ---------------------------------------------------------------- location and labels

  /** `job.location?.lat && job.location?.lng` for a number: missing and 0 are falsy. */
  predicate IsNonZero(c: Option<real>)
  {
    c.Some? && c.value != 0.0
  }

  /** `locationValid`: the map is drawn only for a location with both
      coordinates present and non-zero. */
  predicate LocationValid(location: Option<Location>)
  {
    location.Some? && IsNonZero(location.value.lat) && IsNonZero(location.value.lng)
  }

  /** A coordinate of exactly 0 counts as missing: a point on the equator
      or on the prime meridian gets no map. */
  lemma ZeroCoordinateIsMissing(location: Option<Location>)
    requires location.Some?
    requires location.value.lat == Some(0.0) || location.value.lng == Some(0.0)
    ensures !LocationValid(location)
  {
  }

  const Negotiable: string := "Razılaşma ilə"
  const Currency: string := " AZN"

  /** The wage row: the wage and the currency, or "by agreement" when there is none. */
  function WageLabel(wage: Option<string>): (r: string)
    ensures Truthy(wage) ==> r == wage.value + Currency
    ensures !Truthy(wage) ==> r == Negotiable
  {
    if Truthy(wage) then wage.value + Currency else Negotiable
  }

  /** Reads the wage back from its label. */
  function WageOfLabel(text: string): Option<string>
  {
    if |text| > |Currency| && text[|text| - |Currency|..] == Currency then Some(text[..|text| - |Currency|])
    else None
  }

  /** The wage label loses nothing: the wage it was made from can be read
      back, and the "by agreement" text cannot be mistaken for a wage. */
  lemma WageLabelRoundTrip(wage: Option<string>)
    ensures WageOfLabel(WageLabel(wage)) == if Truthy(wage) then wage else None
  {
    if Truthy(wage) {
      var r := WageLabel(wage);
      assert r[..|r| - |Currency|] == wage.value;
      assert r[|r| - |Currency|..] == Currency;
    } else {
      assert Negotiable[|Negotiable| - |Currency|..] != Currency by {
        assert Negotiable[|Negotiable| - 1] == 'ə';
      }
    }
  }

  const Temporary: string := "temporary"
  const Permanent: string := "Daimi"

  /** The job-type row: temporary with its days, or permanent for every other type. */
  function JobTypeLabel(jobType: Option<string>, durationText: string): (r: string)
    ensures jobType == Some(Temporary) ==> r == "Müvəqqəti (" + durationText + " gün)"
    ensures jobType != Some(Temporary) ==> r == Permanent
  {
    if jobType == Some(Temporary) then "Müvəqqəti (" + durationText + " gün)" else Permanent
  }

  /** The job-type label says "permanent" exactly when the type is not
      `temporary`, whatever the days print as. */
  lemma JobTypeLabelIff(jobType: Option<string>, durationText: string)
    ensures JobTypeLabel(jobType, durationText) == Permanent <==> jobType != Some(Temporary)
  {
    if jobType == Some(Temporary) {
      assert |JobTypeLabel(jobType, durationText)| > |Permanent|;
    }
  }

  const NoDescription: string := "Qeyd yoxdur"

  /** The description block: the description, or "no note" when it is missing or empty. */
  function DescriptionText(description: Option<string>): (r: string)
    ensures r != ""
    ensures Truthy(description) ==> r == description.value
    ensures !Truthy(description) ==> r == NoDescription
  {
    OrElse(description, NoDescription)
  }
}
