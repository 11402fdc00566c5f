# asimos-admin page logic in Dafny

asimos-admin is the React admin panel of the Asimos job board. Admins sign
in, browse and edit users, jobs and job categories, view one job in detail,
see every job on a map and read a dashboard of charts. The JSX pages mostly
render. The logic they hold is modelled here, one Dafny module per page:

- **Categories** (`src/pages/CategoriesPage.jsx`): `toInt`; the `idToName`
  memo; the two-level `ordered` list (parents, each followed by its
  children, then the orphans whose parent no longer exists); the parent
  selector; and the edit form with its `save` validation and payload.
- **MapView** (`src/pages/MapPage.jsx`): `parseArea`; the paged
  `fetchAllJobs` read; the category filter; heat points and markers; the
  ten busiest areas; and the map centre.
- **Dashboard** (`src/pages/DashboardPage.jsx`): the fallback aggregation
  `enrichAnalyticsIfMissing`, which reads every job and rebuilds the
  per-category and per-day series; the role pie data; and the flags that
  decide which chart is drawn.
- **Jobs** (`src/pages/JobsPage.jsx`): job creation (checks and payload),
  the edit form and its patch, the employer list, employer registration and
  the map-picker merge.
- **JobDetail** (`src/pages/JobDetailPage.jsx`): render precedence, status
  actions, the location check and the wage, job-type and description texts.
- **Users** (`src/pages/UsersPage.jsx`): the edit form, its patch and the
  delete guard.
- **Layout** (`src/components/Layout.jsx`): the breadcrumb and the title and
  subtitle fallbacks.
- **Login** (`src/pages/LoginPage.jsx`): credential cleaning, the token
  check and the redirect.

Shared modules:

- **Js**: JavaScript truthiness, `||` and the error-message fallback
  `e?.response?.data?.error || e.message || fallback`.
- **Text**: `trim`, ASCII `toLowerCase`, `split`/`join` and a total order
  standing for `localeCompare`.
- **Seqs**: `filter`, `map`, a stable `sort`, `slice(0, n)` and
  concatenation of blocks.
- **Counting**: a JavaScript `Map` used as a counter, as a class, with the
  tally it produces.
- **Paging**: the bounded "200 per page until a short page" read that both
  the map page and the dashboard use.

Loops that update variables in the source are methods with loop
invariants, proved against specification functions:

| method | proved to equal |
|---|---|
| `Categories.Ordered` | `OrderedRows` |
| `Categories.IdToName` | `LastLabel` |
| `Paging.FetchAll` | `Crawl` |
| `MapView.TopAreas` | `TopByCount(Tally(...))` |
| `Dashboard.CountJobs` | the two tallies |
| `Dashboard.EnrichAnalyticsIfMissing` | `Enriched` |

The `Map` counter is the class `Counting.Counter`, whose `Add` modifies its
fields. Everything else is a function with lemmas about it.

Every HTTP request is a parameter. A page read is a function `fetch` from
offset to reply. A login or a load is a `Reply` value. A browser `confirm`
is a boolean.

## Model

| member | source | states |
|---|---|---|
| Categories.ToInt | src/pages/CategoriesPage.jsx:6-9 | a finite number is returned as is; anything else gives the fallback (0 by default) |
| Categories.CatLeIsPreorder | src/pages/CategoriesPage.jsx:118 | the `sortFn` comparator (sort value, then name) is a total preorder, so sorting by it is well defined |
| Categories.LastLabelOf | src/pages/CategoriesPage.jsx:21-25 | an id has an `idToName` label exactly when some item carries it; the label is `name \|\| '-'` of the last such item |
| Categories.IdToName | src/pages/CategoriesPage.jsx:21-25 | the loop's map gives, for every id, the label `LastLabel` specifies, and no other key |
| Categories.Partition | src/pages/CategoriesPage.jsx:109-117 | the first pass collects the top-level items in list order, and for every parent id the items naming it in list order |
| Categories.PushChildren | src/pages/CategoriesPage.jsx:126 | pushing children appends each one, marked `__isChild`, in order |
| Categories.PushGroups | src/pages/CategoriesPage.jsx:122-127 | the second pass emits each parent row followed by its sorted children, parent by parent |
| Categories.Ordered | src/pages/CategoriesPage.jsx:107-135 | `ordered` computes exactly `OrderedRows`: sorted parents with their sorted children, then the sorted orphans marked as children |
| Categories.NextGroup | src/pages/CategoriesPage.jsx:123-127 | one turn of the emitting loop extends the groups so far by the next parent's group |
| Categories.GroupBlock | src/pages/CategoriesPage.jsx:123-127 | each parent's group sits contiguously in the output, right after the groups of the parents sorted before it |
| Categories.SortedKids | src/pages/CategoriesPage.jsx:114-120 | a parent's children are sorted by `sortFn` and hold every item naming that parent, as often as it occurs |
| Categories.ParentRowsAreSortedTopLevel | src/pages/CategoriesPage.jsx:111-124 | the rows without the child mark are exactly the top-level items, once each, in `sortFn` order |
| Categories.ChildMarkIffParentId | src/pages/CategoriesPage.jsx:124-132 | a row carries `__isChild` exactly when its category has a parent id |
| Categories.OrphansLast | src/pages/CategoriesPage.jsx:128-133 | the orphans end the list; every row from there on is an orphan and no row before is |
| Categories.OrphansSorted | src/pages/CategoriesPage.jsx:131 | the orphans are in `sortFn` order |
| Categories.OrderedCount | src/pages/CategoriesPage.jsx:107-135 | how often `ordered` emits an item: as often as it occurs if it is top-level or an orphan; if it is a child of an existing item, that count times the number of top-level items with its parent's id |
| Categories.OrderedIsPermutation | src/pages/CategoriesPage.jsx:107-135 | with unique ids and one level of nesting, `ordered` is a permutation of the items |
| Categories.GrandchildDropped | src/pages/CategoriesPage.jsx:123-133 | a category whose parent is itself a child is neither in a parent's block nor an orphan, so it is not listed at all |
| Categories.ParentOptions | src/pages/CategoriesPage.jsx:137-141 | the options are every item as `{ id, name }` (same multiset), sorted by name |
| Categories.ParentChoices | src/pages/CategoriesPage.jsx:241-243 | the selector never offers the category being edited, offers every other option as often as it occurs, and keeps name order |
| Categories.OpenCreate | src/pages/CategoriesPage.jsx:45-48 | a new form: no id, empty name and slug, sort 0, active, the given parent |
| Categories.OpenEdit | src/pages/CategoriesPage.jsx:50-61 | the edit form keeps the id and creation time; it defaults name and slug to '', sort via `toInt`, active unless explicitly false, and the parent or `null` |
| Categories.Save | src/pages/CategoriesPage.jsx:68-87 | nothing without a form; a blank (trimmed) name is refused with its message; otherwise the normalised payload is PATCHed to the id when the form has one, else POSTed |
| Categories.EditRoundTrip | src/pages/CategoriesPage.jsx:50-87 | opening a category with a non-blank name and saving it unchanged updates that id with its own normalised values |
| Categories.CreateNeedsName | src/pages/CategoriesPage.jsx:45-73 | a freshly opened create form is refused for its blank name |
| MapView.SegmentsOf | src/pages/MapPage.jsx:27 | the segments are exactly the non-empty trimmed comma-separated pieces of the address, each trimmed and free of commas |
| MapView.KeptDropsCountry | src/pages/MapPage.jsx:30-31 | the country names are dropped when something else is left; an address made only of country names keeps them |
| MapView.ParseAreaShape | src/pages/MapPage.jsx:26-35 | `Naməlum` for an address with no segments; otherwise the last two kept segments joined by ", ", or the only one; never empty |
| MapView.ReparseSegments | src/pages/MapPage.jsx:26-35 | splitting an area again gives back exactly the one or two segments it was built from |
| MapView.ParseAreaIdempotent | src/pages/MapPage.jsx:26-35 | parsing an area a second time gives the same area |
| MapView.FilteredSpec | src/pages/MapPage.jsx:81-86 | with no category chosen all jobs pass; otherwise exactly the jobs whose trimmed category equals it, each as often as it occurs |
| MapView.FilteredAppend | src/pages/MapPage.jsx:81-86 | filtering distributes over concatenated job lists, so it commutes with paging |
| MapView.PointsMatchMarkers | src/pages/MapPage.jsx:88-108 | by the corrected filter (see Findings), points and markers come from the same located jobs, pairwise with equal coordinates; every point has weight 1 and every marker copies its job's fields |
| MapView.LocatedIn | src/pages/MapPage.jsx:88-108 | with the corrected filter (see Findings), a job gets a point and a marker exactly when it is filtered in and both coordinate fields were sent and convert to finite numbers; a job with a `null`, missing or blank coordinate is never placed |
| MapView.UnlocatedJobPassesAsWritten | src/pages/MapPage.jsx:88-96 | as written, a job whose latitude is `null` or blank (and whose longitude is finite) passes `Number.isFinite(Number(...))`, since `Number` gives 0, while the corrected filter drops it |
| MapView.HasCoordsNarrowsSource | src/pages/MapPage.jsx:88-96 | the corrected filter keeps exactly the jobs the written one keeps whose coordinates are neither `null` nor blank, with the same numbers |
| MapView.CenterOfFiltered | src/pages/MapPage.jsx:119-122 | by the corrected filter (see Findings), the centre is the first located job's position, or Baku when no job is located |
| MapView.FetchAllJobs | src/pages/MapPage.jsx:37-50 | the loop's result is `Crawl` with at most 40 requests |
| MapView.TopAreas | src/pages/MapPage.jsx:110-117 | the counting loop and the sort give the first ten of the area tally by count |
| MapView.TopAreasSpec | src/pages/MapPage.jsx:110-117 | at most ten areas, distinct, by count descending, each count exact and positive; an area left out has no more jobs than any shown |
| Paging.RequestsShape | src/pages/MapPage.jsx:37-50 | at most the cap of requests, at offsets 0, 200, 400, …; every page but the last is full; fewer requests than the cap only after a short or failed page |
| Paging.CrawlOutcome | src/pages/MapPage.jsx:43-46 | the read fails exactly when its last request threw; otherwise it returns the concatenation of the pages read |
| Paging.CrawlShape | src/pages/DashboardPage.jsx:40-49 | the two facts above for a read starting at offset 0 |
| Paging.FetchAll | src/pages/DashboardPage.jsx:40-49 | the paging loop returns `Crawl(fetch, pages, 0)` after requesting exactly `Requests(fetch, pages, 0)` |
| Counting.Counter.Add | src/pages/DashboardPage.jsx:55 | `m.set(key, (m.get(key) \|\| 0) + 1)` keeps the map equal to the tally of every key added so far |
| Counting.Counter.Entries | src/pages/DashboardPage.jsx:59 | `Array.from(m.entries())` is the tally: keys in first-insertion order, each with its count |
| Counting.TallyExact | src/pages/MapPage.jsx:111-116 | the tally lists each key once with its exact, positive count, and no other key |
| Counting.TallyTotal | src/pages/DashboardPage.jsx:51-58 | the counts of a tally add up to the number of keys counted |
| Counting.TopByCountOmitted | src/pages/DashboardPage.jsx:59-61 | an entry cut by `.slice(0, n)` after the count sort has no larger count than any kept one, and is only cut when n entries were kept |
| Dashboard.CategoryKeySpec | src/pages/DashboardPage.jsx:54 | the category key is the trimmed category, or `Digər` when it is missing, empty or blank |
| Dashboard.DayKey | src/pages/DashboardPage.jsx:56 | the day key is a prefix of `created_at` of exactly ten characters, or all of it when shorter; '' without one |
| Dashboard.CountJobs | src/pages/DashboardPage.jsx:51-58 | the counting loop leaves `byCat` as the tally of all category keys and `byDay` as the tally of the non-empty day keys |
| Dashboard.EnrichAnalyticsIfMissing | src/pages/DashboardPage.jsx:35-71 | the method's result equals `Enriched`: the copy of `base`, with both job series rebuilt when either is not an array and the read succeeded |
| Dashboard.EnrichedKeepsInput | src/pages/DashboardPage.jsx:35-71 | nothing changes when both series are arrays or the read fails; no field other than the two series is ever touched |
| Dashboard.CategoryCountsAddUp | src/pages/DashboardPage.jsx:51-58 | before the cut to ten, the category counts add up to the number of jobs read |
| Dashboard.CategorySeriesCounts | src/pages/DashboardPage.jsx:59-62 | the fallback `jobsByCategory` has at most ten entries, each a non-empty category some job has, counted exactly |
| Dashboard.CategorySeriesOrder | src/pages/DashboardPage.jsx:59-62 | the names are distinct and the counts are non-increasing |
| Dashboard.CategorySeriesOmitted | src/pages/DashboardPage.jsx:59-62 | a category left out happens only with ten shown, each with at least as many jobs |
| Dashboard.DaySeriesOrder | src/pages/DashboardPage.jsx:63-65 | the fallback `jobsByDay` lists days in strictly ascending order |
| Dashboard.DaySeriesCounts | src/pages/DashboardPage.jsx:63-65 | every listed day is non-empty and counted exactly |
| Dashboard.DaySeriesComplete | src/pages/DashboardPage.jsx:51-65 | every day some job was created on is listed |
| Dashboard.RoleCount | src/pages/DashboardPage.jsx:109-110 | `Number(byRole ?? total ?? 0) \|\| 0`: the role count if sent, else the older total, else 0; a non-number counts as 0 |
| Dashboard.RoleData | src/pages/DashboardPage.jsx:107-115 | two slices, seekers then employers, under their Azerbaijani names, valued at the seeker and employer `RoleCount`s of the statistics |
| Dashboard.HasRoleDataIff | src/pages/DashboardPage.jsx:117-119 | the pie chart shows exactly when the two role counts add up to more than 0; never without statistics |
| Dashboard.HasFlagsIff | src/pages/DashboardPage.jsx:121-144 | each chart shows exactly when its series is an array with some entry whose count is a positive number |
| Jobs.NumberOrNull | src/pages/JobsPage.jsx:98 | `v ? Number(v) : null`: null exactly for '' and 0 and for text that is not a number; a number the page set goes as is, typed text as the number it denotes |
| Jobs.CoordinateOrNull | src/pages/JobsPage.jsx:99-100 | a coordinate is null exactly when its text is empty or not a number; otherwise it is the number its text denotes |
| Jobs.OpenCreate | src/pages/JobsPage.jsx:62-79 | the new-job form: owner, title, category, wage, link, description, address and both coordinates empty; both phones at `+994`; radius 500; not daily |
| Jobs.CreateJob | src/pages/JobsPage.jsx:81-104 | posts exactly when the trimmed title, the employer and both coordinate fields are non-empty text; otherwise refuses with the first failing check's message; a posted job is `open`, and each coordinate is present in it exactly when its text is a number |
| Jobs.CreatePayloadKeepsForm | src/pages/JobsPage.jsx:87-103 | every text field of the form can be read back from the payload (blank ones go as `null`); the radius and the coordinates go as the numbers their texts denote, or `null` |
| Jobs.NonNumericCoordinateIsPostedAsNull | src/pages/JobsPage.jsx:84-100 | a typed coordinate that is not a number passes the location check, and the job is posted with `null` in its place |
| Jobs.OpenCreateIsRefused | src/pages/JobsPage.jsx:62-82 | an untouched create form is refused for its empty title |
| Jobs.OpenEdit | src/pages/JobsPage.jsx:158-172 | the edit form keeps id, owner, daily flag and coordinates; missing texts become '', status `open`, contact phone `+994`; a missing or 0 radius becomes blank |
| Jobs.Save | src/pages/JobsPage.jsx:174-191 | a patch goes to the selected job's id exactly when a job is selected |
| Jobs.PatchIgnoresOwnerAndLocation | src/pages/JobsPage.jsx:178-190 | the patch never carries the owner or the coordinates |
| Jobs.EditRoundTrip | src/pages/JobsPage.jsx:158-190 | saving an opened job unchanged sends each field as stored, or its default or `null` |
| Jobs.EmployersSpec | src/pages/JobsPage.jsx:121 | the employer list is exactly the users whose role is `employer` in any ASCII letter case, in order and with multiplicity |
| Jobs.CreateEmployer | src/pages/JobsPage.jsx:131-146 | registers exactly when name, email and password are given, always as `employer`; a blank phone or company goes as `null` |
| Jobs.AdoptEmployer | src/pages/JobsPage.jsx:147-151 | a new employer's id (when the response has one) becomes the form's owner, and nothing else changes |
| Jobs.AdoptedEmployerPassesCheck | src/pages/JobsPage.jsx:81-151 | after adopting a new employer, job creation no longer fails the employer check |
| Jobs.ApplyPick | src/pages/JobsPage.jsx:441-446 | a map pick overwrites both coordinates; a typed address (not blank) is kept, otherwise the picked one or '' |
| Jobs.ApplyPickIdempotent | src/pages/JobsPage.jsx:441-446 | picking the same point twice changes nothing more |
| Jobs.PickPassesLocationCheck | src/pages/JobsPage.jsx:441-446 | after a pick, creation never fails the location check, posts when title and owner are set, and sends the numbers the picked texts denote |
| JobDetail.Render | src/pages/JobDetailPage.jsx:73-75 | loading first, then the error, then "not found" without a job, and only then the details; each view exactly in its case |
| JobDetail.LoadError | src/pages/JobDetailPage.jsx:42 | the load error is the server's error text, else the exception's message, else `Elan tapılmadı`; never empty |
| JobDetail.FailedLoadShowsError | src/pages/JobDetailPage.jsx:33-75 | a failed request always shows an error, never details |
| JobDetail.StatusPill | src/pages/JobDetailPage.jsx:92-94 | a pill exactly for `pending`, `open` and `closed`, labelled `Gözləyir`, `Aktiv` and `Bağlı` |
| JobDetail.Actions | src/pages/JobDetailPage.jsx:155-164 | at most one status button, always followed by delete; the button is `✅ Təsdiqlə` (to open) for pending, `🚫 Bağla` (to close) for open and `🔄 Yenidən aç` (to open) for closed jobs |
| JobDetail.StatusRule | src/pages/JobDetailPage.jsx:155-164 | pending and closed jobs can be opened and open ones closed; nothing else moves; no action leads back to `pending`; a moved job can move again |
| JobDetail.StatusRequest | src/pages/JobDetailPage.jsx:48-62 | a status change or delete is sent exactly when the admin confirms |
| JobDetail.ZeroCoordinateIsMissing | src/pages/JobDetailPage.jsx:77 | a coordinate of exactly 0 counts as missing, so no map is drawn |
| JobDetail.WageLabelRoundTrip | src/pages/JobDetailPage.jsx:110 | the wage can be read back from its label, and the "by agreement" text is never read as a wage |
| JobDetail.JobTypeLabelIff | src/pages/JobDetailPage.jsx:114 | the label says "permanent" exactly when the type is not `temporary` |
| JobDetail.DescriptionText | src/pages/JobDetailPage.jsx:138 | the description, or `Qeyd yoxdur` when it is missing or empty |
| Users.OpenEdit | src/pages/UsersPage.jsx:30-37 | the form keeps id and email; role defaults to `seeker`; names and phone to '' |
| Users.Save | src/pages/UsersPage.jsx:40-50 | a patch goes out exactly when a form is open and its id is truthy, carrying role, name, company or `null`, phone or `null` |
| Users.SaveOpenedUser | src/pages/UsersPage.jsx:30-50 | saving an opened user unchanged writes back its own values or their defaults, and never the email |
| Users.Delete | src/pages/UsersPage.jsx:60-63 | a delete is sent exactly for a truthy id that the admin confirms |
| Layout.BreadcrumbOfRoute | src/components/Layout.jsx:39-43 | for a route, only the first slash is dropped; each word-initial ASCII word character is upper-cased; everything else is kept |
| Layout.BreadcrumbKeepsText | src/components/Layout.jsx:42 | the breadcrumb differs from the path without its first slash only in letter case |
| Layout.BreadcrumbOfJob | src/components/Layout.jsx:39-43 | `/jobs/abc` shows as `Jobs/Abc` |
| Layout.BreadcrumbOfRoot | src/components/Layout.jsx:41 | the root path, `/` or empty, shows the home title `İdarə paneli` |
| Layout.PageTitle | src/components/Layout.jsx:116 | the page's own title when truthy, else the breadcrumb |
| Layout.PageSubtitle | src/components/Layout.jsx:117 | the page's own subtitle when truthy, else the default subtitle |
| Login.RedirectTarget | src/pages/LoginPage.jsx:10 | the page the admin came from when truthy, else `/` |
| Login.CleanEmailNormalises | src/pages/LoginPage.jsx:23 | the email sent has no surrounding whitespace and no ASCII capital, and cleaning it again changes nothing |
| Login.CleanPasswordKeepsCase | src/pages/LoginPage.jsx:24 | leading whitespace is dropped from the password and its letter case is kept |
| Login.Submit | src/pages/LoginPage.jsx:17-31 | signs in exactly on an answer with a token, going to the redirect target; a missing token fails with `Token not returned`; a thrown error shows its message or `Giriş alınmadı` |
| Login.SubmitNeverSilent | src/pages/LoginPage.jsx:26-30 | a failure always shows a message; a success always has a token and a target |

## Left out

- HTTP, timers, toasts, `alert`, navigation and rendering beyond the texts above are not modelled. Requests are parameters (`fetch`, `Reply`) and `confirm` answers are booleans.
- `load` and the other data-loading effects (and their error paths), the `ok` cancellation flag in the dashboard effect, and the page-level loading/saving flags are not modelled. They only move server answers into state.
- `Number(...)` on typed text is a parameter of the jobs page (`Jobs.NumberParser`), about which nothing is assumed: it may give NaN (`null` in the request) for any text and may give equal numbers for different texts. Stored numbers are given already converted: an integer sort value (`None` when not finite), `real` coordinates on the job detail and jobs pages, and on the map page the number `Number()` makes of a sent coordinate, when it is finite; `Option<int>` counts. Floating-point rounding and `Infinity` are not modelled.
- `String(lat)` in the map picker is not modelled: the picker gives the coordinates as text.
- `localeCompare` is modelled as code-point order (`Text.StrLe`), a total order like the real one but not locale-aware. `toLowerCase` and `toUpperCase` are modelled on ASCII letters only.
- `Array.prototype.sort` is modelled as a stable insertion sort, which is how the standard defines it since ES2019. A comparator that returns a non-integer is not modelled.
- Dashboard series that are present but not arrays are modelled as missing. The source would throw on `.map` for such a truthy non-array; the model uses `Option<seq<...>>`.
- Dashboard.EnrichedKeepsInput: an exception inside the counting or sorting code (which the source swallows with `catch {}`) cannot happen in the model. Only a failed request is modelled as the error path.
- The category and job `del` handlers on the list pages (a `confirm`, then a DELETE and a reload) are not modelled beyond `JobDetail.StatusRequest` and `Users.Delete`, which have the same confirm-then-send shape.
- Jobs.OpenCreate: the form state before the first `openCreate` (its `useState` default) is not modelled.
- The job detail wage is modelled as text. `durationDays` is given as the text the template prints.
- MapView.FetchAllJobs and Paging.FetchAll: the `q` search parameter is always empty on these pages and is left out.
- The AdminMapPicker component, the Modal component and the other pages (support, content, events) are not part of this model.

## Findings

| source | as written | input that shows it | evidently intended | confidence | as-written member | corrected member |
|---|---|---|---|---|---|---|
| src/pages/MapPage.jsx:88-96 | `points` and `markers` keep a job when `Number.isFinite(Number(j.location_lat)) && Number.isFinite(Number(j.location_lng))` | a job with `location_lat: null` (or `''`) and a numeric `location_lng`: `Number(null)` is 0, so the job is drawn at latitude 0 | jobs without a location are not drawn, as the note under the map says (src/pages/MapPage.jsx:211) | high (by reading `Number`'s conversion rules; not executed) | MapView.UnlocatedJobPassesAsWritten | MapView.LocatedIn |
