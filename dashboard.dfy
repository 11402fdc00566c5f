/** The dashboard: the statistics the server sends, a fallback that counts
    jobs per category and per day when an older server leaves those series
    out, the two role counts, and whether each chart has anything to show. */
module Dashboard {
  import opened Js
  import opened Text
  import opened Seqs
  import opened Counting
  import opened Paging

  /** `Number(v)` of a field: `None` when the result is `NaN`. */
  type Numeric = Option<int>

  /** `usersByRole`: each count may be missing (`null`/`undefined`). */
  datatype RoleCounts = RoleCounts(seeker: Option<Numeric>, employer: Option<Numeric>)

  datatype NameCount = NameCount(name: string, count: Numeric)
  datatype DayCount = DayCount(date: string, count: Numeric)
  datatype TypeCount = TypeCount(kind: string, count: Numeric)

  /** The response of `/admin/dashboard`. A series is `None` when it is not
      an array. */
  datatype Stats = Stats(
    usersByRole: Option<RoleCounts>,
    seekersTotal: Option<Numeric>,
    employersTotal: Option<Numeric>,
    jobsByCategory: Option<seq<NameCount>>,
    jobsByDay: Option<seq<DayCount>>,
    eventsByType: Option<seq<TypeCount>>)

  /** The fields the fallback reads of a job. */
  datatype Job = Job(category: Option<string>, createdAt: Option<string>)

  const FallbackPages: nat := 25
  const TopCategories: nat := 10
  const OtherCategory: string := "Digər"

  // ---------------------------------------------------------------- fallback analytics

  /** `{ ...(base || {}) }`. */
  function Spread(base: Option<Stats>): Stats
  {
    if base.Some? then base.value else Stats(None, None, None, None, None, None)
  }

  /** `!Array.isArray(next.jobsByCategory) || !Array.isArray(next.jobsByDay)`. */
  predicate NeedsJobsAgg(s: Stats)
  {
    s.jobsByCategory.None? || s.jobsByDay.None?
  }

  /** `String(j.category || 'Digər').trim() || 'Digər'`: the trimmed category,
      or `Digər` when it is missing or blank; never empty. */
  function CategoryKey(j: Job): (r: string)
    ensures r != ""
  {
    var t := Trim(OrElse(j.category, OtherCategory));
    if t != "" then t else OtherCategory
  }

  /** The category key is the trimmed category when that is not blank, and
      `Digər` for a missing, empty or blank category. */
  lemma CategoryKeySpec(j: Job)
    ensures Truthy(j.category) && Trim(j.category.value) != "" ==> CategoryKey(j) == Trim(j.category.value)
    ensures !(Truthy(j.category) && Trim(j.category.value) != "") ==> CategoryKey(j) == OtherCategory
  {
    var c := OrElse(j.category, OtherCategory);
    if !Truthy(j.category) {
      assert c == OtherCategory;
      assert IsTrimmed(OtherCategory);
      TrimIdempotent(OtherCategory);
    }
  }

  /** `String(j.created_at || '').slice(0, 10)`: the first ten characters
      of `created_at` (all of it when shorter), or the empty text without one. */
  function DayKey(j: Job): (r: string)
    ensures |r| <= 10
    ensures j.createdAt.Some? ==> r <= j.createdAt.value
    ensures j.createdAt.Some? ==> |r| == if |j.createdAt.value| < 10 then |j.createdAt.value| else 10
    ensures j.createdAt.None? ==> r == ""
  {
    Take(OrElse(j.createdAt, ""), 10)
  }

  predicate IsNonEmpty(d: string) { d != "" }

  /** The category key of every job, in order. */
  function CategoryKeys(all: seq<Job>): seq<string>
  {
    Map(all, CategoryKey)
  }

  /** The day key of every job that has one (`if (d) byDay.set(...)`). */
  function DayKeys(all: seq<Job>): seq<string>
  {
    Filter(Map(all, DayKey), IsNonEmpty)
  }

  function AsNameCount(e: Entry): NameCount { NameCount(e.key, Some(e.count)) }

  function AsDayCount(e: Entry): DayCount { DayCount(e.key, Some(e.count)) }

  /** The fallback `jobsByCategory`: the ten largest category counts. */
  function CategorySeries(all: seq<Job>): seq<NameCount>
  {
    Map(TopByCount(Tally(CategoryKeys(all)), TopCategories), AsNameCount)
  }

  /** The fallback `jobsByDay`: every day's count, by day. */
  function DaySeries(all: seq<Job>): seq<DayCount>
  {
    Map(SortBy(Tally(DayKeys(all)), KeyLe), AsDayCount)
  }

  /** What `enrichAnalyticsIfMissing(base)` resolves to when the server
      answers page requests with `fetch`: the copy of `base`, with the two job
      series recomputed when either is missing and every page could be read. */
  function Enriched(base: Option<Stats>, fetch: nat -> Reply<Job>): Stats
  {
    var next := Spread(base);
    if !NeedsJobsAgg(next) then next
    else
      match Crawl(fetch, FallbackPages, 0)
      case Failed => next
      case Fetched(all) => next.(jobsByCategory := Some(CategorySeries(all)), jobsByDay := Some(DaySeries(all)))
  }

  /** `enrichAnalyticsIfMissing`: read the jobs page by page, count them per
      category and per day in two `Map`s, and replace the two series; a failed
      request leaves the copy as it is. */
  method EnrichAnalyticsIfMissing(base: Option<Stats>, fetch: nat -> Reply<Job>) returns (next: Stats)
    ensures next == Enriched(base, fetch)
  {
    next := Spread(base);
    if NeedsJobsAgg(next) {
      var outcome;
      ghost var requested;
      outcome, requested := FetchAll(fetch, FallbackPages);
      if outcome.Fetched? {
        assert Crawl(fetch, FallbackPages, 0) == Fetched(outcome.items);
        var cats, days := CountJobs(outcome.items);
        next := next.(jobsByCategory := Some(Map(TopByCount(cats, TopCategories), AsNameCount)),
                      jobsByDay := Some(Map(SortBy(days, KeyLe), AsDayCount)));
      }
    }
  }

  /** One more job adds its category key, and its day key when it has one. */
  lemma KeysStep(all: seq<Job>, i: int)
    requires 0 <= i < |all|
    ensures CategoryKeys(all[..i + 1]) == CategoryKeys(all[..i]) + [CategoryKey(all[i])]
    ensures DayKeys(all[..i + 1]) == DayKeys(all[..i]) + if DayKey(all[i]) != "" then [DayKey(all[i])] else []
  {
    MapSnoc(all, CategoryKey, i);
    FilterMapSnoc(all, DayKey, IsNonEmpty, i);
  }

  /** The counting loop of `enrichAnalyticsIfMissing`: one `Map` per category
      key and one per non-empty day key, each listing keys in first-seen order. */
  method CountJobs(all: seq<Job>) returns (cats: seq<Entry>, days: seq<Entry>)
    ensures cats == Tally(CategoryKeys(all))
    ensures days == Tally(DayKeys(all))
  {
    var byCat := new Counter();
    var byDay := new Counter();
    for i := 0 to |all|
      invariant byCat != byDay
      invariant byCat.Valid() && byCat.seen == CategoryKeys(all[..i])
      invariant byDay.Valid() && byDay.seen == DayKeys(all[..i])
    {
      KeysStep(all, i);
      byCat.Add(CategoryKey(all[i]));
      var d := DayKey(all[i]);
      if d != "" {
        byDay.Add(d);
      }
    }
    assert all[..|all|] == all;
    cats := byCat.Entries();
    days := byDay.Entries();
  }

  /** The fallback does not run when both series are arrays, and a failed
      request leaves the copy unchanged; it never touches any other field. */
  lemma EnrichedKeepsInput(base: Option<Stats>, fetch: nat -> Reply<Job>)
    ensures !NeedsJobsAgg(Spread(base)) ==> Enriched(base, fetch) == Spread(base)
    ensures Crawl(fetch, FallbackPages, 0).Failed? ==> Enriched(base, fetch) == Spread(base)
    ensures Enriched(base, fetch).(jobsByCategory := None, jobsByDay := None) ==
            Spread(base).(jobsByCategory := None, jobsByDay := None)
    ensures NeedsJobsAgg(Spread(base)) && Crawl(fetch, FallbackPages, 0).Fetched? ==>
              Enriched(base, fetch).jobsByCategory == Some(CategorySeries(Crawl(fetch, FallbackPages, 0).items)) &&
              Enriched(base, fetch).jobsByDay == Some(DaySeries(Crawl(fetch, FallbackPages, 0).items))
  {
  }

  /** Before the cut to ten, the category counts add up to the number of jobs read. */
  lemma CategoryCountsAddUp(all: seq<Job>)
    ensures Total(Tally(CategoryKeys(all))) == |all|
  {
    TallyTotal(CategoryKeys(all));
  }

  /** The number of jobs whose category key is `k`. */
  function JobsIn(all: seq<Job>, k: string): nat
  {
    multiset(CategoryKeys(all))[k]
  }

  /** The fallback `jobsByCategory`: at most ten entries, each with a
      non-empty name that some job has, and with the number of jobs that
      have it as its count. */
  lemma CategorySeriesCounts(all: seq<Job>)
    ensures |CategorySeries(all)| <= TopCategories
    ensures forall i :: 0 <= i < |CategorySeries(all)| ==>
              CategorySeries(all)[i].name in CategoryKeys(all) && CategorySeries(all)[i].name != "" &&
              CategorySeries(all)[i].count == Some(JobsIn(all, CategorySeries(all)[i].name))
  {
    var ks := CategoryKeys(all);
    var t := TopByCount(Tally(ks), TopCategories);
    TopOfTally(ks, TopCategories);
    forall i | 0 <= i < |t| ensures t[i].key in ks && t[i].key != "" && t[i].count == JobsIn(all, t[i].key) {
      assert t[i] in t;
      var n :| 0 <= n < |ks| && ks[n] == t[i].key;
    }
  }

  /** The fallback `jobsByCategory` names each category once, largest count first. */
  lemma CategorySeriesOrder(all: seq<Job>)
    ensures forall i, j :: 0 <= i < j < |CategorySeries(all)| ==>
              CategorySeries(all)[i].name != CategorySeries(all)[j].name &&
              OrZero(CategorySeries(all)[i].count) >= OrZero(CategorySeries(all)[j].count)
  {
    var t := TopByCount(Tally(CategoryKeys(all)), TopCategories);
    TopByCountOfTally(CategoryKeys(all), TopCategories);
    assert forall i, j :: 0 <= i < j < |t| ==> t[i].key != t[j].key && t[i].count >= t[j].count;
  }

  /** A category the fallback leaves out has no more jobs than any it shows,
      and it is only left out when ten are shown. */
  lemma CategorySeriesOmitted(all: seq<Job>, k: string)
    requires k in CategoryKeys(all)
    requires forall i :: 0 <= i < |CategorySeries(all)| ==> CategorySeries(all)[i].name != k
    ensures |CategorySeries(all)| == TopCategories
    ensures forall i :: 0 <= i < |CategorySeries(all)| ==> OrZero(CategorySeries(all)[i].count) >= JobsIn(all, k)
  {
    var ks := CategoryKeys(all);
    var t := TopByCount(Tally(ks), TopCategories);
    TopByCountOfTally(ks, TopCategories);
    forall i | 0 <= i < |t| ensures t[i].key != k {
      assert CategorySeries(all)[i].name == t[i].key;
    }
    assert Entry(k, multiset(ks)[k]) !in t;
    forall i | 0 <= i < |t| ensures t[i].count >= JobsIn(all, k) {
      assert t[i] in t;
    }
  }

  /** The fallback `jobsByDay` lists days in strictly ascending order, so
      each once. */
  lemma DaySeriesOrder(all: seq<Job>)
    ensures forall i, j :: 0 <= i < j < |DaySeries(all)| ==>
              StrLe(DaySeries(all)[i].date, DaySeries(all)[j].date) && DaySeries(all)[i].date != DaySeries(all)[j].date
  {
    SortByKeyOfTally(DayKeys(all));
  }

  /** Each day of the fallback `jobsByDay` is a non-empty day key, counted
      with the number of jobs that have it. */
  lemma DaySeriesCounts(all: seq<Job>)
    ensures forall i :: 0 <= i < |DaySeries(all)| ==>
              DaySeries(all)[i].date != "" && DaySeries(all)[i].count == Some(multiset(DayKeys(all))[DaySeries(all)[i].date])
  {
    var ks := DayKeys(all);
    var s := SortBy(Tally(ks), KeyLe);
    SortByKeyOfTally(ks);
    TallyExact(ks);
    forall i | 0 <= i < |s| ensures s[i].key != "" && s[i].count == multiset(ks)[s[i].key] {
      assert s[i] in multiset(Tally(ks));
      assert s[i].key in ks;
    }
  }

  /** Every day some job was created on is listed in the fallback `jobsByDay`. */
  lemma DaySeriesComplete(all: seq<Job>, j: int)
    requires 0 <= j < |all| && DayKey(all[j]) != ""
    ensures exists i :: 0 <= i < |DaySeries(all)| && DaySeries(all)[i].date == DayKey(all[j])
  {
    var ks := DayKeys(all);
    var k := DayKey(all[j]);
    assert all[j] in all;
    FilterMapIn(all, DayKey, IsNonEmpty, k);
    SortedTallyHasKey(ks, k);
    var s := SortBy(Tally(ks), KeyLe);
    var i :| 0 <= i < |s| && s[i] == Entry(k, multiset(ks)[k]);
    assert DaySeries(all)[i].date == k;
  }

  // ---------------------------------------------------------------- role counts

  /** `Number(v) || 0`. */
  function OrZero(v: Numeric): int
  {
    if v.Some? then v.value else 0
  }

  /** `Number(byRole ?? total ?? 0) || 0`: the per-role count when the server
      sends one, else the older total, else 0; a value that is not a number
      counts as 0 (and does not fall through to the total). */
  function RoleCount(byRole: Option<Numeric>, total: Option<Numeric>): (r: int)
    ensures byRole.Some? ==> r == OrZero(byRole.value)
    ensures byRole.None? && total.Some? ==> r == OrZero(total.value)
    ensures byRole.None? && total.None? ==> r == 0
  {
    var v := if byRole.Some? then byRole.value else if total.Some? then total.value else Some(0);
    OrZero(v)
  }

  /** One slice of the role pie chart. */
  datatype Slice = Slice(name: string, value: int)

  /** `roleData`: the seekers, then the employers. */
  function RoleData(data: Option<Stats>): (r: seq<Slice>)
    ensures |r| == 2 && r[0].name == "İş axtaran" && r[1].name == "İşçi axtaran"
    ensures var byRole := if data.Some? then data.value.usersByRole else None;
            && r[0].value == RoleCount(if byRole.Some? then byRole.value.seeker else None,
                                       if data.Some? then data.value.seekersTotal else None)
            && r[1].value == RoleCount(if byRole.Some? then byRole.value.employer else None,
                                       if data.Some? then data.value.employersTotal else None)
  {
    var byRole := if data.Some? then data.value.usersByRole else None;
    var seeker := RoleCount(if byRole.Some? then byRole.value.seeker else None,
                            if data.Some? then data.value.seekersTotal else None);
    var employer := RoleCount(if byRole.Some? then byRole.value.employer else None,
                              if data.Some? then data.value.employersTotal else None);
    [Slice("İş axtaran", seeker), Slice("İşçi axtaran", employer)]
  }

  /** `hasRoleData`: `(roleData[0].value || 0) + (roleData[1].value || 0) > 0`. */
  predicate HasRoleData(roleData: seq<Slice>)
  {
    (if |roleData| > 0 then roleData[0].value else 0) + (if |roleData| > 1 then roleData[1].value else 0) > 0
  }

  /** The pie chart is shown exactly when seekers and employers add up to
      more than nothing; with no statistics at all, it is not. */
  lemma HasRoleDataIff(data: Option<Stats>)
    ensures var s := if data.Some? then data.value else Stats(None, None, None, None, None, None);
            var byRole := if s.usersByRole.Some? then s.usersByRole.value else RoleCounts(None, None);
            HasRoleData(RoleData(data)) <==>
              RoleCount(byRole.seeker, s.seekersTotal) + RoleCount(byRole.employer, s.employersTotal) > 0
    ensures data.None? ==> !HasRoleData(RoleData(data))
  {
  }

  // ---------------------------------------------------------------- chart series

  /** One bar or point of a chart: `{ name | date, say: Number(x.count) || 0 }`. */
  datatype Bar = Bar(key: string, say: int)

  /** `(series || []).map((x) => ({ key: key(x), say: Number(x.count) || 0 }))`. */
  function Bars<T>(series: Option<seq<T>>, key: T -> string, count: T -> Numeric): seq<Bar>
  {
    Map(if series.Some? then series.value else [], (x: T) => Bar(key(x), OrZero(count(x))))
  }

  function Series<T>(data: Option<Stats>, field: Stats -> Option<seq<T>>): Option<seq<T>>
  {
    if data.Some? then field(data.value) else None
  }

  function CategoryBars(data: Option<Stats>): seq<Bar>
  {
    Bars(Series(data, (s: Stats) => s.jobsByCategory), (x: NameCount) => x.name, (x: NameCount) => x.count)
  }

  function DayBars(data: Option<Stats>): seq<Bar>
  {
    Bars(Series(data, (s: Stats) => s.jobsByDay), (x: DayCount) => x.date, (x: DayCount) => x.count)
  }

  function EventBars(data: Option<Stats>): seq<Bar>
  {
    Bars(Series(data, (s: Stats) => s.eventsByType), (x: TypeCount) => x.kind, (x: TypeCount) => x.count)
  }

  /** `bars.some((x) => (x.say || 0) > 0)`. */
  function AnyPositive(bars: seq<Bar>): (r: bool)
    ensures r <==> exists i :: 0 <= i < |bars| && bars[i].say > 0
  {
    if bars == [] then false
    else if bars[0].say > 0 then true
    else
      var r := AnyPositive(bars[1..]);
      assert forall i :: 1 <= i < |bars| ==> bars[i] == bars[1..][i - 1];
      r
  }

  /** A chart is shown exactly when its series is an array with an entry
      whose count is a positive number. */
  lemma BarsShown<T>(series: Option<seq<T>>, key: T -> string, count: T -> Numeric)
    ensures AnyPositive(Bars(series, key, count)) <==>
              series.Some? && exists i :: 0 <= i < |series.value| && OrZero(count(series.value[i])) > 0
  {
    var b := Bars(series, key, count);
    if series.Some? && exists i :: 0 <= i < |series.value| && OrZero(count(series.value[i])) > 0 {
      var i :| 0 <= i < |series.value| && OrZero(count(series.value[i])) > 0;
      assert b[i].say > 0;
    }
  }

  /** Each chart of the dashboard is shown exactly when some entry of its
      series has a positive count. */
  lemma HasFlagsIff(data: Option<Stats>)
    ensures AnyPositive(CategoryBars(data)) <==>
              data.Some? && data.value.jobsByCategory.Some? &&
              exists i :: 0 <= i < |data.value.jobsByCategory.value| && OrZero(data.value.jobsByCategory.value[i].count) > 0
    ensures AnyPositive(DayBars(data)) <==>
              data.Some? && data.value.jobsByDay.Some? &&
              exists i :: 0 <= i < |data.value.jobsByDay.value| && OrZero(data.value.jobsByDay.value[i].count) > 0
    ensures AnyPositive(EventBars(data)) <==>
              data.Some? && data.value.eventsByType.Some? &&
              exists i :: 0 <= i < |data.value.eventsByType.value| && OrZero(data.value.eventsByType.value[i].count) > 0
  {
    BarsShown(Series(data, (s: Stats) => s.jobsByCategory), (x: NameCount) => x.name, (x: NameCount) => x.count);
    BarsShown(Series(data, (s: Stats) => s.jobsByDay), (x: DayCount) => x.date, (x: DayCount) => x.count);
    BarsShown(Series(data, (s: Stats) => s.eventsByType), (x: TypeCount) => x.kind, (x: TypeCount) => x.count);
  }
}
