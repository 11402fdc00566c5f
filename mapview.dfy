/** The map page: every job is read page by page, narrowed to one category,
    and shown as heat points and markers; the busiest areas are counted from
    the address of each job. */
module MapView {
  import opened Js
  import opened Text
  import opened Seqs
  import opened Counting
  import opened Paging

  /** A coordinate field as the server sends it: `null`, missing, blank
      text, or any other value (a number, or text holding one). A value
      comes with the number `Number()` makes of it when that number is
      finite, and `None` when it is NaN or infinite. */
  datatype Coord = Null | Undefined | Blank | Given(finite: Option<real>)

  /** The fields the page reads of a job; `lat` and `lng` are
      `location_lat` and `location_lng`. */
  datatype Job = Job(
    id: string,
    title: Option<string>,
    category: Option<string>,
    wage: Option<string>,
    locationAddress: Option<string>,
    isDaily: Option<bool>,
    lat: Coord,
    lng: Coord,
    createdAt: Option<string>)

  /** One heat point `[lat, lng, 1]`. */
  datatype Point = Point(lat: real, lng: real, weight: int)

  /** One marker: the job's fields with its coordinates as numbers. */
  datatype Marker = Marker(
    id: string,
    title: Option<string>,
    category: Option<string>,
    wage: Option<string>,
    address: Option<string>,
    isDaily: Option<bool>,
    lat: real,
    lng: real,
    createdAt: Option<string>)

  // ---------------------------------------------------------------- parseArea

  const Unknown: string := "Naməlum"

  predicate IsNonEmpty(x: string) { x != "" }

  /** The country segment the page drops, compared lower-cased. */
  predicate IsCountry(x: string)
  {
    Lower(x) == "azerbaycan" || Lower(x) == "azerbaijan"
  }

  predicate NotCountry(x: string) { !IsCountry(x) }

  /** `String(address || '').split(',').map((x) => x.trim()).filter(Boolean)`. */
  function Segments(address: Option<string>): seq<string>
  {
    Filter(Map(Split(OrElse(address, ""), ','), Trim), IsNonEmpty)
  }

  /** The segments without the country, or all of them when nothing else is left. */
  function Kept(a: seq<string>): seq<string>
  {
    Prefer(a, NotCountry)
  }

  /** The last two segments, or the only one. */
  function LastTwo(arr: seq<string>): seq<string>
  {
    if |arr| >= 2 then arr[|arr| - 2..] else arr
  }

  /** `${x}, ${y}` for two segments, the segment itself for one. */
  function JoinArea(parts: seq<string>): string
    requires 1 <= |parts| <= 2
  {
    if |parts| == 2 then parts[0] + ", " + parts[1] else parts[0]
  }

  /** `parseArea`: the area key of an address. */
  function ParseArea(address: Option<string>): string
  {
    AreaOf(Segments(address))
  }

  /** The key made of the segments `a`. */
  function AreaOf(a: seq<string>): string
  {
    if |a| == 0 then Unknown else JoinArea(LastTwo(Kept(a)))
  }

  /** Non-empty, trimmed, comma-free: what `split`, `trim` and `filter(Boolean)` leave. */
  ghost predicate WellFormed(a: seq<string>)
  {
    forall i :: 0 <= i < |a| ==> a[i] != "" && IsTrimmed(a[i]) && ',' !in a[i]
  }

  /** Every segment is a non-empty, trimmed, comma-free piece of the address,
      and every piece that is not blank after trimming is a segment. */
  lemma SegmentsOf(address: Option<string>)
    ensures WellFormed(Segments(address))
    ensures forall x :: x in Segments(address) <==>
              x != "" && exists p :: p in Split(OrElse(address, ""), ',') && Trim(p) == x
  {
    var pieces := Split(OrElse(address, ""), ',');
    var a := Segments(address);
    forall x ensures x in a <==> x != "" && exists p :: p in pieces && Trim(p) == x {
      FilterMapIn(pieces, Trim, IsNonEmpty, x);
    }
    forall i | 0 <= i < |a| ensures a[i] != "" && IsTrimmed(a[i]) && ',' !in a[i] {
      assert a[i] in a;
      var p :| p in pieces && Trim(p) == a[i];
      TrimIsPiece(p, ',');
    }
  }

  /** A trimmed piece of a comma-free text is comma-free and trimmed. */
  lemma TrimIsPiece(p: string, sep: char)
    requires sep !in p
    ensures sep !in Trim(p) && IsTrimmed(Trim(p))
  {
    var r := Trim(p);
    var i :| PieceBetweenWhitespace(p, r, i);
    forall k | 0 <= k < |r| ensures r[k] != sep {
      assert r[k] == p[i + k];
    }
  }

  /** The country is dropped when anything else is left: then the kept
      segments are the non-country segments, in order; otherwise all
      segments, which are all the country, are kept. */
  lemma KeptDropsCountry(a: seq<string>)
    ensures (exists i :: 0 <= i < |a| && !IsCountry(a[i])) ==> Kept(a) == Filter(a, NotCountry)
    ensures (exists i :: 0 <= i < |a| && !IsCountry(a[i])) ==>
              forall j :: 0 <= j < |Kept(a)| ==> !IsCountry(Kept(a)[j])
    ensures (forall i :: 0 <= i < |a| ==> IsCountry(a[i])) ==> Kept(a) == a
  {
    PreferSpec(a, NotCountry);
  }

  /** Any selection of well-formed segments is well formed. */
  lemma WellFormedPart(a: seq<string>, b: seq<string>)
    requires WellFormed(a)
    requires forall j :: 0 <= j < |b| ==> b[j] in a
    ensures WellFormed(b)
  {
    forall j | 0 <= j < |b| ensures b[j] != "" && IsTrimmed(b[j]) && ',' !in b[j] {
      var k :| 0 <= k < |a| && a[k] == b[j];
    }
  }

  /** Every kept segment is a segment, so the kept segments are well formed,
      and one or two of them make the key. */
  lemma KeptIn(a: seq<string>)
    ensures forall j :: 0 <= j < |Kept(a)| ==> Kept(a)[j] in a
    ensures WellFormed(a) ==> WellFormed(Kept(a)) && WellFormed(LastTwo(Kept(a)))
    ensures a != [] ==> 1 <= |LastTwo(Kept(a))| <= 2
  {
    PreferIn(a, NotCountry);
    var arr := Kept(a);
    var parts := LastTwo(arr);
    if WellFormed(a) {
      WellFormedPart(a, arr);
      forall j | 0 <= j < |parts| ensures parts[j] in arr {
        assert parts[j] == arr[|arr| - |parts| + j];
      }
      WellFormedPart(arr, parts);
    }
  }

  /** Splitting a key made of one or two well-formed segments gives the segments back. */
  lemma SegmentsOfJoin(parts: seq<string>)
    requires 1 <= |parts| <= 2 && WellFormed(parts)
    ensures JoinArea(parts) != ""
    ensures Segments(Some(JoinArea(parts))) == parts
  {
    var r := JoinArea(parts);
    assert OrElse(Some(r), "") == r;
    if |parts| == 1 {
      assert r == Join(parts, ',');
      SplitJoin(parts, ',');
      TrimIdempotent(parts[0]);
      assert Map(parts, Trim) == parts;
    } else {
      var pieces := [parts[0], " " + parts[1]];
      assert r == Join(pieces, ',') by {
        assert Join(pieces[1..], ',') == " " + parts[1];
      }
      SplitJoin(pieces, ',');
      TrimIdempotent(parts[0]);
      TrimLeading(" ", parts[1]);
      assert Map(pieces, Trim) == parts;
    }
    FilterAll(parts, IsNonEmpty);
  }

  lemma UnknownIsArea()
    ensures WellFormed([Unknown]) && !IsCountry(Unknown)
  {
    assert |Lower(Unknown)| == 7;
  }

  /** The key is `Naməlum` when the address has no segment; otherwise it is
      built from the last two kept segments: `${x}, ${y}` for two, the
      segment itself for one. It is never empty. */
  lemma ParseAreaShape(address: Option<string>)
    ensures Segments(address) == [] ==> ParseArea(address) == Unknown
    ensures ParseArea(address) != ""
    ensures var arr := Kept(Segments(address));
            |arr| >= 2 ==> ParseArea(address) == arr[|arr| - 2] + ", " + arr[|arr| - 1]
    ensures var arr := Kept(Segments(address));
            |arr| == 1 ==> ParseArea(address) == arr[0]
  {
    var a := Segments(address);
    if a != [] {
      SegmentsOf(address);
      KeptIn(a);
      assert LastTwo(Kept(a))[0] != "";
    }
  }

  /** The segments of the key made of well-formed segments: the last two
      kept ones, or the single word `Naməlum`. */
  lemma ReparseArea(a: seq<string>)
    requires WellFormed(a)
    ensures Segments(Some(AreaOf(a))) == if a == [] then [Unknown] else LastTwo(Kept(a))
  {
    if a == [] {
      UnknownIsArea();
      SegmentsOfJoin([Unknown]);
    } else {
      KeptIn(a);
      SegmentsOfJoin(LastTwo(Kept(a)));
    }
  }

  /** Parsing an area key again gives its segments back: the last two kept
      segments of the address, or the single word `Naməlum`. */
  lemma ReparseSegments(address: Option<string>)
    ensures Segments(Some(ParseArea(address))) ==
            if Segments(address) == [] then [Unknown] else LastTwo(Kept(Segments(address)))
  {
    SegmentsOf(address);
    ReparseArea(Segments(address));
  }

  /** The last two kept segments keep themselves: they are all non-country,
      or all country. */
  lemma KeptOfLastTwo(a: seq<string>)
    ensures Kept(LastTwo(Kept(a))) == LastTwo(Kept(a))
  {
    var arr := Kept(a);
    var parts := LastTwo(arr);
    forall j | 0 <= j < |parts| ensures parts[j] in arr {
      assert parts[j] == arr[|arr| - |parts| + j];
    }
    PreferOfPart(a, NotCountry, parts);
  }

  /** The segments a key parses back to make the same key. */
  lemma AreaOfStable(a: seq<string>)
    ensures AreaOf(if a == [] then [Unknown] else LastTwo(Kept(a))) == AreaOf(a)
  {
    if a == [] {
      PreferOfPart([Unknown], NotCountry, [Unknown]);
    } else {
      KeptIn(a);
      KeptOfLastTwo(a);
    }
  }

  /** `parseArea` is idempotent: an area key parses to itself. */
  lemma ParseAreaIdempotent(address: Option<string>)
    ensures ParseArea(Some(ParseArea(address))) == ParseArea(address)
  {
    var a := Segments(address);
    SegmentsOf(address);
    ReparseArea(a);
    AreaOfStable(a);
  }

  // ---------------------------------------------------------------- filtered, points, markers

  predicate InCategory(cat: string, j: Job)
  {
    Trim(OrElse(j.category, "")) == cat
  }

  function CategoryIs(cat: string): Job -> bool { (j: Job) => InCategory(cat, j) }

  /** `filtered`: all jobs when no category is chosen, otherwise the jobs whose
      trimmed category is the chosen one. */
  function Filtered(jobs: seq<Job>, cat: string): seq<Job>
  {
    if cat != "" then Filter(jobs, CategoryIs(cat)) else jobs
  }

  /** With no category every job is kept; with one, exactly the jobs in it,
      each as often as it occurs. */
  lemma FilteredSpec(jobs: seq<Job>, cat: string)
    ensures cat == "" ==> Filtered(jobs, cat) == jobs
    ensures cat != "" ==> forall i :: 0 <= i < |Filtered(jobs, cat)| ==> InCategory(cat, Filtered(jobs, cat)[i])
    ensures cat != "" ==> forall j :: multiset(Filtered(jobs, cat))[j] ==
                                      if InCategory(cat, j) then multiset(jobs)[j] else 0
  {
    if cat != "" {
      forall j ensures multiset(Filtered(jobs, cat))[j] == if InCategory(cat, j) then multiset(jobs)[j] else 0 {
        FilterCount(jobs, CategoryIs(cat), j);
      }
    }
  }

  /** The filter keeps the list order: filtering two runs of jobs one after
      the other is filtering each. */
  lemma FilteredAppend(a: seq<Job>, b: seq<Job>, cat: string)
    ensures Filtered(a + b, cat) == Filtered(a, cat) + Filtered(b, cat)
  {
    if cat != "" {
      FilterAppend(a, b, CategoryIs(cat));
    }
  }

  /** `Number(c)` when `Number.isFinite` accepts it: `Number(null)` and
      `Number('')` are 0, `Number(undefined)` is NaN. */
  function FiniteNumber(c: Coord): Option<real>
  {
    match c
    case Null => Some(0.0)
    case Blank => Some(0.0)
    case Undefined => None
    case Given(v) => v
  }

  /** The filter of `points` and `markers` as written:
      `Number.isFinite(Number(j.location_lat)) && Number.isFinite(Number(j.location_lng))`. */
  predicate FiniteAsWritten(j: Job)
  {
    FiniteNumber(j.lat).Some? && FiniteNumber(j.lng).Some?
  }

  function LocatedAsWritten(filtered: seq<Job>): seq<Job>
  {
    Filter(filtered, FiniteAsWritten)
  }

  /** As written, a job saved without a location (a `null` or blank
      coordinate) passes the finiteness filter, since `Number` turns it
      into 0, and is drawn on the equator or the prime meridian; the note
      under the map says such jobs are not shown. The corrected filter
      leaves it out. */
  lemma UnlocatedJobPassesAsWritten(j: Job)
    requires j.lat.Null? || j.lat.Blank?
    requires FiniteNumber(j.lng).Some?
    ensures LocatedAsWritten([j]) == [j] && FiniteNumber(j.lat) == Some(0.0)
    ensures Located([j]) == []
  {
    assert [j][1..] == [];
  }

  /** The coordinate a job has: the finite number of a value that was sent;
      `null`, missing and blank fields are no coordinate. */
  function Coordinate(c: Coord): (r: Option<real>)
    ensures r.Some? <==> c.Given? && c.finite.Some?
    ensures r.Some? ==> r == FiniteNumber(c)
  {
    if c.Given? then c.finite else None
  }

  /** The corrected filter: both coordinates were sent and are finite numbers. */
  predicate HasCoords(j: Job)
  {
    Coordinate(j.lat).Some? && Coordinate(j.lng).Some?
  }

  /** The corrected filter keeps exactly the jobs the written one keeps
      whose coordinates are neither `null` nor blank, with the same numbers. */
  lemma HasCoordsNarrowsSource(j: Job)
    ensures HasCoords(j) <==>
              FiniteAsWritten(j) && !(j.lat.Null? || j.lat.Blank?) && !(j.lng.Null? || j.lng.Blank?)
    ensures HasCoords(j) ==> Coordinate(j.lat) == FiniteNumber(j.lat) && Coordinate(j.lng) == FiniteNumber(j.lng)
  {
  }

  /** The jobs drawn on the map, by the corrected filter. */
  function Located(filtered: seq<Job>): seq<Job>
  {
    Filter(filtered, HasCoords)
  }

  function PointOf(j: Job): Point
  {
    if HasCoords(j) then Point(Coordinate(j.lat).value, Coordinate(j.lng).value, 1) else Point(0.0, 0.0, 1)
  }

  function MarkerOf(j: Job): Marker
  {
    var lat := if Coordinate(j.lat).Some? then Coordinate(j.lat).value else 0.0;
    var lng := if Coordinate(j.lng).Some? then Coordinate(j.lng).value else 0.0;
    Marker(j.id, j.title, j.category, j.wage, j.locationAddress, j.isDaily, lat, lng, j.createdAt)
  }

  /** `points`, by the corrected filter `Located` (a job without a sent
      coordinate gets no point). */
  function Points(filtered: seq<Job>): seq<Point>
  {
    Map(Located(filtered), PointOf)
  }

  /** `markers`, by the corrected filter `Located` (a job without a sent
      coordinate gets no marker). */
  function Markers(filtered: seq<Job>): seq<Marker>
  {
    Map(Located(filtered), MarkerOf)
  }

  /** Heat points and markers come from the same jobs in the same order: as
      many of each, the i-th point at the i-th marker with weight 1, and the
      i-th marker the i-th job with finite coordinates, its fields copied. */
  lemma PointsMatchMarkers(filtered: seq<Job>)
    ensures |Points(filtered)| == |Markers(filtered)| == |Located(filtered)|
    ensures forall i :: 0 <= i < |Points(filtered)| ==>
              && Points(filtered)[i].lat == Markers(filtered)[i].lat
              && Points(filtered)[i].lng == Markers(filtered)[i].lng
              && Points(filtered)[i].weight == 1
    ensures forall i :: 0 <= i < |Markers(filtered)| ==>
              var j, m := Located(filtered)[i], Markers(filtered)[i];
              && Some(m.lat) == Coordinate(j.lat) && Some(m.lng) == Coordinate(j.lng)
              && m.id == j.id && m.title == j.title && m.category == j.category && m.wage == j.wage
              && m.address == j.locationAddress && m.isDaily == j.isDaily && m.createdAt == j.createdAt
  {
  }

  /** A job is placed on the map exactly when it passes the filter and has
      finite coordinates; a job without a location (a coordinate `null`,
      missing or blank) is never placed. */
  lemma LocatedIn(filtered: seq<Job>, j: Job)
    ensures j in Located(filtered) <==> j in filtered && HasCoords(j)
    ensures j in Located(filtered) ==> j.lat.Given? && j.lng.Given?
  {
    FilterIn(filtered, HasCoords, j);
  }

  /** Baku, `[40.4093, 49.8671]`. */
  const Baku: (real, real) := (40.4093, 49.8671)

  /** `center`: the first marker's position, or Baku when there is no marker. */
  function Center(markers: seq<Marker>): (real, real)
  {
    if |markers| > 0 then (markers[0].lat, markers[0].lng) else Baku
  }

  /** The map is centred on the first filtered job with finite coordinates,
      and on Baku when no job has them. */
  lemma CenterOfFiltered(filtered: seq<Job>)
    ensures (forall i :: 0 <= i < |filtered| ==> !HasCoords(filtered[i])) ==> Center(Markers(filtered)) == Baku
    ensures forall k :: 0 <= k < |filtered| && HasCoords(filtered[k]) &&
                        (forall i :: 0 <= i < k ==> !HasCoords(filtered[i])) ==>
              Center(Markers(filtered)) == (Coordinate(filtered[k].lat).value, Coordinate(filtered[k].lng).value)
  {
    if forall i :: 0 <= i < |filtered| ==> !HasCoords(filtered[i]) {
      FilterNone(filtered, HasCoords);
    }
    forall k | 0 <= k < |filtered| && HasCoords(filtered[k]) && (forall i :: 0 <= i < k ==> !HasCoords(filtered[i]))
      ensures Center(Markers(filtered)) == (Coordinate(filtered[k].lat).value, Coordinate(filtered[k].lng).value)
    {
      FilterFirst(filtered, HasCoords, k);
    }
  }

  // ---------------------------------------------------------------- loading

  /** `fetchAllJobs`: at most 40 pages of 200 (see `Paging.CrawlShape`). */
  method FetchAllJobs(fetch: nat -> Reply<Job>) returns (r: Outcome<Job>)
    ensures r == Crawl(fetch, 40, 0)
  {
    ghost var requested;
    r, requested := FetchAll(fetch, 40);
  }

  // ---------------------------------------------------------------- topAreas

  /** The area key of a job: `parseArea(j.location_address)`. */
  function AreaKey(j: Job): string
  {
    ParseArea(j.locationAddress)
  }

  /** The area key of each job, in order. */
  function AreaKeys(jobs: seq<Job>): seq<string>
  {
    Map(jobs, AreaKey)
  }

  /** `topAreas`: count the jobs per area key in a `Map`, sort the entries by
      count, largest first, and keep ten. */
  method TopAreas(filtered: seq<Job>) returns (r: seq<Entry>)
    ensures r == TopByCount(Tally(AreaKeys(filtered)), 10)
  {
    var m := new Counter();
    for i := 0 to |filtered|
      invariant m.Valid() && m.seen == AreaKeys(filtered[..i])
    {
      m.Add(AreaKey(filtered[i]));
      MapSnoc(filtered, AreaKey, i);
    }
    assert filtered[..|filtered|] == filtered;
    var entries := m.Entries();
    r := Take(SortBy(entries, CountGe), 10);
  }

  /** At most ten areas, each once, by count, largest first; each count is the
      number of filtered jobs with that key; an area left out has no more jobs
      than any area shown. */
  lemma TopAreasSpec(filtered: seq<Job>)
    ensures var r := TopByCount(Tally(AreaKeys(filtered)), 10);
            && |r| <= 10
            && DistinctBy(r, Key)
            && SortedBy(r, CountGe)
            && (forall e :: e in r ==> e.count == multiset(AreaKeys(filtered))[e.key] && e.count >= 1)
    ensures forall k :: k in AreaKeys(filtered) && Entry(k, multiset(AreaKeys(filtered))[k]) !in TopByCount(Tally(AreaKeys(filtered)), 10) ==>
              forall e :: e in TopByCount(Tally(AreaKeys(filtered)), 10) ==> e.count >= multiset(AreaKeys(filtered))[k]
  {
    var ks := AreaKeys(filtered);
    TopByCountOfTally(ks, 10);
    forall e | e in TopByCount(Tally(ks), 10) ensures e.count >= 1 {
      assert e.key in ks;
    }
  }
}
