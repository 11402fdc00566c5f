/** The categories page: the two-level category list (parents, each followed
    by its children, then orphans), the parent selector, and the edit form
    with its save validation and payload. */
module Categories {
  import opened Js
  import opened Text
  import opened Seqs

  /** A category as the API lists it. `sort` is the finite integer that
      `Number(c.sort)` gives, or `None` when that is not finite. */
  datatype Category = Category(
    id: string,
    name: Option<string>,
    slug: Option<string>,
    sort: Option<int>,
    isActive: Option<bool>,
    parentId: Option<string>,
    createdAt: Option<string>)

  /** One line of the ordered list: the category, and its `__isChild` mark. */
  datatype Row = Row(cat: Category, isChild: bool)

  /** `toInt(v, fallback)`: the number when it is finite, else the fallback. */
  function ToInt(v: Option<int>, fallback: int := 0): (r: int)
    ensures v.Some? ==> r == v.value
    ensures v.None? ==> r == fallback
  {
    if v.Some? then v.value else fallback
  }

  /** `sortFn(a, b) <= 0` for `sortFn = (a, b) => (toInt(a.sort, 0) -
      toInt(b.sort, 0)) || String(a.name || '').localeCompare(String(b.name || ''))`. */
  predicate CatLe(a: Category, b: Category)
  {
    var sa, sb := ToInt(a.sort, 0), ToInt(b.sort, 0);
    sa < sb || (sa == sb && StrLe(OrElse(a.name, ""), OrElse(b.name, "")))
  }

  lemma CatLeIsPreorder()
    ensures TotalPreorder(CatLe)
  {
    forall a: Category, b: Category ensures CatLe(a, b) || CatLe(b, a) {
      StrLeTotal(OrElse(a.name, ""), OrElse(b.name, ""));
    }
    forall a: Category, b: Category, c: Category | CatLe(a, b) && CatLe(b, c) ensures CatLe(a, c) {
      if ToInt(a.sort, 0) == ToInt(b.sort, 0) == ToInt(c.sort, 0) {
        StrLeTransitive(OrElse(a.name, ""), OrElse(b.name, ""), OrElse(c.name, ""));
      }
    }
  }

  // ---------------------------------------------------------------- the groups

  function Id(c: Category): string { c.id }

  /** The ids of all items: the keys of `idToName`. */
  function Ids(items: seq<Category>): set<string>
  {
    set i | 0 <= i < |items| :: items[i].id
  }

  predicate IsTopLevel(c: Category) { !Truthy(c.parentId) }

  /** `c.parent_id` is set and names `pid`. */
  predicate ParentIs(c: Category, pid: string) { Truthy(c.parentId) && c.parentId.value == pid }

  function ChildOf(pid: string): Category -> bool { (c: Category) => ParentIs(c, pid) }

  function HasId(id: string): Category -> bool { (c: Category) => c.id == id }

  /** `x.parent_id && !idToName.has(x.parent_id)`. */
  predicate IsOrphan(c: Category, ids: set<string>) { Truthy(c.parentId) && c.parentId.value !in ids }

  function OrphanOf(ids: set<string>): Category -> bool { (c: Category) => IsOrphan(c, ids) }

  /** The items without a parent, in list order. */
  function TopLevel(items: seq<Category>): seq<Category>
  {
    Filter(items, IsTopLevel)
  }

  /** `childrenByParent.get(pid) || []` before sorting: the items whose parent
      is `pid`, in list order. */
  function Kids(items: seq<Category>, pid: string): seq<Category>
  {
    Filter(items, ChildOf(pid))
  }

  function OrphanFilter(items: seq<Category>, ids: set<string>): seq<Category>
  {
    Filter(items, OrphanOf(ids))
  }

  function Orphans(items: seq<Category>): seq<Category>
  {
    OrphanFilter(items, Ids(items))
  }

  /** `{ ...k, __isChild: true }` for each of `cs`. */
  function AsChildren(cs: seq<Category>): (r: seq<Row>)
    ensures |r| == |cs|
    ensures forall i :: 0 <= i < |cs| ==> r[i] == Row(cs[i], true)
  {
    seq(|cs|, i requires 0 <= i < |cs| => Row(cs[i], true))
  }

  /** A parent row followed by its children sorted by `sortFn`. */
  function Group(items: seq<Category>, p: Category): seq<Row>
  {
    [Row(p, false)] + AsChildren(SortBy(Kids(items, p.id), CatLe))
  }

  function GroupOf(items: seq<Category>): Category -> seq<Row>
  {
    (p: Category) => Group(items, p)
  }

  /** The groups of the parents `ps`, one after the other. */
  function Groups(items: seq<Category>, ps: seq<Category>): seq<Row>
  {
    Blocks(ps, GroupOf(items))
  }

  function SortedParents(items: seq<Category>): seq<Category>
  {
    SortBy(TopLevel(items), CatLe)
  }

  function SortedOrphans(items: seq<Category>): seq<Category>
  {
    SortBy(Orphans(items), CatLe)
  }

  /** What `ordered` computes: every sorted parent with its sorted children,
      then the sorted orphans. */
  function OrderedRows(items: seq<Category>): seq<Row>
  {
    Groups(items, SortedParents(items)) + AsChildren(SortedOrphans(items))
  }

  /** The label `idToName` keeps for `id`: `c.name || '-'` of the last item
      carrying it, or nothing when no item does. */
  function LastLabel(items: seq<Category>, id: string): Option<string>
  {
    if items == [] then None
    else if items[|items| - 1].id == id then Some(OrElse(items[|items| - 1].name, "-"))
    else LastLabel(items[..|items| - 1], id)
  }

  lemma IdsSnoc(items: seq<Category>)
    requires items != []
    ensures Ids(items) == Ids(items[..|items| - 1]) + {items[|items| - 1].id}
  {
    var init := items[..|items| - 1];
    assert forall k :: 0 <= k < |init| ==> items[k] == init[k];
  }

  /** An id has a label exactly when some item carries it, and the label is
      that of an item with the id after which no item carries it. */
  lemma {:induction false} LastLabelOf(items: seq<Category>, id: string)
    ensures LastLabel(items, id).Some? <==> id in Ids(items)
    ensures LastLabel(items, id).Some? ==>
              exists j :: 0 <= j < |items| && items[j].id == id &&
                          LastLabel(items, id).value == OrElse(items[j].name, "-") &&
                          forall k :: j < k < |items| ==> items[k].id != id
  {
    if items != [] {
      var init := items[..|items| - 1];
      LastLabelOf(init, id);
      IdsSnoc(items);
      var n := |items| - 1;
      if items[n].id == id {
        assert items[n].id == id && LastLabel(items, id).value == OrElse(items[n].name, "-");
      } else if LastLabel(init, id).Some? {
        var j :| 0 <= j < |init| && init[j].id == id &&
                 LastLabel(init, id).value == OrElse(init[j].name, "-") &&
                 forall k :: j < k < |init| ==> init[k].id != id;
        assert items[j] == init[j];
        forall k | j < k < |items| ensures items[k].id != id {
          if k < n {
            assert items[k] == init[k];
          }
        }
      }
    }
  }

  /** The `idToName` memo: every item id mapped to its label. */
  method IdToName(items: seq<Category>) returns (m: map<string, string>)
    ensures forall id :: LastLabel(items, id) == if id in m then Some(m[id]) else None
  {
    m := map[];
    for i := 0 to |items|
      invariant forall id :: LastLabel(items[..i], id) == if id in m then Some(m[id]) else None
    {
      assert items[..i + 1][..i] == items[..i];
      m := m[items[i].id := OrElse(items[i].name, "-")];
    }
    assert items[..|items|] == items;
  }

  /** The first pass of `ordered`: the top-level items in list order, and
      for every parent id named by some item, the items naming it. */
  method Partition(items: seq<Category>) returns (parents: seq<Category>, childrenByParent: map<string, seq<Category>>)
    ensures parents == TopLevel(items)
    ensures forall pid :: pid in childrenByParent ==> childrenByParent[pid] == Kids(items, pid)
    ensures forall pid :: pid !in childrenByParent ==> Kids(items, pid) == []
  {
    parents := [];
    childrenByParent := map[];
    for i := 0 to |items|
      invariant parents == TopLevel(items[..i])
      invariant forall pid :: pid in childrenByParent ==> childrenByParent[pid] == Kids(items[..i], pid)
      invariant forall pid :: pid !in childrenByParent ==> Kids(items[..i], pid) == []
    {
      var c := items[i];
      assert items[..i + 1][..i] == items[..i];
      if !Truthy(c.parentId) {
        parents := parents + [c];
      } else {
        var pid := c.parentId.value;
        if pid !in childrenByParent {
          childrenByParent := childrenByParent[pid := []];
        }
        childrenByParent := childrenByParent[pid := childrenByParent[pid] + [c]];
      }
    }
    assert items[..|items|] == items;
  }

  /** `out.push({ c, isChild: true })` for each of `cs` in turn. */
  method PushChildren(out: seq<Row>, cs: seq<Category>) returns (r: seq<Row>)
    ensures r == out + AsChildren(cs)
  {
    r := out;
    for k := 0 to |cs|
      invariant r == out + AsChildren(cs[..k])
    {
      assert AsChildren(cs[..k + 1]) == AsChildren(cs[..k]) + [Row(cs[k], true)];
      r := r + [Row(cs[k], true)];
    }
    assert cs[..|cs|] == cs;
  }

  /** The sorted children lists, keyed by parent id. */
  ghost predicate SortedChildrenMap(items: seq<Category>, m: map<string, seq<Category>>)
  {
    && (forall pid :: pid in m ==> m[pid] == SortBy(Kids(items, pid), CatLe))
    && (forall pid :: pid !in m ==> Kids(items, pid) == [])
  }

  /** The second pass of `ordered`: each parent row followed by its sorted children. */
  method PushGroups(items: seq<Category>, parents: seq<Category>, childrenByParent: map<string, seq<Category>>)
    returns (out: seq<Row>)
    requires SortedChildrenMap(items, childrenByParent)
    ensures out == Groups(items, parents)
  {
    out := [];
    for j := 0 to |parents|
      invariant out == Groups(items, parents[..j])
    {
      var p := parents[j];
      var before := out;
      var kids := if p.id in childrenByParent then childrenByParent[p.id] else [];
      out := PushChildren(out + [Row(p, false)], kids);
      NextGroup(items, parents, j, before, kids);
    }
    assert parents[..|parents|] == parents;
  }

  /** `ordered`: partition the items into `parents` and `childrenByParent`,
      sort each list, then emit each parent followed by its children, and
      the orphans last. */
  method Ordered(items: seq<Category>) returns (out: seq<Row>)
    ensures out == OrderedRows(items)
  {
    var idToName := IdToName(items);
    forall id ensures id in idToName <==> id in Ids(items) {
      LastLabelOf(items, id);
    }
    assert idToName.Keys == Ids(items);
    var parents, childrenByParent := Partition(items);
    parents := SortBy(parents, CatLe);
    childrenByParent := map pid | pid in childrenByParent :: SortBy(childrenByParent[pid], CatLe);
    out := PushGroups(items, parents, childrenByParent);
    var orphans := OrphanFilter(items, idToName.Keys);
    if |orphans| > 0 {
      out := PushChildren(out, SortBy(orphans, CatLe));
    } else {
      assert out == out + AsChildren(SortBy(orphans, CatLe));
    }
  }

  /** One step of the emitting loop: the rows of the groups so far, the
      parent row and its sorted children are the groups one further. */
  lemma NextGroup(items: seq<Category>, parents: seq<Category>, j: int, before: seq<Row>, kids: seq<Category>)
    requires 0 <= j < |parents|
    requires before == Groups(items, parents[..j])
    requires kids == SortBy(Kids(items, parents[j].id), CatLe)
    ensures before + [Row(parents[j], false)] + AsChildren(kids) == Groups(items, parents[..j + 1])
  {
    var f := GroupOf(items);
    var head := [Row(parents[j], false)];
    BlocksSnoc(parents, f, j);
    assert f(parents[j]) == head + AsChildren(kids);
    assert before + head + AsChildren(kids) == before + (head + AsChildren(kids));
  }

  // ---------------------------------------------------------------- properties of the order

  /** Each parent's group sits in one contiguous block right after the
      groups of the parents sorted before it: the parent row, then its
      children (see `SortedKids`). */
  lemma GroupBlock(items: seq<Category>, i: int)
    requires 0 <= i < |SortedParents(items)|
    ensures OccursAt(OrderedRows(items), Group(items, SortedParents(items)[i]), |Groups(items, SortedParents(items)[..i])|)
  {
    var ps := SortedParents(items);
    var f := GroupOf(items);
    var t := AsChildren(SortedOrphans(items));
    BlockAtFollowed(ps, f, i, t);
    assert OrderedRows(items) == Blocks(ps, f) + t;
    assert Group(items, ps[i]) == f(ps[i]);
    assert Groups(items, ps[..i]) == Blocks(ps[..i], f);
  }

  /** The children in a group are exactly the items naming the parent, each
      as often as it occurs, sorted by `sortFn`. */
  lemma SortedKids(items: seq<Category>, pid: string)
    ensures SortedBy(SortBy(Kids(items, pid), CatLe), CatLe)
    ensures forall c :: multiset(SortBy(Kids(items, pid), CatLe))[c] == if ParentIs(c, pid) then multiset(items)[c] else 0
  {
    CatLeIsPreorder();
    SortBySorted(Kids(items, pid), CatLe);
    forall c ensures multiset(SortBy(Kids(items, pid), CatLe))[c] == if ParentIs(c, pid) then multiset(items)[c] else 0 {
      FilterCount(items, ChildOf(pid), c);
    }
  }

  function IsParentRow(r: Row): bool { !r.isChild }

  function AsParents(ps: seq<Category>): (r: seq<Row>)
    ensures |r| == |ps|
    ensures forall i :: 0 <= i < |ps| ==> r[i] == Row(ps[i], false)
  {
    seq(|ps|, i requires 0 <= i < |ps| => Row(ps[i], false))
  }

  function ParentRowOf(): Category -> seq<Row> { (p: Category) => [Row(p, false)] }

  lemma {:induction false} ChildRowsDrop(cs: seq<Category>)
    ensures Filter(AsChildren(cs), IsParentRow) == []
  {
    if cs != [] {
      ChildRowsDrop(cs[..|cs| - 1]);
      assert AsChildren(cs)[..|cs| - 1] == AsChildren(cs[..|cs| - 1]);
    }
  }

  lemma GroupParentRow(items: seq<Category>, p: Category)
    ensures Filter(Group(items, p), IsParentRow) == [Row(p, false)]
  {
    var kids := AsChildren(SortBy(Kids(items, p.id), CatLe));
    FilterAppend([Row(p, false)], kids, IsParentRow);
    ChildRowsDrop(SortBy(Kids(items, p.id), CatLe));
    assert Filter([Row(p, false)], IsParentRow) == [Row(p, false)];
  }

  lemma {:induction false} ParentBlocks(ps: seq<Category>)
    ensures Blocks(ps, ParentRowOf()) == AsParents(ps)
  {
    if ps != [] {
      ParentBlocks(ps[..|ps| - 1]);
    }
  }

  /** The rows without the child mark are exactly the top-level items, each
      once, in `sortFn` order. */
  lemma ParentRowsAreSortedTopLevel(items: seq<Category>)
    ensures Filter(OrderedRows(items), IsParentRow) == AsParents(SortedParents(items))
    ensures multiset(SortedParents(items)) == multiset(TopLevel(items))
    ensures SortedBy(SortedParents(items), CatLe)
  {
    var ps := SortedParents(items);
    var f := GroupOf(items);
    forall i | 0 <= i < |ps| ensures Filter(f(ps[i]), IsParentRow) == ParentRowOf()(ps[i]) {
      GroupParentRow(items, ps[i]);
    }
    BlocksFilter(ps, f, IsParentRow, ParentRowOf());
    ParentBlocks(ps);
    FilterAppend(Groups(items, ps), AsChildren(SortedOrphans(items)), IsParentRow);
    ChildRowsDrop(SortedOrphans(items));
    CatLeIsPreorder();
    SortBySorted(TopLevel(items), CatLe);
  }

  predicate MarkedByParentId(r: Row) { r.isChild <==> Truthy(r.cat.parentId) }

  /** A sorted child list holds only children of `pid`. */
  lemma SortedKidsAreChildren(items: seq<Category>, pid: string, j: int)
    requires 0 <= j < |SortBy(Kids(items, pid), CatLe)|
    ensures ParentIs(SortBy(Kids(items, pid), CatLe)[j], pid)
  {
    var c := SortBy(Kids(items, pid), CatLe)[j];
    assert c in multiset(Kids(items, pid));
    var k :| 0 <= k < |Kids(items, pid)| && Kids(items, pid)[k] == c;
  }

  lemma GroupMarks(items: seq<Category>, p: Category)
    requires IsTopLevel(p)
    ensures forall j :: 0 <= j < |Group(items, p)| ==> MarkedByParentId(Group(items, p)[j])
  {
    forall j | 0 < j < |Group(items, p)| ensures MarkedByParentId(Group(items, p)[j]) {
      SortedKidsAreChildren(items, p.id, j - 1);
    }
  }

  lemma SortedParentsAreTopLevel(items: seq<Category>, i: int)
    requires 0 <= i < |SortedParents(items)|
    ensures IsTopLevel(SortedParents(items)[i]) && SortedParents(items)[i] in items
  {
    var p := SortedParents(items)[i];
    assert p in multiset(TopLevel(items));
    var k :| 0 <= k < |TopLevel(items)| && TopLevel(items)[k] == p;
    FilterIn(items, IsTopLevel, p);
  }

  lemma SortedOrphansAreOrphans(items: seq<Category>, j: int)
    requires 0 <= j < |SortedOrphans(items)|
    ensures IsOrphan(SortedOrphans(items)[j], Ids(items))
  {
    var c := SortedOrphans(items)[j];
    assert c in multiset(Orphans(items));
    var k :| 0 <= k < |Orphans(items)| && Orphans(items)[k] == c;
  }

  /** Every row of the parents' groups is marked by its parent id. */
  lemma GroupsMarked(items: seq<Category>)
    ensures forall j :: 0 <= j < |Groups(items, SortedParents(items))| ==>
              MarkedByParentId(Groups(items, SortedParents(items))[j])
  {
    var ps := SortedParents(items);
    var f := GroupOf(items);
    forall i, j | 0 <= i < |ps| && 0 <= j < |f(ps[i])| ensures MarkedByParentId(f(ps[i])[j]) {
      SortedParentsAreTopLevel(items, i);
      GroupMarks(items, ps[i]);
    }
    BlocksAll(ps, f, MarkedByParentId);
  }

  /** A row carries the child mark exactly when its category has a parent id. */
  lemma ChildMarkIffParentId(items: seq<Category>)
    ensures forall j :: 0 <= j < |OrderedRows(items)| ==> MarkedByParentId(OrderedRows(items)[j])
  {
    var o := AsChildren(SortedOrphans(items));
    GroupsMarked(items);
    forall j | 0 <= j < |o| ensures MarkedByParentId(o[j]) {
      SortedOrphansAreOrphans(items, j);
    }
    AllOfAppend(Groups(items, SortedParents(items)), o, MarkedByParentId);
  }

  function NotOrphanIn(items: seq<Category>): Row -> bool
  {
    (r: Row) => !IsOrphan(r.cat, Ids(items))
  }

  lemma GroupHasNoOrphans(items: seq<Category>, p: Category)
    requires IsTopLevel(p) && p in items
    ensures forall j :: 0 <= j < |Group(items, p)| ==> !IsOrphan(Group(items, p)[j].cat, Ids(items))
  {
    assert p.id in Ids(items) by {
      var k :| 0 <= k < |items| && items[k] == p;
    }
    var kids := SortBy(Kids(items, p.id), CatLe);
    forall j | 0 < j < |Group(items, p)| ensures !IsOrphan(Group(items, p)[j].cat, Ids(items)) {
      SortedKidsAreChildren(items, p.id, j - 1);
      assert Group(items, p)[j].cat == kids[j - 1];
    }
  }

  /** No row of the parents' groups is an orphan. */
  lemma GroupsHaveNoOrphans(items: seq<Category>)
    ensures forall j :: 0 <= j < |Groups(items, SortedParents(items))| ==>
              NotOrphanIn(items)(Groups(items, SortedParents(items))[j])
  {
    var ps := SortedParents(items);
    var f := GroupOf(items);
    forall i, j | 0 <= i < |ps| && 0 <= j < |f(ps[i])| ensures NotOrphanIn(items)(f(ps[i])[j]) {
      SortedParentsAreTopLevel(items, i);
      GroupHasNoOrphans(items, ps[i]);
    }
    BlocksAll(ps, f, NotOrphanIn(items));
  }

  /** The orphans, marked as children, end the list, and no row before them
      is an orphan. */
  lemma OrphansLast(items: seq<Category>)
    ensures var n := |OrderedRows(items)| - |SortedOrphans(items)|;
            && 0 <= n
            && OrderedRows(items)[n..] == AsChildren(SortedOrphans(items))
            && (forall i :: 0 <= i < n ==> !IsOrphan(OrderedRows(items)[i].cat, Ids(items)))
            && (forall i :: n <= i < |OrderedRows(items)| ==> IsOrphan(OrderedRows(items)[i].cat, Ids(items)))
  {
    var g := Groups(items, SortedParents(items));
    var o := AsChildren(SortedOrphans(items));
    assert OrderedRows(items) == g + o;
    GroupsHaveNoOrphans(items);
    forall j | 0 <= j < |o| ensures !NotOrphanIn(items)(o[j]) {
      SortedOrphansAreOrphans(items, j);
    }
    SplitOfAppend(g, o, NotOrphanIn(items));
  }

  /** The orphans are in `sortFn` order. */
  lemma OrphansSorted(items: seq<Category>)
    ensures SortedBy(SortedOrphans(items), CatLe)
  {
    CatLeIsPreorder();
    SortBySorted(Orphans(items), CatLe);
  }

  // ---------------------------------------------------------------- what is emitted, and how often

  function Cats(rows: seq<Row>): (r: seq<Category>)
    ensures |r| == |rows|
    ensures forall i :: 0 <= i < |rows| ==> r[i] == rows[i].cat
  {
    seq(|rows|, i requires 0 <= i < |rows| => rows[i].cat)
  }

  /** How many items in `s` have the id `id`. */
  function WithId(s: seq<Category>, id: string): nat
  {
    |Filter(s, HasId(id))|
  }

  lemma CatsAppend(a: seq<Row>, b: seq<Row>)
    ensures Cats(a + b) == Cats(a) + Cats(b)
  {
  }

  lemma CatsOfChildren(cs: seq<Category>)
    ensures Cats(AsChildren(cs)) == cs
  {
  }

  /** How often `x` is emitted in the group of `p`. */
  function CountIn(items: seq<Category>, x: Category): Category -> nat
  {
    (p: Category) => (if p == x then 1 else 0) + (if ParentIs(x, p.id) then multiset(items)[x] else 0)
  }

  function GroupCatsOf(items: seq<Category>): Category -> seq<Category>
  {
    (p: Category) => Cats(Group(items, p))
  }

  lemma GroupCount(items: seq<Category>, p: Category, x: Category)
    ensures multiset(Cats(Group(items, p)))[x] == CountIn(items, x)(p)
  {
    var kids := SortBy(Kids(items, p.id), CatLe);
    CatsAppend([Row(p, false)], AsChildren(kids));
    CatsOfChildren(kids);
    FilterCount(items, ChildOf(p.id), x);
  }

  lemma {:induction false} CatsOfBlocks(ps: seq<Category>, f: Category -> seq<Row>, g: Category -> seq<Category>)
    requires forall i :: 0 <= i < |ps| ==> g(ps[i]) == Cats(f(ps[i]))
    ensures Cats(Blocks(ps, f)) == Blocks(ps, g)
  {
    if ps != [] {
      CatsOfBlocks(ps[..|ps| - 1], f, g);
      CatsAppend(Blocks(ps[..|ps| - 1], f), f(ps[|ps| - 1]));
    }
  }

  lemma {:induction false} SumOfCounts(items: seq<Category>, ps: seq<Category>, x: Category)
    ensures SumBy(ps, CountIn(items, x)) ==
            multiset(ps)[x] + (if Truthy(x.parentId) then WithId(ps, x.parentId.value) * multiset(items)[x] else 0)
  {
    if ps != [] {
      var ps' := ps[..|ps| - 1];
      var p := ps[|ps| - 1];
      var c := CountIn(items, x);
      SumOfCounts(items, ps', x);
      assert SumBy(ps, c) == SumBy(ps', c) + c(p);
      assert multiset(ps)[x] == multiset(ps')[x] + (if p == x then 1 else 0) by {
        assert ps == ps' + [p];
      }
      if Truthy(x.parentId) {
        var id := x.parentId.value;
        var m := multiset(items)[x];
        WithIdStep(ps, id, m);
        assert c(p) == (if p == x then 1 else 0) + (if p.id == id then m else 0);
      } else {
        assert c(p) == (if p == x then 1 else 0);
      }
    }
  }

  lemma WithIdStep(ps: seq<Category>, id: string, m: nat)
    requires ps != []
    ensures WithId(ps, id) * m == WithId(ps[..|ps| - 1], id) * m + (if ps[|ps| - 1].id == id then m else 0)
  {
    var w := WithId(ps[..|ps| - 1], id);
    if ps[|ps| - 1].id == id {
      assert WithId(ps, id) == w + 1;
      assert (w + 1) * m == w * m + m;
    } else {
      assert WithId(ps, id) == w;
    }
  }

  lemma GroupsCount(items: seq<Category>, ps: seq<Category>, x: Category)
    ensures multiset(Cats(Groups(items, ps)))[x] ==
            multiset(ps)[x] + (if Truthy(x.parentId) then WithId(ps, x.parentId.value) * multiset(items)[x] else 0)
  {
    var f := GroupOf(items);
    var g := GroupCatsOf(items);
    CatsOfBlocks(ps, f, g);
    forall i | 0 <= i < |ps| ensures multiset(g(ps[i]))[x] == CountIn(items, x)(ps[i]) {
      GroupCount(items, ps[i], x);
    }
    BlocksCount(ps, g, x, CountIn(items, x));
    SumOfCounts(items, ps, x);
  }

  lemma WithIdPermutation(a: seq<Category>, b: seq<Category>, id: string)
    requires multiset(a) == multiset(b)
    ensures WithId(a, id) == WithId(b, id)
  {
    FilterPermutation(a, b, HasId(id));
    assert |Filter(a, HasId(id))| == |multiset(Filter(a, HasId(id)))|;
    assert |Filter(b, HasId(id))| == |multiset(Filter(b, HasId(id)))|;
  }

  lemma WithIdAbsent(items: seq<Category>, id: string)
    requires id !in Ids(items)
    ensures WithId(TopLevel(items), id) == 0
  {
    if WithId(TopLevel(items), id) > 0 {
      var c := Filter(TopLevel(items), HasId(id))[0];
      FilterIn(TopLevel(items), HasId(id), c);
      FilterIn(items, IsTopLevel, c);
      assert false;
    }
  }

  lemma ParentsCount(items: seq<Category>, x: Category)
    ensures multiset(SortedParents(items))[x] == if IsTopLevel(x) then multiset(items)[x] else 0
  {
    FilterCount(items, IsTopLevel, x);
  }

  lemma OrphansCount(items: seq<Category>, x: Category)
    ensures multiset(SortedOrphans(items))[x] == if IsOrphan(x, Ids(items)) then multiset(items)[x] else 0
  {
    FilterCount(items, OrphanOf(Ids(items)), x);
  }

  lemma RowsCount(items: seq<Category>, x: Category)
    ensures multiset(Cats(OrderedRows(items)))[x] ==
            multiset(Cats(Groups(items, SortedParents(items))))[x] + multiset(SortedOrphans(items))[x]
  {
    CatsAppend(Groups(items, SortedParents(items)), AsChildren(SortedOrphans(items)));
    CatsOfChildren(SortedOrphans(items));
  }

  /** The exact number of times `ordered` emits an item: a top-level item and
      an orphan as often as it occurs in `items`; a child of an existing item
      that often, times the number of top-level items carrying its parent id. */
  lemma OrderedCount(items: seq<Category>, x: Category)
    ensures multiset(Cats(OrderedRows(items)))[x] ==
            if !Truthy(x.parentId) || x.parentId.value !in Ids(items) then multiset(items)[x]
            else WithId(TopLevel(items), x.parentId.value) * multiset(items)[x]
  {
    RowsCount(items, x);
    GroupsCount(items, SortedParents(items), x);
    ParentsCount(items, x);
    OrphansCount(items, x);
    if Truthy(x.parentId) {
      SortedParentsWithId(items, x.parentId.value);
    }
  }

  lemma SortedParentsWithId(items: seq<Category>, pid: string)
    ensures WithId(SortedParents(items), pid) == if pid in Ids(items) then WithId(TopLevel(items), pid) else 0
  {
    WithIdPermutation(SortedParents(items), TopLevel(items), pid);
    if pid !in Ids(items) {
      WithIdAbsent(items, pid);
    }
  }

  /** Ids are unique across the list. */
  ghost predicate UniqueIds(items: seq<Category>)
  {
    DistinctBy(items, Id)
  }

  /** Nesting is one level deep: the parent of a child is itself top-level. */
  ghost predicate OneLevel(items: seq<Category>)
  {
    forall c, p :: c in items && p in items && ParentIs(c, p.id) ==> IsTopLevel(p)
  }

  lemma WithIdOwner(items: seq<Category>, p: Category)
    requires UniqueIds(items) && p in items
    ensures WithId(TopLevel(items), p.id) == if IsTopLevel(p) then 1 else 0
  {
    var t := TopLevel(items);
    var f := Filter(t, HasId(p.id));
    DistinctByFilter(items, IsTopLevel, Id);
    DistinctByFilter(t, HasId(p.id), Id);
    forall c | c in f ensures c == p {
      FilterIn(t, HasId(p.id), c);
      FilterIn(items, IsTopLevel, c);
      DistinctBySameKey(items, Id, c, p);
    }
    DistinctByAtMostOne(f, Id, p);
    if IsTopLevel(p) {
      FilterIn(items, IsTopLevel, p);
      FilterIn(t, HasId(p.id), p);
    } else if |f| == 1 {
      assert f[0] in f;
      FilterIn(t, HasId(p.id), p);
      FilterIn(items, IsTopLevel, p);
    }
  }

  lemma OrderedCountExact(items: seq<Category>, x: Category)
    requires UniqueIds(items) && OneLevel(items)
    ensures multiset(Cats(OrderedRows(items)))[x] == multiset(items)[x]
  {
    OrderedCount(items, x);
    if Truthy(x.parentId) && x.parentId.value in Ids(items) && x in items {
      var k :| 0 <= k < |items| && items[k].id == x.parentId.value;
      WithIdOwner(items, items[k]);
      assert IsTopLevel(items[k]);
    }
  }

  /** With unique ids and one-level nesting, `ordered` is a permutation of the items. */
  lemma OrderedIsPermutation(items: seq<Category>)
    requires UniqueIds(items) && OneLevel(items)
    ensures multiset(Cats(OrderedRows(items))) == multiset(items)
  {
    forall x ensures multiset(Cats(OrderedRows(items)))[x] == multiset(items)[x] {
      OrderedCountExact(items, x);
    }
  }

  /** The gap in `ordered`: a category whose parent is itself a child is in
      neither a parent's block nor the orphans, so it is not emitted at all. */
  lemma GrandchildDropped(items: seq<Category>, c: Category, p: Category)
    requires UniqueIds(items)
    requires c in items && p in items && ParentIs(c, p.id) && !IsTopLevel(p)
    ensures c !in Cats(OrderedRows(items))
  {
    OrderedCount(items, c);
    WithIdOwner(items, p);
    var k :| 0 <= k < |items| && items[k] == p;
    assert p.id in Ids(items);
  }

  // ---------------------------------------------------------------- parent selector

  /** `{ id: c.id, name: c.name }`. */
  datatype ParentOption = ParentOption(id: string, name: Option<string>)

  predicate NameLe(a: ParentOption, b: ParentOption)
  {
    StrLe(OrElse(a.name, ""), OrElse(b.name, ""))
  }

  function OptionOf(c: Category): ParentOption { ParentOption(c.id, c.name) }

  /** `parentOptions`: every item as an option, sorted by name. */
  function ParentOptions(items: seq<Category>): (r: seq<ParentOption>)
    ensures multiset(r) == multiset(seq(|items|, i requires 0 <= i < |items| => OptionOf(items[i])))
    ensures SortedBy(r, NameLe)
  {
    var opts := seq(|items|, i requires 0 <= i < |items| => OptionOf(items[i]));
    NameLeIsPreorder();
    SortBySorted(opts, NameLe);
    SortBy(opts, NameLe)
  }

  lemma NameLeIsPreorder()
    ensures TotalPreorder(NameLe)
  {
    forall a: ParentOption, b: ParentOption ensures NameLe(a, b) || NameLe(b, a) {
      StrLeTotal(OrElse(a.name, ""), OrElse(b.name, ""));
    }
    forall a: ParentOption, b: ParentOption, c: ParentOption | NameLe(a, b) && NameLe(b, c) ensures NameLe(a, c) {
      StrLeTransitive(OrElse(a.name, ""), OrElse(b.name, ""), OrElse(c.name, ""));
    }
  }

  function NotEditing(editingId: Option<string>): ParentOption -> bool
  {
    (o: ParentOption) => editingId != Some(o.id)
  }

  /** The options the parent selector shows: `parentOptions.filter(p => p.id
      !== editing?.id)`. The category being edited is never offered; every
      other option is, in name order. */
  function ParentChoices(options: seq<ParentOption>, editingId: Option<string>): (r: seq<ParentOption>)
    requires SortedBy(options, NameLe)
    ensures editingId.Some? ==> forall i :: 0 <= i < |r| ==> r[i].id != editingId.value
    ensures forall i :: 0 <= i < |options| && editingId != Some(options[i].id) ==> options[i] in r
    ensures forall i :: 0 <= i < |r| ==> r[i] in options
    ensures SortedBy(r, NameLe)
    ensures forall o :: multiset(r)[o] == if editingId == Some(o.id) then 0 else multiset(options)[o]
  {
    FilterSorted(options, NotEditing(editingId), NameLe);
    FilterMembers(options, NotEditing(editingId));
    forall o ensures multiset(Filter(options, NotEditing(editingId)))[o] ==
                     if editingId == Some(o.id) then 0 else multiset(options)[o] {
      FilterCount(options, NotEditing(editingId), o);
    }
    Filter(options, NotEditing(editingId))
  }

  // ---------------------------------------------------------------- the form

  /** The `editing` state of the modal. `sort` is the finite integer value of
      `Number(editing.sort)`, or `None`. */
  datatype Form = Form(
    id: Option<string>,
    name: string,
    slug: string,
    sort: Option<int>,
    isActive: bool,
    parentId: Option<string>,
    createdAt: Option<string>)

  /** `openCreate(parentId = null)`. */
  function OpenCreate(parentId: Option<string> := None): (f: Form)
    ensures f.id.None? && f.name == "" && f.slug == "" && f.sort == Some(0) && f.isActive
    ensures f.parentId == parentId
  {
    Form(None, "", "", Some(0), true, parentId, None)
  }

  /** `openEdit(c)`: the category's fields with defaults for missing ones. */
  function OpenEdit(c: Category): (f: Form)
    ensures f.id == Some(c.id)
    ensures f.name == OrElse(c.name, "") && f.slug == OrElse(c.slug, "")
    ensures f.sort == Some(ToInt(c.sort, 0))
    ensures f.isActive <==> c.isActive != Some(false)
    ensures f.parentId.Some? <==> Truthy(c.parentId)
    ensures f.parentId.Some? ==> f.parentId == c.parentId
    ensures f.createdAt == c.createdAt
  {
    Form(Some(c.id), OrElse(c.name, ""), OrElse(c.slug, ""), Some(ToInt(c.sort, 0)),
         c.isActive != Some(false), if Truthy(c.parentId) then c.parentId else None, c.createdAt)
  }

  datatype Payload = Payload(name: string, slug: string, sort: int, isActive: bool, parentId: Option<string>)

  /** What `save` does. */
  datatype SaveAction =
    | NoForm                                   // `if (!editing) return`
    | Rejected(message: string)                // alert, nothing sent
    | Update(id: string, payload: Payload)     // `PATCH /admin/categories/:id`
    | Create(payload: Payload)                 // `POST /admin/categories`

  const NameRequired := "Kateqoriya adı vacibdir."

  /** `save`: a blank name is refused before anything is sent; otherwise the
      payload carries the name and slug as typed, `toInt(sort, 0)`, the
      active flag and the parent id or `null`, and goes out as an update when
      the form has an id and as a create otherwise. */
  function Save(editing: Option<Form>): (r: SaveAction)
    ensures editing.None? <==> r.NoForm?
    ensures editing.Some? ==> (r.Rejected? <==> Trim(editing.value.name) == "")
    ensures r.Rejected? ==> r.message == NameRequired
    ensures r.Update? <==> editing.Some? && Trim(editing.value.name) != "" && Truthy(editing.value.id)
    ensures r.Update? ==> r.id == editing.value.id.value
    ensures (r.Update? || r.Create?) ==>
              var f := editing.value;
              r.payload == Payload(f.name, f.slug, ToInt(f.sort, 0), f.isActive,
                                   if Truthy(f.parentId) then f.parentId else None)
  {
    if editing.None? then NoForm
    else
      var f := editing.value;
      if Trim(f.name) == "" then Rejected(NameRequired)
      else
        var payload := Payload(f.name, f.slug, ToInt(f.sort, 0), f.isActive,
                               if Truthy(f.parentId) then f.parentId else None);
        if Truthy(f.id) then Update(f.id.value, payload) else Create(payload)
  }

  /** Opening a category and saving it unchanged updates that category with
      its own normalised values, provided its name is not blank. */
  lemma EditRoundTrip(c: Category)
    requires c.id != "" && c.name.Some? && Trim(c.name.value) != ""
    ensures Save(Some(OpenEdit(c))) ==
            Update(c.id, Payload(c.name.value, OrElse(c.slug, ""), ToInt(c.sort, 0),
                                 c.isActive != Some(false), if Truthy(c.parentId) then c.parentId else None))
  {
  }

  /** A freshly opened create form cannot be saved: its name is blank. */
  lemma CreateNeedsName(parentId: Option<string>)
    ensures Save(Some(OpenCreate(parentId))) == Rejected(NameRequired)
  {
    TrimBlankIff("");
  }
}
