/**
 * The member dashboard (backend/app.py `dashboard`): which courses, materials and
 * notice a user sees. Content is gated through the user's maximum level, expanded
 * over ALL categories; the notice is gated by direct membership only.
 */
module Portal {
  import opened Wrappers
  import opened Models
  import opened Seqs

  const DefaultNotice: string := "Nenhum aviso importante no momento."

  /** The user's access ceiling: the highest level among the assigned categories, 0 when there are none. */
  function MaxLevel(cats: seq<PermissionCategory>): (m: int)
    ensures cats == [] ==> m == 0
    ensures cats != [] ==> exists i :: 0 <= i < |cats| && cats[i].nivel == m
    ensures forall i :: 0 <= i < |cats| ==> cats[i].nivel <= m || cats == []
  {
    if |cats| <= 1 then (if cats == [] then 0 else cats[0].nivel)
    else
      var rest := MaxLevel(cats[1..]);
      if cats[0].nivel >= rest then cats[0].nivel else rest
  }

  /** Ids of the directly assigned categories, in the order the relationship lists them. */
  function DirectIds(cats: seq<PermissionCategory>): (ids: seq<int>)
    ensures |ids| == |cats|
    ensures forall i :: 0 <= i < |cats| ==> ids[i] == cats[i].id
  {
    if cats == [] then [] else [cats[0].id] + DirectIds(cats[1..])
  }

  /** Over the rows a user's relationship loads, the direct ids are exactly the user's assigned ids. */
  lemma DirectIdsAreAssigned(u: User, cats: seq<PermissionCategory>)
    requires AssignedRows(u, cats)
    ensures forall id :: id in DirectIds(cats) <==> id in u.categorias
  {
    forall id | id in u.categorias ensures id in DirectIds(cats) {
      var i :| 0 <= i < |cats| && cats[i].id == id;
      assert DirectIds(cats)[i] == id;
    }
  }

  /** Ids of every category, assigned or not, whose level is at most `level`, in table order. */
  function AccessibleIds(all: seq<PermissionCategory>, level: int): (ids: seq<int>)
    ensures |ids| <= |all|
    ensures forall x :: x in ids <==> exists i :: 0 <= i < |all| && all[i].id == x && all[i].nivel <= level
  {
    if all == [] then []
    else
      var rest := AccessibleIds(all[1..], level);
      assert forall i :: 1 <= i < |all| ==> all[i] == all[1..][i - 1];
      if all[0].nivel <= level then [all[0].id] + rest else rest
  }

  /** A gated item is listed when it is untagged or its required category is in `ids`. */
  predicate Gate(perm: Option<int>, ids: seq<int>) {
    perm.None? || perm.value in ids
  }

  /** The content filter of the dashboard, stated against the levels directly. */
  ghost predicate LevelVisible(perm: Option<int>, user: seq<PermissionCategory>, all: seq<PermissionCategory>) {
    perm.None? || exists i :: 0 <= i < |all| && all[i].id == perm.value && all[i].nivel <= MaxLevel(user)
  }

  /** Content visibility is level expansion: a tagged item is visible iff SOME category
      carrying its id has a level within the user's ceiling, whether or not the user holds it. */
  lemma GateIsLevelExpansion(perm: Option<int>, user: seq<PermissionCategory>, all: seq<PermissionCategory>)
    ensures Gate(perm, AccessibleIds(all, MaxLevel(user))) <==> LevelVisible(perm, user, all)
  {
  }

  /** The courses a user may see, in query order. */
  function AllowedCourses(courses: seq<Course>, ids: seq<int>): (r: seq<Course>)
    ensures forall c :: c in r <==> c in courses && Gate(c.permissaoId, ids)
    ensures forall c :: multiset(r)[c] == if Gate(c.permissaoId, ids) then multiset(courses)[c] else 0
  {
    var r := Keep(courses, (c: Course) => Gate(c.permissaoId, ids));
    forall c ensures multiset(r)[c] == if Gate(c.permissaoId, ids) then multiset(courses)[c] else 0 {
      KeepCount(courses, (c: Course) => Gate(c.permissaoId, ids), c);
    }
    r
  }

  /** The materials a user may see, in query order. */
  function AllowedMaterials(materials: seq<Material>, ids: seq<int>): (r: seq<Material>)
    ensures forall m :: m in r <==> m in materials && Gate(m.permissaoId, ids)
    ensures forall m :: multiset(r)[m] == if Gate(m.permissaoId, ids) then multiset(materials)[m] else 0
  {
    var r := Keep(materials, (m: Material) => Gate(m.permissaoId, ids));
    forall m ensures multiset(r)[m] == if Gate(m.permissaoId, ids) then multiset(materials)[m] else 0 {
      KeepCount(materials, (m: Material) => Gate(m.permissaoId, ids), m);
    }
    r
  }

  /** Filtering courses distributes over concatenation: the listing keeps query order. */
  lemma AllowedCoursesAppend(a: seq<Course>, b: seq<Course>, ids: seq<int>)
    ensures AllowedCourses(a + b, ids) == AllowedCourses(a, ids) + AllowedCourses(b, ids)
  {
    KeepAppend(a, b, (c: Course) => Gate(c.permissaoId, ids));
  }

  /** One course is listed exactly when it passes the gate. */
  lemma AllowedCoursesOne(c: Course, ids: seq<int>)
    ensures AllowedCourses([c], ids) == if Gate(c.permissaoId, ids) then [c] else []
  {
    assert [c][1..] == [];
  }

  /** Filtering materials distributes over concatenation: the listing keeps query order. */
  lemma AllowedMaterialsAppend(a: seq<Material>, b: seq<Material>, ids: seq<int>)
    ensures AllowedMaterials(a + b, ids) == AllowedMaterials(a, ids) + AllowedMaterials(b, ids)
  {
    KeepAppend(a, b, (m: Material) => Gate(m.permissaoId, ids));
  }

  /** One material is listed exactly when it passes the gate. */
  lemma AllowedMaterialsOne(m: Material, ids: seq<int>)
    ensures AllowedMaterials([m], ids) == if Gate(m.permissaoId, ids) then [m] else []
  {
    assert [m][1..] == [];
  }

  // ---------------------------------------------------------------------------
  // Grouping by category name (an insertion-ordered dict of lists)
  // ---------------------------------------------------------------------------

  /** A dict from category name to items, with its keys in insertion order. */
  datatype Groups<T> = Groups(byName: map<string, seq<T>>, order: seq<string>)

  /** Every item's category id resolves to a name (the foreign key is not nullable). */
  predicate Resolved<T>(items: seq<T>, catOf: T -> int, names: map<int, string>) {
    forall i :: 0 <= i < |items| ==> catOf(items[i]) in names
  }

  /** The dict the grouping loop builds, defined one appended item at a time. */
  ghost function Grouped<T>(items: seq<T>, catOf: T -> int, names: map<int, string>): Groups<T>
    requires Resolved(items, catOf, names)
    decreases |items|
  {
    if items == [] then Groups(map[], [])
    else
      var g := Grouped(items[..|items| - 1], catOf, names);
      var x := items[|items| - 1];
      var k := names[catOf(x)];
      if k in g.byName then Groups(g.byName[k := g.byName[k] + [x]], g.order)
      else Groups(g.byName[k := [x]], g.order + [k])
  }

  /** The items whose category is named `k`, in their original order. */
  ghost function Named<T>(items: seq<T>, catOf: T -> int, names: map<int, string>, k: string): seq<T>
    requires Resolved(items, catOf, names)
    decreases |items|
  {
    if items == [] then []
    else
      var x := items[|items| - 1];
      Named(items[..|items| - 1], catOf, names, k) + (if names[catOf(x)] == k then [x] else [])
  }

  /** The grouping loop of the dashboard (one pass, appending to the list under each item's category name). */
  method GroupByCategory<T>(items: seq<T>, catOf: T -> int, names: map<int, string>) returns (g: Groups<T>)
    requires Resolved(items, catOf, names)
    ensures g == Grouped(items, catOf, names)
  {
    var byName: map<string, seq<T>> := map[];
    var order: seq<string> := [];
    var i := 0;
    while i < |items|
      invariant 0 <= i <= |items|
      invariant Groups(byName, order) == Grouped(items[..i], catOf, names)
    {
      var k := names[catOf(items[i])];
      assert items[..i + 1][..i] == items[..i];
      if k !in byName {
        byName := byName[k := []];
        order := order + [k];
      }
      assert [] + [items[i]] == [items[i]];
      byName := byName[k := byName[k] + [items[i]]];
      i := i + 1;
    }
    assert items[..i] == items;
    g := Groups(byName, order);
  }

  /** The prefix of a resolved sequence is resolved. */
  lemma FrontResolved<T>(items: seq<T>, catOf: T -> int, names: map<int, string>)
    requires Resolved(items, catOf, names) && items != []
    ensures Resolved(items[..|items| - 1], catOf, names)
  {
    var front := items[..|items| - 1];
    forall i | 0 <= i < |front| ensures catOf(front[i]) in names { assert front[i] == items[i]; }
  }

  /** The keys are exactly the category names of the items. */
  lemma {:induction false} GroupedKeys<T>(items: seq<T>, catOf: T -> int, names: map<int, string>, k: string)
    requires Resolved(items, catOf, names)
    ensures k in Grouped(items, catOf, names).byName <==> exists i :: 0 <= i < |items| && names[catOf(items[i])] == k
    decreases |items|
  {
    if items != [] {
      var n := |items| - 1;
      var front := items[..n];
      FrontResolved(items, catOf, names);
      GroupedKeys(front, catOf, names, k);
      if exists i :: 0 <= i < |items| && names[catOf(items[i])] == k {
        var i :| 0 <= i < |items| && names[catOf(items[i])] == k;
        if i < n { assert front[i] == items[i]; }
      }
      if exists i :: 0 <= i < |front| && names[catOf(front[i])] == k {
        var i :| 0 <= i < |front| && names[catOf(front[i])] == k;
        assert front[i] == items[i];
      }
    }
  }

  /** The insertion order lists every key exactly once. */
  lemma {:induction false} GroupedOrder<T>(items: seq<T>, catOf: T -> int, names: map<int, string>)
    requires Resolved(items, catOf, names)
    ensures forall k :: k in Grouped(items, catOf, names).byName <==> k in Grouped(items, catOf, names).order
    ensures Distinct(Grouped(items, catOf, names).order)
    decreases |items|
  {
    if items != [] {
      var front := items[..|items| - 1];
      FrontResolved(items, catOf, names);
      GroupedOrder(front, catOf, names);
      var g := Grouped(front, catOf, names);
      var k := names[catOf(items[|items| - 1])];
      if k !in g.byName {
        var o := g.order + [k];
        assert Grouped(items, catOf, names).order == o;
        assert k !in g.order;
        assert Distinct(g.order);
        forall a, b | 0 <= a < b < |o| ensures o[a] != o[b] {
          assert o[a] == g.order[a] && g.order[a] in g.order;
          if b < |g.order| { assert o[b] == g.order[b]; } else { assert o[b] == k; }
        }
      } else {
        assert Grouped(items, catOf, names).order == g.order;
      }
    }
  }

  /** The keys are in first-seen order: for two keys, the earlier one is named by some item
      before any item names the later one. */
  lemma {:induction false} GroupedFirstSeen<T>(items: seq<T>, catOf: T -> int, names: map<int, string>, a: int, b: int)
    requires Resolved(items, catOf, names)
    requires 0 <= a < b < |Grouped(items, catOf, names).order|
    ensures var o := Grouped(items, catOf, names).order;
      exists i :: 0 <= i < |items| && names[catOf(items[i])] == o[a]
        && forall j :: 0 <= j <= i ==> names[catOf(items[j])] != o[b]
    decreases |items|
  {
    var n := |items| - 1;
    var front := items[..n];
    FrontResolved(items, catOf, names);
    var g := Grouped(front, catOf, names);
    var o := Grouped(items, catOf, names).order;
    var k := names[catOf(items[n])];
    if b < |g.order| {
      assert o[a] == g.order[a] && o[b] == g.order[b];
      GroupedFirstSeen(front, catOf, names, a, b);
      var i :| 0 <= i < |front| && names[catOf(front[i])] == g.order[a]
        && forall j :: 0 <= j <= i ==> names[catOf(front[j])] != g.order[b];
      assert items[i] == front[i];
      forall j | 0 <= j <= i ensures names[catOf(items[j])] != o[b] {
        assert items[j] == front[j];
      }
    } else {
      GroupedOrder(front, catOf, names);
      assert k !in g.byName && o == g.order + [k];
      assert o[b] == k && o[a] == g.order[a];
      assert g.order[a] in g.byName;
      GroupedKeys(front, catOf, names, g.order[a]);
      GroupedKeys(front, catOf, names, k);
      var i :| 0 <= i < |front| && names[catOf(front[i])] == g.order[a];
      assert items[i] == front[i];
      forall j | 0 <= j <= i ensures names[catOf(items[j])] != o[b] {
        assert items[j] == front[j];
      }
    }
  }

  /** Each list holds exactly the items of its category, in query order, and is never empty. */
  lemma {:induction false} GroupedLists<T>(items: seq<T>, catOf: T -> int, names: map<int, string>, k: string)
    requires Resolved(items, catOf, names)
    requires k in Grouped(items, catOf, names).byName
    ensures Grouped(items, catOf, names).byName[k] == Named(items, catOf, names, k)
    ensures Grouped(items, catOf, names).byName[k] != []
    decreases |items|
  {
    var n := |items| - 1;
    var front := items[..n];
    FrontResolved(items, catOf, names);
    if k in Grouped(front, catOf, names).byName {
      GroupedLists(front, catOf, names, k);
    } else {
      GroupedKeys(front, catOf, names, k);
      NamedEmpty(front, catOf, names, k);
    }
  }

  /** No item of a category that is not a key: its list is empty. */
  lemma {:induction false} NamedEmpty<T>(items: seq<T>, catOf: T -> int, names: map<int, string>, k: string)
    requires Resolved(items, catOf, names)
    requires forall i :: 0 <= i < |items| ==> names[catOf(items[i])] != k
    ensures Named(items, catOf, names, k) == []
    decreases |items|
  {
    if items != [] {
      var front := items[..|items| - 1];
      FrontResolved(items, catOf, names);
      assert forall i :: 0 <= i < |front| ==> front[i] == items[i];
      NamedEmpty(front, catOf, names, k);
    }
  }

  /** Each item is listed exactly as often as it occurs, under its own category's name and under no other. */
  lemma {:induction false} NamedCount<T>(items: seq<T>, catOf: T -> int, names: map<int, string>, k: string, x: T)
    requires Resolved(items, catOf, names)
    requires x in items
    ensures multiset(Named(items, catOf, names, k))[x] == if names[catOf(x)] == k then multiset(items)[x] else 0
    decreases |items|
  {
    var n := |items| - 1;
    var front := items[..n];
    assert items == front + [items[n]];
    FrontResolved(items, catOf, names);
    if x in front {
      NamedCount(front, catOf, names, k, x);
    } else {
      assert multiset(front)[x] == 0;
      NamedNotIn(front, catOf, names, k, x);
    }
  }

  lemma {:induction false} NamedNotIn<T>(items: seq<T>, catOf: T -> int, names: map<int, string>, k: string, x: T)
    requires Resolved(items, catOf, names)
    requires x !in items
    ensures x !in Named(items, catOf, names, k)
    decreases |items|
  {
    if items != [] {
      var n := |items| - 1;
      var front := items[..n];
      FrontResolved(items, catOf, names);
      NamedNotIn(front, catOf, names, k, x);
    }
  }

  /** An item is found under key `k` exactly when it is one of the items and `k` is its own category's name. */
  lemma GroupedMember<T>(items: seq<T>, catOf: T -> int, names: map<int, string>, k: string, x: T)
    requires Resolved(items, catOf, names)
    ensures var g := Grouped(items, catOf, names);
      (k in g.byName && x in g.byName[k]) <==> (x in items && names[catOf(x)] == k)
  {
    var g := Grouped(items, catOf, names);
    GroupedKeys(items, catOf, names, k);
    if k in g.byName {
      GroupedLists(items, catOf, names, k);
      if x in items {
        NamedCount(items, catOf, names, k, x);
      } else {
        NamedNotIn(items, catOf, names, k, x);
      }
    }
  }

  // ---------------------------------------------------------------------------
  // The notice
  // ---------------------------------------------------------------------------

  /** A notice addresses the user when it is untagged or tagged with a DIRECTLY assigned category. */
  predicate Addressed(n: Notice, direct: seq<int>) {
    n.permissaoId.None? || n.permissaoId.value in direct
  }

  /** The most recently created addressed notice; among equal creation times the earlier row wins. */
  function LatestNotice(notices: seq<Notice>, direct: seq<int>): (r: Option<Notice>)
    ensures r.None? <==> forall i :: 0 <= i < |notices| ==> !Addressed(notices[i], direct)
    ensures r.Some? ==> r.value in notices && Addressed(r.value, direct)
    ensures r.Some? ==> forall i :: 0 <= i < |notices| && Addressed(notices[i], direct) ==> notices[i].criadoEm <= r.value.criadoEm
  {
    if notices == [] then None
    else
      var rest := LatestNotice(notices[1..], direct);
      assert forall i :: 1 <= i < |notices| ==> notices[i] == notices[1..][i - 1];
      if !Addressed(notices[0], direct) then rest
      else if rest.Some? && rest.value.criadoEm > notices[0].criadoEm then rest
      else Some(notices[0])
  }

  /** The text shown in the notice box. */
  function NoticeText(n: Option<Notice>): string {
    if n.Some? then n.value.mensagem else DefaultNotice
  }

  /** What the dashboard template receives. */
  datatype View = View(cursos: Groups<Course>, materiais: Groups<Material>, aviso: string)

  function CourseCategory(c: Course): int { c.categoriaId }
  function MaterialCategory(m: Material): int { m.categoriaId }

  /** The dashboard route: resolve the level, filter and group the content, pick the notice. */
  method Dashboard(user: seq<PermissionCategory>, all: seq<PermissionCategory>,
                   courses: seq<Course>, courseCategoryNames: map<int, string>,
                   materials: seq<Material>, materialCategoryNames: map<int, string>,
                   notices: seq<Notice>) returns (v: View)
    requires Resolved(AllowedCourses(courses, AccessibleIds(all, MaxLevel(user))), CourseCategory, courseCategoryNames)
    requires Resolved(AllowedMaterials(materials, AccessibleIds(all, MaxLevel(user))), MaterialCategory, materialCategoryNames)
    ensures var ids := AccessibleIds(all, MaxLevel(user));
      && v.cursos == Grouped(AllowedCourses(courses, ids), CourseCategory, courseCategoryNames)
      && v.materiais == Grouped(AllowedMaterials(materials, ids), MaterialCategory, materialCategoryNames)
      && v.aviso == NoticeText(LatestNotice(notices, DirectIds(user)))
  {
    var level := MaxLevel(user);
    var ids := AccessibleIds(all, level);
    var cs := AllowedCourses(courses, ids);
    var ms := AllowedMaterials(materials, ids);
    var cursos := GroupByCategory(cs, CourseCategory, courseCategoryNames);
    var materiais := GroupByCategory(ms, MaterialCategory, materialCategoryNames);
    v := View(cursos, materiais, NoticeText(LatestNotice(notices, DirectIds(user))));
  }

  // ---------------------------------------------------------------------------
  // Properties of the resolver
  // ---------------------------------------------------------------------------

  /** A user with no categories still has ceiling 0, so every category of level 0 or below is accessible,
      and nothing above it. */
  lemma NoCategoriesMeansLevelZero(all: seq<PermissionCategory>, i: int)
    requires 0 <= i < |all|
    ensures MaxLevel([]) == 0
    ensures all[i].id in AccessibleIds(all, MaxLevel([])) <==> exists j :: 0 <= j < |all| && all[j].id == all[i].id && all[j].nivel <= 0
  {
  }

  /** Level 0 is a public floor: a user holding any category of non-negative level sees every level-0 category. */
  lemma {:induction false} LevelZeroIsFloor(user: seq<PermissionCategory>, all: seq<PermissionCategory>, i: int)
    requires user != [] && forall j :: 0 <= j < |user| ==> user[j].nivel >= 0
    requires 0 <= i < |all| && all[i].nivel == 0
    ensures all[i].id in AccessibleIds(all, MaxLevel(user))
  {
    assert user[0].nivel <= MaxLevel(user);
  }

  /** Listing a course is level expansion: an assigned-or-not category at or below the ceiling suffices,
      and the course appears under its own course category's name. */
  lemma CourseListed(user: seq<PermissionCategory>, all: seq<PermissionCategory>,
                     courses: seq<Course>, courseCategoryNames: map<int, string>, c: Course, k: string)
    requires Resolved(AllowedCourses(courses, AccessibleIds(all, MaxLevel(user))), CourseCategory, courseCategoryNames)
    ensures var ids := AccessibleIds(all, MaxLevel(user));
      var shown := AllowedCourses(courses, ids);
      Resolved(shown, CourseCategory, courseCategoryNames) &&
      ((k in Grouped(shown, CourseCategory, courseCategoryNames).byName && c in Grouped(shown, CourseCategory, courseCategoryNames).byName[k])
        <==> (c in courses && LevelVisible(c.permissaoId, user, all) && courseCategoryNames[c.categoriaId] == k))
  {
    var ids := AccessibleIds(all, MaxLevel(user));
    var shown := AllowedCourses(courses, ids);
    GroupedMember(shown, CourseCategory, courseCategoryNames, k, c);
    GateIsLevelExpansion(c.permissaoId, user, all);
  }

  /** The same rule for materials. */
  lemma MaterialListed(user: seq<PermissionCategory>, all: seq<PermissionCategory>,
                       materials: seq<Material>, materialCategoryNames: map<int, string>, m: Material, k: string)
    requires Resolved(AllowedMaterials(materials, AccessibleIds(all, MaxLevel(user))), MaterialCategory, materialCategoryNames)
    ensures var ids := AccessibleIds(all, MaxLevel(user));
      var shown := AllowedMaterials(materials, ids);
      Resolved(shown, MaterialCategory, materialCategoryNames) &&
      ((k in Grouped(shown, MaterialCategory, materialCategoryNames).byName && m in Grouped(shown, MaterialCategory, materialCategoryNames).byName[k])
        <==> (m in materials && LevelVisible(m.permissaoId, user, all) && materialCategoryNames[m.categoriaId] == k))
  {
    var ids := AccessibleIds(all, MaxLevel(user));
    var shown := AllowedMaterials(materials, ids);
    GroupedMember(shown, MaterialCategory, materialCategoryNames, k, m);
    GateIsLevelExpansion(m.permissaoId, user, all);
  }

  /** A hidden course may name a course category that does not exist: the dashboard never reads
      its category, so such a state is still served. */
  lemma HiddenDanglingCourseIsServed()
    ensures var hidden := Course(1, "t", "l", 99, Some(7));
      && AllowedCourses([hidden], AccessibleIds([], MaxLevel([]))) == []
      && Resolved(AllowedCourses([hidden], AccessibleIds([], MaxLevel([]))), CourseCategory, map[])
  {
    AllowedCoursesOne(Course(1, "t", "l", 99, Some(7)), AccessibleIds([], MaxLevel([])));
  }

  /** The notice ignores level expansion: a notice tagged with a category the user does not hold
      directly is never chosen, whatever that category's level. */
  lemma NoticeNeedsDirectMembership(user: seq<PermissionCategory>, notices: seq<Notice>, n: Notice)
    requires n.permissaoId.Some? && forall j :: 0 <= j < |user| ==> user[j].id != n.permissaoId.value
    ensures LatestNotice(notices, DirectIds(user)) != Some(n)
  {
  }

  /** The two rules diverge: a user holding only A (level 5) is shown content tagged B (level 2),
      but not a notice tagged B, and then sees the default text. */
  lemma {:induction false} ContentAndNoticeDiverge()
    ensures var a := PermissionCategory(1, "A", 5);
      var b := PermissionCategory(2, "B", 2);
      var notices := [Notice(10, "so para B", 100, Some(2))];
      && 2 in AccessibleIds([a, b], MaxLevel([a]))
      && LatestNotice(notices, DirectIds([a])) == None
      && NoticeText(LatestNotice(notices, DirectIds([a]))) == DefaultNotice
  {
    var a := PermissionCategory(1, "A", 5);
    var b := PermissionCategory(2, "B", 2);
    assert [a, b][1] == b;
    assert DirectIds([a]) == [1];
  }
}
