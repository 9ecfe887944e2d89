/**
 * The task templates of a household ("default tasks"), kept under
 * default_tasks/{householdId}/items/{id}: how a weekday list is normalised,
 * adding a template, editing and deleting one, and the subscription that
 * lists them by their order field.
 */
module DefaultTasks {
  import opened Wrappers
  import opened Models
  import opened Store
  import opened JsString
  import opened QueryOrder
  import opened ArraySort

  // ---- Array.from(new Set(days)).sort() ----

  predicate Distinct(s: seq<int>) {
    forall i, j :: 0 <= i < j < |s| ==> s[i] != s[j]
  }

  /** Array.from(new Set(days)): each value once, where it first occurs. */
  function Dedup(days: seq<int>): (r: seq<int>)
    ensures forall x :: x in r <==> x in days
    ensures Distinct(r)
  {
    if days == [] then []
    else
      var init := days[..|days| - 1];
      var x := days[|days| - 1];
      assert days == init + [x];
      if x in init then Dedup(init) else Dedup(init) + [x]
  }

  /** lt orders the integers strictly and totally, as a consistent comparison of sort() does. */
  ghost predicate StrictTotalOrder(lt: (int, int) -> bool) {
    && (forall a :: !lt(a, a))
    && (forall a, b, c :: lt(a, b) && lt(b, c) ==> lt(a, c))
    && (forall a, b :: a != b ==> lt(a, b) || lt(b, a))
  }

  predicate AscendingBy(lt: (int, int) -> bool, s: seq<int>) {
    forall i, j :: 0 <= i < j < |s| ==> lt(s[i], s[j])
  }

  /** x put after the values of s that come before it. */
  function InsertBy(lt: (int, int) -> bool, x: int, s: seq<int>): (r: seq<int>)
    ensures |r| == |s| + 1
    ensures forall e :: e in r <==> e == x || e in s
  {
    if s == [] then [x]
    else
      assert s == [s[0]] + s[1..];
      if lt(s[0], x) then [s[0]] + InsertBy(lt, x, s[1..]) else [x] + s
  }

  /** sort() with the comparison lt, as an insertion sort. */
  function SortBy(lt: (int, int) -> bool, s: seq<int>): (r: seq<int>)
    ensures |r| == |s|
    ensures forall e :: e in r <==> e in s
  {
    if s == [] then []
    else
      assert s == s[..|s| - 1] + [s[|s| - 1]];
      InsertBy(lt, s[|s| - 1], SortBy(lt, s[..|s| - 1]))
  }

  lemma ConsAscending(lt: (int, int) -> bool, a: int, s: seq<int>)
    requires AscendingBy(lt, s) && forall e :: e in s ==> lt(a, e)
    ensures AscendingBy(lt, [a] + s)
  {
    forall i, j | 0 <= i < j < |[a] + s| ensures lt(([a] + s)[i], ([a] + s)[j]) {
      if i == 0 {
        assert ([a] + s)[j] == s[j - 1];
      } else {
        assert ([a] + s)[i] == s[i - 1] && ([a] + s)[j] == s[j - 1];
      }
    }
  }

  lemma HeadBefore(lt: (int, int) -> bool, s: seq<int>)
    requires AscendingBy(lt, s) && s != []
    ensures AscendingBy(lt, s[1..])
    ensures forall e :: e in s[1..] ==> lt(s[0], e)
  {
    forall e | e in s[1..] ensures lt(s[0], e) {
      var k :| 0 <= k < |s[1..]| && s[1..][k] == e;
      assert s[k + 1] == e;
    }
    assert forall i :: 0 <= i < |s[1..]| ==> s[1..][i] == s[i + 1];
  }

  lemma {:induction false} InsertAscending(lt: (int, int) -> bool, x: int, s: seq<int>)
    requires StrictTotalOrder(lt) && AscendingBy(lt, s) && x !in s
    ensures AscendingBy(lt, InsertBy(lt, x, s))
    decreases |s|
  {
    if s != [] {
      HeadBefore(lt, s);
      if lt(s[0], x) {
        assert x !in s[1..] by {
          assert forall e :: e in s[1..] ==> e in s;
        }
        InsertAscending(lt, x, s[1..]);
        ConsAscending(lt, s[0], InsertBy(lt, x, s[1..]));
      } else {
        assert x != s[0];
        forall e | e in s ensures lt(x, e) {
          if e != s[0] {
            assert e in s[1..] by { assert s == [s[0]] + s[1..]; }
          }
        }
        ConsAscending(lt, x, s);
      }
    }
  }

  lemma {:induction false} SortAscending(lt: (int, int) -> bool, s: seq<int>)
    requires StrictTotalOrder(lt) && Distinct(s)
    ensures AscendingBy(lt, SortBy(lt, s))
    decreases |s|
  {
    if s != [] {
      var init := s[..|s| - 1];
      SortAscending(lt, init);
      assert s[|s| - 1] !in init;
      InsertAscending(lt, s[|s| - 1], SortBy(lt, init));
    }
  }

  lemma AscendingByDistinct(lt: (int, int) -> bool, s: seq<int>)
    requires StrictTotalOrder(lt) && AscendingBy(lt, s)
    ensures Distinct(s)
  {
  }

  lemma SameValue(r1: seq<int>, r2: seq<int>, y: int)
    requires forall x :: x in r1 <==> x in r2
    ensures y in r1 <==> y in r2
  {
  }

  /** Two ascending lists with the same values are the same list. */
  lemma {:induction false} AscendingUnique(lt: (int, int) -> bool, r1: seq<int>, r2: seq<int>)
    requires StrictTotalOrder(lt) && AscendingBy(lt, r1) && AscendingBy(lt, r2)
    requires forall x :: x in r1 <==> x in r2
    ensures r1 == r2
    decreases |r1|
  {
    if r2 != [] { SameValue(r1, r2, r2[0]); }
    if r1 != [] {
      SameValue(r1, r2, r1[0]);
      HeadBefore(lt, r1);
      HeadBefore(lt, r2);
      assert r1 == [r1[0]] + r1[1..] && r2 == [r2[0]] + r2[1..];
      forall x ensures x in r1[1..] <==> x in r2[1..] {
        SameValue(r1, r2, x);
      }
      AscendingUnique(lt, r1[1..], r2[1..]);
    }
  }

  /**
   * The default comparison of sort(): String(a) before String(b) in code-unit
   * order, with String written in plain decimal (magnitudes below 10^21).
   */
  predicate DayBefore(a: int, b: int) {
    StrLess(IntToString(a), IntToString(b))
  }

  lemma DayBeforeOrder()
    ensures StrictTotalOrder(DayBefore)
  {
    forall a ensures !DayBefore(a, a) {
      StrLessIrreflexive(IntToString(a));
    }
    forall a, b, c | DayBefore(a, b) && DayBefore(b, c) ensures DayBefore(a, c) {
      StrLessTransitive(IntToString(a), IntToString(b), IntToString(c));
    }
    forall a, b | a != b ensures DayBefore(a, b) || DayBefore(b, a) {
      if IntToString(a) == IntToString(b) {
        IntToStringInjective(a, b);
      } else {
        StrLessTotal(IntToString(a), IntToString(b));
      }
    }
  }

  /** Ascending in the order of the default comparison. */
  predicate Ascending(s: seq<int>) {
    AscendingBy(DayBefore, s)
  }

  /** The weekday list a template stores. */
  function Normalize(days: seq<int>): seq<int> {
    SortBy(DayBefore, Dedup(days))
  }

  /**
   * The stored list holds every value of the input and nothing else, each
   * once, ascending in the order of the default comparison.
   */
  lemma NormalizeFacts(days: seq<int>)
    ensures forall x :: x in Normalize(days) <==> x in days
    ensures Distinct(Normalize(days))
    ensures Ascending(Normalize(days))
  {
    DayBeforeOrder();
    SortAscending(DayBefore, Dedup(days));
    AscendingByDistinct(DayBefore, Normalize(days));
  }

  /** The stored list depends only on which values the input holds, not on their order or repeats. */
  lemma NormalizeCanonical(a: seq<int>, b: seq<int>)
    requires forall x :: x in a <==> x in b
    ensures Normalize(a) == Normalize(b)
  {
    NormalizeFacts(a);
    NormalizeFacts(b);
    DayBeforeOrder();
    AscendingUnique(DayBefore, Normalize(a), Normalize(b));
  }

  /** Normalising a stored list leaves it as it is. */
  lemma NormalizeIdempotent(days: seq<int>)
    ensures Normalize(Normalize(days)) == Normalize(days)
  {
    var r := Normalize(days);
    NormalizeFacts(days);
    NormalizeFacts(r);
    DayBeforeOrder();
    AscendingUnique(DayBefore, Normalize(r), r);
  }

  lemma DigitBefore(a: int, b: int)
    requires 0 <= a <= 9 && 0 <= b <= 9
    ensures DayBefore(a, b) <==> a < b
  {
    var ca, cb := DigitChar(a), DigitChar(b);
    assert IntToString(a) == [ca];
    assert IntToString(b) == [cb];
    assert ca as int == 48 + a && cb as int == 48 + b;
    assert [ca][1..] == [] && [cb][1..] == [];
    assert StrLess([ca], [cb]) <==> ca < cb;
  }

  /** For single-digit weekdays the code-unit order is the numeric order: the list is strictly increasing. */
  lemma NormalizeDigits(days: seq<int>)
    requires forall i :: 0 <= i < |days| ==> 0 <= days[i] <= 9
    ensures forall i, j :: 0 <= i < j < |Normalize(days)| ==> Normalize(days)[i] < Normalize(days)[j]
  {
    var r := Normalize(days);
    NormalizeFacts(days);
    forall i, j | 0 <= i < j < |r| ensures r[i] < r[j] {
      assert r[i] in days && r[j] in days;
      DigitBefore(r[i], r[j]);
    }
  }

  /** Repeats go and the values come out in order. */
  lemma NormalizeExample()
    ensures Normalize([3, 1, 3, 5, 1]) == [1, 3, 5]
  {
    assert IntToString(1) == "1" && IntToString(3) == "3" && IntToString(5) == "5";
    assert Ascending([1, 3, 5]);
    NormalizeFacts([3, 1, 3, 5, 1]);
    DayBeforeOrder();
    AscendingUnique(DayBefore, Normalize([3, 1, 3, 5, 1]), [1, 3, 5]);
  }

  /** Beyond one digit the order is that of the strings: 10 sorts before 2. */
  lemma NormalizeStringOrder()
    ensures Normalize([2, 10]) == [10, 2]
  {
    assert NatToString(10) == "10";
    assert IntToString(2) == "2";
    assert Ascending([10, 2]);
    NormalizeFacts([2, 10]);
    DayBeforeOrder();
    AscendingUnique(DayBefore, Normalize([2, 10]), [10, 2]);
  }

  // ---- adding a template ----

  /** The document addDefaultTask writes; now is Date.now(), the default order. */
  function NewTemplate(title: string, days: seq<int>, order: Option<int>, now: int, createdAt: Timestamp): DefaultTask {
    DefaultTask(Trim(title), Normalize(days), Some(order.GetOr(now)), Some(createdAt))
  }

  /**
   * A new template has its title trimmed, its weekdays normalised, an order
   * (the given one, else the clock) and a creation time.
   */
  lemma NewTemplateFacts(title: string, days: seq<int>, order: Option<int>, now: int, createdAt: Timestamp)
    ensures var t := NewTemplate(title, days, order, now, createdAt);
      && Trim(t.title) == t.title
      && (forall x :: x in t.daysOfWeek <==> x in days)
      && Ascending(t.daysOfWeek)
      && Distinct(t.daysOfWeek)
      && t.order == Some(if order.Some? then order.value else now)
      && t.createdAt == Some(createdAt)
  {
    TrimIdempotent(title);
    NormalizeFacts(days);
  }

  /**
   * addDefaultTask: the household's parent document gets touchedAt (merged,
   * so nothing else of it changes), then the template is added under a new id.
   */
  method AddDefaultTask(
    db: Db, householdId: string, title: string, days: seq<int>, order: Option<int>,
    now: int, touchedAt: Timestamp, createdAt: Timestamp)
    returns (id: string)
    requires db.Valid() && IsDocId(householdId)
    modifies db
    ensures db.Valid()
    ensures id == AutoId(old(db.nextAutoId)) && TemplatePath(householdId, id) !in old(db.templates)
    ensures db.templateParents == old(db.templateParents)[householdId := touchedAt]
    ensures db.templates == old(db.templates)[TemplatePath(householdId, id) := NewTemplate(title, days, order, now, createdAt)]
    ensures db.nextAutoId == old(db.nextAutoId) + 1
    ensures db.tasks == old(db.tasks) && db.stamps == old(db.stamps)
    ensures db.households == old(db.households) && db.users == old(db.users)
  {
    db.templateParents := db.templateParents[householdId := touchedAt];
    FreshFromNext(db.tasks, db.stamps, db.households, db.templates, db.nextAutoId);
    id := AutoId(db.nextAutoId);
    db.templates := db.templates[TemplatePath(householdId, id) := NewTemplate(title, days, order, now, createdAt)];
    db.nextAutoId := db.nextAutoId + 1;
    forall k: nat, h: string | db.nextAutoId <= k ensures TemplatePath(h, AutoId(k)) !in db.templates {
      AutoIdDistinct(k, db.nextAutoId - 1);
    }
  }

  // ---- editing and deleting a template ----

  /** The reference that updateDefaultTaskTitle, updateDefaultTaskDays and deleteDefaultTask build. */
  function AsWrittenItemRef(householdId: string, id: string): Result<seq<string>> {
    DocRef(["default_tasks", householdId, id])
  }

  /** The reference of the template itself, under the items collection. */
  function ItemRef(householdId: string, id: string): Result<seq<string>> {
    DocRef(["default_tasks", householdId, "items", id])
  }

  /** Three segments name a collection: doc() refuses the reference for every pair of ids. */
  lemma AsWrittenItemRefRejected(householdId: string, id: string)
    requires IsDocId(householdId) && IsDocId(id)
    ensures AsWrittenItemRef(householdId, id) == Err(InvalidArgument)
  {
    DocRefOfIds(["default_tasks", householdId, id]);
  }

  /** The items reference names the document that addDefaultTask created. */
  lemma ItemRefResolves(householdId: string, id: string)
    requires IsDocId(householdId) && IsDocId(id)
    ensures ItemRef(householdId, id) == Ok(["default_tasks", householdId, "items", id])
  {
    DocRefOfIds(["default_tasks", householdId, "items", id]);
  }

  /**
   * updateDefaultTaskTitle as written: doc() throws on the three-segment path
   * before updateDoc runs, so the store is never reached and is no parameter.
   */
  method UpdateDefaultTaskTitle(householdId: string, id: string, title: string) returns (r: Result<()>)
    requires IsDocId(householdId) && IsDocId(id)
    ensures r == Err(InvalidArgument)
  {
    var ref := AsWrittenItemRef(householdId, id);
    AsWrittenItemRefRejected(householdId, id);
    r := Err(ref.error);
  }

  /** updateDefaultTaskDays as written: the same throw, before the days are even normalised. */
  method UpdateDefaultTaskDays(householdId: string, id: string, days: seq<int>) returns (r: Result<()>)
    requires IsDocId(householdId) && IsDocId(id)
    ensures r == Err(InvalidArgument)
  {
    var ref := AsWrittenItemRef(householdId, id);
    AsWrittenItemRefRejected(householdId, id);
    r := Err(ref.error);
  }

  /** deleteDefaultTask as written: the same throw, before deleteDoc runs. */
  method DeleteDefaultTask(householdId: string, id: string) returns (r: Result<()>)
    requires IsDocId(householdId) && IsDocId(id)
    ensures r == Err(InvalidArgument)
  {
    var ref := AsWrittenItemRef(householdId, id);
    AsWrittenItemRefRejected(householdId, id);
    r := Err(ref.error);
  }

  /** updateDoc of the title on the items reference: NotFound when the template does not exist. */
  function SetTitle(templates: map<TemplatePath, DefaultTask>, p: TemplatePath, title: string)
    : Result<map<TemplatePath, DefaultTask>>
  {
    if p !in templates then Err(NotFound) else Ok(templates[p := templates[p].(title := Trim(title))])
  }

  /** updateDoc of the weekdays on the items reference, normalised as on creation. */
  function SetDays(templates: map<TemplatePath, DefaultTask>, p: TemplatePath, days: seq<int>)
    : Result<map<TemplatePath, DefaultTask>>
  {
    if p !in templates then Err(NotFound) else Ok(templates[p := templates[p].(daysOfWeek := Normalize(days))])
  }

  /**
   * A title edit fails exactly when the template is missing; otherwise it
   * changes only that template's title, to the trimmed text, and doing it
   * twice is doing it once.
   */
  lemma SetTitleFacts(templates: map<TemplatePath, DefaultTask>, p: TemplatePath, title: string)
    ensures SetTitle(templates, p, title).Err? <==> p !in templates
    ensures SetTitle(templates, p, title).Err? ==> SetTitle(templates, p, title).error == NotFound
    ensures SetTitle(templates, p, title).Ok? ==>
      var m := SetTitle(templates, p, title).value;
      && m.Keys == templates.Keys
      && (forall q :: q in templates && q != p ==> m[q] == templates[q])
      && m[p].title == Trim(title)
      && m[p].daysOfWeek == templates[p].daysOfWeek && m[p].order == templates[p].order
      && m[p].createdAt == templates[p].createdAt
      && SetTitle(m, p, title) == Ok(m)
  {
    if p in templates {
      var m := SetTitle(templates, p, title).value;
      TrimIdempotent(title);
      assert m[p].(title := Trim(title)) == m[p];
      assert m[p := m[p].(title := Trim(title))] == m;
    }
  }

  /**
   * An edit of the weekdays fails exactly when the template is missing;
   * otherwise it stores the same list a new template with those weekdays
   * would get, leaves everything else as it was, and is idempotent.
   */
  lemma SetDaysFacts(
    templates: map<TemplatePath, DefaultTask>, p: TemplatePath, days: seq<int>,
    title: string, order: Option<int>, now: int, createdAt: Timestamp)
    ensures SetDays(templates, p, days).Err? <==> p !in templates
    ensures SetDays(templates, p, days).Err? ==> SetDays(templates, p, days).error == NotFound
    ensures SetDays(templates, p, days).Ok? ==>
      var m := SetDays(templates, p, days).value;
      && m.Keys == templates.Keys
      && (forall q :: q in templates && q != p ==> m[q] == templates[q])
      && m[p].daysOfWeek == NewTemplate(title, days, order, now, createdAt).daysOfWeek
      && Ascending(m[p].daysOfWeek) && (forall x :: x in m[p].daysOfWeek <==> x in days)
      && m[p].title == templates[p].title && m[p].order == templates[p].order
      && m[p].createdAt == templates[p].createdAt
      && SetDays(m, p, m[p].daysOfWeek) == Ok(m)
  {
    if p in templates {
      var m := SetDays(templates, p, days).value;
      NormalizeFacts(days);
      NormalizeIdempotent(days);
      assert m[p].(daysOfWeek := Normalize(m[p].daysOfWeek)) == m[p];
      assert m[p := m[p].(daysOfWeek := Normalize(m[p].daysOfWeek))] == m;
    }
  }

  /** updateDefaultTaskTitle as intended: on the items reference, where addDefaultTask writes. */
  method UpdateTemplateTitle(db: Db, householdId: string, id: string, title: string) returns (r: Result<()>)
    requires db.Valid() && IsDocId(householdId) && IsDocId(id)
    modifies db
    ensures db.Valid()
    ensures r.Err? <==> SetTitle(old(db.templates), TemplatePath(householdId, id), title).Err?
    ensures r.Err? ==> r.error == NotFound && db.templates == old(db.templates)
    ensures r.Ok? ==> db.templates == SetTitle(old(db.templates), TemplatePath(householdId, id), title).value
    ensures db.tasks == old(db.tasks) && db.stamps == old(db.stamps) && db.templateParents == old(db.templateParents)
    ensures db.households == old(db.households) && db.users == old(db.users) && db.nextAutoId == old(db.nextAutoId)
  {
    var ref := ItemRef(householdId, id);
    ItemRefResolves(householdId, id);
    var p := TemplatePath(householdId, id);
    if p !in db.templates {
      return Err(NotFound);
    }
    db.templates := db.templates[p := db.templates[p].(title := Trim(title))];
    r := Ok(());
  }

  /** updateDefaultTaskDays as intended: on the items reference. */
  method UpdateTemplateDays(db: Db, householdId: string, id: string, days: seq<int>) returns (r: Result<()>)
    requires db.Valid() && IsDocId(householdId) && IsDocId(id)
    modifies db
    ensures db.Valid()
    ensures r.Err? <==> SetDays(old(db.templates), TemplatePath(householdId, id), days).Err?
    ensures r.Err? ==> r.error == NotFound && db.templates == old(db.templates)
    ensures r.Ok? ==> db.templates == SetDays(old(db.templates), TemplatePath(householdId, id), days).value
    ensures db.tasks == old(db.tasks) && db.stamps == old(db.stamps) && db.templateParents == old(db.templateParents)
    ensures db.households == old(db.households) && db.users == old(db.users) && db.nextAutoId == old(db.nextAutoId)
  {
    var ref := ItemRef(householdId, id);
    ItemRefResolves(householdId, id);
    var p := TemplatePath(householdId, id);
    if p !in db.templates {
      return Err(NotFound);
    }
    db.templates := db.templates[p := db.templates[p].(daysOfWeek := Normalize(days))];
    r := Ok(());
  }

  /** deleteDefaultTask as intended: on the items reference; deleting a missing template is no error. */
  method DeleteTemplate(db: Db, householdId: string, id: string)
    requires db.Valid() && IsDocId(householdId) && IsDocId(id)
    modifies db
    ensures db.Valid()
    ensures db.templates == old(db.templates) - {TemplatePath(householdId, id)}
    ensures db.tasks == old(db.tasks) && db.stamps == old(db.stamps) && db.templateParents == old(db.templateParents)
    ensures db.households == old(db.households) && db.users == old(db.users) && db.nextAutoId == old(db.nextAutoId)
  {
    var ref := ItemRef(householdId, id);
    ItemRefResolves(householdId, id);
    db.templates := db.templates - {TemplatePath(householdId, id)};
  }

  // ---- the subscription ----

  /** The ids of the household's templates that have an order: orderBy('order') leaves out the rest. */
  function OrderedIds(templates: map<TemplatePath, DefaultTask>, householdId: string): (ids: set<string>)
    ensures forall id :: id in ids <==>
      TemplatePath(householdId, id) in templates && templates[TemplatePath(householdId, id)].order.Some?
  {
    set p | p in templates && p.householdId == householdId && templates[p].order.Some? :: p.id
  }

  /** { id: d.id, ...d.data() } for each id in turn. */
  function TemplateItems(templates: map<TemplatePath, DefaultTask>, householdId: string, ids: seq<string>)
    : (items: seq<DefaultTaskItem>)
    requires forall i :: 0 <= i < |ids| ==> TemplatePath(householdId, ids[i]) in templates
    ensures |items| == |ids|
    ensures forall i :: 0 <= i < |ids| ==>
      items[i] == DefaultTaskItem(ids[i], templates[TemplatePath(householdId, ids[i])])
  {
    if ids == [] then []
    else
      TemplateItems(templates, householdId, ids[..|ids| - 1])
      + [DefaultTaskItem(ids[|ids| - 1], templates[TemplatePath(householdId, ids[|ids| - 1])])]
  }

  lemma TemplateItemsSnoc(templates: map<TemplatePath, DefaultTask>, householdId: string, ids: seq<string>, id: string)
    requires forall i :: 0 <= i < |ids| ==> TemplatePath(householdId, ids[i]) in templates
    requires TemplatePath(householdId, id) in templates
    ensures TemplateItems(templates, householdId, ids + [id])
      == TemplateItems(templates, householdId, ids) + [DefaultTaskItem(id, templates[TemplatePath(householdId, id)])]
  {
    assert (ids + [id])[..|ids|] == ids;
  }

  /** The templates the query matches, in id order before any sorting. */
  ghost function Matched(templates: map<TemplatePath, DefaultTask>, householdId: string): seq<DefaultTaskItem> {
    var ids := Sorted(OrderedIds(templates, householdId));
    assert forall i :: 0 <= i < |ids| ==> TemplatePath(householdId, ids[i]) in templates by {
      forall i | 0 <= i < |ids| ensures TemplatePath(householdId, ids[i]) in templates {
        assert ids[i] in OrderedIds(templates, householdId);
      }
    }
    TemplateItems(templates, householdId, ids)
  }

  /** The query matches each of the household's templates that has an order once, as stored, and nothing else. */
  lemma MatchedContents(templates: map<TemplatePath, DefaultTask>, householdId: string)
    ensures forall x :: x in Matched(templates, householdId) <==>
      && TemplatePath(householdId, x.id) in templates
      && x.template == templates[TemplatePath(householdId, x.id)]
      && x.template.order.Some?
    ensures forall i, j :: 0 <= i < j < |Matched(templates, householdId)| ==>
      Matched(templates, householdId)[i].id != Matched(templates, householdId)[j].id
  {
    var ids := Sorted(OrderedIds(templates, householdId));
    var q := Matched(templates, householdId);
    forall x ensures x in q <==>
      && TemplatePath(householdId, x.id) in templates
      && x.template == templates[TemplatePath(householdId, x.id)]
      && x.template.order.Some?
    {
      if TemplatePath(householdId, x.id) in templates && x.template == templates[TemplatePath(householdId, x.id)]
        && x.template.order.Some?
      {
        assert x.id in ids;
        var i :| 0 <= i < |ids| && ids[i] == x.id;
        assert q[i] == x;
      }
    }
    forall i, j | 0 <= i < j < |q| ensures q[i].id != q[j].id {
      QueryOrder.AscendingDistinct(ids, i, j);
    }
  }

  /** The template's order, 0 when absent. */
  function OrderOf(item: DefaultTaskItem): int {
    item.template.order.GetOr(0)
  }

  /** The key that makes a descending sort an ascending one by order. */
  function NegatedOrder(item: DefaultTaskItem): int {
    -OrderOf(item)
  }

  predicate ByOrder(items: seq<DefaultTaskItem>) {
    forall i, j :: 0 <= i < j < |items| ==> OrderOf(items[i]) <= OrderOf(items[j])
  }

  /**
   * useDefaultTasks: nothing without a household; otherwise the household's
   * templates that have an order, ascending by it.
   */
  method UseDefaultTasks(db: Db, householdId: Option<string>) returns (items: seq<DefaultTaskItem>)
    ensures householdId.None? || householdId.value == [] ==> items == []
    ensures householdId.Some? && householdId.value != [] ==>
      && multiset(items) == multiset(Matched(db.templates, householdId.value))
      && ByOrder(items)
  {
    if householdId.None? || householdId.value == [] {
      return [];
    }
    var matched := QueryTemplates(db.templates, householdId.value);
    var a := new DefaultTaskItem[|matched|](i requires 0 <= i < |matched| => matched[i]);
    assert a[..] == matched;
    SortDescending(a, NegatedOrder);
    items := a[..];
    assert forall i, j :: 0 <= i < j < |items| ==> NegatedOrder(items[j]) <= NegatedOrder(items[i]);
  }

  /** The query: the household's templates that have an order, one by one in id order. */
  method QueryTemplates(templates: map<TemplatePath, DefaultTask>, householdId: string) returns (items: seq<DefaultTaskItem>)
    ensures items == Matched(templates, householdId)
  {
    var ids := OrderedIds(templates, householdId);
    var remaining := ids;
    ghost var processed: seq<string> := [];
    items := [];
    QueryOrderStart(ids);
    while remaining != {}
      invariant Scanned(templates, householdId, processed, remaining, ids)
      invariant items == TemplateItems(templates, householdId, processed)
      decreases |remaining|
    {
      LeastExists(remaining);
      var id :| IsLeast(id, remaining);
      ScanStep(templates, householdId, processed, remaining, ids, id);
      items := items + [DefaultTaskItem(id, templates[TemplatePath(householdId, id)])];
      processed := processed + [id];
      remaining := remaining - {id};
    }
    QueryOrderEnd(processed, ids);
  }

  /** Part way through the query: processed are the ids taken so far, remaining the rest. */
  ghost predicate Scanned(
    templates: map<TemplatePath, DefaultTask>, householdId: string,
    processed: seq<string>, remaining: set<string>, ids: set<string>)
  {
    && ids == OrderedIds(templates, householdId)
    && remaining <= ids
    && InQueryOrder(processed, remaining, ids)
    && forall i :: 0 <= i < |processed| ==> TemplatePath(householdId, processed[i]) in templates
  }

  lemma ScanStep(
    templates: map<TemplatePath, DefaultTask>, householdId: string,
    processed: seq<string>, remaining: set<string>, ids: set<string>, id: string)
    requires Scanned(templates, householdId, processed, remaining, ids) && IsLeast(id, remaining)
    ensures TemplatePath(householdId, id) in templates
    ensures Scanned(templates, householdId, processed + [id], remaining - {id}, ids)
    ensures TemplateItems(templates, householdId, processed + [id])
      == TemplateItems(templates, householdId, processed) + [DefaultTaskItem(id, templates[TemplatePath(householdId, id)])]
  {
    QueryOrderStep(processed, remaining, ids, id);
    TemplateItemsSnoc(templates, householdId, processed, id);
  }
}
