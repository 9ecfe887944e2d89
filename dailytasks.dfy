/**
 * The daily task generator of the cloud functions: for one household, every
 * template active on today's weekday (in Japan) with a non-blank title becomes
 * a pending task of the "system" user, unless a task with that household,
 * date key and title exists already. The scheduled run does this for every
 * household that has an active template; the HTTP trigger for one household
 * named in the request.
 */
module DailyTasks {
  import opened Wrappers
  import opened Models
  import opened Store
  import opened JsString
  import opened JsDate
  import opened QueryOrder

  // ---- the generator as a function of the tasks collection ----

  /** The tasks collection together with the id counter addDoc draws from. */
  datatype TaskState = TaskState(tasks: map<string, Task>, next: nat)

  /** The fields of the duplicate guard's query. */
  predicate Matches(t: Task, householdId: string, dateKey: string, title: string) {
    t.householdId == householdId && t.dateKey == Some(dateKey) && t.title == title
  }

  /** The duplicate guard: some task of this household, day and title exists. */
  predicate HasTask(tasks: map<string, Task>, householdId: string, dateKey: string, title: string) {
    exists id :: id in tasks && Matches(tasks[id], householdId, dateKey, title)
  }

  /** The document the generator adds for a template title. */
  function SystemTask(title: string, householdId: string, dateKey: string, createdAt: Timestamp): Task {
    Task(title, "system", None, householdId, Some(Pending), Some(createdAt), Some(dateKey), None, Some(map[]), None, None, None)
  }

  /** What one template does: a blank title or a duplicate is skipped, otherwise one task is added. */
  function Step(s: TaskState, householdId: string, dateKey: string, createdAt: Timestamp, rawTitle: string): TaskState {
    var title := Trim(rawTitle);
    if title == [] || HasTask(s.tasks, householdId, dateKey, title) then s
    else TaskState(s.tasks[AutoId(s.next) := SystemTask(title, householdId, dateKey, createdAt)], s.next + 1)
  }

  /** The templates' titles processed one after the other, in the given order. */
  function Generate(s: TaskState, householdId: string, dateKey: string, createdAt: Timestamp, titles: seq<string>): TaskState
    decreases |titles|
  {
    if titles == [] then s
    else Step(Generate(s, householdId, dateKey, createdAt, titles[..|titles| - 1]), householdId, dateKey, createdAt, titles[|titles| - 1])
  }

  /** No id from the counter on is in use. */
  ghost predicate Fresh(s: TaskState) {
    forall k: nat {:trigger AutoId(k)} :: s.next <= k ==> AutoId(k) !in s.tasks
  }

  /** s2 keeps every task of s1 unchanged and has not moved the counter back. */
  predicate Extends(s1: TaskState, s2: TaskState) {
    s1.next <= s2.next && forall id :: id in s1.tasks ==> id in s2.tasks && s2.tasks[id] == s1.tasks[id]
  }

  /** A task the generator created: its fields are those of SystemTask, with a non-blank title. */
  predicate IsSystemTask(t: Task, householdId: string, dateKey: string, createdAt: Timestamp) {
    t.title != [] && t == SystemTask(t.title, householdId, dateKey, createdAt)
  }

  lemma StepAppendOnly(s: TaskState, householdId: string, dateKey: string, createdAt: Timestamp, rawTitle: string)
    requires Fresh(s)
    ensures Fresh(Step(s, householdId, dateKey, createdAt, rawTitle))
    ensures Extends(s, Step(s, householdId, dateKey, createdAt, rawTitle))
  {
    var r := Step(s, householdId, dateKey, createdAt, rawTitle);
    if r != s {
      assert AutoId(s.next) !in s.tasks;
      forall k: nat | r.next <= k ensures AutoId(k) !in r.tasks {
        if AutoId(k) == AutoId(s.next) { AutoIdInjective(k, s.next); }
      }
    }
  }

  /** Generation only adds tasks, and the counter stays ahead of every id in use. */
  lemma {:induction false} GenerateAppendOnly(s: TaskState, householdId: string, dateKey: string, createdAt: Timestamp, titles: seq<string>)
    requires Fresh(s)
    ensures Fresh(Generate(s, householdId, dateKey, createdAt, titles))
    ensures Extends(s, Generate(s, householdId, dateKey, createdAt, titles))
    decreases |titles|
  {
    if titles != [] {
      var init := titles[..|titles| - 1];
      GenerateAppendOnly(s, householdId, dateKey, createdAt, init);
      StepAppendOnly(Generate(s, householdId, dateKey, createdAt, init), householdId, dateKey, createdAt, titles[|titles| - 1]);
    }
  }

  lemma HasTaskExtends(s1: TaskState, s2: TaskState, householdId: string, dateKey: string, title: string)
    requires Extends(s1, s2) && HasTask(s1.tasks, householdId, dateKey, title)
    ensures HasTask(s2.tasks, householdId, dateKey, title)
  {
    var id :| id in s1.tasks && Matches(s1.tasks[id], householdId, dateKey, title);
    assert id in s2.tasks && Matches(s2.tasks[id], householdId, dateKey, title);
  }

  /**
   * Every task that generation adds is a system task for a non-blank trimmed
   * template title, and no task with that household, day and title existed before.
   */
  lemma {:induction false} GenerateNewTasks(s: TaskState, householdId: string, dateKey: string, createdAt: Timestamp, titles: seq<string>)
    requires Fresh(s)
    ensures forall id :: id in Generate(s, householdId, dateKey, createdAt, titles).tasks && id !in s.tasks ==>
      var t := Generate(s, householdId, dateKey, createdAt, titles).tasks[id];
      && IsSystemTask(t, householdId, dateKey, createdAt)
      && !HasTask(s.tasks, householdId, dateKey, t.title)
      && exists i :: 0 <= i < |titles| && Trim(titles[i]) == t.title
    decreases |titles|
  {
    if titles != [] {
      var init := titles[..|titles| - 1];
      var last := titles[|titles| - 1];
      var p := Generate(s, householdId, dateKey, createdAt, init);
      var r := Generate(s, householdId, dateKey, createdAt, titles);
      GenerateNewTasks(s, householdId, dateKey, createdAt, init);
      GenerateAppendOnly(s, householdId, dateKey, createdAt, init);
      assert r == Step(p, householdId, dateKey, createdAt, last);
      forall id | id in r.tasks && id !in s.tasks
        ensures IsSystemTask(r.tasks[id], householdId, dateKey, createdAt)
        ensures !HasTask(s.tasks, householdId, dateKey, r.tasks[id].title)
        ensures exists i :: 0 <= i < |titles| && Trim(titles[i]) == r.tasks[id].title
      {
        if id in p.tasks {
          assert r.tasks[id] == p.tasks[id];
          var i :| 0 <= i < |init| && Trim(init[i]) == p.tasks[id].title;
          assert titles[i] == init[i];
        } else {
          assert id == AutoId(p.next) && r.tasks[id] == SystemTask(Trim(last), householdId, dateKey, createdAt);
          if HasTask(s.tasks, householdId, dateKey, Trim(last)) {
            HasTaskExtends(s, p, householdId, dateKey, Trim(last));
          }
          assert titles[|titles| - 1] == last;
        }
      }
    }
  }

  /** Two templates with the same trimmed title yield at most one new task. */
  lemma {:induction false} GenerateAtMostOne(s: TaskState, householdId: string, dateKey: string, createdAt: Timestamp, titles: seq<string>)
    requires Fresh(s)
    ensures forall a, b ::
      var r := Generate(s, householdId, dateKey, createdAt, titles).tasks;
      a in r && a !in s.tasks && b in r && b !in s.tasks && r[a].title == r[b].title ==> a == b
    decreases |titles|
  {
    if titles != [] {
      var init := titles[..|titles| - 1];
      var last := titles[|titles| - 1];
      var p := Generate(s, householdId, dateKey, createdAt, init);
      var r := Generate(s, householdId, dateKey, createdAt, titles);
      GenerateAtMostOne(s, householdId, dateKey, createdAt, init);
      GenerateNewTasks(s, householdId, dateKey, createdAt, init);
      GenerateAppendOnly(s, householdId, dateKey, createdAt, init);
      assert r == Step(p, householdId, dateKey, createdAt, last);
      forall a, b | a in r.tasks && a !in s.tasks && b in r.tasks && b !in s.tasks && r.tasks[a].title == r.tasks[b].title
        ensures a == b
      {
        if a in p.tasks && b !in p.tasks {
          assert Matches(p.tasks[a], householdId, dateKey, Trim(last));
        }
      }
    }
  }

  /** After generation every non-blank trimmed title has a matching task. */
  lemma {:induction false} GenerateCovers(s: TaskState, householdId: string, dateKey: string, createdAt: Timestamp, titles: seq<string>)
    requires Fresh(s)
    ensures forall i :: 0 <= i < |titles| && Trim(titles[i]) != [] ==>
      HasTask(Generate(s, householdId, dateKey, createdAt, titles).tasks, householdId, dateKey, Trim(titles[i]))
    decreases |titles|
  {
    if titles != [] {
      var init := titles[..|titles| - 1];
      var last := titles[|titles| - 1];
      var p := Generate(s, householdId, dateKey, createdAt, init);
      var r := Generate(s, householdId, dateKey, createdAt, titles);
      GenerateCovers(s, householdId, dateKey, createdAt, init);
      GenerateAppendOnly(s, householdId, dateKey, createdAt, init);
      StepAppendOnly(p, householdId, dateKey, createdAt, last);
      assert r == Step(p, householdId, dateKey, createdAt, last);
      forall i | 0 <= i < |titles| && Trim(titles[i]) != []
        ensures HasTask(r.tasks, householdId, dateKey, Trim(titles[i]))
      {
        if i < |init| {
          assert titles[i] == init[i];
          HasTaskExtends(p, r, householdId, dateKey, Trim(titles[i]));
        } else if !HasTask(p.tasks, householdId, dateKey, Trim(last)) {
          assert Matches(r.tasks[AutoId(p.next)], householdId, dateKey, Trim(last));
        }
      }
    }
  }

  /** When every non-blank title already has a matching task, generation changes nothing. */
  lemma {:induction false} GenerateNothingToDo(s: TaskState, householdId: string, dateKey: string, createdAt: Timestamp, titles: seq<string>)
    requires forall i :: 0 <= i < |titles| && Trim(titles[i]) != [] ==> HasTask(s.tasks, householdId, dateKey, Trim(titles[i]))
    ensures Generate(s, householdId, dateKey, createdAt, titles) == s
    decreases |titles|
  {
    if titles != [] {
      var init := titles[..|titles| - 1];
      forall i | 0 <= i < |init| && Trim(init[i]) != []
        ensures HasTask(s.tasks, householdId, dateKey, Trim(init[i]))
      {
        assert init[i] == titles[i];
      }
      GenerateNothingToDo(s, householdId, dateKey, createdAt, init);
    }
  }

  /** Running the generator a second time on the same day with the same templates adds nothing. */
  lemma GenerateIdempotent(s: TaskState, householdId: string, dateKey: string, createdAt: Timestamp, later: Timestamp, titles: seq<string>)
    requires Fresh(s)
    ensures
      var r := Generate(s, householdId, dateKey, createdAt, titles);
      Generate(r, householdId, dateKey, later, titles) == r
  {
    GenerateCovers(s, householdId, dateKey, createdAt, titles);
    GenerateNothingToDo(Generate(s, householdId, dateKey, createdAt, titles), householdId, dateKey, later, titles);
  }

  // ---- the queries ----

  /** The ids of the household's templates that list the weekday; none when the weekday is not a number. */
  function ActiveIds(templates: map<TemplatePath, DefaultTask>, householdId: string, dow: Option<int>): (ids: set<string>)
    ensures forall id :: id in ids <==>
      TemplatePath(householdId, id) in templates && dow.Some? && dow.value in templates[TemplatePath(householdId, id)].daysOfWeek
  {
    set p | p in templates && p.householdId == householdId && dow.Some? && dow.value in templates[p].daysOfWeek :: p.id
  }

  /** A template's title, as docSnap.data().title. */
  function TitleOf(templates: map<TemplatePath, DefaultTask>, householdId: string, id: string): string {
    if TemplatePath(householdId, id) in templates then templates[TemplatePath(householdId, id)].title else ""
  }

  function TitlesOf(templates: map<TemplatePath, DefaultTask>, householdId: string, ids: seq<string>): (titles: seq<string>)
    ensures |titles| == |ids|
    ensures forall i :: 0 <= i < |ids| ==> titles[i] == TitleOf(templates, householdId, ids[i])
  {
    if ids == [] then [] else TitlesOf(templates, householdId, ids[..|ids| - 1]) + [TitleOf(templates, householdId, ids[|ids| - 1])]
  }

  /** The households the scheduled run visits: the non-empty grandparent ids of the active templates. */
  function ActiveHouseholds(templates: map<TemplatePath, DefaultTask>, dow: Option<int>): (hids: set<string>)
    ensures forall h :: h in hids <==> h != [] && exists id :: id in ActiveIds(templates, h, dow)
  {
    var hids := set p | p in templates && p.householdId != [] && dow.Some? && dow.value in templates[p].daysOfWeek :: p.householdId;
    assert forall h :: h in hids <==> h != [] && exists id :: id in ActiveIds(templates, h, dow) by {
      forall h ensures h in hids <==> h != [] && exists id :: id in ActiveIds(templates, h, dow) {
        if h in hids {
          var p :| p in templates && p.householdId == h && h != [] && dow.Some? && dow.value in templates[p].daysOfWeek;
          assert p == TemplatePath(h, p.id);
          assert p.id in ActiveIds(templates, h, dow);
        }
        if h != [] && exists id :: id in ActiveIds(templates, h, dow) {
          var id :| id in ActiveIds(templates, h, dow);
          assert TemplatePath(h, id) in templates;
        }
      }
    }
    hids
  }

  /** A template is active exactly when it lists today's weekday; a weekday that is not a number matches none. */
  lemma ActiveIdsFilter(templates: map<TemplatePath, DefaultTask>, householdId: string, now: int, id: string)
    requires TemplatePath(householdId, id) in templates
    ensures id in ActiveIds(templates, householdId, TodayWeekdayJST(now)) <==>
      JsDate.TimeClip(now + JstShift).Some? && WeekDay(now + JstShift) in templates[TemplatePath(householdId, id)].daysOfWeek
  {
  }

  /** The tasks collection after generateForHousehold: the active templates' titles in query order. */
  ghost function GenerateForHouseholdSpec(s: TaskState, templates: map<TemplatePath, DefaultTask>,
                                          householdId: string, now: int, createdAt: Timestamp): TaskState
  {
    Generate(s, householdId, TodayKeyJST(now), createdAt,
      TitlesOf(templates, householdId, Sorted(ActiveIds(templates, householdId, TodayWeekdayJST(now)))))
  }

  /** The scheduled run: the households one after the other. */
  ghost function GenerateAllSpec(s: TaskState, templates: map<TemplatePath, DefaultTask>,
                                 hids: seq<string>, now: int, createdAt: Timestamp): TaskState
    decreases |hids|
  {
    if hids == [] then s
    else GenerateForHouseholdSpec(GenerateAllSpec(s, templates, hids[..|hids| - 1], now, createdAt), templates, hids[|hids| - 1], now, createdAt)
  }

  /** After generateForHousehold every active template with a non-blank title has today's task. */
  lemma GenerateForHouseholdCovers(s: TaskState, templates: map<TemplatePath, DefaultTask>,
                                   householdId: string, now: int, createdAt: Timestamp, id: string)
    requires Fresh(s)
    requires id in ActiveIds(templates, householdId, TodayWeekdayJST(now))
    requires Trim(templates[TemplatePath(householdId, id)].title) != []
    ensures HasTask(GenerateForHouseholdSpec(s, templates, householdId, now, createdAt).tasks,
                    householdId, TodayKeyJST(now), Trim(templates[TemplatePath(householdId, id)].title))
  {
    var ids := Sorted(ActiveIds(templates, householdId, TodayWeekdayJST(now)));
    var i :| 0 <= i < |ids| && ids[i] == id;
    GenerateCovers(s, householdId, TodayKeyJST(now), createdAt, TitlesOf(templates, householdId, ids));
    assert TitlesOf(templates, householdId, ids)[i] == templates[TemplatePath(householdId, id)].title;
  }

  /** The scheduled run only adds tasks. */
  lemma {:induction false} GenerateAllAppendOnly(s: TaskState, templates: map<TemplatePath, DefaultTask>,
                                                 hids: seq<string>, now: int, createdAt: Timestamp)
    requires Fresh(s)
    ensures Fresh(GenerateAllSpec(s, templates, hids, now, createdAt))
    ensures Extends(s, GenerateAllSpec(s, templates, hids, now, createdAt))
    decreases |hids|
  {
    if hids != [] {
      var init := hids[..|hids| - 1];
      var h := hids[|hids| - 1];
      GenerateAllAppendOnly(s, templates, init, now, createdAt);
      var p := GenerateAllSpec(s, templates, init, now, createdAt);
      GenerateAppendOnly(p, h, TodayKeyJST(now), createdAt,
        TitlesOf(templates, h, Sorted(ActiveIds(templates, h, TodayWeekdayJST(now)))));
    }
  }

  /** After the scheduled run every listed household has today's task for each active non-blank title. */
  lemma {:induction false} GenerateAllCovers(s: TaskState, templates: map<TemplatePath, DefaultTask>,
                                             hids: seq<string>, now: int, createdAt: Timestamp, j: int, id: string)
    requires Fresh(s)
    requires 0 <= j < |hids|
    requires id in ActiveIds(templates, hids[j], TodayWeekdayJST(now))
    requires Trim(templates[TemplatePath(hids[j], id)].title) != []
    ensures HasTask(GenerateAllSpec(s, templates, hids, now, createdAt).tasks,
                    hids[j], TodayKeyJST(now), Trim(templates[TemplatePath(hids[j], id)].title))
    decreases |hids|
  {
    var init := hids[..|hids| - 1];
    var h := hids[|hids| - 1];
    var p := GenerateAllSpec(s, templates, init, now, createdAt);
    GenerateAllAppendOnly(s, templates, init, now, createdAt);
    if j == |hids| - 1 {
      GenerateForHouseholdCovers(p, templates, h, now, createdAt, id);
    } else {
      assert init[j] == hids[j];
      GenerateAllCovers(s, templates, init, now, createdAt, j, id);
      GenerateAppendOnly(p, h, TodayKeyJST(now), createdAt,
        TitlesOf(templates, h, Sorted(ActiveIds(templates, h, TodayWeekdayJST(now)))));
      HasTaskExtends(p, GenerateAllSpec(s, templates, hids, now, createdAt), hids[j], TodayKeyJST(now),
        Trim(templates[TemplatePath(hids[j], id)].title));
    }
  }

  /** One more template at the end of the processing order is one more Step. */
  lemma GenerateSnoc(s: TaskState, templates: map<TemplatePath, DefaultTask>, householdId: string,
                     dateKey: string, createdAt: Timestamp, ids: seq<string>, id: string)
    ensures Generate(s, householdId, dateKey, createdAt, TitlesOf(templates, householdId, ids + [id])) ==
      Step(Generate(s, householdId, dateKey, createdAt, TitlesOf(templates, householdId, ids)),
           householdId, dateKey, createdAt, TitleOf(templates, householdId, id))
  {
    assert (ids + [id])[..|ids|] == ids;
  }

  /** Taking the next household in query order. */
  lemma GenerateAllSnoc(s: TaskState, templates: map<TemplatePath, DefaultTask>,
                        hids: seq<string>, h: string, now: int, createdAt: Timestamp)
    ensures GenerateAllSpec(s, templates, hids + [h], now, createdAt) ==
      GenerateForHouseholdSpec(GenerateAllSpec(s, templates, hids, now, createdAt), templates, h, now, createdAt)
  {
    assert (hids + [h])[..|hids|] == hids;
  }

  // ---- the store operations ----

  /** The body of generateForHousehold's loop for one template title. */
  method ProcessTemplate(db: Db, householdId: string, dateKey: string, createdAt: Timestamp, rawTitle: string)
    requires db.Valid()
    modifies db
    ensures db.Valid()
    ensures TaskState(db.tasks, db.nextAutoId) == Step(TaskState(old(db.tasks), old(db.nextAutoId)), householdId, dateKey, createdAt, rawTitle)
    ensures db.stamps == old(db.stamps) && db.templates == old(db.templates) && db.templateParents == old(db.templateParents)
    ensures db.households == old(db.households) && db.users == old(db.users)
  {
    var title := Trim(rawTitle);
    if title == [] {
      return;
    }
    if HasTask(db.tasks, householdId, dateKey, title) {
      return;
    }
    var _ := AddTaskDoc(db, SystemTask(title, householdId, dateKey, createdAt));
  }

  /**
   * generateForHousehold: the query for the household's templates active
   * today, then for each of them in query order the trim, the blank check,
   * the duplicate guard and the add. Returns the template ids in the order
   * processed.
   */
  method GenerateForHousehold(db: Db, householdId: string, now: int, createdAt: Timestamp) returns (processed: seq<string>)
    requires db.Valid()
    modifies db
    ensures db.Valid()
    ensures processed == Sorted(ActiveIds(db.templates, householdId, TodayWeekdayJST(now)))
    ensures TaskState(db.tasks, db.nextAutoId) ==
      GenerateForHouseholdSpec(TaskState(old(db.tasks), old(db.nextAutoId)), db.templates, householdId, now, createdAt)
    ensures db.stamps == old(db.stamps) && db.templates == old(db.templates) && db.templateParents == old(db.templateParents)
    ensures db.households == old(db.households) && db.users == old(db.users)
  {
    var dateKey := TodayKeyJST(now);
    var dow := TodayWeekdayJST(now);
    var active := ActiveIds(db.templates, householdId, dow);
    ghost var s0 := TaskState(db.tasks, db.nextAutoId);
    var remaining := active;
    processed := [];
    QueryOrderStart(active);
    while remaining != {}
      invariant db.Valid()
      invariant InQueryOrder(processed, remaining, active)
      invariant TaskState(db.tasks, db.nextAutoId) == Generate(s0, householdId, dateKey, createdAt, TitlesOf(db.templates, householdId, processed))
      invariant db.stamps == old(db.stamps) && db.templates == old(db.templates) && db.templateParents == old(db.templateParents)
      invariant db.households == old(db.households) && db.users == old(db.users)
      decreases |remaining|
    {
      LeastExists(remaining);
      var id :| IsLeast(id, remaining);
      QueryOrderStep(processed, remaining, active, id);
      ProcessTemplate(db, householdId, dateKey, createdAt, TitleOf(db.templates, householdId, id));
      GenerateSnoc(s0, db.templates, householdId, dateKey, createdAt, processed, id);
      processed := processed + [id];
      remaining := remaining - {id};
    }
    QueryOrderEnd(processed, active);
  }

  /**
   * The scheduled run: the collection-group query for every template active
   * today, the set of their non-empty grandparent ids built item by item,
   * then generateForHousehold for each of those households. The set is
   * filled in query order, which is ascending by household id, so that is
   * the order it yields them in. Returns the households, whose number is
   * what the run logs.
   */
  method GenerateDailyTasks(db: Db, now: int, createdAt: Timestamp) returns (households: seq<string>)
    requires db.Valid()
    modifies db
    ensures db.Valid()
    ensures households == Sorted(ActiveHouseholds(db.templates, TodayWeekdayJST(now)))
    ensures forall i, j :: 0 <= i < j < |households| ==> households[i] != households[j]
    ensures TaskState(db.tasks, db.nextAutoId) ==
      GenerateAllSpec(TaskState(old(db.tasks), old(db.nextAutoId)), db.templates, households, now, createdAt)
    ensures db.stamps == old(db.stamps) && db.templates == old(db.templates) && db.templateParents == old(db.templateParents)
    ensures db.households == old(db.households) && db.users == old(db.users)
  {
    var dow := TodayWeekdayJST(now);
    var items := set p | p in db.templates && dow.Some? && dow.value in db.templates[p].daysOfWeek;
    var householdIds := ParentHouseholds(items);
    assert householdIds == ActiveHouseholds(db.templates, dow) by {
      forall h | h in ActiveHouseholds(db.templates, dow) ensures h in householdIds {
        var id :| id in ActiveIds(db.templates, h, dow);
        assert TemplatePath(h, id) in items;
      }
    }

    ghost var s0 := TaskState(db.tasks, db.nextAutoId);
    var remaining := householdIds;
    households := [];
    QueryOrderStart(householdIds);
    while remaining != {}
      invariant db.Valid()
      invariant InQueryOrder(households, remaining, householdIds)
      invariant TaskState(db.tasks, db.nextAutoId) == GenerateAllSpec(s0, db.templates, households, now, createdAt)
      invariant db.stamps == old(db.stamps) && db.templates == old(db.templates) && db.templateParents == old(db.templateParents)
      invariant db.households == old(db.households) && db.users == old(db.users)
      decreases |remaining|
    {
      LeastExists(remaining);
      var h :| IsLeast(h, remaining);
      QueryOrderStep(households, remaining, householdIds, h);
      var _ := GenerateForHousehold(db, h, now, createdAt);
      GenerateAllSnoc(s0, db.templates, households, h, now, createdAt);
      households := households + [h];
      remaining := remaining - {h};
    }
    QueryOrderEnd(households, householdIds);
    forall i, j | 0 <= i < j < |households| ensures households[i] != households[j] {
      AscendingDistinct(households, i, j);
    }
  }

  /** new Set() filled by items.forEach: the non-empty grandparent ids of the items. */
  method ParentHouseholds(items: set<TemplatePath>) returns (householdIds: set<string>)
    ensures forall h :: h in householdIds <==> h != [] && exists p :: p in items && p.householdId == h
  {
    householdIds := {};
    var pending := items;
    while pending != {}
      invariant pending <= items
      invariant forall h :: h in householdIds <==> h != [] && exists p :: p in items - pending && p.householdId == h
      decreases |pending|
    {
      var p :| p in pending;
      if p.householdId != [] {
        householdIds := householdIds + {p.householdId};
      }
      pending := pending - {p};
    }
  }

  /** The HTTP response: its status code and JSON body. */
  datatype Body = Generated(dateKey: string) | Rejected(error: string) | Failed(message: string)
  datatype Response = Response(status: int, body: Body)

  /** A query parameter as the handler reads it: a missing or empty one counts as absent. */
  function Truthy(param: Option<string>): Option<string> {
    if param.Some? && param.value != [] then param else None
  }

  /** householdId, or else the misspelt houholdId that the handler also accepts. */
  function RequestedHousehold(householdId: Option<string>, houholdId: Option<string>): (r: Option<string>)
    ensures r.Some? ==> r.value != []
    ensures r.None? <==> Truthy(householdId).None? && Truthy(houholdId).None?
    ensures Truthy(householdId).Some? ==> r == householdId
    ensures Truthy(householdId).None? ==> r == Truthy(houholdId)
  {
    if Truthy(householdId).Some? then householdId else Truthy(houholdId)
  }

  /**
   * collection('default_tasks').doc(id) on the server. The admin SDK applies
   * the path rules of doc() above: the id is split at '/', empty pieces are
   * dropped, "//" is refused, and the path must name a document. Otherwise
   * doc() throws before any query runs.
   */
  predicate HouseholdDocOk(id: string) {
    DocRef(["default_tasks", id]).Ok?
  }

  /** A plain household id always names a document. */
  lemma HouseholdDocOfPlainId(id: string)
    requires IsDocId(id)
    ensures HouseholdDocOk(id)
  {
    assert IsDocId("default_tasks") by {
      assert forall i :: 0 <= i < |"default_tasks"| ==> "default_tasks"[i] != '/';
    }
    DocRefOfIds(["default_tasks", id]);
  }

  /** "a/b" splits into "a" and "b". */
  lemma SplitAB()
    ensures SplitSlash("a/b") == ["a", "b"]
  {
    assert "a/b"[1..] == "/b" && "/b"[1..] == "b";
    var rest := SplitSlash("/b");
    assert rest == [[]] + SplitSlash("b");
    assert rest[0] == [] && rest[1..] == ["b"];
    assert ['a'] + rest[0] == "a";
  }

  /** The path of collection('default_tasks').doc("a/b") has three segments. */
  lemma SegmentsAB()
    ensures |Segments(["default_tasks", "a/b"])| == 3
  {
    assert '/' !in "default_tasks" by {
      assert forall i :: 0 <= i < |"default_tasks"| ==> "default_tasks"[i] != '/';
    }
    SplitAB();
    assert NonEmpty(["a", "b"]) == ["a", "b"];
    assert Segments(["a/b"]) == ["a", "b"];
    assert Segments(["default_tasks", "a/b"]) == ["default_tasks"] + Segments(["a/b"]);
  }

  /** "a/b" gives default_tasks/a/b, three segments, which names a collection: doc() throws. */
  lemma HouseholdDocRejectsSlash()
    ensures !HouseholdDocOk("a/b")
  {
    SegmentsAB();
  }

  /**
   * The HTTP trigger. Without a household id it answers 400 and touches
   * nothing. An id whose path doc() refuses makes it answer 500 with no
   * write. Otherwise it generates for that household and answers 200 with
   * the date key at the time of the answer. storeFailure stands for an
   * exception from the store, which this model raises before any write and
   * which is answered with 500 and its message.
   */
  method GenerateDailyTasksHttp(db: Db, householdId: Option<string>, houholdId: Option<string>,
                                now: int, answeredAt: int, createdAt: Timestamp, storeFailure: Option<string>)
    returns (response: Response)
    requires db.Valid()
    modifies db
    ensures db.Valid()
    ensures response.status == HttpStatus(householdId, houholdId, storeFailure)
    ensures RequestedHousehold(householdId, houholdId).None? ==>
      response == Response(400, Rejected("householdId is required")) && unchanged(db)
    ensures RequestedHousehold(householdId, houholdId).Some? ==>
      var id := RequestedHousehold(householdId, houholdId).value;
      && (!HouseholdDocOk(id) ==> response.body.Failed? && unchanged(db))
      && (HouseholdDocOk(id) && storeFailure.Some? ==>
            response == Response(500, Failed(storeFailure.value)) && unchanged(db))
      && (HouseholdDocOk(id) && storeFailure.None? ==>
            && response == Response(200, Generated(TodayKeyJST(answeredAt)))
            && db.templates == old(db.templates) && db.templateParents == old(db.templateParents)
            && db.stamps == old(db.stamps) && db.households == old(db.households) && db.users == old(db.users))
      && (IsDocId(id) && storeFailure.None? ==>
            TaskState(db.tasks, db.nextAutoId) ==
            GenerateForHouseholdSpec(TaskState(old(db.tasks), old(db.nextAutoId)), db.templates, id, now, createdAt))
  {
    var hid := RequestedHousehold(householdId, houholdId);
    if hid.None? {
      return Response(400, Rejected("householdId is required"));
    }
    if IsDocId(hid.value) {
      HouseholdDocOfPlainId(hid.value);
    }
    if !HouseholdDocOk(hid.value) {
      return Response(500, Failed("documentPath must point to a document"));
    }
    if storeFailure.Some? {
      return Response(500, Failed(storeFailure.value));
    }
    var _ := GenerateForHousehold(db, hid.value, now, createdAt);
    response := Response(200, Generated(TodayKeyJST(answeredAt)));
  }

  /**
   * The HTTP answer depends only on the parameters, not on the store: 400
   * without an id, 500 when doc() refuses the id or the store fails, 200
   * otherwise.
   */
  function HttpStatus(householdId: Option<string>, houholdId: Option<string>, storeFailure: Option<string>): (code: int)
    ensures code == 400 <==> Truthy(householdId).None? && Truthy(houholdId).None?
    ensures code == 500 <==>
      (RequestedHousehold(householdId, houholdId).Some?
       && (!HouseholdDocOk(RequestedHousehold(householdId, houholdId).value) || storeFailure.Some?))
    ensures code == 200 || code == 400 || code == 500
  {
    if RequestedHousehold(householdId, houholdId).None? then 400
    else if !HouseholdDocOk(RequestedHousehold(householdId, houholdId).value) || storeFailure.Some? then 500
    else 200
  }

  /** A request for "a/b" is answered with 500, even when the store is healthy. */
  lemma HttpRejectsSlashId()
    ensures HttpStatus(Some("a/b"), None, None) == 500
  {
    HouseholdDocRejectsSlash();
  }

  /** A request for a plain id with a healthy store is answered with 200. */
  lemma HttpAcceptsPlainId(id: string)
    requires IsDocId(id)
    ensures HttpStatus(Some(id), None, None) == 200
  {
    HouseholdDocOfPlainId(id);
  }
}
