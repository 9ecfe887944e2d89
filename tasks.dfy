/**
 * The task operations of the client application: creating, renaming,
 * deleting and completing tasks, the reaction toggle that keeps one stamp
 * per (user, kind) under a task together with a counter per kind, and the
 * fallback listing that sorts a day's tasks newest first.
 */
module Tasks {
  import opened Wrappers
  import opened Models
  import opened Store
  import opened JsString
  import opened QueryOrder
  import opened ArraySort

  // ---- reaction stamps ----

  /** The id of a stamp document: the user id, '_', then the kind. */
  function StampId(fromUserId: string, kind: string): string {
    fromUserId + "_" + kind
  }

  /** For user ids without '_', the stamp id determines the user and the kind. */
  lemma StampIdInjective(u1: string, k1: string, u2: string, k2: string)
    requires '_' !in u1 && '_' !in u2
    requires StampId(u1, k1) == StampId(u2, k2)
    ensures u1 == u2 && k1 == k2
  {
    var s := StampId(u1, k1);
    StampIdSeparator(u1, k1);
    StampIdSeparator(u2, k2);
    assert |u1| == |u2|;
    assert u1 == s[..|u1|] == u2;
    assert k1 == s[|u1| + 1..] == k2;
  }

  /** For a user id without '_', the first '_' of the stamp id ends the user id. */
  lemma StampIdSeparator(u: string, k: string)
    requires '_' !in u
    ensures StampId(u, k)[|u|] == '_'
    ensures forall i :: 0 <= i < |u| ==> StampId(u, k)[i] == u[i] != '_'
  {
  }

  /** With '_' inside a user id, two different (user, kind) pairs share one stamp. */
  lemma StampIdCollision()
    ensures StampId("a_b", "c") == StampId("a", "b_c")
  {
  }

  datatype Outcome = Added | Removed

  /** The tasks and their stamps, the part of the store a reaction touches. */
  datatype Reactions = Reactions(tasks: map<string, Task>, stamps: map<StampPath, Stamp>)

  datatype Toggled = Toggled(outcome: Outcome, after: Reactions)

  /** increment(delta) on reactions.<kind>: an absent map or entry counts from 0. */
  function Bump(reactions: Option<map<string, int>>, kind: string, delta: int): map<string, int> {
    var m := reactions.GetOr(map[]);
    m[kind := (if kind in m then m[kind] else 0) + delta]
  }

  /** The counter update of the toggle: reactions.<kind>, and thanksCount as well for "thanks". */
  function Counted(t: Task, kind: string, delta: int): Task {
    t.(reactions := Some(Bump(t.reactions, kind, delta)),
       thanksCount := if kind == "thanks" then Some(ThanksCount(t) + delta) else t.thanksCount)
  }

  /**
   * addReaction's transaction. A kind that is not a usable field name makes
   * the update throw, and a missing task makes the commit fail; either way
   * nothing is written.
   */
  function Toggle(s: Reactions, taskId: string, fromUserId: string, kind: string,
                  dateKey: string, createdAt: Timestamp): Result<Toggled>
  {
    var key := StampPath(taskId, StampId(fromUserId, kind));
    if !ValidReactionKind(kind) then Err(InvalidArgument)
    else if taskId !in s.tasks then Err(NotFound)
    else if key in s.stamps then
      Ok(Toggled(Removed, Reactions(s.tasks[taskId := Counted(s.tasks[taskId], kind, -1)], s.stamps - {key})))
    else
      Ok(Toggled(Added, Reactions(s.tasks[taskId := Counted(s.tasks[taskId], kind, 1)],
                                  s.stamps[key := Stamp(kind, fromUserId, taskId, dateKey, createdAt)])))
  }

  /** The toggle fails exactly on an unusable kind or a missing task. */
  lemma ToggleErrors(s: Reactions, taskId: string, fromUserId: string, kind: string, dateKey: string, createdAt: Timestamp)
    ensures !ValidReactionKind(kind) ==> Toggle(s, taskId, fromUserId, kind, dateKey, createdAt) == Err(InvalidArgument)
    ensures ValidReactionKind(kind) && taskId !in s.tasks ==> Toggle(s, taskId, fromUserId, kind, dateKey, createdAt) == Err(NotFound)
    ensures Toggle(s, taskId, fromUserId, kind, dateKey, createdAt).Ok? <==> ValidReactionKind(kind) && taskId in s.tasks
  {
  }

  /** Toggle on: the stamp is created with its fields and the counters go up by one. */
  lemma ToggleOn(s: Reactions, taskId: string, fromUserId: string, kind: string, dateKey: string, createdAt: Timestamp)
    requires ValidReactionKind(kind) && taskId in s.tasks
    requires StampPath(taskId, StampId(fromUserId, kind)) !in s.stamps
    ensures
      var r := Toggle(s, taskId, fromUserId, kind, dateKey, createdAt);
      && r.Ok? && r.value.outcome == Added
      && r.value.after.stamps == s.stamps[StampPath(taskId, StampId(fromUserId, kind)) := Stamp(kind, fromUserId, taskId, dateKey, createdAt)]
      && ReactionCount(r.value.after.tasks[taskId], kind) == ReactionCount(s.tasks[taskId], kind) + 1
      && ThanksCount(r.value.after.tasks[taskId]) == ThanksCount(s.tasks[taskId]) + (if kind == "thanks" then 1 else 0)
  {
  }

  /** Toggle off: the stamp is deleted and the counters go down by one. */
  lemma ToggleOff(s: Reactions, taskId: string, fromUserId: string, kind: string, dateKey: string, createdAt: Timestamp)
    requires ValidReactionKind(kind) && taskId in s.tasks
    requires StampPath(taskId, StampId(fromUserId, kind)) in s.stamps
    ensures
      var r := Toggle(s, taskId, fromUserId, kind, dateKey, createdAt);
      && r.Ok? && r.value.outcome == Removed
      && r.value.after.stamps == s.stamps - {StampPath(taskId, StampId(fromUserId, kind))}
      && ReactionCount(r.value.after.tasks[taskId], kind) == ReactionCount(s.tasks[taskId], kind) - 1
      && ThanksCount(r.value.after.tasks[taskId]) == ThanksCount(s.tasks[taskId]) - (if kind == "thanks" then 1 else 0)
  {
  }

  /**
   * Nothing else changes: other tasks, other stamps, the task's other fields,
   * its other counters, and thanksCount unless the kind is "thanks".
   */
  lemma ToggleNothingElse(s: Reactions, taskId: string, fromUserId: string, kind: string, dateKey: string, createdAt: Timestamp)
    requires Toggle(s, taskId, fromUserId, kind, dateKey, createdAt).Ok?
    ensures
      var a := Toggle(s, taskId, fromUserId, kind, dateKey, createdAt).value.after;
      var t, t' := s.tasks[taskId], a.tasks[taskId];
      && a.tasks.Keys == s.tasks.Keys
      && (forall id :: id in s.tasks && id != taskId ==> a.tasks[id] == s.tasks[id])
      && (forall p :: p != StampPath(taskId, StampId(fromUserId, kind)) ==>
            (p in a.stamps <==> p in s.stamps) && (p in s.stamps ==> a.stamps[p] == s.stamps[p]))
      && t'.(reactions := t.reactions, thanksCount := t.thanksCount) == t
      && (forall k :: k != kind ==> ReactionCount(t', k) == ReactionCount(t, k))
      && (kind != "thanks" ==> t'.thanksCount == t.thanksCount)
  {
  }

  /**
   * Toggling twice restores the set of stamps, every counter and every other
   * field; the stamp map itself comes back exactly when the first toggle added
   * the stamp, and otherwise holds a re-created stamp.
   */
  lemma ToggleTwice(s: Reactions, taskId: string, fromUserId: string, kind: string,
                    dateKey1: string, createdAt1: Timestamp, dateKey2: string, createdAt2: Timestamp)
    requires Toggle(s, taskId, fromUserId, kind, dateKey1, createdAt1).Ok?
    ensures
      var r1 := Toggle(s, taskId, fromUserId, kind, dateKey1, createdAt1).value;
      var r2 := Toggle(r1.after, taskId, fromUserId, kind, dateKey2, createdAt2);
      var key := StampPath(taskId, StampId(fromUserId, kind));
      && r2.Ok? && r2.value.outcome != r1.outcome
      && r2.value.after.stamps.Keys == s.stamps.Keys
      && (key !in s.stamps ==> r2.value.after.stamps == s.stamps)
      && (key in s.stamps ==> r2.value.after.stamps == s.stamps[key := Stamp(kind, fromUserId, taskId, dateKey2, createdAt2)])
      && r2.value.after.tasks.Keys == s.tasks.Keys
      && (forall id :: id in s.tasks && id != taskId ==> r2.value.after.tasks[id] == s.tasks[id])
      && (forall k :: ReactionCount(r2.value.after.tasks[taskId], k) == ReactionCount(s.tasks[taskId], k))
      && ThanksCount(r2.value.after.tasks[taskId]) == ThanksCount(s.tasks[taskId])
      && r2.value.after.tasks[taskId].(reactions := s.tasks[taskId].reactions, thanksCount := s.tasks[taskId].thanksCount) == s.tasks[taskId]
  {
    var key := StampPath(taskId, StampId(fromUserId, kind));
    var r1 := Toggle(s, taskId, fromUserId, kind, dateKey1, createdAt1).value;
    var r2 := Toggle(r1.after, taskId, fromUserId, kind, dateKey2, createdAt2);
    ToggleNothingElse(s, taskId, fromUserId, kind, dateKey1, createdAt1);
    ToggleNothingElse(r1.after, taskId, fromUserId, kind, dateKey2, createdAt2);
    var t, t2 := s.tasks[taskId], r2.value.after.tasks[taskId];
    forall k ensures ReactionCount(t2, k) == ReactionCount(t, k) {
      if k == kind {
        if key in s.stamps {
          ToggleOff(s, taskId, fromUserId, kind, dateKey1, createdAt1);
          ToggleOn(r1.after, taskId, fromUserId, kind, dateKey2, createdAt2);
        } else {
          ToggleOn(s, taskId, fromUserId, kind, dateKey1, createdAt1);
          ToggleOff(r1.after, taskId, fromUserId, kind, dateKey2, createdAt2);
        }
      }
    }
    if key in s.stamps {
      ToggleOff(s, taskId, fromUserId, kind, dateKey1, createdAt1);
      ToggleOn(r1.after, taskId, fromUserId, kind, dateKey2, createdAt2);
    } else {
      ToggleOn(s, taskId, fromUserId, kind, dateKey1, createdAt1);
      ToggleOff(r1.after, taskId, fromUserId, kind, dateKey2, createdAt2);
      assert r2.value.after.stamps == s.stamps;
    }
  }

  // ---- the counters equal the stamp counts ----

  /** Every stamp sits under its own task, at the id made of its user (without '_') and kind. */
  predicate WellKeyed(stamps: map<StampPath, Stamp>) {
    forall p :: p in stamps ==>
      && p.taskId == stamps[p].taskId
      && '_' !in stamps[p].fromUserId
      && p.stampId == StampId(stamps[p].fromUserId, stamps[p].kind)
  }

  /** The stamps of one kind under one task. */
  function KindStamps(stamps: map<StampPath, Stamp>, taskId: string, kind: string): set<StampPath> {
    set p | p in stamps && p.taskId == taskId && stamps[p].kind == kind
  }

  /** reactions[k] is the number of kind-k stamps for every kind, and thanksCount that of "thanks". */
  ghost predicate CountsMatch(t: Task, stamps: map<StampPath, Stamp>, taskId: string) {
    && (forall k :: ReactionCount(t, k) == |KindStamps(stamps, taskId, k)|)
    && ThanksCount(t) == |KindStamps(stamps, taskId, "thanks")|
  }

  /** Counters that match the stamps are never negative. */
  lemma CountsNonNegative(t: Task, stamps: map<StampPath, Stamp>, taskId: string, kind: string)
    requires CountsMatch(t, stamps, taskId)
    ensures ReactionCount(t, kind) >= 0 && ThanksCount(t) >= 0
  {
    assert ReactionCount(t, kind) == |KindStamps(stamps, taskId, kind)|;
  }

  /** Adding a kind-kind stamp under a new key adds it to that kind's count and to no other. */
  lemma KindStampsAdd(stamps: map<StampPath, Stamp>, key: StampPath, st: Stamp, taskId: string, k: string)
    requires key !in stamps && key.taskId == taskId
    ensures KindStamps(stamps[key := st], taskId, k) == KindStamps(stamps, taskId, k) + (if st.kind == k then {key} else {})
    ensures |KindStamps(stamps[key := st], taskId, k)| == |KindStamps(stamps, taskId, k)| + (if st.kind == k then 1 else 0)
  {
    assert KindStamps(stamps[key := st], taskId, k) == KindStamps(stamps, taskId, k) + (if st.kind == k then {key} else {});
  }

  /** Deleting a stamp removes it from its kind's count and from no other. */
  lemma KindStampsRemove(stamps: map<StampPath, Stamp>, key: StampPath, taskId: string, k: string)
    requires key in stamps && key.taskId == taskId
    ensures KindStamps(stamps - {key}, taskId, k) == KindStamps(stamps, taskId, k) - (if stamps[key].kind == k then {key} else {})
    ensures |KindStamps(stamps - {key}, taskId, k)| == |KindStamps(stamps, taskId, k)| - (if stamps[key].kind == k then 1 else 0)
  {
    assert KindStamps(stamps - {key}, taskId, k) == KindStamps(stamps, taskId, k) - (if stamps[key].kind == k then {key} else {});
  }

  /** Stamps under other tasks do not move. */
  lemma KindStampsElsewhere(s1: map<StampPath, Stamp>, s2: map<StampPath, Stamp>, taskId: string, id: string, k: string)
    requires id != taskId
    requires forall p: StampPath :: p.taskId != taskId ==> (p in s1 <==> p in s2) && (p in s1 ==> s1[p] == s2[p])
    ensures KindStamps(s2, id, k) == KindStamps(s1, id, k)
  {
  }

  /** The counters after Counted: kind moves by delta, thanks with it for "thanks", no other kind moves. */
  lemma CountedCounts(t: Task, kind: string, delta: int, k: string)
    ensures ReactionCount(Counted(t, kind, delta), k) == ReactionCount(t, k) + (if k == kind then delta else 0)
    ensures ThanksCount(Counted(t, kind, delta)) == ThanksCount(t) + (if kind == "thanks" then delta else 0)
  {
  }

  /** A new stamp of the kind and an increment keep the counters equal to the stamp counts. */
  lemma AddKeepsCounts(t: Task, stamps: map<StampPath, Stamp>, key: StampPath, st: Stamp)
    requires key !in stamps && CountsMatch(t, stamps, key.taskId)
    ensures CountsMatch(Counted(t, st.kind, 1), stamps[key := st], key.taskId)
  {
    forall k ensures ReactionCount(Counted(t, st.kind, 1), k) == |KindStamps(stamps[key := st], key.taskId, k)| {
      CountedCounts(t, st.kind, 1, k);
      KindStampsAdd(stamps, key, st, key.taskId, k);
      assert ReactionCount(t, k) == |KindStamps(stamps, key.taskId, k)|;
    }
    CountedCounts(t, st.kind, 1, "thanks");
    KindStampsAdd(stamps, key, st, key.taskId, "thanks");
  }

  /** Deleting a stamp of the kind and a decrement keep the counters equal to the stamp counts. */
  lemma RemoveKeepsCounts(t: Task, stamps: map<StampPath, Stamp>, key: StampPath, kind: string)
    requires key in stamps && stamps[key].kind == kind && CountsMatch(t, stamps, key.taskId)
    ensures CountsMatch(Counted(t, kind, -1), stamps - {key}, key.taskId)
  {
    forall k ensures ReactionCount(Counted(t, kind, -1), k) == |KindStamps(stamps - {key}, key.taskId, k)| {
      CountedCounts(t, kind, -1, k);
      KindStampsRemove(stamps, key, key.taskId, k);
      assert ReactionCount(t, k) == |KindStamps(stamps, key.taskId, k)|;
    }
    CountedCounts(t, kind, -1, "thanks");
    KindStampsRemove(stamps, key, key.taskId, "thanks");
  }

  /** The toggle keeps every stamp at the key its user and kind give. */
  lemma ToggleKeepsWellKeyed(s: Reactions, taskId: string, fromUserId: string, kind: string, dateKey: string, createdAt: Timestamp)
    requires WellKeyed(s.stamps) && '_' !in fromUserId
    requires Toggle(s, taskId, fromUserId, kind, dateKey, createdAt).Ok?
    ensures WellKeyed(Toggle(s, taskId, fromUserId, kind, dateKey, createdAt).value.after.stamps)
  {
  }

  /**
   * The toggle keeps the counters of its task equal to the stamp counts, and
   * leaves the stamps of every other task alone.
   */
  lemma ToggleKeepsCounts(s: Reactions, taskId: string, fromUserId: string, kind: string, dateKey: string, createdAt: Timestamp)
    requires WellKeyed(s.stamps) && '_' !in fromUserId
    requires Toggle(s, taskId, fromUserId, kind, dateKey, createdAt).Ok?
    requires CountsMatch(s.tasks[taskId], s.stamps, taskId)
    ensures
      var a := Toggle(s, taskId, fromUserId, kind, dateKey, createdAt).value.after;
      && CountsMatch(a.tasks[taskId], a.stamps, taskId)
      && (forall id, k :: id != taskId ==> KindStamps(a.stamps, id, k) == KindStamps(s.stamps, id, k))
  {
    var key := StampPath(taskId, StampId(fromUserId, kind));
    var a := Toggle(s, taskId, fromUserId, kind, dateKey, createdAt).value.after;
    if key in s.stamps {
      StampIdInjective(s.stamps[key].fromUserId, s.stamps[key].kind, fromUserId, kind);
      RemoveKeepsCounts(s.tasks[taskId], s.stamps, key, kind);
      assert a.stamps == s.stamps - {key};
    } else {
      AddKeepsCounts(s.tasks[taskId], s.stamps, key, Stamp(kind, fromUserId, taskId, dateKey, createdAt));
    }
    ToggleNothingElse(s, taskId, fromUserId, kind, dateKey, createdAt);
    forall id, k | id != taskId ensures KindStamps(a.stamps, id, k) == KindStamps(s.stamps, id, k) {
      KindStampsElsewhere(s.stamps, a.stamps, taskId, id, k);
    }
  }

  /**
   * addReaction: the transaction as one atomic step. Task ids are store
   * document ids and user ids contain no '/', so the two paths name the
   * task and its stamp; a kind containing '.' would name a nested field.
   */
  method AddReaction(db: Db, taskId: string, fromUserId: string, kind: string, dateKey: string, createdAt: Timestamp)
    returns (r: Result<Outcome>)
    requires db.Valid() && IsDocId(taskId) && '/' !in fromUserId && '.' !in kind
    modifies db
    ensures db.Valid()
    ensures
      var spec := Toggle(Reactions(old(db.tasks), old(db.stamps)), taskId, fromUserId, kind, dateKey, createdAt);
      && (spec.Err? ==> r == Err(spec.error) && db.tasks == old(db.tasks) && db.stamps == old(db.stamps))
      && (spec.Ok? ==> r == Ok(spec.value.outcome) && Reactions(db.tasks, db.stamps) == spec.value.after)
    ensures db.templates == old(db.templates) && db.templateParents == old(db.templateParents)
    ensures db.households == old(db.households) && db.users == old(db.users) && db.nextAutoId == old(db.nextAutoId)
  {
    var stampKey := StampPath(taskId, StampId(fromUserId, kind));
    if !ValidReactionKind(kind) {
      return Err(InvalidArgument);
    }
    if taskId !in db.tasks {
      return Err(NotFound);
    }
    if stampKey in db.stamps {
      db.stamps := db.stamps - {stampKey};
      db.tasks := db.tasks[taskId := Counted(db.tasks[taskId], kind, -1)];
      return Ok(Removed);
    }
    assert forall k: nat :: db.nextAutoId <= k ==> AutoId(k) != taskId;
    db.stamps := db.stamps[stampKey := Stamp(kind, fromUserId, taskId, dateKey, createdAt)];
    db.tasks := db.tasks[taskId := Counted(db.tasks[taskId], kind, 1)];
    r := Ok(Added);
  }

  /** addThanksStamp: the toggle for the kind "thanks". */
  method AddThanksStamp(db: Db, taskId: string, fromUserId: string, dateKey: string, createdAt: Timestamp)
    returns (r: Result<Outcome>)
    requires db.Valid() && IsDocId(taskId) && '/' !in fromUserId
    modifies db
    ensures db.Valid()
    ensures
      var spec := Toggle(Reactions(old(db.tasks), old(db.stamps)), taskId, fromUserId, "thanks", dateKey, createdAt);
      && (spec.Err? ==> r == Err(spec.error) && db.tasks == old(db.tasks) && db.stamps == old(db.stamps))
      && (spec.Ok? ==> r == Ok(spec.value.outcome) && Reactions(db.tasks, db.stamps) == spec.value.after)
    ensures db.templates == old(db.templates) && db.templateParents == old(db.templateParents)
    ensures db.households == old(db.households) && db.users == old(db.users) && db.nextAutoId == old(db.nextAutoId)
  {
    r := AddReaction(db, taskId, fromUserId, "thanks", dateKey, createdAt);
  }

  /** "thanks" is a usable kind, so the thanks toggle fails only on a missing task. */
  lemma ThanksToggleErrors(s: Reactions, taskId: string, fromUserId: string, dateKey: string, createdAt: Timestamp)
    ensures Toggle(s, taskId, fromUserId, "thanks", dateKey, createdAt).Ok? <==> taskId in s.tasks
  {
    assert ValidReactionKind("thanks");
  }

  // ---- status ----

  /** The user who completes a task, as the caller passes it; the name is optional. */
  datatype Actor = Actor(id: string, name: Option<string>)

  /**
   * updateTaskStatus. Marking done writes the status, the completion time and
   * the actor's id and name; without an actor or without a name one of those
   * fields is undefined, which the client SDK refuses. Marking pending deletes
   * the three completion fields. A missing task fails the update.
   */
  function UpdateStatus(tasks: map<string, Task>, taskId: string, status: Status,
                        actor: Option<Actor>, completedAt: Timestamp): Result<map<string, Task>>
  {
    if status == Done && (actor.None? || actor.value.name.None?) then Err(InvalidArgument)
    else if taskId !in tasks then Err(NotFound)
    else if status == Done then
      Ok(tasks[taskId := tasks[taskId].(status := Some(Done), completedAt := Some(completedAt),
                                       completedByUserId := Some(actor.value.id), completedByName := actor.value.name)])
    else
      Ok(tasks[taskId := tasks[taskId].(status := Some(Pending), completedAt := None,
                                       completedByUserId := None, completedByName := None)])
  }

  /**
   * After a status update the completion fields are present exactly when the
   * task is done, whatever they were before; they hold the actor and the
   * time; the title, owner, day and counters are untouched, and so are other tasks.
   */
  lemma UpdateStatusConsistent(tasks: map<string, Task>, taskId: string, status: Status, actor: Option<Actor>, completedAt: Timestamp)
    ensures
      var r := UpdateStatus(tasks, taskId, status, actor, completedAt);
      && (r.Ok? <==> taskId in tasks && (status == Done ==> actor.Some? && actor.value.name.Some?))
      && (r.Err? && taskId in tasks ==> r.error == InvalidArgument)
      && (r.Ok? ==>
           && r.value.Keys == tasks.Keys
           && CompletionConsistent(r.value[taskId])
           && r.value[taskId].status == Some(status)
           && (status == Done ==>
                 && r.value[taskId].completedAt == Some(completedAt)
                 && r.value[taskId].completedByUserId == Some(actor.value.id)
                 && r.value[taskId].completedByName == actor.value.name)
           && r.value[taskId].(status := tasks[taskId].status, completedAt := tasks[taskId].completedAt,
                                completedByUserId := tasks[taskId].completedByUserId,
                                completedByName := tasks[taskId].completedByName) == tasks[taskId]
           && (forall id :: id in tasks && id != taskId ==> r.value[id] == tasks[id]))
  {
  }

  method UpdateTaskStatus(db: Db, taskId: string, status: Status, actor: Option<Actor>, completedAt: Timestamp)
    returns (r: Result<()>)
    requires db.Valid() && IsDocId(taskId)
    modifies db
    ensures db.Valid()
    ensures
      var spec := UpdateStatus(old(db.tasks), taskId, status, actor, completedAt);
      && (spec.Err? ==> r == Err(spec.error) && db.tasks == old(db.tasks))
      && (spec.Ok? ==> r == Ok(()) && db.tasks == spec.value)
    ensures db.stamps == old(db.stamps) && db.templates == old(db.templates) && db.templateParents == old(db.templateParents)
    ensures db.households == old(db.households) && db.users == old(db.users) && db.nextAutoId == old(db.nextAutoId)
  {
    if status == Done {
      if actor.None? || actor.value.name.None? {
        return Err(InvalidArgument);
      }
      if taskId !in db.tasks {
        return Err(NotFound);
      }
      db.tasks := db.tasks[taskId := db.tasks[taskId].(status := Some(Done), completedAt := Some(completedAt),
                                                       completedByUserId := Some(actor.value.id), completedByName := actor.value.name)];
    } else {
      if taskId !in db.tasks {
        return Err(NotFound);
      }
      db.tasks := db.tasks[taskId := db.tasks[taskId].(status := Some(Pending), completedAt := None,
                                                       completedByUserId := None, completedByName := None)];
    }
    r := Ok(());
  }

  // ---- create, rename, delete ----

  /** The document addTask writes: trimmed title, pending, today's key, counters at zero. */
  function NewTask(title: string, userId: string, householdId: string, dateKey: string, createdAt: Timestamp): Task {
    Task(Trim(title), userId, None, householdId, Some(Pending), Some(createdAt), Some(dateKey), Some(0), Some(map[]), None, None, None)
  }

  /**
   * A new task has a title without surrounding whitespace, is pending with no
   * completion fields, and its counters match the stamps, of which a fresh id
   * has none.
   */
  lemma NewTaskFacts(title: string, userId: string, householdId: string, dateKey: string, createdAt: Timestamp,
                     stamps: map<StampPath, Stamp>, id: string)
    requires forall s :: StampPath(id, s) !in stamps
    ensures
      var t := NewTask(title, userId, householdId, dateKey, createdAt);
      && Trim(t.title) == t.title
      && (t.title != [] ==> !IsWhiteSpace(t.title[0]) && !IsWhiteSpace(t.title[|t.title| - 1]))
      && t.status == Some(Pending) && CompletionConsistent(t)
      && CountsMatch(t, stamps, id)
  {
    TrimIdempotent(title);
    TrimEnds(title);
    var t := NewTask(title, userId, householdId, dateKey, createdAt);
    forall k ensures ReactionCount(t, k) == |KindStamps(stamps, id, k)| {
      NoKindStamps(stamps, id, k);
    }
    NoKindStamps(stamps, id, "thanks");
  }

  lemma NoKindStamps(stamps: map<StampPath, Stamp>, id: string, kind: string)
    requires forall s :: StampPath(id, s) !in stamps
    ensures KindStamps(stamps, id, kind) == {}
  {
  }

  /** addTask: the new document under a generated id. */
  method AddTask(db: Db, title: string, userId: string, householdId: string, dateKey: string, createdAt: Timestamp)
    returns (id: string)
    requires db.Valid()
    modifies db
    ensures db.Valid()
    ensures id !in old(db.tasks) && db.tasks == old(db.tasks)[id := NewTask(title, userId, householdId, dateKey, createdAt)]
    ensures CountsMatch(db.tasks[id], db.stamps, id)
    ensures db.stamps == old(db.stamps) && db.templates == old(db.templates) && db.templateParents == old(db.templateParents)
    ensures db.households == old(db.households) && db.users == old(db.users)
  {
    id := AddTaskDoc(db, NewTask(title, userId, householdId, dateKey, createdAt));
    NewTaskFacts(title, userId, householdId, dateKey, createdAt, db.stamps, id);
  }

  /** updateTaskTitle: the trimmed title; a missing task fails the update. */
  function UpdateTitle(tasks: map<string, Task>, taskId: string, title: string): Result<map<string, Task>> {
    if taskId !in tasks then Err(NotFound) else Ok(tasks[taskId := tasks[taskId].(title := Trim(title))])
  }

  /**
   * Renaming stores the trimmed title and touches nothing else; renaming
   * again with the same text, or with the stored title, changes nothing.
   */
  lemma UpdateTitleFacts(tasks: map<string, Task>, taskId: string, title: string)
    ensures UpdateTitle(tasks, taskId, title).Ok? <==> taskId in tasks
    ensures
      var r := UpdateTitle(tasks, taskId, title);
      r.Ok? ==>
        && r.value.Keys == tasks.Keys
        && r.value[taskId].title == Trim(title)
        && r.value[taskId].(title := tasks[taskId].title) == tasks[taskId]
        && (forall id :: id in tasks && id != taskId ==> r.value[id] == tasks[id])
        && UpdateTitle(r.value, taskId, title) == r
        && UpdateTitle(r.value, taskId, r.value[taskId].title) == r
  {
    TrimIdempotent(title);
    if taskId in tasks {
      var m := UpdateTitle(tasks, taskId, title).value;
      assert m[taskId].(title := Trim(title)) == m[taskId];
      assert m[taskId := m[taskId]] == m;
    }
  }

  method UpdateTaskTitle(db: Db, taskId: string, title: string) returns (r: Result<()>)
    requires db.Valid() && IsDocId(taskId)
    modifies db
    ensures db.Valid()
    ensures
      var spec := UpdateTitle(old(db.tasks), taskId, title);
      && (spec.Err? ==> r == Err(spec.error) && db.tasks == old(db.tasks))
      && (spec.Ok? ==> r == Ok(()) && db.tasks == spec.value)
    ensures db.stamps == old(db.stamps) && db.templates == old(db.templates) && db.templateParents == old(db.templateParents)
    ensures db.households == old(db.households) && db.users == old(db.users) && db.nextAutoId == old(db.nextAutoId)
  {
    if taskId !in db.tasks {
      return Err(NotFound);
    }
    db.tasks := db.tasks[taskId := db.tasks[taskId].(title := Trim(title))];
    r := Ok(());
  }

  /** deleteTask: the document goes, whether or not it existed; its stamps stay behind. */
  method DeleteTask(db: Db, taskId: string)
    requires db.Valid() && IsDocId(taskId)
    modifies db
    ensures db.Valid()
    ensures db.tasks == old(db.tasks) - {taskId}
    ensures db.stamps == old(db.stamps) && db.templates == old(db.templates) && db.templateParents == old(db.templateParents)
    ensures db.households == old(db.households) && db.users == old(db.users) && db.nextAutoId == old(db.nextAutoId)
  {
    db.tasks := db.tasks - {taskId};
  }

  // ---- the fallback listing ----

  /** The filter of the day's task query. */
  predicate InDay(t: Task, householdId: string, dateKey: string) {
    t.householdId == householdId && t.dateKey == Some(dateKey)
  }

  function DayIds(tasks: map<string, Task>, householdId: string, dateKey: string): (ids: set<string>)
    ensures forall id :: id in ids <==> id in tasks && InDay(tasks[id], householdId, dateKey)
  {
    set id | id in tasks && InDay(tasks[id], householdId, dateKey)
  }

  /** { id: d.id, ...d.data() } for each id in turn. */
  function ItemsOf(tasks: map<string, Task>, ids: seq<string>): (items: seq<TaskItem>)
    requires forall i :: 0 <= i < |ids| ==> ids[i] in tasks
    ensures |items| == |ids|
    ensures forall i :: 0 <= i < |ids| ==> items[i] == TaskItem(ids[i], tasks[ids[i]])
  {
    if ids == [] then [] else ItemsOf(tasks, ids[..|ids| - 1]) + [TaskItem(ids[|ids| - 1], tasks[ids[|ids| - 1]])]
  }

  lemma ItemsOfSnoc(tasks: map<string, Task>, ids: seq<string>, id: string)
    requires forall i :: 0 <= i < |ids| ==> ids[i] in tasks
    requires id in tasks
    ensures ItemsOf(tasks, ids + [id]) == ItemsOf(tasks, ids) + [TaskItem(id, tasks[id])]
  {
    assert (ids + [id])[..|ids|] == ids;
  }

  /** The query's result: the day's tasks of the household, in document id order. */
  ghost function DayQuery(tasks: map<string, Task>, householdId: string, dateKey: string): seq<TaskItem> {
    var ids := Sorted(DayIds(tasks, householdId, dateKey));
    assert forall i :: 0 <= i < |ids| ==> ids[i] in tasks by {
      forall i | 0 <= i < |ids| ensures ids[i] in tasks {
        assert ids[i] in DayIds(tasks, householdId, dateKey);
      }
    }
    ItemsOf(tasks, ids)
  }

  /** The query returns each of the household's tasks for that day once, as stored, and nothing else. */
  lemma DayQueryContents(tasks: map<string, Task>, householdId: string, dateKey: string)
    ensures forall x :: x in DayQuery(tasks, householdId, dateKey) <==>
      x.id in tasks && x.task == tasks[x.id] && InDay(x.task, householdId, dateKey)
    ensures forall i, j :: 0 <= i < j < |DayQuery(tasks, householdId, dateKey)| ==>
      DayQuery(tasks, householdId, dateKey)[i].id != DayQuery(tasks, householdId, dateKey)[j].id
  {
    var ids := Sorted(DayIds(tasks, householdId, dateKey));
    var q := DayQuery(tasks, householdId, dateKey);
    forall x ensures x in q <==> x.id in tasks && x.task == tasks[x.id] && InDay(x.task, householdId, dateKey) {
      if x.id in tasks && x.task == tasks[x.id] && InDay(x.task, householdId, dateKey) {
        assert x.id in ids;
        var i :| 0 <= i < |ids| && ids[i] == x.id;
        assert q[i] == x;
      }
    }
    forall i, j | 0 <= i < j < |q| ensures q[i].id != q[j].id {
      AscendingDistinct(ids, i, j);
    }
  }

  /** The sort key of the fallback: createdAt in milliseconds, 0 when absent. */
  function CreatedKey(item: TaskItem): int {
    CreatedMillis(item.task)
  }

  /** Newest first by createdAt, an absent createdAt counting as 0. */
  predicate NewestFirst(items: seq<TaskItem>) {
    forall i, j :: 0 <= i < j < |items| ==> CreatedMillis(items[j].task) <= CreatedMillis(items[i].task)
  }

  /**
   * The fallback of useTasks: nothing without a household; otherwise the
   * day's query result, sorted newest first.
   */
  method FallbackTasks(db: Db, householdId: Option<string>, dateKey: string) returns (list: seq<TaskItem>)
    ensures householdId.None? || householdId.value == [] ==> list == []
    ensures householdId.Some? && householdId.value != [] ==>
      && multiset(list) == multiset(DayQuery(db.tasks, householdId.value, dateKey))
      && NewestFirst(list)
  {
    if householdId.None? || householdId.value == [] {
      return [];
    }
    var items := QueryDay(db.tasks, householdId.value, dateKey);
    var a := new TaskItem[|items|](i requires 0 <= i < |items| => items[i]);
    assert a[..] == items;
    // list.sort((a, b) => tb - ta)
    SortDescending(a, CreatedKey);
    list := a[..];
  }

  /** The fallback query: the day's tasks of the household, one by one in id order. */
  method QueryDay(tasks: map<string, Task>, hid: string, dateKey: string) returns (items: seq<TaskItem>)
    ensures items == DayQuery(tasks, hid, dateKey)
  {
    var ids := DayIds(tasks, hid, dateKey);
    var remaining := ids;
    ghost var processed: seq<string> := [];
    items := [];
    QueryOrderStart(ids);
    while remaining != {}
      invariant Scanned(tasks, hid, dateKey, processed, remaining, ids)
      invariant items == ItemsOf(tasks, processed)
      decreases |remaining|
    {
      LeastExists(remaining);
      var id :| IsLeast(id, remaining);
      ScanStep(tasks, hid, dateKey, processed, remaining, ids, id);
      items := items + [TaskItem(id, tasks[id])];
      processed := processed + [id];
      remaining := remaining - {id};
    }
    QueryOrderEnd(processed, ids);
  }

  /** Part way through the query: processed are the ids taken so far, remaining the rest. */
  ghost predicate Scanned(
    tasks: map<string, Task>, hid: string, dateKey: string,
    processed: seq<string>, remaining: set<string>, ids: set<string>)
  {
    && ids == DayIds(tasks, hid, dateKey)
    && remaining <= ids
    && InQueryOrder(processed, remaining, ids)
    && forall i :: 0 <= i < |processed| ==> processed[i] in tasks
  }

  lemma ScanStep(
    tasks: map<string, Task>, hid: string, dateKey: string,
    processed: seq<string>, remaining: set<string>, ids: set<string>, id: string)
    requires Scanned(tasks, hid, dateKey, processed, remaining, ids) && IsLeast(id, remaining)
    ensures id in tasks
    ensures Scanned(tasks, hid, dateKey, processed + [id], remaining - {id}, ids)
    ensures ItemsOf(tasks, processed + [id]) == ItemsOf(tasks, processed) + [TaskItem(id, tasks[id])]
  {
    QueryOrderStep(processed, remaining, ids, id);
    ItemsOfSnoc(tasks, processed, id);
  }
}
