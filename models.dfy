/**
 * The records the application keeps in its document store: tasks, their
 * reaction stamps, the per-household task templates ("default tasks"),
 * households and user profiles. A field that a document may lack is an
 * Option; a document's id is the key it is stored under, not a field.
 */
module Models {
  import opened Wrappers

  /** A task's status: the only two strings the application writes. */
  datatype Status = Done | Pending

  /** A store timestamp, by its milliseconds (Timestamp.toMillis()). */
  datatype Timestamp = Timestamp(millis: int)

  /** A document of the tasks collection. */
  datatype Task = Task(
    title: string,
    userId: string,
    userName: Option<string>,
    householdId: string,
    status: Option<Status>,
    createdAt: Option<Timestamp>,
    dateKey: Option<string>,
    thanksCount: Option<int>,                 // the legacy mirror of reactions["thanks"]
    reactions: Option<map<string, int>>,      // reaction kind -> number of stamps of that kind
    completedAt: Option<Timestamp>,
    completedByUserId: Option<string>,
    completedByName: Option<string>)

  /** A task as a query returns it: { id: d.id, ...d.data() }. */
  datatype TaskItem = TaskItem(id: string, task: Task)

  /** A document of default_tasks/{householdId}/items: a template for a daily task. */
  datatype DefaultTask = DefaultTask(
    title: string,
    daysOfWeek: seq<int>,                     // weekday indices, 0 = Sunday ... 6 = Saturday
    order: Option<int>,
    createdAt: Option<Timestamp>)

  /** A template as the subscription returns it. */
  datatype DefaultTaskItem = DefaultTaskItem(id: string, template: DefaultTask)

  /** A document of the users collection. */
  datatype UserProfile = UserProfile(name: string, email: string, householdId: string)

  /** A document of the households collection. */
  datatype Household = Household(
    name: string,
    inviteCode: string,
    members: seq<string>,
    createdAt: Option<Timestamp>)

  /** A document of tasks/{taskId}/stamps: one user's reaction of one kind to one task. */
  datatype Stamp = Stamp(kind: string, fromUserId: string, taskId: string, dateKey: string, createdAt: Timestamp)

  predicate IsWeekday(d: int) {
    0 <= d <= 6
  }

  /** The completion fields are present exactly when the task is done. */
  predicate CompletionConsistent(t: Task) {
    && (t.completedAt.Some? <==> t.status == Some(Done))
    && (t.completedByUserId.Some? <==> t.status == Some(Done))
    && (t.completedByName.Some? <==> t.status == Some(Done))
  }

  /** The counter kept for a reaction kind, an absent map or entry counting as 0. */
  function ReactionCount(t: Task, kind: string): int {
    match t.reactions
    case None => 0
    case Some(m) => if kind in m then m[kind] else 0
  }

  /** The legacy thanks counter, an absent field counting as 0. */
  function ThanksCount(t: Task): int {
    t.thanksCount.GetOr(0)
  }

  /** The fallback sort key: createdAt in milliseconds, 0 when absent. */
  function CreatedMillis(t: Task): int {
    match t.createdAt
    case None => 0
    case Some(ts) => ts.millis
  }
}
