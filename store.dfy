/**
 * An in-memory model of the application's part of the document store: one
 * map per collection, keyed by document id (or by the parent's id and the
 * document id for sub-collections), and the counter from which this model
 * draws the ids that addDoc generates. A document update is a method on
 * these maps; a transaction is one method.
 */
module Store {
  import opened Wrappers
  import opened Models
  import JsString

  /** The key of tasks/{taskId}/stamps/{stampId}. */
  datatype StampPath = StampPath(taskId: string, stampId: string)

  /** The key of default_tasks/{householdId}/items/{id}. */
  datatype TemplatePath = TemplatePath(householdId: string, id: string)

  /** The n-th id this model hands out for addDoc; the real SDK draws 20 random characters. */
  function AutoId(n: nat): string {
    JsString.NatToString(n)
  }

  lemma AutoIdInjective(a: nat, b: nat)
    requires AutoId(a) == AutoId(b)
    ensures a == b
  {
    JsString.NatToStringInjective(a, b);
  }

  /**
   * No id from the counter on is in use in any collection that addDoc writes
   * to, and no stamp hangs under a task id that has not been handed out yet.
   */
  ghost predicate FreshFrom(
    tasks: map<string, Task>, stamps: map<StampPath, Stamp>, households: map<string, Household>,
    templates: map<TemplatePath, DefaultTask>, next: nat)
  {
    && (forall k: nat {:trigger AutoId(k)} :: next <= k ==> AutoId(k) !in tasks && AutoId(k) !in households)
    && (forall k: nat, h: string {:trigger TemplatePath(h, AutoId(k))} :: next <= k ==> TemplatePath(h, AutoId(k)) !in templates)
    && (forall k: nat, id: string {:trigger StampPath(AutoId(k), id)} :: next <= k ==> StampPath(AutoId(k), id) !in stamps)
  }

  class Db {
    var tasks: map<string, Task>
    var stamps: map<StampPath, Stamp>
    var templates: map<TemplatePath, DefaultTask>
    /** The default_tasks/{householdId} documents, by their touchedAt field. */
    var templateParents: map<string, Timestamp>
    var households: map<string, Household>
    var users: map<string, UserProfile>
    var nextAutoId: nat

    ghost predicate Valid()
      reads this
    {
      FreshFrom(tasks, stamps, households, templates, nextAutoId)
    }

    /** An empty store with the given user profiles. */
    constructor (users: map<string, UserProfile>)
      ensures Valid()
      ensures tasks == map[] && stamps == map[] && templates == map[] && templateParents == map[]
      ensures households == map[] && this.users == users && nextAutoId == 0
    {
      tasks := map[];
      stamps := map[];
      templates := map[];
      templateParents := map[];
      households := map[];
      this.users := users;
      nextAutoId := 0;
    }
  }

  /** Taking one id from the counter keeps the rest fresh, for any collection that did not get it. */
  lemma FreshFromNext(
    tasks: map<string, Task>, stamps: map<StampPath, Stamp>, households: map<string, Household>,
    templates: map<TemplatePath, DefaultTask>, next: nat)
    requires FreshFrom(tasks, stamps, households, templates, next)
    ensures FreshFrom(tasks, stamps, households, templates, next + 1)
    ensures AutoId(next) !in tasks && AutoId(next) !in households
    ensures forall h :: TemplatePath(h, AutoId(next)) !in templates
    ensures forall id :: StampPath(AutoId(next), id) !in stamps
  {
  }

  lemma AutoIdDistinct(a: nat, b: nat)
    requires a != b
    ensures AutoId(a) != AutoId(b)
  {
    if AutoId(a) == AutoId(b) { AutoIdInjective(a, b); }
  }

  /** addDoc(collection(db, 'tasks'), t): the document under the next generated id. */
  method AddTaskDoc(db: Db, t: Task) returns (id: string)
    requires db.Valid()
    modifies db
    ensures db.Valid()
    ensures id == AutoId(old(db.nextAutoId)) && id !in old(db.tasks)
    ensures forall s :: StampPath(id, s) !in db.stamps
    ensures db.tasks == old(db.tasks)[id := t] && db.nextAutoId == old(db.nextAutoId) + 1
    ensures db.stamps == old(db.stamps) && db.templates == old(db.templates) && db.templateParents == old(db.templateParents)
    ensures db.households == old(db.households) && db.users == old(db.users)
  {
    FreshFromNext(db.tasks, db.stamps, db.households, db.templates, db.nextAutoId);
    id := AutoId(db.nextAutoId);
    db.tasks := db.tasks[id := t];
    db.nextAutoId := db.nextAutoId + 1;
    forall k: nat | db.nextAutoId <= k ensures AutoId(k) !in db.tasks {
      AutoIdDistinct(k, db.nextAutoId - 1);
    }
  }

  // ---- path and field-path rules of the client SDK ----

  /** The pieces of s between the '/' characters. */
  function SplitSlash(s: string): (parts: seq<string>)
    ensures |parts| >= 1
    ensures '/' !in s ==> parts == [s]
  {
    if s == [] then [[]]
    else
      var rest := SplitSlash(s[1..]);
      assert '/' !in s ==> '/' !in s[1..] by {
        assert forall c :: c in s[1..] ==> c in s;
      }
      assert [s[0]] + s[1..] == s;
      if s[0] == '/' then [[]] + rest
      else [[s[0]] + rest[0]] + rest[1..]
  }

  function NonEmpty(parts: seq<string>): (r: seq<string>)
    ensures forall i :: 0 <= i < |r| ==> r[i] != []
    ensures (forall i :: 0 <= i < |parts| ==> parts[i] != []) ==> r == parts
  {
    if parts == [] then []
    else (if parts[0] == [] then [] else [parts[0]]) + NonEmpty(parts[1..])
  }

  predicate HasDoubleSlash(s: string) {
    exists i :: 0 <= i < |s| - 1 && s[i] == '/' && s[i + 1] == '/'
  }

  /**
   * doc(db, ...parts): every part is split at '/' and the empty pieces are
   * dropped; a part containing "//" is refused, and so is a path with an odd
   * number of segments, which names a collection rather than a document.
   */
  function DocRef(parts: seq<string>): (r: Result<seq<string>>)
    ensures r.Ok? ==> |r.value| % 2 == 0 && |r.value| >= 2
  {
    if exists i :: 0 <= i < |parts| && HasDoubleSlash(parts[i]) then Err(InvalidArgument)
    else
      var segments := Segments(parts);
      if |segments| % 2 == 0 && |segments| >= 2 then Ok(segments) else Err(InvalidArgument)
  }

  function Segments(parts: seq<string>): seq<string> {
    if parts == [] then [] else NonEmpty(SplitSlash(parts[0])) + Segments(parts[1..])
  }

  /** A document id as the SDK produces it: not empty and without '/'. */
  predicate IsDocId(s: string) {
    s != [] && '/' !in s
  }

  /** Parts that are all document ids are the path's segments, unchanged. */
  lemma {:induction false} SegmentsOfIds(parts: seq<string>)
    requires forall i :: 0 <= i < |parts| ==> IsDocId(parts[i])
    ensures Segments(parts) == parts
    ensures forall i :: 0 <= i < |parts| ==> !HasDoubleSlash(parts[i])
  {
    if parts != [] {
      SegmentsOfIds(parts[1..]);
      assert parts == [parts[0]] + parts[1..];
    }
  }

  /** With document ids for parts, doc() succeeds exactly when there is an even number of them. */
  lemma DocRefOfIds(parts: seq<string>)
    requires forall i :: 0 <= i < |parts| ==> IsDocId(parts[i])
    ensures DocRef(parts).Ok? <==> |parts| % 2 == 0 && |parts| >= 2
    ensures DocRef(parts).Ok? ==> DocRef(parts).value == parts
  {
    SegmentsOfIds(parts);
  }

  /**
   * A dot-separated field path is usable in an update unless it contains one
   * of ~ * / [ ] or has an empty segment; "reactions." + kind, for a kind
   * without '.', is usable exactly when the kind is not empty and has none of
   * those characters.
   */
  predicate IsReservedFieldChar(c: char) {
    c == '~' || c == '*' || c == '/' || c == '[' || c == ']'
  }

  predicate ValidReactionKind(kind: string) {
    kind != [] && forall i :: 0 <= i < |kind| ==> !IsReservedFieldChar(kind[i])
  }
}
