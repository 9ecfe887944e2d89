# famly — a verified model of the household task core

famly is a shared to-do app for a household (a 家族, "family"). It is built on a document store with these parts:

- **Daily task generator.** A scheduled job (`functions/src/index.ts`) runs every morning at 05:00 Japan time. It turns each household's *default tasks* into that day's tasks and never creates a duplicate. An HTTP trigger does the same for a single household.
- **Tasks** (`src/application/tasks.ts`). Users create, rename, complete and delete the day's tasks. They also toggle reactions, called "stamps". Each stamp is a document `tasks/{taskId}/stamps/{fromUserId}_{kind}`, and the task keeps a count for each kind of stamp.
- **Default tasks, or templates** (`src/application/defaultTasks.ts`). These are stored under `default_tasks/{householdId}/items/{id}`. Each one has a title, a normalised list of weekdays and a display order.
- **Households** (`src/application/households.ts`). Users create a household, join one with a six-character invite code, regenerate that code, and leave.

This project models these operations in Dafny and proves what they promise. It is organised as follows:

- **The store.** `Store.Db` is a class with one map per collection. Its methods update the maps in place, and each method is proved against a pure function of the old state.
- **JavaScript semantics.** `JsString` covers `trim`, the ASCII part of `toUpperCase`, number-to-string conversion and the default `Array.prototype.sort` order. `JsDate` covers the date arithmetic of ECMA-262 section 21.4.1: `Day`, the year and month tables, `getUTCDay` and `TimeClip`. Number-to-string conversion is plain decimal, which is what JavaScript gives for integers of magnitude below 10^21. The model relies on both, within the limits listed under "Left out": the non-ASCII case mapping, and numbers of 10^21 or more or beyond 2^53.

The modules, one per concern:

| module | file | models |
|---|---|---|
| `Wrappers` | wrappers.dfy | `Option`, `Result` and the store's errors |
| `JsString` | jsstring.dfy | `String.prototype.trim`, `toUpperCase` on ASCII, `String(n)`, and code-unit string order |
| `JsDate` | jsdate.dfy | ECMA-262 time values, civil dates, `todayKeyJST` and `todayWeekdayJST` |
| `Models` | models.dfy | the `UserProfile`, `Task`, `DefaultTask`, `Household` and stamp documents |
| `Store` | store.dfy | the collections, generated ids, and the SDK's `doc()` path and field-path rules |
| `QueryOrder` | order.dfy | query results come back in document-id order |
| `ArraySort` | sort.dfy | an in-place sort by a numeric key, descending (the comparator `tb - ta`) |
| `Tasks` | tasks.dfy | `tasks.ts` |
| `DailyTasks` | dailytasks.dfy | `functions/src/index.ts` |
| `DefaultTasks` | defaulttasks.dfy | `defaultTasks.ts` |
| `Households` | households.dfy | `households.ts` |

## Model

| member | source | states |
|---|---|---|
| Models.CompletionConsistent | src/domain/models.ts:7-21 | completedAt, completedByUserId and completedByName are present exactly when the status is done |
| JsString.TrimShape | src/application/tasks.ts:89 | `trim` removes only white space, and only from the two ends: s == w1 + Trim(s) + w2 with w1 and w2 all white space |
| JsString.TrimEnds | src/application/tasks.ts:89 | a non-empty trimmed string neither starts nor ends with white space |
| JsString.TrimEmpty | functions/src/index.ts:39-40 | a string trims to "" exactly when it is all white space |
| JsString.TrimIdempotent | src/application/tasks.ts:103 | trimming twice is the same as trimming once |
| JsString.TrimUnique | src/application/tasks.ts:89 | padding with white space on either side of an already-trimmed string trims back to that string |
| JsString.TrimPadded | src/application/households.ts:63 | white space added around any string does not change its trim |
| JsString.ToUpper | src/application/households.ts:63 | the ASCII part of `toUpperCase`: each character maps by itself, a to z become A to Z, and every other character is kept, so the length is kept |
| JsString.NatToString | src/application/defaultTasks.ts:51 | the decimal digits have no leading zero, and their value is n |
| JsString.NatToStringInjective | src/application/defaultTasks.ts:51 | distinct numbers have distinct decimal strings |
| JsString.IntToStringInjective | src/application/defaultTasks.ts:51 | distinct integers have distinct strings |
| JsString.StrLessIrreflexive | src/application/defaultTasks.ts:51 | string order is irreflexive |
| JsString.StrLessTransitive | src/application/defaultTasks.ts:51 | string order is transitive |
| JsString.StrLessTotal | src/application/defaultTasks.ts:51 | any two distinct strings are ordered one way |
| JsDate.TimeClip | functions/src/index.ts:13 | a time value is kept exactly when it lies within ±8.64e15 ms; otherwise it becomes NaN |
| JsDate.DaysInYear | functions/src/index.ts:14 | a year has 366 days exactly when it is a Gregorian leap year |
| JsDate.DayFromYearStep | functions/src/index.ts:14 | the first day of year y+1 is the first day of year y plus that year's length |
| JsDate.YearFromDay | functions/src/index.ts:14 | `getUTCFullYear`: the year whose span of days contains the day |
| JsDate.YearFromDayUnique | functions/src/index.ts:14 | that year is the only one that does |
| JsDate.MonthFromDayWithinYear | functions/src/index.ts:15 | `getUTCMonth`: the month whose span contains the day within the year |
| JsDate.CivilFromDay | functions/src/index.ts:14-16 | every day number maps to a valid year/month/date that maps back to the same day |
| JsDate.CivilRoundTrip | functions/src/index.ts:14-16 | every valid civil date maps to a day and back to the same civil date |
| JsDate.CivilFromDayInjective | functions/src/index.ts:14-16 | distinct days have distinct civil dates |
| JsDate.WeekDay | functions/src/index.ts:23 | `getUTCDay` is in 0..6 |
| JsDate.WeekDayNextDay | functions/src/index.ts:23 | one day later, the weekday advances by one modulo 7 |
| JsDate.PadStart2 | functions/src/index.ts:15-16 | `padStart(2, '0')` gives at least two characters and keeps the input as its suffix |
| JsDate.DateKeyShape | functions/src/index.ts:14-17 | every key reads back as the year's string, '-', two digits giving the month number (from 1), '-' and two digits giving the date |
| JsDate.DateKeyInjective | functions/src/index.ts:17 | distinct civil dates give distinct keys |
| JsDate.DateKeyNotNaN | functions/src/index.ts:17 | a valid date never gives the "NaN-NaN-NaN" key |
| JsDate.DateKeyEpoch | functions/src/index.ts:14-17 | the key of 1 January 1970 is "1970-01-01" |
| JsDate.DateKeyEpochNext | functions/src/index.ts:14-17 | the key of 2 January 1970 is "1970-01-02" |
| JsDate.DateKeyMarch12 | functions/src/index.ts:14-17 | the key of 12 March 2024 is "2024-03-12": months are numbered from 1 and two-digit fields are not padded further |
| JsDate.AsWrittenIsJstOnUtcHost | functions/src/index.ts:11-24 | on a UTC host, the functions as written agree with the corrected Japan-time functions |
| JsDate.AsWrittenKeyWrongOnJstHost | functions/src/index.ts:13 | on a Japan-time host at 15:00 JST, the key as written is already the next day |
| JsDate.AsWrittenWeekdayWrongOnJstHost | functions/src/index.ts:22 | the weekday as written is one day ahead on that host |
| JsDate.SameKeyIffSameJstDay | functions/src/index.ts:11-18 | two instants get the same key exactly when they fall on the same Japan-time day |
| JsDate.JstKeyNaNIffOutOfRange | functions/src/index.ts:13 | the key is "NaN-NaN-NaN" exactly when the shifted time is out of range |
| JsDate.JstMidnightKey | functions/src/index.ts:11-18 | at 2024-03-12 00:00 JST the key is "2024-03-12" |
| JsDate.JstMidnightWeekday | functions/src/index.ts:21-24 | that instant is a Tuesday (2) |
| JsDate.TodayWeekdayJST | functions/src/index.ts:21-24 | the weekday, if defined, is in 0..6 |
| Store.AutoIdDistinct | src/application/tasks.ts:88 | distinct counter values give distinct generated ids |
| Store.FreshFromNext | src/application/tasks.ts:88 | drawing one id leaves every later id unused, and the drawn id is unused |
| Store.AddTaskDoc | src/application/tasks.ts:88-97 | `addDoc` stores the document under an id not used before and changes no other collection |
| Store.DocRefOfIds | src/application/tasks.ts:102 | for plain ids, `doc()` succeeds exactly when the number of segments is even and at least 2, and then the path is those ids |
| QueryOrder.Sorted | src/application/tasks.ts:54-58 | the query results are the matching ids, each once, in strictly ascending id order |
| QueryOrder.LeastUnique | src/application/tasks.ts:54-58 | a set has one least id |
| QueryOrder.QueryOrderStep | src/application/tasks.ts:59-60 | taking the least remaining id extends the prefix of the id-ordered result |
| QueryOrder.QueryOrderEnd | src/application/tasks.ts:59-60 | once nothing remains, the taken prefix is the whole ordered result |
| ArraySort.SortDescending | src/application/tasks.ts:61-65 | the array is permuted and ends in descending key order |
| ArraySort.InsertDescending | src/application/tasks.ts:61-65 | inserting element i into a descending prefix gives a descending prefix one longer, as a permutation |
| Tasks.StampIdInjective | src/application/tasks.ts:148 | for user ids without '_', the stamp id determines the user and the kind |
| Tasks.StampIdCollision | src/application/tasks.ts:148 | without that condition, user "a_b" with kind "c" and user "a" with kind "b_c" share a stamp id |
| Tasks.ToggleErrors | src/application/tasks.ts:143-175 | a reaction fails with invalid-argument for an unusable field path and with not-found for a missing task; otherwise it succeeds |
| Tasks.ToggleOn | src/application/tasks.ts:161-172 | without a stamp, the stamp is written and the count for that kind, and for thanks the thanksCount, goes up by one; the result is "added" |
| Tasks.ToggleOff | src/application/tasks.ts:151-159 | with a stamp, the stamp is deleted and both counts go down by one; the result is "removed" |
| Tasks.ToggleNothingElse | src/application/tasks.ts:143-175 | no other task, no other stamp, no other reaction kind and no other field of the task changes |
| Tasks.ToggleTwice | src/application/tasks.ts:143-175 | toggling twice restores every count and the set of stamps; a stamp that existed before is rewritten with the new date and time |
| Tasks.CountsNonNegative | src/application/tasks.ts:156-158 | while counts match the stamps, no count is negative |
| Tasks.AddKeepsCounts | src/application/tasks.ts:161-171 | adding a stamp and incrementing its count keeps counts equal to the number of stamps of each kind |
| Tasks.RemoveKeepsCounts | src/application/tasks.ts:154-158 | deleting a stamp and decrementing its count keeps them equal |
| Tasks.ToggleKeepsWellKeyed | src/application/tasks.ts:148 | every stamp stays stored under its own user and kind |
| Tasks.ToggleKeepsCounts | src/application/tasks.ts:150-173 | a toggle keeps every task's counts equal to its stamp counts, and other tasks' stamps are untouched |
| Tasks.ThanksToggleErrors | src/application/tasks.ts:177-179 | addThanksStamp succeeds exactly when the task exists |
| Tasks.AddReaction | src/application/tasks.ts:143-175 | the transaction returns the toggle's outcome and leaves tasks and stamps as the toggle says, or reports its error and changes nothing |
| Tasks.AddThanksStamp | src/application/tasks.ts:177-179 | the same, for kind "thanks" |
| Tasks.UpdateStatusConsistent | src/application/tasks.ts:115-136 | the update succeeds exactly when the task exists and, for done, the actor and the actor's name are given; its completion fields are then consistent and no other field or task changes |
| Tasks.UpdateTaskStatus | src/application/tasks.ts:115-136 | the store is left as the status update says, or unchanged with its error |
| Tasks.NewTaskFacts | src/application/tasks.ts:88-97 | a new task has a trimmed title, is pending with no completion fields, and has zero counts that match its (absent) stamps |
| Tasks.AddTask | src/application/tasks.ts:82-98 | a new task is stored under an unused id, and its counts match its stamps |
| Tasks.UpdateTitleFacts | src/application/tasks.ts:101-104 | renaming succeeds exactly when the task exists; only its title changes, to the trimmed title; renaming again is a no-op |
| Tasks.UpdateTaskTitle | src/application/tasks.ts:101-104 | the store is left as the rename says, or unchanged with not-found |
| Tasks.DeleteTask | src/application/tasks.ts:107-110 | the task is removed, whether or not it existed, and nothing else changes |
| Tasks.DayIds | src/application/tasks.ts:54-58 | the ids of exactly the household's tasks for that date key |
| Tasks.DayQueryContents | src/application/tasks.ts:54-60 | the query lists exactly the household's tasks for that day, each id once |
| Tasks.QueryDay | src/application/tasks.ts:59-60 | the snapshot is the id-ordered query result |
| Tasks.FallbackTasks | src/application/tasks.ts:29-80 | with no household the list is empty; otherwise it is a permutation of the day's tasks, newest first |
| DailyTasks.StepAppendOnly | functions/src/index.ts:37-61 | one template step keeps every existing task and adds at most one, under an unused id |
| DailyTasks.GenerateAppendOnly | functions/src/index.ts:37-61 | generating for a household never changes or removes an existing task |
| DailyTasks.GenerateNewTasks | functions/src/index.ts:43-60 | every task added is a system task for that household and day, has a template's trimmed title, and had no task with that title before |
| DailyTasks.GenerateAtMostOne | functions/src/index.ts:42-50 | no two tasks added in one run share a title |
| DailyTasks.GenerateCovers | functions/src/index.ts:37-61 | afterwards every non-blank trimmed template title has a task for that household and day |
| DailyTasks.GenerateNothingToDo | functions/src/index.ts:40-50 | when every title already has its task, nothing is written |
| DailyTasks.GenerateIdempotent | functions/src/index.ts:42-50 | a second run on the same day adds nothing |
| DailyTasks.ActiveIds | functions/src/index.ts:30-35 | exactly the household's templates whose days contain the weekday |
| DailyTasks.ActiveIdsFilter | functions/src/index.ts:29-35 | a template is picked exactly when its days contain today's Japan-time weekday |
| DailyTasks.ActiveHouseholds | functions/src/index.ts:74-79 | exactly the non-empty household ids that have a template for the weekday |
| DailyTasks.GenerateForHouseholdCovers | functions/src/index.ts:27-62 | after one household's generation every active title has its task |
| DailyTasks.GenerateAllAppendOnly | functions/src/index.ts:80 | generating for all households never changes an existing task |
| DailyTasks.GenerateAllCovers | functions/src/index.ts:71-82 | afterwards every active title of every active household has its task |
| DailyTasks.ProcessTemplate | functions/src/index.ts:38-60 | one loop iteration leaves the tasks as one template step says |
| DailyTasks.GenerateForHousehold | functions/src/index.ts:27-62 | the templates are processed in id order, and the tasks end as the generation says |
| DailyTasks.ParentHouseholds | functions/src/index.ts:75-79 | the set of non-empty parent household ids of the matched items |
| DailyTasks.GenerateDailyTasks | functions/src/index.ts:65-83 | each active household is generated once, in id order, and the tasks end as that says |
| DailyTasks.RequestedHousehold | functions/src/index.ts:88-90 | `householdId` if it is non-empty, else the misspelt `houholdId` if it is non-empty, else none |
| DailyTasks.HouseholdDocOfPlainId | functions/src/index.ts:31-32 | `collection('default_tasks').doc(id)` names a document for every plain id |
| DailyTasks.HouseholdDocRejectsSlash | functions/src/index.ts:31-32 | `doc("a/b")` gives three segments, a collection, so `doc()` throws |
| DailyTasks.GenerateDailyTasksHttp | functions/src/index.ts:87-105 | the status is HttpStatus; with no id, 400 and no write; an id whose path `doc()` refuses, 500 and no write; on a store failure, 500 with its message and no write; otherwise 200 with today's key, only tasks change, and for a plain id the household is generated |
| DailyTasks.HttpStatus | functions/src/index.ts:94-104 | 400 exactly when no id is given, 500 exactly when `doc()` refuses the id or the store fails, otherwise 200 |
| DailyTasks.HttpRejectsSlashId | functions/src/index.ts:99-103 | a request for "a/b" is answered with 500 although the store is healthy |
| DailyTasks.HttpAcceptsPlainId | functions/src/index.ts:99-100 | a request for a plain id with a healthy store is answered with 200 |
| DefaultTasks.Dedup | src/application/defaultTasks.ts:51 | `Array.from(new Set(xs))` keeps the same values, each once |
| DefaultTasks.InsertAscending | src/application/defaultTasks.ts:51 | inserting into an ascending list keeps it ascending |
| DefaultTasks.SortAscending | src/application/defaultTasks.ts:51 | sorting distinct values keeps them and orders them |
| DefaultTasks.AscendingUnique | src/application/defaultTasks.ts:51 | two ascending lists with the same values are equal |
| DefaultTasks.DayBeforeOrder | src/application/defaultTasks.ts:51 | the default `sort()` comparison, on the numbers' strings, is a strict total order |
| DefaultTasks.NormalizeFacts | src/application/defaultTasks.ts:51 | normalised weekdays have the same values as the input, each once, in `sort()` order |
| DefaultTasks.NormalizeCanonical | src/application/defaultTasks.ts:51 | inputs with the same values normalise to the same list |
| DefaultTasks.NormalizeIdempotent | src/application/defaultTasks.ts:64 | normalising again changes nothing |
| DefaultTasks.NormalizeDigits | src/application/defaultTasks.ts:51 | for weekdays 0..6, the order is numeric |
| DefaultTasks.NormalizeExample | src/application/defaultTasks.ts:51 | [3, 1, 3, 5, 1] normalises to [1, 3, 5] |
| DefaultTasks.NormalizeStringOrder | src/application/defaultTasks.ts:51 | [2, 10] normalises to [10, 2], because `sort()` compares strings |
| DefaultTasks.NewTemplateFacts | src/application/defaultTasks.ts:48-54 | a new template has a trimmed title, normalised days, the given order or else the current time, and a creation time |
| DefaultTasks.AddDefaultTask | src/application/defaultTasks.ts:44-55 | the parent's touchedAt is set, and the template is added under an unused id in the household's items |
| DefaultTasks.AsWrittenItemRefRejected | src/application/defaultTasks.ts:59 | `doc(db, 'default_tasks', hid, id)` has three segments, so `doc()` rejects it |
| DefaultTasks.ItemRefResolves | src/application/defaultTasks.ts:21 | the items path of four segments resolves to itself |
| DefaultTasks.UpdateDefaultTaskTitle | src/application/defaultTasks.ts:58-60 | as written, it always fails with invalid-argument and writes nothing |
| DefaultTasks.UpdateDefaultTaskDays | src/application/defaultTasks.ts:63-65 | as written, it always fails with invalid-argument and writes nothing |
| DefaultTasks.DeleteDefaultTask | src/application/defaultTasks.ts:68-70 | as written, it always fails with invalid-argument and deletes nothing |
| DefaultTasks.SetTitleFacts | src/application/defaultTasks.ts:59 | the intended title update fails exactly when the template is missing; only its title changes, to the trimmed title; it is idempotent |
| DefaultTasks.SetDaysFacts | src/application/defaultTasks.ts:64 | the intended days update fails exactly when the template is missing; only its days change, to the normalised days; it is idempotent |
| DefaultTasks.UpdateTemplateTitle | src/application/defaultTasks.ts:58-60 | the intended title update on the store: the templates end as that update says, or are unchanged with not-found |
| DefaultTasks.UpdateTemplateDays | src/application/defaultTasks.ts:63-65 | the same, for the days |
| DefaultTasks.DeleteTemplate | src/application/defaultTasks.ts:68-70 | the intended delete removes the template and nothing else |
| DefaultTasks.OrderedIds | src/application/defaultTasks.ts:32 | the household's templates that have an `order` field, since `orderBy` leaves out those without it |
| DefaultTasks.MatchedContents | src/application/defaultTasks.ts:32-34 | the snapshot holds exactly those templates, each id once |
| DefaultTasks.QueryTemplates | src/application/defaultTasks.ts:32-34 | the snapshot is the id-ordered query result |
| DefaultTasks.UseDefaultTasks | src/application/defaultTasks.ts:28-39 | with no household the list is empty; otherwise it is a permutation of those templates in ascending order |
| Households.AlphabetFacts | src/application/households.ts:41 | the alphabet has 32 characters and leaves out I, O, 0 and 1 |
| Households.Pick | src/application/households.ts:43 | one draw from [0, 1) picks a character of the alphabet |
| Households.PickCovers | src/application/households.ts:43 | every character of the alphabet can be picked |
| Households.RandomCode | src/application/households.ts:40-45 | a code of the requested length whose i-th character is picked by the i-th draw |
| Households.NormalizeInviteCode | src/application/households.ts:63 | a generated code normalises to itself |
| Households.NormalizeTypedCode | src/application/households.ts:63 | a code typed with white space around it, or in lower case, normalises to the code |
| Households.ArrayUnionFacts | src/application/households.ts:67 | `arrayUnion` adds the element once, keeps the existing elements in order, keeps them repeat-free and is idempotent |
| Households.ArrayRemove | src/application/households.ts:74 | `arrayRemove` keeps exactly the other elements, and never more than before |
| Households.RemoveUndoesUnion | src/application/households.ts:67-74 | removing a member who was just added restores the list if they were not already in it |
| Households.RemoveAbsent | src/application/households.ts:74 | removing a non-member changes nothing |
| Households.RemoveKeepsNoRepeats | src/application/households.ts:74 | removing keeps the list repeat-free |
| Households.HouseholdNameFacts | src/application/households.ts:49 | the name is never empty; a blank name becomes 家族; otherwise the trimmed name is kept |
| Households.InviteMatches | src/application/households.ts:63-64 | exactly the households whose invite code is the normalised code |
| Households.JoinTwice | src/application/households.ts:62-70 | joining twice with the same code finds the same household and changes nothing more the second time |
| Households.JoinThenLeave | src/application/households.ts:62-76 | joining and then leaving restores the household's members when the user was not a member |
| Households.CreateHousehold | src/application/households.ts:47-56 | the new household has an unused id, its name, a valid invite code and the user as its only member; the user's profile points to it, or not-found |
| Households.RegenerateInviteCode | src/application/households.ts:58-60 | only the invite code changes, to a valid code, or not-found with no change |
| Households.JoinByInvite | src/application/households.ts:62-70 | an unknown code fails with nothing changed; otherwise the first matching household gains the user as a member, and the user points to it |
| Households.LeaveHousehold | src/application/households.ts:72-76 | the user is removed from the members, and the user's household becomes the user's own id |

## Left out

- Promise.all (functions/src/index.ts:80): the households are generated one after another, in id order. The concurrent runs, and the interleaving of several runs' duplicate checks, are not modelled.
- Timestamps: every `serverTimestamp()` in one run is one `createdAt` parameter. The real server stamps each write separately.
- Logging: `logger.info` and `logger.error` are left out; they have no effect on the store.
- Query-parameter arrays: a `req.query` parameter given twice is an array. The model treats each parameter as an optional string.
- DailyTasks.GenerateDailyTasksHttp: a store failure is a parameter, and the model decides it before any write. A failure partway through a run, after some tasks were written, is not modelled.
- DailyTasks.GenerateDailyTasksHttp: the text of the 500 answer when `doc()` refuses the id is not modelled, only that it is an error message.
- DailyTasks.GenerateDailyTasksHttp: for a requested id with '/' that still names a document, such as "a/" or "a/b/c", the model promises the 200 answer and that only tasks change, not which tasks are added. The source reads the templates under the path's own segments ("a/" reads those of "a") and stamps the new tasks with the id as typed.
- Tasks.FallbackTasks: covers only the fallback query `q2` with its client-side sort. The indexed query `q1` is left out, because it is ordered by the server's createdAt index. The `onSnapshot` subscription becomes one read: later snapshots and unsubscribing are left out.
- ArraySort.SortDescending: promises a permutation in descending order. It does not promise the stable order that JavaScript's sort keeps for equal times, so Tasks.FallbackTasks does not either.
- DefaultTasks.UseDefaultTasks: promises a permutation in ascending `order`. It does not promise the id order of ties that the server gives. The subscription is one read.
- useHousehold (src/application/households.ts:26-38) is left out: it is a subscription to one document and holds no logic beyond the read.
- Generated ids: the ids from `addDoc` come from a counter (`Store.AutoId`), not from 20 random characters. The model only relies on their being unused.
- Plain ids: task, household, user and template ids are assumed to be plain document ids: not empty and without '/' (`Store.IsDocId`). Paths with '/' inside an id are not modelled, except for the household id of the HTTP trigger, which comes from the request.
- Tasks.AddReaction: a reaction kind with '.' is left out. Such a kind names a nested field path.
- Tasks.ToggleKeepsCounts: holds only for user ids without '_'. `Tasks.StampIdCollision` shows the stamp-id collision otherwise.
- JsString.StrLess compares `char` values. JavaScript compares UTF-16 code units, so strings with characters outside the Basic Multilingual Plane are ordered differently.
- JsString.ToUpper: maps only ASCII letters and keeps the length. JavaScript's full Unicode mapping is left out. That mapping also turns some non-ASCII characters into letters of the invite alphabet: 'ſ' (U+017F) becomes "S", 'ﬆ' (U+FB06) becomes "ST", 'ß' becomes "SS". It can also change the length.
- Households.JoinByInvite: a typed code whose non-ASCII characters JavaScript upper-cases into the alphabet, such as "ABCDEſ", is answered with InviteCodeNotFound here. The source upper-cases it to "ABCDES" and joins the household with that code. Codes typed in ASCII are matched as in the source.
- Weekdays: `daysOfWeek` holds integers. Fractional, NaN and non-number entries are left out.
- JsString.NatToString: writes every number in plain decimal, and so does JsString.IntToString. JavaScript's `String(n)` switches to exponent form once the magnitude reaches 10^21: `String(10**21)` is "1e+21" and `String(1.5e21)` is "1.5e+21". Neither exponent form nor the loss of exactness above 2^53 is modelled, because the model's integers are unbounded.
- DefaultTasks.NormalizeFacts: its `sort()` order is the order of the plain decimal strings, which is the source's order only for magnitudes below 10^21. From 10^21 the source compares exponent forms, and '.' comes before 'e'. So it sorts [10^21, 15·10^20] as [1.5e+21, 1e+21], while the model gives [10^21, 15·10^20]. DefaultTasks.DayBefore, DefaultTasks.Normalize and DefaultTasks.NormalizeStringOrder have the same limit. The weekdays 0..6 that the app stores are far below it (DefaultTasks.NormalizeDigits).
- External inputs: `Math.random()` is a sequence of draws in [0, 1). `Date.now()` in addDefaultTask is the parameter `now`. Each clock read of the daily job is listed under the member that models it, below.
- getTodayKey (src/lib/date) is not part of this model; the day's key is a parameter of the task methods.
- Host time zone: `Date.prototype.getTimezoneOffset` is a parameter of the as-written date functions (JsDate.TodayKeyAsWritten, JsDate.TodayWeekdayAsWritten). The generator uses the corrected functions of the first finding.
- DailyTasks.GenerateForHousehold: models a host whose getTimezoneOffset() is 0, as on the Cloud Functions runtime, which runs on UTC. There the source's todayKeyJST and todayWeekdayJST equal the corrected functions (JsDate.AsWrittenIsJstOnUtcHost). On a host with another offset the source uses a different key and weekday; see the first finding.
- DailyTasks.GenerateForHousehold: the key (functions/src/index.ts:28) and the weekday (functions/src/index.ts:29) come from one instant, `now`. The source reads the clock twice.
- DailyTasks.GenerateDailyTasks: models a host whose getTimezoneOffset() is 0, as above.
- DailyTasks.GenerateDailyTasks: one instant, `now`, serves the household filter (functions/src/index.ts:72) and every household's key and weekday (functions/src/index.ts:28-29). The source reads the clock once for the filter and twice more for each household. So a run that crosses midnight in Japan can, in the source, take one day's templates and store them under the previous day's key, or filter households by a different weekday from the one it queries templates with. The model does not cover such a run.
- DailyTasks.GenerateDailyTasksHttp: models a host whose getTimezoneOffset() is 0, as above. The generation's key and weekday come from `now`. The key in the reply comes from a separate instant, `answeredAt` (functions/src/index.ts:100).
- functions/lib/index.js is compiled output of functions/src/index.ts and is not modelled separately.
- Out of scope: the React views, authentication and the store module are not part of this model.
- DefaultTasks.UpdateDefaultTaskTitle, DefaultTasks.UpdateDefaultTaskDays and DefaultTasks.DeleteDefaultTask stop where `doc()` throws; the thrown error becomes an `InvalidArgument` result.

## Findings

| source | as written | input that shows it | evidently intended | confidence | as-written member | corrected member |
|---|---|---|---|---|---|---|
| functions/src/index.ts:13, functions/src/index.ts:22 | the shift is 9 h minus the host's `getTimezoneOffset()` | a Japan-time host (offset −540) at 1970-01-01 15:00 JST gives key "1970-01-02" and weekday 5, not "1970-01-01" and 4 | add exactly 9 h to the UTC time, whatever the host | not executed | JsDate.AsWrittenKeyWrongOnJstHost | JsDate.SameKeyIffSameJstDay |
| src/application/defaultTasks.ts:59, src/application/defaultTasks.ts:64, src/application/defaultTasks.ts:69 | `doc(db, 'default_tasks', householdId, id)` names a collection path with three segments | any household id and template id: `doc()` rejects the path, and the template is never renamed, re-scheduled or deleted | address `default_tasks/{householdId}/items/{id}`, as `col()` and `addDefaultTask` do | not executed | DefaultTasks.UpdateDefaultTaskTitle | DefaultTasks.UpdateTemplateTitle |

The first finding's as-written weekday is `JsDate.AsWrittenWeekdayWrongOnJstHost`. `JsDate.AsWrittenIsJstOnUtcHost` proves the two versions agree on a UTC host, where the Cloud Functions runtime runs. Both corrected functions are `JsDate.TodayKeyJST` and `JsDate.TodayWeekdayJST`, and the rest of the model uses them.

For the second finding:

- The as-written members also include `DefaultTasks.AsWrittenItemRefRejected`, `DefaultTasks.UpdateDefaultTaskDays` and `DefaultTasks.DeleteDefaultTask`.
- The corrected members are `DefaultTasks.ItemRefResolves`, `DefaultTasks.SetTitleFacts`, `DefaultTasks.SetDaysFacts`, `DefaultTasks.UpdateTemplateDays` and `DefaultTasks.DeleteTemplate`.
