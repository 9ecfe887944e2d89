/**
 * Households: invite codes, creating a household, joining one by its code,
 * leaving it, and drawing a new code. members behaves as a set under the
 * store's arrayUnion and arrayRemove; a user's profile names the household
 * the user is in.
 */
module Households {
  import opened Wrappers
  import opened Models
  import opened Store
  import opened JsString
  import opened QueryOrder

  // ---- invite codes ----

  /** The characters of an invite code: no I, O, 0 or 1, which are easily confused. */
  const Alphabet: string := "ABCDEFGHJKLMNPQRSTUVWXYZ23456789"

  /** The length randomCode() uses when it is given none. */
  const CodeLength: nat := 6

  /** A draw of Math.random(): a number in [0, 1). */
  predicate IsDraw(r: real) {
    0.0 <= r < 1.0
  }

  /** Each character of the alphabet is an upper-case letter or a digit, and none is I, O, 0 or 1. */
  lemma AlphabetAt(i: int)
    requires 0 <= i < |Alphabet|
    ensures 'A' <= Alphabet[i] <= 'Z' || '2' <= Alphabet[i] <= '9'
    ensures Alphabet[i] !in "IO01"
  {
  }

  lemma AlphabetChar(c: char)
    requires c in Alphabet
    ensures 'A' <= c <= 'Z' || '2' <= c <= '9'
    ensures c !in "IO01"
  {
    var i :| 0 <= i < |Alphabet| && Alphabet[i] == c;
    AlphabetAt(i);
  }

  /** The alphabet has 32 characters, and I, O, 0 and 1 are not among them. */
  lemma AlphabetFacts()
    ensures |Alphabet| == 32
    ensures 'I' !in Alphabet && 'O' !in Alphabet && '0' !in Alphabet && '1' !in Alphabet
  {
    forall c | c in Alphabet ensures c !in "IO01" {
      AlphabetChar(c);
    }
  }

  /** chars[Math.floor(r * chars.length)]. */
  function Pick(r: real): (c: char)
    requires IsDraw(r)
    ensures c in Alphabet && c !in "IO01"
  {
    var k := (r * 32.0).Floor;
    assert 0 <= k < 32 by {
      assert 0.0 <= r * 32.0 < 32.0;
    }
    AlphabetAt(k);
    Alphabet[k]
  }

  /** A code as randomCode() produces them. */
  predicate IsInviteCode(s: string) {
    |s| == CodeLength && forall i :: 0 <= i < |s| ==> s[i] in Alphabet
  }

  /** Every character of the alphabet is drawn for some value of Math.random(). */
  lemma PickCovers(k: int)
    requires 0 <= k < 32
    ensures IsDraw(k as real / 32.0) && Pick(k as real / 32.0) == Alphabet[k]
  {
    assert (k as real / 32.0) * 32.0 == k as real;
  }

  /**
   * randomCode(len): len characters, the i-th one picked by the i-th draw of
   * Math.random(), which is given here as draws.
   */
  method RandomCode(len: nat, draws: seq<real>) returns (s: string)
    requires |draws| >= len && forall i :: 0 <= i < |draws| ==> IsDraw(draws[i])
    ensures |s| == len
    ensures forall i :: 0 <= i < len ==> s[i] == Pick(draws[i])
    ensures forall i :: 0 <= i < |s| ==> s[i] in Alphabet && s[i] !in "IO01"
  {
    s := "";
    var i := 0;
    while i < len
      invariant 0 <= i <= len
      invariant |s| == i
      invariant forall k :: 0 <= k < i ==> s[k] == Pick(draws[k])
    {
      s := s + [Pick(draws[i])];
      i := i + 1;
    }
  }

  /** The form joinByInvite looks a typed code up in: code.trim().toUpperCase(). */
  function NormalizeCode(code: string): string {
    ToUpper(Trim(code))
  }

  /** Upper-case letters and digits only: what the characters of a code are. */
  predicate UpperAlnum(s: string) {
    forall i :: 0 <= i < |s| ==> 'A' <= s[i] <= 'Z' || '0' <= s[i] <= '9'
  }

  lemma InviteCodeChars(s: string)
    requires forall i :: 0 <= i < |s| ==> s[i] in Alphabet
    ensures UpperAlnum(s)
  {
    forall i | 0 <= i < |s| ensures 'A' <= s[i] <= 'Z' || '0' <= s[i] <= '9' {
      AlphabetChar(s[i]);
    }
  }

  /** A code exactly as the application shows it is found again. */
  lemma NormalizeInviteCode(s: string)
    requires forall i :: 0 <= i < |s| ==> s[i] in Alphabet
    ensures NormalizeCode(s) == s
  {
    InviteCodeChars(s);
    NormalizeTyped([], s, s, []);
    assert [] + s + [] == s;
  }

  /**
   * Typing a code of upper-case letters and digits with surrounding blanks,
   * or with its letters in lower case, finds it as well.
   */
  lemma NormalizeTypedCode(w1: string, s: string, w2: string)
    requires AllWhiteSpace(w1) && AllWhiteSpace(w2) && UpperAlnum(s)
    ensures NormalizeCode(w1 + s + w2) == s
    ensures NormalizeCode(w1 + LowerLetters(s) + w2) == s
  {
    var t := LowerLetters(s);
    forall i | 0 <= i < |s| ensures !IsWhiteSpace(s[i]) && UpperChar(s[i]) == s[i] {
      CodeChar(s[i]);
    }
    forall i | 0 <= i < |t| ensures !IsWhiteSpace(t[i]) && UpperChar(t[i]) == s[i] {
      CodeChar(s[i]);
    }
    NormalizeTyped(w1, s, s, w2);
    NormalizeTyped(w1, t, s, w2);
  }

  /** An upper-case letter or digit is no blank, and it and its lower-case form upper-case to it. */
  lemma CodeChar(c: char)
    requires 'A' <= c <= 'Z' || '0' <= c <= '9'
    ensures !IsWhiteSpace(c) && UpperChar(c) == c
    ensures var l := if 'A' <= c <= 'Z' then (c as int + 32) as char else c;
      !IsWhiteSpace(l) && UpperChar(l) == c
  {
  }

  /** t between blanks normalises to s when t has no blanks and upper-cases to s. */
  lemma NormalizeTyped(w1: string, t: string, s: string, w2: string)
    requires AllWhiteSpace(w1) && AllWhiteSpace(w2) && |t| == |s|
    requires forall i :: 0 <= i < |t| ==> !IsWhiteSpace(t[i]) && UpperChar(t[i]) == s[i]
    ensures NormalizeCode(w1 + t + w2) == s
  {
    TrimUnique(w1, t, w2);
    assert ToUpper(t) == s;
  }

  /** The code with its letters in lower case. */
  function LowerLetters(s: string): (t: string)
    ensures |t| == |s|
    ensures forall i :: 0 <= i < |s| ==> t[i] == if 'A' <= s[i] <= 'Z' then (s[i] as int + 32) as char else s[i]
  {
    if s == [] then [] else [if 'A' <= s[0] <= 'Z' then (s[0] as int + 32) as char else s[0]] + LowerLetters(s[1..])
  }

  // ---- members as a set ----

  /** arrayUnion(x): x is appended unless it is already there. */
  function ArrayUnion(xs: seq<string>, x: string): seq<string> {
    if x in xs then xs else xs + [x]
  }

  /** arrayRemove(x): every copy of x goes, the rest keep their order. */
  function ArrayRemove(xs: seq<string>, x: string): (r: seq<string>)
    ensures forall y :: y in r <==> y in xs && y != x
    ensures |r| <= |xs|
  {
    if xs == [] then []
    else
      assert xs == [xs[0]] + xs[1..];
      (if xs[0] == x then [] else [xs[0]]) + ArrayRemove(xs[1..], x)
  }

  predicate NoRepeats(xs: seq<string>) {
    forall i, j :: 0 <= i < j < |xs| ==> xs[i] != xs[j]
  }

  /**
   * After arrayUnion the member is there once more at most: the old members
   * stay in place, x is among them, and a list without repeats keeps none.
   */
  lemma ArrayUnionFacts(xs: seq<string>, x: string)
    ensures forall y :: y in ArrayUnion(xs, x) <==> y in xs || y == x
    ensures ArrayUnion(xs, x)[..|xs|] == xs
    ensures NoRepeats(xs) ==> NoRepeats(ArrayUnion(xs, x))
    ensures ArrayUnion(ArrayUnion(xs, x), x) == ArrayUnion(xs, x)
  {
  }

  /** Removing a member that joined by arrayUnion gives back the members from before. */
  lemma {:induction false} RemoveUndoesUnion(xs: seq<string>, x: string)
    requires x !in xs
    ensures ArrayRemove(ArrayUnion(xs, x), x) == xs
  {
    RemoveAbsent(xs, x);
    RemoveAppend(xs, [x], x);
  }

  lemma {:induction false} RemoveAbsent(xs: seq<string>, x: string)
    requires x !in xs
    ensures ArrayRemove(xs, x) == xs
  {
    if xs != [] {
      assert x !in xs[1..] by { assert forall y :: y in xs[1..] ==> y in xs; }
      RemoveAbsent(xs[1..], x);
      assert xs == [xs[0]] + xs[1..];
    }
  }

  lemma {:induction false} RemoveAppend(xs: seq<string>, ys: seq<string>, x: string)
    ensures ArrayRemove(xs + ys, x) == ArrayRemove(xs, x) + ArrayRemove(ys, x)
  {
    if xs == [] {
      assert xs + ys == ys;
    } else {
      assert (xs + ys)[1..] == xs[1..] + ys;
      assert (xs + ys)[0] == xs[0];
      RemoveAppend(xs[1..], ys, x);
      var head := if xs[0] == x then [] else [xs[0]];
      assert ArrayRemove(xs + ys, x) == head + (ArrayRemove(xs[1..], x) + ArrayRemove(ys, x));
      assert ArrayRemove(xs, x) == head + ArrayRemove(xs[1..], x);
    }
  }

  /** Removing keeps a list without repeats without repeats. */
  lemma {:induction false} RemoveKeepsNoRepeats(xs: seq<string>, x: string)
    requires NoRepeats(xs)
    ensures NoRepeats(ArrayRemove(xs, x))
  {
    if xs != [] {
      var rest := ArrayRemove(xs[1..], x);
      assert NoRepeats(xs[1..]) by {
        forall i, j | 0 <= i < j < |xs[1..]| ensures xs[1..][i] != xs[1..][j] {
          assert xs[1..][i] == xs[i + 1] && xs[1..][j] == xs[j + 1];
        }
      }
      RemoveKeepsNoRepeats(xs[1..], x);
      assert xs[0] !in xs[1..] by {
        forall k | 0 <= k < |xs[1..]| ensures xs[1..][k] != xs[0] {
          assert xs[1..][k] == xs[k + 1];
        }
      }
      if xs[0] != x {
        assert xs[0] !in rest;
        var r := [xs[0]] + rest;
        forall i, j | 0 <= i < j < |r| ensures r[i] != r[j] {
          if i == 0 {
            assert r[j] == rest[j - 1];
          } else {
            assert r[i] == rest[i - 1] && r[j] == rest[j - 1];
          }
        }
      }
    }
  }

  // ---- the household operations ----

  /** name.trim() || '家族': the trimmed name, or the default when that is empty. */
  function HouseholdName(name: string): string {
    if Trim(name) == [] then "家族" else Trim(name)
  }

  /** The stored name is never empty and has no surrounding blanks; a blank name gives the default. */
  lemma HouseholdNameFacts(name: string)
    ensures HouseholdName(name) != []
    ensures Trim(HouseholdName(name)) == HouseholdName(name)
    ensures AllWhiteSpace(name) ==> HouseholdName(name) == "家族"
    ensures !AllWhiteSpace(name) ==> HouseholdName(name) == Trim(name)
  {
    TrimEmpty(name);
    TrimIdempotent(name);
    assert !IsWhiteSpace('家') && !IsWhiteSpace('族');
    TrimKeeps("家族");
  }

  /** The ids of the households whose code is the one looked up. */
  function InviteMatches(households: map<string, Household>, code: string): (ids: set<string>)
    ensures forall id :: id in ids <==> id in households && households[id].inviteCode == code
  {
    set id | id in households && households[id].inviteCode == code
  }

  /** A change of members does not change which households a code finds. */
  lemma MatchesIgnoreMembers(households: map<string, Household>, h: string, members: seq<string>, code: string)
    requires h in households
    ensures InviteMatches(households[h := households[h].(members := members)], code) == InviteMatches(households, code)
  {
  }

  /**
   * Joining twice with the same code is joining once: the second lookup
   * finds the same household, whose members already hold the user; and a
   * members list without repeats still has none, so the user is there once.
   */
  lemma JoinTwice(households: map<string, Household>, code: string, h: string, userId: string)
    requires IsLeast(h, InviteMatches(households, code))
    ensures var after := households[h := households[h].(members := ArrayUnion(households[h].members, userId))];
      && IsLeast(h, InviteMatches(after, code))
      && after[h := after[h].(members := ArrayUnion(after[h].members, userId))] == after
      && userId in after[h].members
      && (NoRepeats(households[h].members) ==> NoRepeats(after[h].members))
  {
    var after := households[h := households[h].(members := ArrayUnion(households[h].members, userId))];
    MatchesIgnoreMembers(households, h, ArrayUnion(households[h].members, userId), code);
    ArrayUnionFacts(households[h].members, userId);
    assert after[h].(members := ArrayUnion(after[h].members, userId)) == after[h];
  }

  /** Leaving right after joining a household one was not in restores its members. */
  lemma JoinThenLeave(households: map<string, Household>, h: string, userId: string)
    requires h in households && userId !in households[h].members
    ensures var after := households[h := households[h].(members := ArrayUnion(households[h].members, userId))];
      after[h := after[h].(members := ArrayRemove(after[h].members, userId))] == households
  {
    RemoveUndoesUnion(households[h].members, userId);
    var after := households[h := households[h].(members := ArrayUnion(households[h].members, userId))];
    assert after[h].(members := ArrayRemove(after[h].members, userId)) == households[h];
  }

  /**
   * createHousehold: the household is added under a new id with the user as
   * its only member and a fresh code, then the user's profile is pointed at
   * it; when the user has no profile that second write fails and the
   * household stays.
   */
  method CreateHousehold(db: Db, userId: string, name: string, draws: seq<real>, createdAt: Timestamp)
    returns (r: Result<string>)
    requires db.Valid() && IsDocId(userId)
    requires |draws| >= CodeLength && forall i :: 0 <= i < |draws| ==> IsDraw(draws[i])
    modifies db
    ensures db.Valid()
    ensures var id := AutoId(old(db.nextAutoId));
      && id !in old(db.households)
      && id in db.households
      && db.households == old(db.households)[id := db.households[id]]
      && db.households[id].name == HouseholdName(name)
      && db.households[id].members == [userId]
      && db.households[id].createdAt == Some(createdAt)
      && IsInviteCode(db.households[id].inviteCode)
      && (userId in old(db.users) ==>
            r == Ok(id) && db.users == old(db.users)[userId := old(db.users)[userId].(householdId := id)])
      && (userId !in old(db.users) ==> r == Err(NotFound) && db.users == old(db.users))
    ensures db.nextAutoId == old(db.nextAutoId) + 1
    ensures db.tasks == old(db.tasks) && db.stamps == old(db.stamps)
    ensures db.templates == old(db.templates) && db.templateParents == old(db.templateParents)
  {
    var code := RandomCode(CodeLength, draws);
    FreshFromNext(db.tasks, db.stamps, db.households, db.templates, db.nextAutoId);
    var id := AutoId(db.nextAutoId);
    db.households := db.households[id := Household(HouseholdName(name), code, [userId], Some(createdAt))];
    db.nextAutoId := db.nextAutoId + 1;
    forall k: nat | db.nextAutoId <= k ensures AutoId(k) !in db.households {
      AutoIdDistinct(k, db.nextAutoId - 1);
    }
    if userId !in db.users {
      return Err(NotFound);
    }
    db.users := db.users[userId := db.users[userId].(householdId := id)];
    r := Ok(id);
  }

  /** regenerateInviteCode: a fresh code and nothing else; NotFound for a household that does not exist. */
  method RegenerateInviteCode(db: Db, householdId: string, draws: seq<real>) returns (r: Result<()>)
    requires db.Valid() && IsDocId(householdId)
    requires |draws| >= CodeLength && forall i :: 0 <= i < |draws| ==> IsDraw(draws[i])
    modifies db
    ensures db.Valid()
    ensures householdId !in old(db.households) ==> r == Err(NotFound) && db.households == old(db.households)
    ensures householdId in old(db.households) ==>
      && r == Ok(())
      && householdId in db.households
      && db.households == old(db.households)[householdId := old(db.households)[householdId].(inviteCode := db.households[householdId].inviteCode)]
      && IsInviteCode(db.households[householdId].inviteCode)
    ensures db.users == old(db.users) && db.nextAutoId == old(db.nextAutoId)
    ensures db.tasks == old(db.tasks) && db.stamps == old(db.stamps)
    ensures db.templates == old(db.templates) && db.templateParents == old(db.templateParents)
  {
    var code := RandomCode(CodeLength, draws);
    if householdId !in db.households {
      return Err(NotFound);
    }
    db.households := db.households[householdId := db.households[householdId].(inviteCode := code)];
    r := Ok(());
  }

  /**
   * joinByInvite: the households whose code is the normalised input; none
   * is InviteCodeNotFound and nothing changes; otherwise the first of them
   * in query order gets the user as a member (arrayUnion), and the user's
   * profile is pointed at it, NotFound when the user has no profile.
   */
  method JoinByInvite(db: Db, userId: string, code: string) returns (r: Result<string>)
    requires db.Valid() && IsDocId(userId)
    modifies db
    ensures db.Valid()
    ensures InviteMatches(old(db.households), NormalizeCode(code)) == {} ==>
      r == Err(InviteCodeNotFound) && db.households == old(db.households) && db.users == old(db.users)
    ensures InviteMatches(old(db.households), NormalizeCode(code)) != {} ==>
      exists h :: IsLeast(h, InviteMatches(old(db.households), NormalizeCode(code)))
        && db.households == old(db.households)[h := old(db.households)[h].(members := ArrayUnion(old(db.households)[h].members, userId))]
        && (userId in old(db.users) ==>
              r == Ok(h) && db.users == old(db.users)[userId := old(db.users)[userId].(householdId := h)])
        && (userId !in old(db.users) ==> r == Err(NotFound) && db.users == old(db.users))
    ensures db.nextAutoId == old(db.nextAutoId)
    ensures db.tasks == old(db.tasks) && db.stamps == old(db.stamps)
    ensures db.templates == old(db.templates) && db.templateParents == old(db.templateParents)
  {
    var matches := InviteMatches(db.households, NormalizeCode(code));
    if matches == {} {
      return Err(InviteCodeNotFound);
    }
    LeastExists(matches);
    var h :| IsLeast(h, matches);
    db.households := db.households[h := db.households[h].(members := ArrayUnion(db.households[h].members, userId))];
    if userId !in db.users {
      return Err(NotFound);
    }
    db.users := db.users[userId := db.users[userId].(householdId := h)];
    r := Ok(h);
  }

  /**
   * leaveHousehold: the user leaves the household's members (arrayRemove),
   * NotFound and nothing changes when the household does not exist; then
   * the user's profile names the user's own id as household, NotFound when
   * the user has no profile.
   */
  method LeaveHousehold(db: Db, userId: string, householdId: string) returns (r: Result<()>)
    requires db.Valid() && IsDocId(userId) && IsDocId(householdId)
    modifies db
    ensures db.Valid()
    ensures householdId !in old(db.households) ==>
      r == Err(NotFound) && db.households == old(db.households) && db.users == old(db.users)
    ensures householdId in old(db.households) ==>
      && db.households == old(db.households)[householdId := old(db.households)[householdId].(members := ArrayRemove(old(db.households)[householdId].members, userId))]
      && (userId in old(db.users) ==>
            r == Ok(()) && db.users == old(db.users)[userId := old(db.users)[userId].(householdId := userId)])
      && (userId !in old(db.users) ==> r == Err(NotFound) && db.users == old(db.users))
    ensures db.nextAutoId == old(db.nextAutoId)
    ensures db.tasks == old(db.tasks) && db.stamps == old(db.stamps)
    ensures db.templates == old(db.templates) && db.templateParents == old(db.templateParents)
  {
    if householdId !in db.households {
      return Err(NotFound);
    }
    db.households := db.households[householdId := db.households[householdId].(members := ArrayRemove(db.households[householdId].members, userId))];
    if userId !in db.users {
      return Err(NotFound);
    }
    db.users := db.users[userId := db.users[userId].(householdId := userId)];
    r := Ok(());
  }
}
