/** The profiles table: creation for the signed-in user, listing with computed
    ages, lookup by id, partial update and soft delete. */
module ProfileService {
  import opened Wrappers
  import Sequences

  datatype Gender = M | F | O

  /** A calendar date as (year, month, day); month and day are 1-based. */
  datatype Date = Date(year: int, month: int, day: int)

  /** Calendar order, comparing year, then month, then day. */
  predicate DateLe(a: Date, b: Date) {
    a.year < b.year || (a.year == b.year && (a.month < b.month || (a.month == b.month && a.day <= b.day)))
  }

  /** The same month and day `n` years later. */
  function AddYears(d: Date, n: int): Date {
    d.(year := d.year + n)
  }

  lemma DateLeTransitive(a: Date, b: Date, c: Date)
    requires DateLe(a, b) && DateLe(b, c)
    ensures DateLe(a, c)
  {
  }

  // ---------------------------------------------------------------- age

  /** `calculateAge`: the year difference, one less while this year's birthday is
      still ahead. The result is the number of whole years: the last anniversary
      is not after `today`, the next one is. */
  function CalculateAge(today: Date, birth: Date): (age: int)
    ensures DateLe(AddYears(birth, age), today)
    ensures !DateLe(AddYears(birth, age + 1), today)
  {
    var age := today.year - birth.year;
    var monthDiff := today.month - birth.month;
    if monthDiff < 0 || (monthDiff == 0 && today.day < birth.day) then age - 1 else age
  }

  /** On the birthday itself the age is the full year difference. */
  lemma AgeOnBirthday(birth: Date, years: int)
    ensures CalculateAge(AddYears(birth, years), birth) == years
  {
  }

  /** A date of birth not after today gives a non-negative age. */
  lemma AgeNonNegative(today: Date, birth: Date)
    requires DateLe(birth, today)
    ensures CalculateAge(today, birth) >= 0
  {
  }

  /** Age never decreases as today advances. */
  lemma AgeMonotone(today1: Date, today2: Date, birth: Date)
    requires DateLe(today1, today2)
    ensures CalculateAge(today1, birth) <= CalculateAge(today2, birth)
  {
  }

  // ---------------------------------------------------------------- rows

  datatype Profile = Profile(
    id: string, userId: string, name: string, gender: Gender, dateOfBirth: string,
    createdAt: int, updatedAt: int, deletedAt: Option<int>)

  /** A profile with its age; `None` stands for the NaN of an unparsable date. */
  datatype ProfileWithAge = ProfileWithAge(profile: Profile, age: Option<int>)

  /** The age of a profile, reading its date of birth with `parseDate`. */
  function AgeOf(p: Profile, today: Date, parseDate: string -> Option<Date>): Option<int> {
    match parseDate(p.dateOfBirth)
    case None => None
    case Some(birth) => Some(CalculateAge(today, birth))
  }

  function WithAge(p: Profile, today: Date, parseDate: string -> Option<Date>): ProfileWithAge {
    ProfileWithAge(p, AgeOf(p, today, parseDate))
  }

  function WithAges(ps: seq<Profile>, today: Date, parseDate: string -> Option<Date>): (r: seq<ProfileWithAge>)
    ensures |r| == |ps|
    ensures forall k :: 0 <= k < |ps| ==> r[k] == WithAge(ps[k], today, parseDate)
  {
    if ps == [] then [] else [WithAge(ps[0], today, parseDate)] + WithAges(ps[1..], today, parseDate)
  }

  predicate Live(p: Profile) {
    p.deletedAt.None?
  }

  /** The live profiles, oldest first: every live row exactly once. */
  function LiveInCreationOrder(rows: seq<Profile>): (r: seq<Profile>)
    ensures multiset(r) == multiset(Sequences.Filter(rows, Live))
    ensures forall p :: p in r ==> p in rows && Live(p)
    ensures forall i, j :: 0 <= i < j < |r| ==> r[i].createdAt <= r[j].createdAt
  {
    var oldest := (p: Profile) => -p.createdAt;
    Sequences.SortedFilterElements(rows, Live, oldest);
    var r := Sequences.SortDesc(Sequences.Filter(rows, Live), oldest);
    assert forall i, j :: 0 <= i < j < |r| ==> oldest(r[i]) >= oldest(r[j]);
    r
  }

  /** `getProfiles`: the live profiles by creation time, ascending, each with its age. */
  function GetProfiles(rows: seq<Profile>, today: Date, parseDate: string -> Option<Date>): seq<ProfileWithAge> {
    WithAges(LiveInCreationOrder(rows), today, parseDate)
  }

  /** The listing holds every live profile exactly once, oldest first, with the age
      added and the row itself unchanged. */
  lemma GetProfilesSpec(rows: seq<Profile>, today: Date, parseDate: string -> Option<Date>)
    ensures var r := GetProfiles(rows, today, parseDate);
      var ps := LiveInCreationOrder(rows);
      && |r| == |ps|
      && (forall k :: 0 <= k < |r| ==> r[k].profile == ps[k] && r[k].age == AgeOf(ps[k], today, parseDate))
      && (forall i, j :: 0 <= i < j < |r| ==> r[i].profile.createdAt <= r[j].profile.createdAt)
  {
    var ps := LiveInCreationOrder(rows);
    var r := GetProfiles(rows, today, parseDate);
    forall i, j | 0 <= i < j < |r|
      ensures r[i].profile.createdAt <= r[j].profile.createdAt
    {
      assert r[i].profile == ps[i] && r[j].profile == ps[j];
    }
  }

  /** Every listed profile is a live row of the table. */
  lemma GetProfilesAreLiveRows(rows: seq<Profile>, today: Date, parseDate: string -> Option<Date>)
    ensures forall x :: x in GetProfiles(rows, today, parseDate) ==> x.profile in rows && Live(x.profile)
  {
    var ps := LiveInCreationOrder(rows);
    forall x | x in GetProfiles(rows, today, parseDate)
      ensures x.profile in rows && Live(x.profile)
    {
      var k :| 0 <= k < |ps| && GetProfiles(rows, today, parseDate)[k] == x;
      assert x.profile == ps[k];
    }
  }

  /** The live rows with the id. */
  function LiveWithId(rows: seq<Profile>, id: string): seq<Profile> {
    Sequences.Filter(rows, (p: Profile) => p.id == id && Live(p))
  }

  /** `getProfile`: the single live row with the id, with its age. */
  function GetProfile(rows: seq<Profile>, id: string, today: Date, parseDate: string -> Option<Date>): (r: Result<ProfileWithAge>)
    ensures r.Ok? ==> r.value.profile in rows && r.value.profile.id == id && Live(r.value.profile)
    ensures r.Ok? <==> |LiveWithId(rows, id)| == 1
    ensures r.Err? ==> r.error == SingleRowError
    ensures r.Ok? ==> r.value == WithAge(LiveWithId(rows, id)[0], today, parseDate)
  {
    var found := LiveWithId(rows, id);
    if |found| == 1 then
      assert found[0] in multiset(rows);
      Ok(WithAge(found[0], today, parseDate))
    else Err(SingleRowError)
  }

  // ---------------------------------------------------------------- changes

  datatype CreateProfileData = CreateProfileData(name: string, gender: Gender, dateOfBirth: string)

  /** The fields an update may set; absent ones are left alone. */
  datatype ProfileUpdates = ProfileUpdates(name: Option<string>, gender: Option<Gender>, dateOfBirth: Option<string>)

  function Updated(p: Profile, updates: ProfileUpdates): (r: Profile)
    ensures r.id == p.id && r.userId == p.userId && r.createdAt == p.createdAt
    ensures r.updatedAt == p.updatedAt && r.deletedAt == p.deletedAt
    ensures r.name == updates.name.GetOr(p.name)
    ensures r.gender == updates.gender.GetOr(p.gender)
    ensures r.dateOfBirth == updates.dateOfBirth.GetOr(p.dateOfBirth)
  {
    p.(name := updates.name.GetOr(p.name),
       gender := updates.gender.GetOr(p.gender),
       dateOfBirth := updates.dateOfBirth.GetOr(p.dateOfBirth))
  }

  /** An update without fields leaves the row as it was. */
  lemma EmptyUpdateChangesNothing(p: Profile)
    ensures Updated(p, ProfileUpdates(None, None, None)) == p
  {
  }

  /** The rows with the id, deleted or not. */
  function WithId(rows: seq<Profile>, id: string): seq<Profile> {
    Sequences.Filter(rows, (p: Profile) => p.id == id)
  }

  function UpdateWhere(rows: seq<Profile>, id: string, updates: ProfileUpdates): (r: seq<Profile>)
    ensures |r| == |rows|
    ensures forall i :: 0 <= i < |rows| ==>
      r[i] == if rows[i].id == id then Updated(rows[i], updates) else rows[i]
  {
    seq(|rows|, i requires 0 <= i < |rows| => if rows[i].id == id then Updated(rows[i], updates) else rows[i])
  }

  function SoftDeleteWhere(rows: seq<Profile>, id: string, now: int): (r: seq<Profile>)
    ensures |r| == |rows|
    ensures forall i :: 0 <= i < |rows| ==>
      r[i] == if rows[i].id == id then rows[i].(deletedAt := Some(now)) else rows[i]
  {
    seq(|rows|, i requires 0 <= i < |rows| => if rows[i].id == id then rows[i].(deletedAt := Some(now)) else rows[i])
  }

  lemma {:induction false} FilterNoneKept<T>(s: seq<T>, keep: T -> bool)
    requires forall k :: 0 <= k < |s| ==> !keep(s[k])
    ensures Sequences.Filter(s, keep) == []
    decreases |s|
  {
    if s != [] {
      FilterNoneKept(s[1..], keep);
    }
  }

  /** After a delete neither the listing nor the lookup returns the id. */
  lemma DeletedProfileIsGone(rows: seq<Profile>, id: string, now: int, today: Date, parseDate: string -> Option<Date>)
    ensures forall x :: x in GetProfiles(SoftDeleteWhere(rows, id, now), today, parseDate) ==> x.profile.id != id
    ensures GetProfile(SoftDeleteWhere(rows, id, now), id, today, parseDate).Err?
  {
    var after := SoftDeleteWhere(rows, id, now);
    GetProfilesAreLiveRows(after, today, parseDate);
    FilterNoneKept(after, (p: Profile) => p.id == id && Live(p));
  }

  /** The profiles table. */
  class ProfilesTable {
    var rows: seq<Profile>

    constructor(initial: seq<Profile>)
      ensures rows == initial
    {
      rows := initial;
    }

    /** `createProfile`: needs a signed-in user; the new row belongs to that user.
        `id` and `now` are what the database assigns. */
    method CreateProfile(data: CreateProfileData, user: Option<string>, id: string, now: int,
                         dbError: Option<string>) returns (r: Result<Profile>)
      modifies this
      ensures user.None? ==> r == Err("Not authenticated") && rows == old(rows)
      ensures user.Some? && dbError.Some? ==> r == Err(dbError.value) && rows == old(rows)
      ensures user.Some? && dbError.None? ==>
        var p := Profile(id, user.value, data.name, data.gender, data.dateOfBirth, now, now, None);
        r == Ok(p) && rows == old(rows) + [p]
    {
      if user.None? {
        return Err("Not authenticated");
      }
      if dbError.Some? {
        return Err(dbError.value);
      }
      var p := Profile(id, user.value, data.name, data.gender, data.dateOfBirth, now, now, None);
      rows := rows + [p];
      return Ok(p);
    }

    /** `updateProfile`: `.single()` makes the update stand only when exactly one row
        has the id; otherwise it is undone and the call fails. */
    method UpdateProfile(id: string, updates: ProfileUpdates, dbError: Option<string>) returns (r: Result<Profile>)
      modifies this
      ensures dbError.Some? ==> r == Err(dbError.value) && rows == old(rows)
      ensures dbError.None? && |WithId(old(rows), id)| != 1 ==> r == Err(SingleRowError) && rows == old(rows)
      ensures dbError.None? && |WithId(old(rows), id)| == 1 ==>
        && rows == UpdateWhere(old(rows), id, updates)
        && r == Ok(Updated(WithId(old(rows), id)[0], updates))
    {
      if dbError.Some? {
        return Err(dbError.value);
      }
      var matching := WithId(rows, id);
      if |matching| != 1 {
        return Err(SingleRowError);
      }
      rows := UpdateWhere(rows, id, updates);
      return Ok(Updated(matching[0], updates));
    }

    /** `deleteProfile`: a soft delete of every row with the id. */
    method DeleteProfile(id: string, now: int, dbError: Option<string>) returns (r: Outcome)
      modifies this
      ensures dbError.Some? ==> r == Failed(dbError.value) && rows == old(rows)
      ensures dbError.None? ==> r == Succeeded && rows == SoftDeleteWhere(old(rows), id, now)
    {
      if dbError.Some? {
        return Failed(dbError.value);
      }
      rows := SoftDeleteWhere(rows, id, now);
      return Succeeded;
    }
  }
}
