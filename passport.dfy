/**
 * The Google and GitHub verify callbacks (src/config/passport.js): resolve an
 * authenticated provider profile to a row of the user table by binding on
 * the provider id, else linking on the lower-cased email, else creating a
 * verified account without a password. `Math.random()` enters as the
 * username suffix it yields, the clock as `now`.
 */
module Passport {
  import opened Base
  import opened Users
  import Text

  /** One entry of `profile.emails`. */
  datatype ProfileEmail = ProfileEmail(value: string, primary: bool)

  /** `profile.name` of a Google profile. */
  datatype PersonName = PersonName(givenName: Option<string>, familyName: Option<string>)

  /** The fields the Google callback reads; `None` is an absent field. */
  datatype GoogleProfile = GoogleProfile(
    id: string,
    emails: seq<ProfileEmail>,
    name: Option<PersonName>,
    photos: Option<seq<string>>)

  /** The fields the GitHub callback reads; `None` is an absent field. */
  datatype GitHubProfile = GitHubProfile(
    id: string,
    username: string,
    displayName: Option<string>,
    emails: Option<seq<ProfileEmail>>,
    photos: Option<seq<string>>)

  /** What a callback hands to `done` as its error. */
  datatype StrategyError =
    /** `new Error('No email found in GitHub profile')` */
    | NoGitHubEmail
    /** a TypeError from reading a field of an absent profile part */
    | MissingProfileField
    /** the table refused the new row on a unique column */
    | UniqueViolation

  /** `serializeUser`: the session stores the id. */
  function SerializeUser(u: User): (id: UserId)
    ensures id == u.id
  {
    u.id
  }

  /** `deserializeUser`: the row with that id, or null. */
  function DeserializeUser(db: UserTable, id: UserId): (u: Option<User>)
    reads db
    ensures u.Some? <==> id in db.rows
    ensures u.Some? ==> u.value == db.rows[id]
  {
    if id in db.rows then Some(db.rows[id]) else None
  }

  /** A row survives a trip through the session unchanged. */
  lemma SessionRoundTrip(db: UserTable, id: UserId)
    requires db.Valid() && id in db.rows
    ensures DeserializeUser(db, SerializeUser(db.rows[id])) == Some(db.rows[id])
  {
  }

  /** `emails.find(e => e.primary)`, as an index. */
  function FirstPrimary(emails: seq<ProfileEmail>): (r: Option<nat>)
    ensures r.Some? ==> r.value < |emails| && emails[r.value].primary
    ensures forall j :: 0 <= j < (if r.Some? then r.value else |emails|) ==> !emails[j].primary
  {
    if emails == [] then None
    else if emails[0].primary then Some(0)
    else
      match FirstPrimary(emails[1..])
      case None => None
      case Some(i) => Some(i + 1)
  }

  /**
   * `profile.emails?.find(e => e.primary)?.value || profile.emails?.[0]?.value`,
   * with `None` for a falsy result: the first primary address, else the
   * first address, never an empty one.
   */
  function SelectGitHubEmail(emails: Option<seq<ProfileEmail>>): (r: Option<string>)
    ensures r.Some? ==> r.value != ""
    ensures emails.None? ==> r.None?
    ensures emails.Some? ==>
      var es := emails.value;
      var p := FirstPrimary(es);
      if p.Some? && es[p.value].value != "" then r == Some(es[p.value].value)
      else if |es| > 0 && es[0].value != "" then r == Some(es[0].value)
      else r.None?
  {
    var primary :=
      if emails.Some? && FirstPrimary(emails.value).Some?
      then Some(emails.value[FirstPrimary(emails.value).value].value) else None;
    var first := if emails.Some? && |emails.value| > 0 then Some(emails.value[0].value) else None;
    var chosen := if Truthy(primary) then primary else first;
    if Truthy(chosen) then chosen else None
  }

  /** `Math.floor(Math.random() * 1000)` in decimal has one to three digits. */
  lemma SuffixLength(suffix: nat)
    requires suffix < 1000
    ensures 1 <= |Text.Decimal(suffix)| <= 3
  {
    assert Text.Pow10(1) == 10 && Text.Pow10(2) == 100 && Text.Pow10(3) == 1000;
    if suffix < 10 {
      Text.DecimalLength(suffix, 0);
    } else if suffix < 100 {
      Text.DecimalLength(suffix, 1);
    } else {
      Text.DecimalLength(suffix, 2);
    }
  }

  /** The local part of an address: everything before the first '@'. */
  function LocalPart(email: string): (local: string)
    ensures '@' !in local && Text.StartsWith(email, local)
    ensures '@' in email ==> email[|local|] == '@'
    ensures '@' !in email ==> local == email
  {
    Text.SplitAtFirst(email, '@');
    Text.Split(email, '@')[0]
  }

  /**
   * A Google username: the lower-cased local part of the address followed
   * by the suffix in decimal.
   */
  function GoogleUsername(email: string, suffix: nat): (name: string)
    requires suffix < 1000
    ensures var local := Text.Lower(LocalPart(email));
      && |local| == |LocalPart(email)|
      && |local| + 1 <= |name| <= |local| + 3
      && name[..|local|] == local && '@' !in local
      && Text.StartsWith(Text.Lower(email), local)
      && Text.IsDigits(name[|local|..]) && Text.DigitsValue(name[|local|..]) == suffix
      && (|name| > |local| + 1 ==> name[|local|] != '0')
  {
    var local := Text.Lower(LocalPart(email));
    var digits := Text.Decimal(suffix);
    SuffixLength(suffix);
    Text.DecimalRoundTrip(suffix);
    Text.LowerKeeps(LocalPart(email), '@');
    var name := local + digits;
    assert name[..|local|] == local && name[|local|..] == digits;
    assert Text.Lower(email)[..|local|] == local;
    name
  }

  /** A GitHub username: the lower-cased login followed by the suffix in decimal. */
  function GitHubUsername(login: string, suffix: nat): (name: string)
    requires suffix < 1000
    ensures |login| + 1 <= |name| <= |login| + 3
    ensures name[..|login|] == Text.Lower(login)
    ensures Text.IsDigits(name[|login|..]) && Text.DigitsValue(name[|login|..]) == suffix
    ensures |name| > |login| + 1 ==> name[|login|] != '0'
  {
    var digits := Text.Decimal(suffix);
    SuffixLength(suffix);
    Text.DecimalRoundTrip(suffix);
    var name := Text.Lower(login) + digits;
    assert name[..|login|] == Text.Lower(login) && name[|login|..] == digits;
    name
  }

  /**
   * `displayName.split(' ')[0]` and `displayName.split(' ').slice(1).join(' ')`:
   * the first word, and everything after the first space.
   */
  function SplitDisplayName(displayName: string): (names: (string, string))
    ensures ' ' !in names.0
    ensures ' ' in displayName ==> displayName == names.0 + " " + names.1
    ensures ' ' !in displayName ==> names == (displayName, "")
  {
    Text.SplitAtFirst(displayName, ' ');
    var parts := Text.Split(displayName, ' ');
    (parts[0], Text.Join(parts[1..], ' '))
  }

  /** `profile.photos[0]?.value`: fails when the profile has no `photos` at all. */
  function Avatar(photos: Option<seq<string>>): (r: Result<Option<string>, StrategyError>)
    ensures photos.None? <==> r == Err(MissingProfileField)
    ensures photos.Some? && |photos.value| > 0 ==> r == Ok(Some(photos.value[0]))
    ensures photos.Some? && |photos.value| == 0 ==> r == Ok(None)
  {
    match photos
    case None => Err(MissingProfileField)
    case Some(ps) => Ok(if |ps| > 0 then Some(ps[0]) else None)
  }

  /** The row the Google callback asks the table to create (its id is assigned on insert). */
  function GoogleNewUser(p: GoogleProfile, suffix: nat, now: Millis): (r: Result<User, StrategyError>)
    requires |p.emails| > 0 && suffix < 1000
    ensures r.Err? <==> p.name.None? || p.photos.None?
    ensures r.Err? ==> r.error == MissingProfileField
    ensures r.Ok? ==>
      var u := r.value;
      && u.email == Text.Lower(p.emails[0].value)
      && u.username == GoogleUsername(p.emails[0].value, suffix)
      && u.password.None? && !HasPassword(u) && u.provider == Google
      && u.googleId == Some(p.id) && u.githubId.None?
      && u.isVerified && !u.isPro
      && u.firstName == p.name.value.givenName && u.lastName == p.name.value.familyName
      && Avatar(p.photos) == Ok(u.avatar)
      && u.verificationToken.None? && u.verificationTokenExpires.None?
      && u.resetPasswordToken.None? && u.resetPasswordExpires.None?
      && u.createdAt == now
  {
    if p.name.None? then Err(MissingProfileField)
    else
      match Avatar(p.photos)
      case Err(e) => Err(e)
      case Ok(avatar) =>
        Ok(User(0, Text.Lower(p.emails[0].value), GoogleUsername(p.emails[0].value, suffix), None, Google,
                Some(p.id), None, true, false, p.name.value.givenName, p.name.value.familyName, avatar,
                None, None, None, None, now))
  }

  /** The row the GitHub callback asks the table to create (its id is assigned on insert). */
  function GitHubNewUser(p: GitHubProfile, email: string, suffix: nat, now: Millis): (r: Result<User, StrategyError>)
    requires suffix < 1000
    ensures r.Err? <==> p.photos.None?
    ensures r.Err? ==> r.error == MissingProfileField
    ensures r.Ok? ==>
      var u := r.value;
      && u.email == Text.Lower(email)
      && u.username == GitHubUsername(p.username, suffix)
      && u.password.None? && !HasPassword(u) && u.provider == GitHub
      && u.githubId == Some(p.id) && u.googleId.None?
      && u.isVerified && !u.isPro
      && (p.displayName.None? ==> u.firstName.None? && u.lastName.None?)
      && (p.displayName.Some? ==>
            u.firstName == Some(SplitDisplayName(p.displayName.value).0) &&
            u.lastName == Some(SplitDisplayName(p.displayName.value).1))
      && Avatar(p.photos) == Ok(u.avatar)
      && u.verificationToken.None? && u.verificationTokenExpires.None?
      && u.resetPasswordToken.None? && u.resetPasswordExpires.None?
      && u.createdAt == now
  {
    match Avatar(p.photos)
    case Err(e) => Err(e)
    case Ok(avatar) =>
      var names := if p.displayName.Some? then Some(SplitDisplayName(p.displayName.value)) else None;
      Ok(User(0, Text.Lower(email), GitHubUsername(p.username, suffix), None, GitHub,
              None, Some(p.id), true, false,
              if names.Some? then Some(names.value.0) else None,
              if names.Some? then Some(names.value.1) else None,
              avatar, None, None, None, None, now))
  }

  /** Some row already uses the username. */
  predicate UsernameTaken(rows: map<UserId, User>, username: string)
  {
    exists j | j in rows :: rows[j].username == username
  }

  /**
   * Linking only adds a provider id nobody holds and flips `isVerified`, so
   * it cannot collide with another row.
   */
  lemma LinkKeepsKeysFree(rows: map<UserId, User>, id: UserId, linked: User)
    requires Unique(rows) && id in rows
    requires linked.email == rows[id].email && linked.username == rows[id].username
    requires linked.googleId == rows[id].googleId || forall j | j in rows :: rows[j].googleId != linked.googleId
    requires linked.githubId == rows[id].githubId || forall j | j in rows :: rows[j].githubId != linked.githubId
    ensures KeysFreeFor(rows, id, linked)
  {
    forall j | j in rows && j != id
      ensures !Clash(rows[j], linked)
    {
      assert !Clash(rows[j], rows[id]);
    }
  }

  /**
   * A new row whose email and provider id no row holds can only collide on
   * its username.
   */
  lemma NewRowConflictIsUsername(rows: map<UserId, User>, data: User)
    requires forall j | j in rows :: rows[j].email != data.email
    requires data.googleId.None? || forall j | j in rows :: rows[j].googleId != data.googleId
    requires data.githubId.None? || forall j | j in rows :: rows[j].githubId != data.githubId
    ensures Conflicts(rows, data) <==> UsernameTaken(rows, data.username)
  {
    if UsernameTaken(rows, data.username) {
      var j :| j in rows && rows[j].username == data.username;
      assert Clash(rows[j], data);
    }
  }

  /**
   * `prisma.user.create` of a callback's new row, whose email and provider
   * id no row holds: it fails only on a username already in use.
   */
  method CreateAccount(db: UserTable, data: User) returns (r: Result<User, StrategyError>)
    requires db.Valid()
    requires forall j | j in db.rows :: db.rows[j].email != data.email
    requires data.googleId.None? || forall j | j in db.rows :: db.rows[j].googleId != data.googleId
    requires data.githubId.None? || forall j | j in db.rows :: db.rows[j].githubId != data.githubId
    modifies db
    ensures db.Valid()
    ensures UsernameTaken(old(db.rows), data.username) ==> r == Err(UniqueViolation) && unchanged(db)
    ensures !UsernameTaken(old(db.rows), data.username) ==>
      var id := old(db.nextId);
      && id !in old(db.rows)
      && r == Ok(data.(id := id))
      && db.rows == old(db.rows)[id := data.(id := id)] && db.nextId == id + 1
  {
    NewRowConflictIsUsername(db.rows, data);
    var created := db.Create(data);
    if created.None? {
      return Err(UniqueViolation);
    }
    r := Ok(created.value);
  }

  /** The Google verify callback. */
  method GoogleVerify(db: UserTable, p: GoogleProfile, suffix: nat, now: Millis)
    returns (r: Result<User, StrategyError>)
    requires db.Valid() && suffix < 1000
    modifies db
    ensures db.Valid()
    // 1. An account already bound to this Google id is returned as it is.
    ensures old(db.Find(ByGoogleId(p.id))).Some? ==>
      r == Ok(old(db.rows)[old(db.Find(ByGoogleId(p.id))).value]) && unchanged(db)
    ensures old(db.Find(ByGoogleId(p.id))).None? && |p.emails| == 0 ==>
      r == Err(MissingProfileField) && unchanged(db)
    ensures old(db.Find(ByGoogleId(p.id))).None? && |p.emails| > 0 ==>
      match old(db.Find(ByEmail(Text.Lower(p.emails[0].value))))
      // 2. An account with the lower-cased email is linked and verified.
      case Some(id) =>
        var linked := old(db.rows)[id].(googleId := Some(p.id), isVerified := true);
        r == Ok(linked) && db.rows == old(db.rows)[id := linked] && db.nextId == old(db.nextId)
      // 3. Otherwise one new verified account without a password.
      case None =>
        match GoogleNewUser(p, suffix, now)
        case Err(e) => r == Err(e) && unchanged(db)
        case Ok(data) =>
          if UsernameTaken(old(db.rows), data.username) then r == Err(UniqueViolation) && unchanged(db)
          else
            var id := old(db.nextId);
            && id !in old(db.rows)
            && r == Ok(data.(id := id))
            && db.rows == old(db.rows)[id := data.(id := id)] && db.nextId == id + 1
    ensures r.Ok? ==> r.value.googleId == Some(p.id) && r.value.id in db.rows && db.rows[r.value.id] == r.value
    ensures r.Err? ==> unchanged(db)
    ensures old(db.rows).Keys <= db.rows.Keys <= old(db.rows).Keys + {old(db.nextId)}
    ensures forall id | id in old(db.rows) && (r.Err? || id != r.value.id) :: db.rows[id] == old(db.rows)[id]
  {
    var bound := db.Find(ByGoogleId(p.id));
    if bound.Some? {
      return Ok(db.rows[bound.value]);
    }
    if |p.emails| == 0 {
      return Err(MissingProfileField);
    }
    var email := Text.Lower(p.emails[0].value);
    var existing := db.Find(ByEmail(email));
    if existing.Some? {
      var linked := db.rows[existing.value].(googleId := Some(p.id), isVerified := true);
      LinkKeepsKeysFree(db.rows, existing.value, linked);
      db.Update(existing.value, linked);
      return Ok(linked);
    }
    var data := GoogleNewUser(p, suffix, now);
    if data.Err? {
      return Err(data.error);
    }
    r := CreateAccount(db, data.value);
  }

  /** The GitHub verify callback. */
  method GitHubVerify(db: UserTable, p: GitHubProfile, suffix: nat, now: Millis)
    returns (r: Result<User, StrategyError>)
    requires db.Valid() && suffix < 1000
    modifies db
    ensures db.Valid()
    // 1. An account already bound to this GitHub id is returned as it is.
    ensures old(db.Find(ByGithubId(p.id))).Some? ==>
      r == Ok(old(db.rows)[old(db.Find(ByGithubId(p.id))).value]) && unchanged(db)
    ensures old(db.Find(ByGithubId(p.id))).None? && SelectGitHubEmail(p.emails).None? ==>
      r == Err(NoGitHubEmail) && unchanged(db)
    ensures old(db.Find(ByGithubId(p.id))).None? && SelectGitHubEmail(p.emails).Some? ==>
      var email := SelectGitHubEmail(p.emails).value;
      match old(db.Find(ByEmail(Text.Lower(email))))
      // 2. An account with the lower-cased email is linked and verified.
      case Some(id) =>
        var linked := old(db.rows)[id].(githubId := Some(p.id), isVerified := true);
        r == Ok(linked) && db.rows == old(db.rows)[id := linked] && db.nextId == old(db.nextId)
      // 3. Otherwise one new verified account without a password.
      case None =>
        match GitHubNewUser(p, email, suffix, now)
        case Err(e) => r == Err(e) && unchanged(db)
        case Ok(data) =>
          if UsernameTaken(old(db.rows), data.username) then r == Err(UniqueViolation) && unchanged(db)
          else
            var id := old(db.nextId);
            && id !in old(db.rows)
            && r == Ok(data.(id := id))
            && db.rows == old(db.rows)[id := data.(id := id)] && db.nextId == id + 1
    ensures r.Ok? ==> r.value.githubId == Some(p.id) && r.value.id in db.rows && db.rows[r.value.id] == r.value
    ensures r.Err? ==> unchanged(db)
    ensures old(db.rows).Keys <= db.rows.Keys <= old(db.rows).Keys + {old(db.nextId)}
    ensures forall id | id in old(db.rows) && (r.Err? || id != r.value.id) :: db.rows[id] == old(db.rows)[id]
  {
    var bound := db.Find(ByGithubId(p.id));
    if bound.Some? {
      return Ok(db.rows[bound.value]);
    }
    var selected := SelectGitHubEmail(p.emails);
    if selected.None? {
      return Err(NoGitHubEmail);
    }
    var email := Text.Lower(selected.value);
    var existing := db.Find(ByEmail(email));
    if existing.Some? {
      var linked := db.rows[existing.value].(githubId := Some(p.id), isVerified := true);
      LinkKeepsKeysFree(db.rows, existing.value, linked);
      db.Update(existing.value, linked);
      return Ok(linked);
    }
    var data := GitHubNewUser(p, selected.value, suffix, now);
    if data.Err? {
      return Err(data.error);
    }
    r := CreateAccount(db, data.value);
  }

  /**
   * A second Google sign-in with the same profile returns the account the
   * first one produced and changes nothing.
   */
  method GoogleVerifyTwice(db: UserTable, p: GoogleProfile, suffix1: nat, suffix2: nat, now1: Millis, now2: Millis)
    returns (r1: Result<User, StrategyError>, r2: Result<User, StrategyError>)
    requires db.Valid() && suffix1 < 1000 && suffix2 < 1000
    modifies db
    ensures r1.Ok? ==> r2 == r1
    ensures r1.Ok? ==> db.rows == old(db.rows)[r1.value.id := r1.value]
  {
    r1 := GoogleVerify(db, p, suffix1, now1);
    if r1.Ok? {
      KeyLookupFindsTheRow(db.rows, db.nextId, ByGoogleId(p.id), r1.value.id);
    }
    r2 := GoogleVerify(db, p, suffix2, now2);
  }
}
