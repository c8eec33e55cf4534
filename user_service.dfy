/** Accounts of the public API (internal/service/user_service.go).

    hash.Hash is the parameter `hashed`, its output for the request's
    password; hash.Check is the parameter `check`; the clock is `now`; a
    database failure is `fault`. */
module UserService {
  import opened Common
  import opened Text
  import opened Tables
  import opened UserRepository
  import opened UserDto
  import Jwt

  const EmailTaken: string := "email already exists"
  const InvalidCredentials: string := "invalid credentials"
  const UserNotFound: string := "user not found"

  /** The test the service applies to a store error's text: a case-sensitive
      search for "duplicate" or "unique". */
  predicate LooksDuplicate(e: Error)
  {
    Contains(ErrorText(e), "duplicate") || Contains(ErrorText(e), "unique")
  }

  /** The error mapping as written in Register, CreateUser and UpdateUser:
      "email already exists" when the text looks like a duplicate, the
      error itself otherwise. */
  function MapSaveError(e: Error): (r: Error)
    ensures r == e || r == Fail(EmailTaken)
    ensures r == Fail(EmailTaken) <==> LooksDuplicate(e) || e == Fail(EmailTaken)
  {
    if LooksDuplicate(e) then Fail(EmailTaken) else e
  }

  /** A text lacking one letter of "duplicate" and one of "unique" does not
      look like a duplicate. */
  lemma NotDuplicateWithout(t: string, kd: nat, ku: nat)
    requires kd < |"duplicate"| && "duplicate"[kd] !in t
    requires ku < |"unique"| && "unique"[ku] !in t
    ensures !LooksDuplicate(Failure(t))
  {
    MissingLetter(t, "duplicate", kd);
    MissingLetter(t, "unique", ku);
  }

  /** A text that lacks one of the letters of `sub` does not contain it. */
  lemma MissingLetter(s: string, sub: string, k: nat)
    requires k < |sub| && sub[k] !in s
    ensures !Contains(s, sub)
  {
    forall i | 0 <= i && i + |sub| <= |s| ensures !OccursAt(s, sub, i) {
      assert s[i..i + |sub|][k] == s[i + k];
    }
  }

  /** Mapping twice is mapping once. */
  lemma MapSaveErrorIdempotent(e: Error)
    ensures MapSaveError(MapSaveError(e)) == MapSaveError(e)
  {
    NotDuplicateWithout(EmailTaken, 2, 3);
  }

  /** MySQL's own text for a taken email ("Duplicate entry", capital D) is
      not recognised: for an email without a 'd' or a 'q' it reaches the
      client as it is. */
  lemma DuplicateEntryNotRecognised(email: string)
    requires 'd' !in email && 'q' !in email
    ensures MapSaveError(Failure(DuplicateEntry(email, EmailKey))) == Failure(DuplicateEntry(email, EmailKey))
  {
    DuplicateEntryLetters(email);
    NotDuplicateWithout(DuplicateEntry(email, EmailKey), 0, 3);
  }

  lemma DuplicateEntryLetters(email: string)
    requires 'd' !in email && 'q' !in email
    ensures 'd' !in DuplicateEntry(email, EmailKey) && 'q' !in DuplicateEntry(email, EmailKey)
  {
    DuplicateHeadLacks();
    DuplicateTailLacks();
    assert DuplicateEntry(email, EmailKey) == DuplicateHead + email + (DuplicateMid + EmailKey + "'");
  }

  /** The head of MySQL's duplicate-entry text holds no lower-case 'd' and
      no 'q'. */
  lemma DuplicateHeadLacks()
    ensures 'd' !in DuplicateHead && 'q' !in DuplicateHead
  {
  }

  /** Nor does its tail for the email index. */
  lemma DuplicateTailLacks()
    ensures 'd' !in DuplicateMid + EmailKey + "'" && 'q' !in DuplicateMid + EmailKey + "'"
  {
  }

  /** ... unless the email itself happens to contain "unique". */
  lemma DuplicateEntryRecognisedByEmail()
    ensures MapSaveError(Failure(DuplicateEntry("unique@b.co", EmailKey))) == Fail(EmailTaken)
  {
    var text := DuplicateEntry("unique@b.co", EmailKey);
    assert text[37..43] == "unique";
    assert OccursAt(text, "unique", 37);
  }

  /** The corrected test: "duplicate" or "unique" in the
      error's text, whatever their case. */
  predicate LooksDuplicateFolded(e: Error)
    ensures LooksDuplicate(e) ==> LooksDuplicateFolded(e)
  {
    FoldingKeepsLowerCase(ErrorText(e), "duplicate");
    FoldingKeepsLowerCase(ErrorText(e), "unique");
    Contains(ToLower(ErrorText(e)), "duplicate") || Contains(ToLower(ErrorText(e)), "unique")
  }

  /** The error mapping with the case-insensitive test: every error the
      as-written test recognises still maps to "email already exists", and
      so does MySQL's "Duplicate entry" for a taken email. */
  function MapSaveErrorFolded(e: Error): (r: Error)
    ensures r == e || r == Fail(EmailTaken)
    ensures r == Fail(EmailTaken) <==> LooksDuplicateFolded(e) || e == Fail(EmailTaken)
    ensures LooksDuplicate(e) ==> r == Fail(EmailTaken)
  {
    FoldingKeepsLowerCase(ErrorText(e), "duplicate");
    FoldingKeepsLowerCase(ErrorText(e), "unique");
    if LooksDuplicateFolded(e) then Fail(EmailTaken) else e
  }

  /** Lower-casing a text keeps every occurrence of a lower-case word. */
  lemma FoldingKeepsLowerCase(s: string, word: string)
    requires forall k :: 0 <= k < |word| ==> !('A' <= word[k] <= 'Z')
    ensures Contains(s, word) ==> Contains(ToLower(s), word)
  {
    if Contains(s, word) {
      var i :| OccursAt(s, word, i);
      assert forall k :: 0 <= k < |word| ==> s[i + k] == word[k];
      assert ToLower(s)[i..i + |word|] == word;
      assert OccursAt(ToLower(s), word, i);
    }
  }

  /** With the case-insensitive test, MySQL's error for a taken email is
      always reported as "email already exists", whatever the email. */
  lemma DuplicateEntryRecognised(email: string)
    ensures LooksDuplicateFolded(Failure(DuplicateEntry(email, EmailKey)))
    ensures MapSaveErrorFolded(Failure(DuplicateEntry(email, EmailKey))) == Fail(EmailTaken)
  {
    var head := "Error 1062 (23000): Duplicate entry '";
    var text := DuplicateEntry(email, EmailKey);
    assert text == head + (email + "' for key '" + EmailKey + "'");
    assert text[20..29] == head[20..29] == "Duplicate";
    var lower := ToLower(text);
    assert lower[20..29] == "duplicate";
    assert OccursAt(lower, "duplicate", 20);
  }

  /** Mapping twice is mapping once, with the corrected test too. */
  lemma MapSaveErrorFoldedIdempotent(e: Error)
    ensures MapSaveErrorFolded(MapSaveErrorFolded(e)) == MapSaveErrorFolded(e)
  {
  }

  /** Register: hash the password, create the user, and issue a token for
      the new id and email. A taken email gives MySQL's duplicate-entry
      error through the case-sensitive mapping, so for most emails the
      raw error reaches the caller rather than "email already exists". */
  method Register(store: UserStore, req: RegisterRequest, hashed: Result<string>, m: Jwt.Manager, now: int,
                  fault: Option<string>)
    returns (r: Result<AuthResponse>)
    requires store.Valid()
    modifies store
    ensures store.Valid()
    ensures hashed.Err? ==> r == Err(hashed.error)
    ensures hashed.Ok? && fault.Some? ==> r == Err(MapSaveError(Failure(fault.value)))
    ensures hashed.Ok? && fault.None? && EmailHeld(old(store.users), req.email) ==>
              r == Err(MapSaveError(Failure(DuplicateEntry(req.email, EmailKey))))
    ensures hashed.Ok? && fault.None? && EmailHeld(old(store.users), req.email) && 'd' !in req.email && 'q' !in req.email ==>
              r == Err(Failure(DuplicateEntry(req.email, EmailKey)))
    ensures r.Ok? <==> hashed.Ok? && fault.None? && !EmailHeld(old(store.users), req.email)
    ensures r.Err? ==> store.users == old(store.users) && store.nextID == old(store.nextID)
    ensures r.Ok? ==>
              var u := User(old(store.nextID), now, now, None, req.name, req.email, hashed.value);
              && store.users == old(store.users) + [u]
              && store.nextID == old(store.nextID) + 1
              && r.value == AuthResponse(ToUserResponse(u), Jwt.Generate(m, u.id, u.email, now))
  {
    if hashed.Err? {
      return Err(hashed.error);
    }
    var created := store.Create(req.name, req.email, hashed.value, now, fault);
    if created.Err? {
      if fault.None? && 'd' !in req.email && 'q' !in req.email {
        DuplicateEntryNotRecognised(req.email);
      }
      return Err(MapSaveError(created.error));
    }
    var usr := created.value;
    r := Ok(AuthResponse(ToUserResponse(usr), Jwt.Generate(m, usr.id, usr.email, now)));
  }

  /** Login's decision on the lookup by email: not found and a password
      that does not check fail alike with "invalid credentials"; any other
      lookup error passes through; otherwise a token for the user's id and
      email. */
  function LoginDecision(found: Result<User>, req: LoginRequest, check: (string, string) -> bool, m: Jwt.Manager, now: int)
    : (r: Result<AuthResponse>)
    ensures r.Ok? <==> found.Ok? && check(req.password, found.value.password)
    ensures r.Ok? ==> r.value == AuthResponse(ToUserResponse(found.value), Jwt.Generate(m, found.value.id, found.value.email, now))
    ensures r.Err? && (found.Ok? || found.error == RecordNotFound) ==> r.error == Fail(InvalidCredentials)
    ensures found.Err? && found.error != RecordNotFound ==> r == Err(found.error)
  {
    match found
    case Err(e) =>
      if e == RecordNotFound then Err(Fail(InvalidCredentials)) else Err(e)
    case Ok(usr) =>
      if !check(req.password, usr.password) then Err(Fail(InvalidCredentials))
      else Ok(AuthResponse(ToUserResponse(usr), Jwt.Generate(m, usr.id, usr.email, now)))
  }

  /** Login: the live user with the email, if the password checks against
      its hash, gets a token. */
  function Login(store: UserStore, req: LoginRequest, check: (string, string) -> bool, m: Jwt.Manager, now: int)
    : (r: Result<AuthResponse>)
    reads store
    ensures r.Ok? <==> store.GetByEmail(req.email).Ok? && check(req.password, store.GetByEmail(req.email).value.password)
    ensures r.Err? ==> r.error == Fail(InvalidCredentials)
  {
    LoginDecision(store.GetByEmail(req.email), req, check, m, now)
  }

  /** A user just registered can log in with the password whose hash was
      stored, and gets the same response Register gave. */
  lemma LoginAfterRegister(store: UserStore, before: seq<User>, u: User, req: LoginRequest,
                           check: (string, string) -> bool, m: Jwt.Manager, now: int)
    requires store.users == before + [u] && IsLive(u)
    requires !EmailHeld(before, u.email)
    requires req.email == u.email && check(req.password, u.password)
    ensures Login(store, req, check, m, now) == Ok(AuthResponse(ToUserResponse(u), Jwt.Generate(m, u.id, u.email, now)))
  {
    assert store.users[|before|] == u;
    assert forall k :: 0 <= k < |before| ==> store.users[k] == before[k] && before[k].email != u.email;
  }

  /** CreateUser: hash the password and create the user; the store's
      error goes through the same case-sensitive mapping as Register's. */
  method CreateUser(store: UserStore, req: CreateUserRequest, hashed: Result<string>, now: int, fault: Option<string>)
    returns (r: Result<User>)
    requires store.Valid()
    modifies store
    ensures store.Valid()
    ensures hashed.Err? ==> r == Err(hashed.error)
    ensures hashed.Ok? && fault.Some? ==> r == Err(MapSaveError(Failure(fault.value)))
    ensures hashed.Ok? && fault.None? && EmailHeld(old(store.users), req.email) ==>
              r == Err(MapSaveError(Failure(DuplicateEntry(req.email, EmailKey))))
    ensures hashed.Ok? && fault.None? && EmailHeld(old(store.users), req.email) && 'd' !in req.email && 'q' !in req.email ==>
              r == Err(Failure(DuplicateEntry(req.email, EmailKey)))
    ensures r.Ok? <==> hashed.Ok? && fault.None? && !EmailHeld(old(store.users), req.email)
    ensures r.Err? ==> store.users == old(store.users) && store.nextID == old(store.nextID)
    ensures r.Ok? ==>
              && r.value == User(old(store.nextID), now, now, None, req.name, req.email, hashed.value)
              && store.users == old(store.users) + [r.value]
              && store.nextID == old(store.nextID) + 1
  {
    if hashed.Err? {
      return Err(hashed.error);
    }
    var created := store.Create(req.name, req.email, hashed.value, now, fault);
    if created.Err? {
      if fault.None? && 'd' !in req.email && 'q' !in req.email {
        DuplicateEntryNotRecognised(req.email);
      }
      return Err(MapSaveError(created.error));
    }
    r := Ok(created.value);
  }

  /** UpdateUser's merge: a non-empty name or email replaces the user's. */
  function MergeUser(u: User, req: UpdateUserRequest): (r: User)
    ensures r.name == (if req.name != "" then req.name else u.name)
    ensures r.email == (if req.email != "" then req.email else u.email)
    ensures r.(name := u.name, email := u.email) == u
  {
    u.(name := if req.name != "" then req.name else u.name,
       email := if req.email != "" then req.email else u.email)
  }

  /** Merging the same request again changes nothing more. */
  lemma MergeUserIdempotent(u: User, req: UpdateUserRequest)
    ensures MergeUser(MergeUser(u, req), req) == MergeUser(u, req)
  {
  }

  /** UpdateUser: "user not found" for an id with no live user; otherwise
      the merged user saved, with the store's error through the same
      case-sensitive mapping as Register's. */
  method UpdateUser(store: UserStore, id: nat, req: UpdateUserRequest, now: int, fault: Option<string>)
    returns (r: Result<User>)
    requires store.Valid()
    modifies store
    ensures store.Valid()
    ensures store.nextID == old(store.nextID)
    ensures old(store.GetByID(id)).Err? ==> r == Err(Fail(UserNotFound))
    ensures old(store.GetByID(id)).Ok? && fault.Some? ==> r == Err(MapSaveError(Failure(fault.value)))
    ensures old(store.GetByID(id)).Ok? && fault.None?
            && EmailHeldByOther(old(store.users), id, MergeUser(old(store.GetByID(id)).value, req).email) ==>
              r == Err(MapSaveError(Failure(DuplicateEntry(MergeUser(old(store.GetByID(id)).value, req).email, EmailKey))))
    ensures old(store.GetByID(id)).Ok? && fault.None?
            && EmailHeldByOther(old(store.users), id, MergeUser(old(store.GetByID(id)).value, req).email)
            && 'd' !in MergeUser(old(store.GetByID(id)).value, req).email
            && 'q' !in MergeUser(old(store.GetByID(id)).value, req).email ==>
              r == Err(Failure(DuplicateEntry(MergeUser(old(store.GetByID(id)).value, req).email, EmailKey)))
    ensures r.Ok? <==>
              && old(store.GetByID(id)).Ok? && fault.None?
              && !EmailHeldByOther(old(store.users), id, MergeUser(old(store.GetByID(id)).value, req).email)
    ensures r.Err? ==> store.users == old(store.users)
    ensures r.Ok? ==>
              && r.value == MergeUser(old(store.GetByID(id)).value, req).(updatedAt := now)
              && store.users == UpdateWhere(old(store.users), LiveWithID(id), SavedUser(MergeUser(old(store.GetByID(id)).value, req), now))
              && store.GetByID(id) == Ok(r.value)
  {
    var found := store.GetByID(id);
    if found.Err? {
      return Err(Fail(UserNotFound));
    }
    var usr := found.value;
    if req.name != "" {
      usr := usr.(name := req.name);
    }
    if req.email != "" {
      usr := usr.(email := req.email);
    }
    assert usr == MergeUser(found.value, req);
    ghost var before := store.users;
    var err := store.Update(usr, now, fault);
    if err.Some? {
      if fault.None? && 'd' !in usr.email && 'q' !in usr.email {
        DuplicateEntryNotRecognised(usr.email);
      }
      return Err(MapSaveError(err.value));
    }
    FirstAfterUpdate(before, LiveWithID(id), SavedUser(usr, now));
    r := Ok(usr.(updatedAt := now));
  }

  /** DeleteUser: "user not found" for an id with no live user; otherwise
      the user soft-deleted. */
  method DeleteUser(store: UserStore, id: nat, now: int, fault: Option<string>) returns (err: Option<Error>)
    requires store.Valid()
    modifies store
    ensures store.Valid()
    ensures store.nextID == old(store.nextID)
    ensures old(store.GetByID(id)).Err? ==> err == Some(Fail(UserNotFound))
    ensures old(store.GetByID(id)).Ok? && fault.Some? ==> err == Some(Failure(fault.value))
    ensures err.None? <==> old(store.GetByID(id)).Ok? && fault.None?
    ensures err.Some? ==> store.users == old(store.users)
    ensures err.None? ==>
              && store.users == UpdateWhere(old(store.users), LiveWithID(id), SoftDeleted(now))
              && store.GetByID(id) == Err(RecordNotFound)
  {
    var found := store.GetByID(id);
    if found.Err? {
      return Some(Fail(UserNotFound));
    }
    err := store.Delete(id, now, fault);
    if err.None? {
      DeletedNotFound(old(store.users), id, now);
    }
  }

  /** After a soft delete no live user has the id. */
  lemma DeletedNotFound(users: seq<User>, id: nat, now: int)
    ensures forall i :: 0 <= i < |users| ==> !LiveWithID(id)(UpdateWhere(users, LiveWithID(id), SoftDeleted(now))[i])
  {
  }

  /** A soft-deleted user's email can neither log in nor be registered
      again: no live user holds it any more, yet the unique index still
      does. */
  lemma DeletedEmailUnusable(users: seq<User>, i: nat, now: int)
    requires EmailsUnique(users) && i < |users| && IsLive(users[i])
    ensures var after := UpdateWhere(users, LiveWithID(users[i].id), SoftDeleted(now));
      && EmailHeld(after, users[i].email)
      && forall j :: 0 <= j < |after| && after[j].email == users[i].email ==> !IsLive(after[j])
  {
    var after := UpdateWhere(users, LiveWithID(users[i].id), SoftDeleted(now));
    assert after[i].email == users[i].email;
  }
}
