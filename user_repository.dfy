/** Users (internal/repository/user_repository.go over the entity of
    internal/domain/user/entity.go). Deletes are soft: gorm.DeletedAt marks
    the row and every query leaves marked rows out, while the unique index
    on email still covers them. */
module UserRepository {
  import opened Common
  import opened Collections
  import opened Tables

  /** The unique index on users.email, as MySQL names it in error 1062. */
  const EmailKey: string := "users.email"

  /** User. `deletedAt` is set by a soft delete. */
  datatype User = User(
    id: nat, createdAt: int, updatedAt: int, deletedAt: Option<int>,
    name: string, email: string, password: string)

  function UserKey(u: User): nat { u.id }

  predicate IsLive(u: User)
  {
    u.deletedAt.None?
  }

  function Live(): User -> bool
  {
    (u: User) => IsLive(u)
  }

  function LiveWithID(id: nat): User -> bool
  {
    (u: User) => IsLive(u) && u.id == id
  }

  function LiveWithEmail(email: string): User -> bool
  {
    (u: User) => IsLive(u) && u.email == email
  }

  /** Save: every column of the live row replaced by the struct's,
      updated_at bumped (the row is live, so deleted_at stays NULL). */
  function SavedUser(u: User, now: int): (f: User -> User)
    ensures forall row :: f(row).id == row.id && f(row).deletedAt == row.deletedAt && f(row).updatedAt == now
    ensures forall row :: f(row).(updatedAt := u.updatedAt, id := u.id, deletedAt := u.deletedAt) == u
  {
    (row: User) => u.(id := row.id, deletedAt := row.deletedAt, updatedAt := now)
  }

  /** A soft delete: deleted_at set, nothing else. */
  function SoftDeleted(now: int): (f: User -> User)
    ensures forall row :: !IsLive(f(row)) && f(row).deletedAt == Some(now)
    ensures forall row :: f(row).(deletedAt := row.deletedAt) == row
  {
    (row: User) => row.(deletedAt := Some(now))
  }

  /** Emails are unique over every row, soft-deleted ones included. */
  ghost predicate EmailsUnique(users: seq<User>)
  {
    forall i, j :: 0 <= i < j < |users| ==> users[i].email != users[j].email
  }

  /** Some row, live or soft-deleted, holds this email. */
  predicate EmailHeld(users: seq<User>, email: string)
  {
    exists i :: 0 <= i < |users| && users[i].email == email
  }

  /** Some row other than the one with `id` holds this email. */
  predicate EmailHeldByOther(users: seq<User>, id: nat, email: string)
  {
    exists i :: 0 <= i < |users| && users[i].id != id && users[i].email == email
  }

  class UserStore {
    /** users, in id order. */
    var users: seq<User>
    var nextID: nat

    ghost predicate Valid()
      reads this
    {
      && nextID >= 1
      && KeyOrdered(users, UserKey, nextID)
      && EmailsUnique(users)
    }

    constructor ()
      ensures Valid()
      ensures users == [] && nextID == 1
    {
      users := [];
      nextID := 1;
    }

    /** GetAll: the live users, in id order. */
    function GetAll(): (r: seq<User>)
      reads this
      ensures forall u :: u in r <==> u in users && IsLive(u)
    {
      Filter(users, Live())
    }

    /** GetByID: the live user with that id, or ErrRecordNotFound. */
    function GetByID(id: nat): (r: Result<User>)
      reads this
      ensures r.Ok? <==> exists i :: 0 <= i < |users| && IsLive(users[i]) && users[i].id == id
      ensures r.Ok? ==> r.value in users && IsLive(r.value) && r.value.id == id
      ensures r.Err? ==> r.error == RecordNotFound
    {
      First(users, LiveWithID(id))
    }

    /** GetByEmail: the live user with that email, or ErrRecordNotFound. */
    function GetByEmail(email: string): (r: Result<User>)
      reads this
      ensures r.Ok? <==> exists i :: 0 <= i < |users| && IsLive(users[i]) && users[i].email == email
      ensures r.Ok? ==> r.value in users && IsLive(r.value) && r.value.email == email
      ensures r.Err? ==> r.error == RecordNotFound
    {
      First(users, LiveWithEmail(email))
    }

    /** Create: the user inserted with the next id and both timestamps
        `now`; an email held by any row, even a soft-deleted one, is refused
        by the unique index. */
    method Create(name: string, email: string, password: string, now: int, fault: Option<string>)
      returns (r: Result<User>)
      requires Valid()
      modifies this
      ensures Valid()
      ensures fault.Some? ==> r == Err(Failure(fault.value))
      ensures fault.None? && EmailHeld(old(users), email) ==> r == Err(Failure(DuplicateEntry(email, EmailKey)))
      ensures r.Ok? <==> fault.None? && !EmailHeld(old(users), email)
      ensures r.Err? ==> users == old(users) && nextID == old(nextID)
      ensures r.Ok? ==>
                && r.value == User(old(nextID), now, now, None, name, email, password)
                && users == old(users) + [r.value]
                && nextID == old(nextID) + 1
    {
      if fault.Some? {
        return Err(Failure(fault.value));
      }
      if EmailHeld(users, email) {
        return Err(Failure(DuplicateEntry(email, EmailKey)));
      }
      var row := User(nextID, now, now, None, name, email, password);
      AppendKeyOrdered(users, UserKey, nextID, row);
      AppendKeepsEmailsUnique(users, row);
      users := users + [row];
      nextID := nextID + 1;
      r := Ok(row);
    }

    /** Update (Save): the live row with the struct's id replaced by the
        struct, updated_at bumped; an email held by another row is refused
        by the unique index. */
    method Update(u: User, now: int, fault: Option<string>) returns (err: Option<Error>)
      requires Valid()
      modifies this
      ensures Valid()
      ensures nextID == old(nextID)
      ensures fault.Some? ==> err == Some(Failure(fault.value))
      ensures fault.None? && EmailHeldByOther(old(users), u.id, u.email) ==>
                err == Some(Failure(DuplicateEntry(u.email, EmailKey)))
      ensures err.None? <==> fault.None? && !EmailHeldByOther(old(users), u.id, u.email)
      ensures err.Some? ==> users == old(users)
      ensures err.None? ==> users == UpdateWhere(old(users), LiveWithID(u.id), SavedUser(u, now))
    {
      if fault.Some? {
        return Some(Failure(fault.value));
      }
      if EmailHeldByOther(users, u.id, u.email) {
        return Some(Failure(DuplicateEntry(u.email, EmailKey)));
      }
      UpdateKeyOrdered(users, UserKey, nextID, LiveWithID(u.id), SavedUser(u, now));
      SaveKeepsEmailsUnique(users, u, now);
      users := UpdateWhere(users, LiveWithID(u.id), SavedUser(u, now));
      err := None;
    }

    /** Delete: the live row with that id marked deleted; no such row is
        not an error. */
    method Delete(id: nat, now: int, fault: Option<string>) returns (err: Option<Error>)
      requires Valid()
      modifies this
      ensures Valid()
      ensures nextID == old(nextID)
      ensures fault.Some? ==> err == Some(Failure(fault.value)) && users == old(users)
      ensures fault.None? ==>
                && err == None
                && users == UpdateWhere(old(users), LiveWithID(id), SoftDeleted(now))
    {
      if fault.Some? {
        return Some(Failure(fault.value));
      }
      UpdateKeyOrdered(users, UserKey, nextID, LiveWithID(id), SoftDeleted(now));
      users := UpdateWhere(users, LiveWithID(id), SoftDeleted(now));
      err := None;
    }
  }

  lemma AppendKeepsEmailsUnique(users: seq<User>, u: User)
    requires EmailsUnique(users)
    requires !EmailHeld(users, u.email)
    ensures EmailsUnique(users + [u])
  {
    var r := users + [u];
    forall i, j | 0 <= i < j < |r| ensures r[i].email != r[j].email {
      assert r[i] == users[i];
    }
  }

  /** A save that takes no other row's email keeps emails unique. */
  lemma SaveKeepsEmailsUnique(users: seq<User>, u: User, now: int)
    requires Ascending(users, UserKey) && EmailsUnique(users)
    requires !EmailHeldByOther(users, u.id, u.email)
    ensures EmailsUnique(UpdateWhere(users, LiveWithID(u.id), SavedUser(u, now)))
  {
    var r := UpdateWhere(users, LiveWithID(u.id), SavedUser(u, now));
    forall i, j | 0 <= i < j < |r| ensures r[i].email != r[j].email {
      assert UserKey(users[i]) < UserKey(users[j]);
      if LiveWithID(u.id)(users[i]) {
        assert r[i].email == u.email && r[j] == users[j] && users[j].id != u.id;
      } else if LiveWithID(u.id)(users[j]) {
        assert r[j].email == u.email && r[i] == users[i] && users[i].id != u.id;
      }
    }
  }

  /** A soft delete keeps the email taken: the row stays, only marked. */
  lemma SoftDeleteKeepsEmailHeld(users: seq<User>, id: nat, now: int, email: string)
    requires EmailHeld(users, email)
    ensures EmailHeld(UpdateWhere(users, LiveWithID(id), SoftDeleted(now)), email)
  {
    var i :| 0 <= i < |users| && users[i].email == email;
    assert UpdateWhere(users, LiveWithID(id), SoftDeleted(now))[i].email == email;
  }
}
