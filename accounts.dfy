/** The users table and its one-to-one details table (models.py:74-95), with
    the account routes of routers/auth/auth.py. Deleting a user also deletes
    its details row: the relationship cascades with delete-orphan. */
module Accounts {
  import opened Common
  import opened Schema

  datatype AccountError =
    | UserAlreadyExists
    | UserNotFound
    | DetailsAlreadyExist
      /** A commit refused by a unique column (email, phone number). */
    | UniqueViolation
  {
    function Status(): int {
      match this
      case UserNotFound => 404
      case UniqueViolation => 500
      case _ => 400
    }
  }

  /** No two users share an email or a phone number (models.py:80-81). */
  ghost predicate ContactsUnique(users: map<string, User>) {
    forall a, b :: a in users && b in users && a != b ==>
      users[a].email != users[b].email && users[a].phoneNumber != users[b].phoneNumber
  }

  /** Would storing `u` clash with another user's email or phone number? */
  predicate ClashesWithOther(users: map<string, User>, u: User) {
    exists k :: k in users && k != u.clerkId &&
      (users[k].email == u.email || users[k].phoneNumber == u.phoneNumber)
  }

  /** Storing a user that clashes with nobody keeps contacts unique. */
  lemma {:induction false} StoreKeepsContactsUnique(users: map<string, User>, u: User)
    requires ContactsUnique(users) && !ClashesWithOther(users, u)
    ensures ContactsUnique(users[u.clerkId := u])
  {
    var m := users[u.clerkId := u];
    forall a, b | a in m && b in m && a != b
      ensures m[a].email != m[b].email && m[a].phoneNumber != m[b].phoneNumber
    {
      if a == u.clerkId {
        assert !(users[b].email == u.email || users[b].phoneNumber == u.phoneNumber);
      } else if b == u.clerkId {
        assert !(users[a].email == u.email || users[a].phoneNumber == u.phoneNumber);
      }
    }
  }

  class Accounts {
    /** `users`, keyed by the unique clerkId. */
    var users: map<string, User>
    /** `user_details`, keyed by its unique clerkId. */
    var details: map<string, UserDetails>

    ghost predicate Valid()
      reads this
    {
      && (forall k :: k in users ==> users[k].clerkId == k)
      && (forall k :: k in details ==> details[k].clerkId == k)
      && details.Keys <= users.Keys
      && ContactsUnique(users)
    }

    constructor ()
      ensures Valid() && users == map[] && details == map[]
    {
      users := map[];
      details := map[];
    }

    /** `create_user`: reject a known clerkId, otherwise store the request as is. */
    method CreateUser(req: User) returns (r: Result<User, AccountError>)
      requires Valid()
      modifies this
      ensures Valid() && details == old(details)
      ensures req.clerkId in old(users) ==> r == Err(UserAlreadyExists) && users == old(users)
      ensures req.clerkId !in old(users) && ClashesWithOther(old(users), req) ==>
        r == Err(UniqueViolation) && users == old(users)
      ensures req.clerkId !in old(users) && !ClashesWithOther(old(users), req) ==>
        r == Ok(req) && users == old(users)[req.clerkId := req]
    {
      if req.clerkId in users {
        return Err(UserAlreadyExists);
      }
      if ClashesWithOther(users, req) {
        return Err(UniqueViolation);
      }
      StoreKeepsContactsUnique(users, req);
      users := users[req.clerkId := req];
      r := Ok(req);
    }

    /** `delete_user`: 404 for an unknown clerkId; otherwise the user and its
        details row go, and nobody else changes. */
    method DeleteUser(clerkId: string) returns (r: Result<(), AccountError>)
      requires Valid()
      modifies this
      ensures Valid()
      ensures clerkId !in old(users) ==>
        r == Err(UserNotFound) && users == old(users) && details == old(details)
      ensures clerkId in old(users) ==>
        && r == Ok(())
        && users == old(users) - {clerkId}
        && details == old(details) - {clerkId}
      ensures clerkId !in users
    {
      if clerkId !in users {
        return Err(UserNotFound);
      }
      users := users - {clerkId};
      details := details - {clerkId};
      r := Ok(());
    }
  }
}
