/** The profile routes of routers/user/user.py: add a details row once, and
    update user and details fields from a partial request. */
module Profile {
  import opened Common
  import opened Schema
  import opened Accounts

  datatype DetailsRequest = DetailsRequest(
    clerkId: string,
    address: Option<string>,
    city: Option<string>,
    state: Option<string>,
    country: Option<string>,
    pinCode: Option<string>)

  /** A partial update: `None` is a field the request left unset. The user's
      own fields carry a value when set; an address field may be set to null. */
  datatype UserPatch = UserPatch(
    firstName: Option<string>,
    lastName: Option<string>,
    email: Option<string>,
    phoneNumber: Option<string>,
    address: Option<Option<string>>,
    city: Option<Option<string>>,
    state: Option<Option<string>>,
    country: Option<Option<string>>,
    pinCode: Option<Option<string>>)

  function Pick<T>(update: Option<T>, current: T): T {
    if update.Some? then update.value else current
  }

  /** The `setattr` loop over first_name, last_name, email and phone_number. */
  function PatchUser(u: User, p: UserPatch): (r: User)
    ensures r.clerkId == u.clerkId && r.role == u.role
  {
    u.(firstName := Pick(p.firstName, u.firstName),
       lastName := Pick(p.lastName, u.lastName),
       email := Pick(p.email, u.email),
       phoneNumber := Pick(p.phoneNumber, u.phoneNumber))
  }

  /** The `setattr` loop over the remaining (address) fields. */
  function PatchDetails(d: UserDetails, p: UserPatch): (r: UserDetails)
    ensures r.clerkId == d.clerkId
  {
    d.(address := Pick(p.address, d.address),
       city := Pick(p.city, d.city),
       state := Pick(p.state, d.state),
       country := Pick(p.country, d.country),
       pinCode := Pick(p.pinCode, d.pinCode))
  }

  /** Applying the same partial update twice changes nothing more, and an
      update that sets nothing is the identity. */
  lemma PatchIdempotent(u: User, d: UserDetails, p: UserPatch)
    ensures PatchUser(PatchUser(u, p), p) == PatchUser(u, p)
    ensures PatchDetails(PatchDetails(d, p), p) == PatchDetails(d, p)
    ensures p == UserPatch(None, None, None, None, None, None, None, None, None) ==>
      PatchUser(u, p) == u && PatchDetails(d, p) == d
  {
  }

  /** `add_user_details`: 404 without a user, 400 when a details row exists,
      otherwise a row with exactly the requested fields. */
  method AddUserDetails(db: Accounts, req: DetailsRequest) returns (r: Result<UserDetails, AccountError>)
    requires db.Valid()
    modifies db
    ensures db.Valid() && db.users == old(db.users)
    ensures req.clerkId !in old(db.users) ==> r == Err(UserNotFound) && db.details == old(db.details)
    ensures req.clerkId in old(db.users) && req.clerkId in old(db.details) ==>
      r == Err(DetailsAlreadyExist) && db.details == old(db.details)
    ensures req.clerkId in old(db.users) && req.clerkId !in old(db.details) ==>
      var d := UserDetails(req.clerkId, req.address, req.city, req.state, req.country, req.pinCode);
      r == Ok(d) && db.details == old(db.details)[req.clerkId := d]
  {
    if req.clerkId !in db.users {
      return Err(UserNotFound);
    }
    if req.clerkId in db.details {
      return Err(DetailsAlreadyExist);
    }
    var d := UserDetails(req.clerkId, req.address, req.city, req.state, req.country, req.pinCode);
    db.details := db.details[req.clerkId := d];
    r := Ok(d);
  }

  /** `update_user_details`: 404 for an unknown user; otherwise the set user
      fields are written, and the set address fields only when a details row
      exists (none is created). A commit refused by the unique email or phone
      column changes nothing. */
  method UpdateUserDetails(db: Accounts, clerkId: string, p: UserPatch)
    returns (r: Result<(User, Option<UserDetails>), AccountError>)
    requires db.Valid()
    modifies db
    ensures db.Valid()
    ensures db.details.Keys == old(db.details.Keys)
    ensures clerkId !in old(db.users) ==>
      r == Err(UserNotFound) && db.users == old(db.users) && db.details == old(db.details)
    ensures clerkId in old(db.users) && ClashesWithOther(old(db.users), PatchUser(old(db.users)[clerkId], p)) ==>
      r == Err(UniqueViolation) && db.users == old(db.users) && db.details == old(db.details)
    ensures clerkId in old(db.users) && !ClashesWithOther(old(db.users), PatchUser(old(db.users)[clerkId], p)) ==>
      var u := PatchUser(old(db.users)[clerkId], p);
      && db.users == old(db.users)[clerkId := u]
      && (clerkId in old(db.details) ==>
            var d := PatchDetails(old(db.details)[clerkId], p);
            r == Ok((u, Some(d))) && db.details == old(db.details)[clerkId := d])
      && (clerkId !in old(db.details) ==> r == Ok((u, None)) && db.details == old(db.details))
  {
    if clerkId !in db.users {
      return Err(UserNotFound);
    }
    var u := PatchUser(db.users[clerkId], p);
    if ClashesWithOther(db.users, u) {
      return Err(UniqueViolation);
    }
    StoreKeepsContactsUnique(db.users, u);
    db.users := db.users[clerkId := u];
    if clerkId in db.details {
      var d := PatchDetails(db.details[clerkId], p);
      db.details := db.details[clerkId := d];
      r := Ok((u, Some(d)));
    } else {
      r := Ok((u, None));
    }
  }
}
