/** The records of usertools/models.py, the store that holds them, the
    expiry test and the state update of `UserTools.change_email`. */
module Models {
  import opened Util
  import opened Keys

  /** Primary key of a user row; the `UserTools` row of a user is found by
      the same key (the one-to-one `user` field). */
  type UserId = nat

  const SecondsPerDay: int := 86400

  /** `USERTOOLS_VERIFICATION_DAYS` when the project does not set it. */
  const DefaultVerificationDays: int := 7

  /** `max_length` of both key columns. */
  const KeyMaxLength: int := 40

  /** The fields of the framework's user row that the core reads or writes.
      `dateJoined` is a clock reading in whole seconds. */
  datatype User = User(email: string, dateJoined: int, isStaff: bool)

  /** A `UserTools` row. `verificationKey` and `emailUnconfirmed` are
      nullable columns; `emailConfirmationKey` is a non-null column whose
      empty value is "". */
  datatype UserTools = UserTools(
    verificationKey: Option<string>,
    verified: bool,
    emailUnconfirmed: Option<string>,
    emailConfirmationKey: string,
    emailConfirmationKeyCreated: Option<int>)

  /** The two signals of usertools/signals.py, as entries of an event log. */
  datatype Signal =
    | VerificationComplete(instance: UserId)
    | ConfirmationComplete(instance: UserId, oldEmail: string)

  /** Neither key column holds more than forty characters. */
  predicate KeysBounded(t: UserTools) {
    && (t.verificationKey.Some? ==> |t.verificationKey.value| <= KeyMaxLength)
    && |t.emailConfirmationKey| <= KeyMaxLength
  }

  /** A confirmation key is only present together with a pending address,
      and without a key the pending address is null or "". */
  predicate PendingPaired(t: UserTools) {
    && (t.emailConfirmationKey != "" ==> t.emailUnconfirmed.Some?)
    && (t.emailConfirmationKey == "" ==> t.emailUnconfirmed == None || t.emailUnconfirmed == Some(""))
  }

  predicate WellFormed(t: UserTools) {
    KeysBounded(t) && PendingPaired(t)
  }

  /** The user table, the `UserTools` table and the order in which a scan of
      the user table returns its rows. */
  datatype Db = Db(users: map<UserId, User>, tools: map<UserId, UserTools>, order: seq<UserId>) {

    ghost predicate Valid() {
      && NoDup(order)
      && (forall id :: id in order <==> id in users)
      && tools.Keys <= users.Keys
      && (forall id :: id in tools ==> WellFormed(tools[id]))
    }

    /** `user.delete()`: the user row goes, and with it (cascade) its
        `UserTools` row. */
    function DeleteUser(id: UserId): (r: Db)
      requires Valid()
      ensures r.Valid()
      ensures r.users == users - {id} && r.tools == tools - {id}
      ensures forall x :: x in r.order <==> x in order && x != id
    {
      FilterNoDup(order, x => x != id);
      Db(users - {id}, tools - {id}, Filter(order, x => x != id))
    }
  }

  /** The `UserTools` row a fresh user gets from `create_usertools`. */
  function NewUserTools(key: HashKey): (t: UserTools)
    ensures WellFormed(t)
    ensures t.verificationKey == Some(key) && !t.verified
    ensures t.emailUnconfirmed == None && t.emailConfirmationKey == ""
  {
    UserTools(Some(key), false, None, "", None)
  }

  /** `UserTools.verification_key_expired`: the key is expired from the
      instant `dateJoined + verificationDays` days on, the boundary included;
      put otherwise, once at least `verificationDays` whole days have passed
      since the user joined. */
  predicate VerificationKeyExpired(dateJoined: int, now: int, verificationDays: int)
    ensures VerificationKeyExpired(dateJoined, now, verificationDays) <==>
            (now - dateJoined) / SecondsPerDay >= verificationDays
  {
    WholeDays(now - dateJoined, verificationDays);
    now >= dateJoined + verificationDays * SecondsPerDay
  }

  /** `elapsed` seconds make at least `days` whole days exactly when they
      reach `days * SecondsPerDay`. */
  lemma WholeDays(elapsed: int, days: int)
    ensures elapsed / SecondsPerDay >= days <==> elapsed >= days * SecondsPerDay
  {
    var q, r := elapsed / SecondsPerDay, elapsed % SecondsPerDay;
    assert elapsed == q * SecondsPerDay + r && 0 <= r < SecondsPerDay;
    if q >= days {
      assert q * SecondsPerDay >= days * SecondsPerDay;
    } else {
      assert q + 1 <= days;
      assert (q + 1) * SecondsPerDay <= days * SecondsPerDay;
    }
  }

  /** One second before the window closes the key is still good; at the
      closing instant it has expired. */
  lemma ExpiryBoundary(dateJoined: int, verificationDays: int)
    ensures !VerificationKeyExpired(dateJoined, dateJoined + verificationDays * SecondsPerDay - 1, verificationDays)
    ensures VerificationKeyExpired(dateJoined, dateJoined + verificationDays * SecondsPerDay, verificationDays)
  {
  }

  /** Once expired, a key stays expired as the clock advances. */
  lemma ExpiryMonotone(dateJoined: int, now: int, later: int, verificationDays: int)
    requires now <= later
    ensures VerificationKeyExpired(dateJoined, now, verificationDays) ==> VerificationKeyExpired(dateJoined, later, verificationDays)
  {
  }

  /** With the default setting a key is good for 604800 seconds: it is
      still good one second before and expired at exactly that many. */
  lemma DefaultExpiry(dateJoined: int)
    ensures !VerificationKeyExpired(dateJoined, dateJoined + 604799, DefaultVerificationDays)
    ensures VerificationKeyExpired(dateJoined, dateJoined + 604800, DefaultVerificationDays)
  {
    ExpiryBoundary(dateJoined, DefaultVerificationDays);
  }

  /** `UserTools.change_email` without the mail it sends: the owner's row
      gets the requested address as pending, a fresh key from the hash
      oracle and the clock reading; nothing else in the store changes. */
  function ChangeEmail(db: Db, owner: UserId, email: string, key: HashKey, now: int): (r: Db)
    requires db.Valid() && owner in db.tools
    ensures r.Valid()
    ensures r.users == db.users && r.order == db.order
    ensures r.tools.Keys == db.tools.Keys
    ensures forall id :: id in db.tools && id != owner ==> r.tools[id] == db.tools[id]
    ensures r.tools[owner].emailUnconfirmed == Some(email)
    ensures IsSha1Hex(r.tools[owner].emailConfirmationKey) && r.tools[owner].emailConfirmationKey == key
    ensures r.tools[owner].emailConfirmationKeyCreated == Some(now)
    ensures r.tools[owner].verified == db.tools[owner].verified
    ensures r.tools[owner].verificationKey == db.tools[owner].verificationKey
  {
    var t := db.tools[owner];
    db.(tools := db.tools[owner := t.(emailUnconfirmed := Some(email),
                                      emailConfirmationKey := key,
                                      emailConfirmationKeyCreated := Some(now))])
  }
}
