/** The operations of `UserToolsManager` (usertools/managers.py) as
    functions from a store to an outcome, a new store and the signals sent,
    with the properties the code promises proved about them. */
module Managers {
  import opened Util
  import opened Keys
  import opened Models

  /** What the ORM's `get` does with the rows a query selects. */
  datatype Lookup = DoesNotExist | Found(owner: UserId) | MultipleObjectsReturned

  function Get(matches: seq<UserId>): (r: Lookup)
    ensures r == DoesNotExist <==> matches == []
    ensures r.Found? <==> |matches| == 1
    ensures r.Found? ==> matches == [r.owner]
  {
    if |matches| == 0 then DoesNotExist
    else if |matches| == 1 then Found(matches[0])
    else MultipleObjectsReturned
  }

  // ---------------------------------------------------------------------
  // create_usertools

  /** The one-to-one column rejects a second `UserTools` row for a user,
      and a row for a user that is not in the table. */
  datatype CreateError = IntegrityError

  /** `create_usertools(user)` with the key the hash oracle produced. */
  function CreateUsertools(db: Db, owner: UserId, key: HashKey): (r: Result<Db, CreateError>)
    requires db.Valid()
    ensures r.Ok? <==> owner in db.users && owner !in db.tools
    ensures r.Ok? ==> r.value.Valid()
    ensures r.Ok? ==> r.value.users == db.users && r.value.order == db.order
    ensures r.Ok? ==> r.value.tools.Keys == db.tools.Keys + {owner}
    ensures r.Ok? ==> forall id :: id in db.tools ==> r.value.tools[id] == db.tools[id]
    ensures r.Ok? ==> r.value.tools[owner].verificationKey == Some(key) && !r.value.tools[owner].verified
    ensures r.Ok? ==> r.value.tools[owner].emailUnconfirmed == None && r.value.tools[owner].emailConfirmationKey == ""
  {
    if owner in db.users && owner !in db.tools then
      Ok(db.(tools := db.tools[owner := NewUserTools(key)]))
    else
      Err(IntegrityError)
  }

  // ---------------------------------------------------------------------
  // verify_email

  predicate HasVerificationKey(db: Db, id: UserId, key: string) {
    id in db.tools && db.tools[id].verificationKey == Some(key)
  }

  function VerificationKeyIs(db: Db, key: string): UserId -> bool {
    (id: UserId) => HasVerificationKey(db, id, key)
  }

  /** The rows `get(verification_key=key)` selects. */
  function VerificationKeyMatches(db: Db, key: string): seq<UserId> {
    Filter(db.order, VerificationKeyIs(db, key))
  }

  /** `id` is the one record holding `key` as its verification key. */
  ghost predicate SoleVerificationOwner(db: Db, id: UserId, key: string) {
    HasVerificationKey(db, id, key) && forall j :: HasVerificationKey(db, j, key) ==> j == id
  }

  /** What `verify_email` returns: `False`, `True`, the updated instance,
      or the `MultipleObjectsReturned` that `get` raises. */
  datatype VerifyResult =
    | VerifyFalse
    | VerifyTrue
    | VerifyInstance(owner: UserId, record: UserTools)
    | VerifyMultiple

  datatype VerifyStep = VerifyStep(result: VerifyResult, db: Db, events: seq<Signal>)

  /** `verify_email(key)` at clock reading `now` with a window of
      `verificationDays` days. */
  function VerifyEmail(db: Db, key: string, now: int, verificationDays: int): (out: VerifyStep)
    requires db.Valid()
    ensures out.db.Valid()
    ensures !SearchSha1Re(key) ==> out == VerifyStep(VerifyFalse, db, [])
    ensures !out.result.VerifyInstance? ==> out.db == db && out.events == []
    ensures out.result.VerifyInstance? ==>
              && out.result.owner in out.db.tools
              && out.result.record == out.db.tools[out.result.owner]
              && out.result.record.verified
              && out.events == [VerificationComplete(out.result.owner)]
              && SoleVerificationOwner(db, out.result.owner, key)
    ensures out.db.users == db.users && out.db.order == db.order && out.db.tools.Keys == db.tools.Keys
    ensures forall id :: id in db.tools && db.tools[id].verified ==> out.db.tools[id].verified
  {
    if !SearchSha1Re(key) then VerifyStep(VerifyFalse, db, [])
    else match Get(VerificationKeyMatches(db, key))
      case DoesNotExist => VerifyStep(VerifyFalse, db, [])
      case MultipleObjectsReturned => VerifyStep(VerifyMultiple, db, [])
      case Found(id) =>
        var t := db.tools[id];
        if !t.verified && !VerificationKeyExpired(db.users[id].dateJoined, now, verificationDays) then
          var t' := t.(verified := true);
          VerifyStep(VerifyInstance(id, t'), db.(tools := db.tools[id := t']), [VerificationComplete(id)])
        else
          VerifyStep(VerifyTrue, db, [])
  }

  /** A well-formed key that no record holds: `False`, nothing changes. */
  lemma VerifyUnknownKey(db: Db, key: string, now: int, verificationDays: int)
    requires db.Valid()
    requires forall id :: !HasVerificationKey(db, id, key)
    ensures VerifyEmail(db, key, now, verificationDays) == VerifyStep(VerifyFalse, db, [])
  {
    assert VerificationKeyMatches(db, key) == [];
  }

  /** A key that passes the shape check only through its trailing newline
      is 41 characters long, longer than any stored key: `False`. */
  lemma VerifyNewlineKey(db: Db, key: string, now: int, verificationDays: int)
    requires db.Valid()
    requires SearchSha1Re(key) && !IsSha1Hex(key)
    ensures VerifyEmail(db, key, now, verificationDays) == VerifyStep(VerifyFalse, db, [])
  {
    forall id ensures !HasVerificationKey(db, id, key) {
      if id in db.tools && db.tools[id].verificationKey.Some? {
        assert KeysBounded(db.tools[id]);
      }
    }
    VerifyUnknownKey(db, key, now, verificationDays);
  }

  /** The sole holder of the key, unverified and within its window: the
      record becomes verified, nothing else changes, one
      `verification_complete` signal, and the record is returned. */
  lemma VerifyActivates(db: Db, key: string, now: int, verificationDays: int, id: UserId)
    requires db.Valid() && SearchSha1Re(key)
    requires SoleVerificationOwner(db, id, key)
    requires !db.tools[id].verified
    requires !VerificationKeyExpired(db.users[id].dateJoined, now, verificationDays)
    ensures var out := VerifyEmail(db, key, now, verificationDays);
            && id in out.db.tools
            && out.result == VerifyInstance(id, out.db.tools[id])
            && out.db.tools[id] == db.tools[id].(verified := true)
            && out.db.users == db.users && out.db.order == db.order
            && out.db.tools.Keys == db.tools.Keys
            && (forall x :: x in db.tools && x != id ==> out.db.tools[x] == db.tools[x])
            && out.events == [VerificationComplete(id)]
  {
    FilterSingleton(db.order, VerificationKeyIs(db, key), id);
  }

  /** The sole holder of the key is already verified: `True`, nothing changes. */
  lemma VerifyAlreadyVerified(db: Db, key: string, now: int, verificationDays: int, id: UserId)
    requires db.Valid() && SearchSha1Re(key)
    requires SoleVerificationOwner(db, id, key)
    requires db.tools[id].verified
    ensures VerifyEmail(db, key, now, verificationDays) == VerifyStep(VerifyTrue, db, [])
  {
    FilterSingleton(db.order, VerificationKeyIs(db, key), id);
  }

  /** The sole holder of the key is unverified but its window has closed:
      the same `True` as for an already verified record; the record stays
      unverified and is not deleted. */
  lemma VerifyExpiredReturnsTrue(db: Db, key: string, now: int, verificationDays: int, id: UserId)
    requires db.Valid() && SearchSha1Re(key)
    requires SoleVerificationOwner(db, id, key)
    requires !db.tools[id].verified
    requires VerificationKeyExpired(db.users[id].dateJoined, now, verificationDays)
    ensures var out := VerifyEmail(db, key, now, verificationDays);
            && out == VerifyStep(VerifyTrue, db, [])
            && id in out.db.users && id in out.db.tools && !out.db.tools[id].verified
  {
    FilterSingleton(db.order, VerificationKeyIs(db, key), id);
  }

  /** Two records holding the same key: `get` raises, nothing changes. */
  lemma VerifyDuplicateKey(db: Db, key: string, now: int, verificationDays: int, a: UserId, b: UserId)
    requires db.Valid() && SearchSha1Re(key)
    requires a != b && HasVerificationKey(db, a, key) && HasVerificationKey(db, b, key)
    ensures VerifyEmail(db, key, now, verificationDays) == VerifyStep(VerifyMultiple, db, [])
  {
    FilterTwo(db.order, VerificationKeyIs(db, key), a, b);
  }

  /** Verifying twice with the same key: the first call returns the record;
      the second, at any later clock reading, returns `True` and leaves the
      store as the first left it, since the record is now verified. */
  lemma {:induction false} VerifyTwice(db: Db, key: string, now: int, later: int, verificationDays: int)
    requires db.Valid()
    requires VerifyEmail(db, key, now, verificationDays).result.VerifyInstance?
    ensures var first := VerifyEmail(db, key, now, verificationDays);
            VerifyEmail(first.db, key, later, verificationDays) == VerifyStep(VerifyTrue, first.db, [])
  {
    var first := VerifyEmail(db, key, now, verificationDays);
    var id := first.result.owner;
    assert Get(VerificationKeyMatches(db, key)) == Found(id);
    forall x | x in db.order
      ensures VerificationKeyIs(db, key)(x) == VerificationKeyIs(first.db, key)(x)
    {
      if x in db.tools && x != id {
        assert first.db.tools[x] == db.tools[x];
      }
    }
    FilterCongruent(db.order, VerificationKeyIs(db, key), VerificationKeyIs(first.db, key));
    assert VerificationKeyMatches(first.db, key) == VerificationKeyMatches(db, key);
  }

  // ---------------------------------------------------------------------
  // confirm_email

  /** The record would be selected by
      `get(email_confirmation_key=key, email_unconfirmed__isnull=False)`. */
  predicate HasPendingKey(db: Db, id: UserId, key: string) {
    id in db.tools && db.tools[id].emailConfirmationKey == key && db.tools[id].emailUnconfirmed.Some?
  }

  function PendingKeyIs(db: Db, key: string): UserId -> bool {
    (id: UserId) => HasPendingKey(db, id, key)
  }

  function PendingKeyMatches(db: Db, key: string): seq<UserId> {
    Filter(db.order, PendingKeyIs(db, key))
  }

  ghost predicate SolePendingOwner(db: Db, id: UserId, key: string) {
    HasPendingKey(db, id, key) && forall j :: HasPendingKey(db, j, key) ==> j == id
  }

  /** What `confirm_email` returns: `False`, the updated user, or the
      `MultipleObjectsReturned` that `get` raises. */
  datatype ConfirmResult =
    | ConfirmFalse
    | ConfirmUser(owner: UserId, user: User)
    | ConfirmMultiple

  datatype ConfirmStep = ConfirmStep(result: ConfirmResult, db: Db, events: seq<Signal>)

  /** `confirm_email(key)`. */
  function ConfirmEmail(db: Db, key: string): (out: ConfirmStep)
    requires db.Valid()
    ensures out.db.Valid()
    ensures !SearchSha1Re(key) ==> out == ConfirmStep(ConfirmFalse, db, [])
    ensures !out.result.ConfirmUser? ==> out.db == db && out.events == []
    ensures out.result.ConfirmUser? ==>
              && out.result.owner in out.db.users
              && out.result.user == out.db.users[out.result.owner]
              && out.result.owner in out.db.tools
              && out.db.tools[out.result.owner].emailConfirmationKey == ""
              && SolePendingOwner(db, out.result.owner, key)
    ensures out.db.users.Keys == db.users.Keys && out.db.order == db.order && out.db.tools.Keys == db.tools.Keys
    ensures forall id :: id in db.tools ==> out.db.tools[id].verified == db.tools[id].verified
  {
    if !SearchSha1Re(key) then ConfirmStep(ConfirmFalse, db, [])
    else match Get(PendingKeyMatches(db, key))
      case DoesNotExist => ConfirmStep(ConfirmFalse, db, [])
      case MultipleObjectsReturned => ConfirmStep(ConfirmMultiple, db, [])
      case Found(id) =>
        var t := db.tools[id];
        var u := db.users[id];
        var u' := u.(email := t.emailUnconfirmed.value);
        var t' := t.(emailUnconfirmed := Some(""), emailConfirmationKey := "");
        ConfirmStep(ConfirmUser(id, u'),
                    db.(users := db.users[id := u'], tools := db.tools[id := t']),
                    [ConfirmationComplete(id, u.email)])
  }

  /** The sole record pending under the key: the user's email becomes the
      pending address, the pending address and the key become "", one
      `confirmation_complete` signal carries the previous email, and
      nothing else changes. */
  lemma ConfirmCompletes(db: Db, key: string, id: UserId)
    requires db.Valid() && SearchSha1Re(key)
    requires SolePendingOwner(db, id, key)
    ensures var out := ConfirmEmail(db, key);
            && id in out.db.users && id in out.db.tools
            && out.result == ConfirmUser(id, out.db.users[id])
            && out.db.users[id] == db.users[id].(email := db.tools[id].emailUnconfirmed.value)
            && out.db.tools[id] == db.tools[id].(emailUnconfirmed := Some(""), emailConfirmationKey := "")
            && out.db.order == db.order
            && out.db.users.Keys == db.users.Keys && out.db.tools.Keys == db.tools.Keys
            && (forall x :: x in db.users && x != id ==> out.db.users[x] == db.users[x])
            && (forall x :: x in db.tools && x != id ==> out.db.tools[x] == db.tools[x])
            && out.events == [ConfirmationComplete(id, db.users[id].email)]
  {
    FilterSingleton(db.order, PendingKeyIs(db, key), id);
  }

  /** A well-formed key under which nothing is pending: `False`. */
  lemma ConfirmUnknownKey(db: Db, key: string)
    requires db.Valid()
    requires forall id :: !HasPendingKey(db, id, key)
    ensures ConfirmEmail(db, key) == ConfirmStep(ConfirmFalse, db, [])
  {
    assert PendingKeyMatches(db, key) == [];
  }

  /** Two records pending under the same key: `get` raises, nothing changes. */
  lemma ConfirmDuplicateKey(db: Db, key: string, a: UserId, b: UserId)
    requires db.Valid() && SearchSha1Re(key)
    requires a != b && HasPendingKey(db, a, key) && HasPendingKey(db, b, key)
    ensures ConfirmEmail(db, key) == ConfirmStep(ConfirmMultiple, db, [])
  {
    FilterTwo(db.order, PendingKeyIs(db, key), a, b);
  }

  /** Confirming twice with the same key: the second call returns `False`,
      because the stored key is now "". */
  lemma {:induction false} ConfirmTwice(db: Db, key: string)
    requires db.Valid()
    requires ConfirmEmail(db, key).result.ConfirmUser?
    ensures var first := ConfirmEmail(db, key);
            ConfirmEmail(first.db, key) == ConfirmStep(ConfirmFalse, first.db, [])
  {
    var first := ConfirmEmail(db, key);
    var id := first.result.owner;
    var m := PendingKeyMatches(db, key);
    assert Get(m) == Found(id);
    assert m == [id];
    forall x ensures !HasPendingKey(first.db, x, key) {
      if x in first.db.tools && x != id {
        assert first.db.tools[x] == db.tools[x];
        assert x in db.order;
      }
    }
    ConfirmUnknownKey(first.db, key);
  }

  /** `change_email(address)` followed by `confirm_email` with the key it
      issued makes `address` the user's email, provided no other record
      holds the same key. */
  lemma ChangeThenConfirm(db: Db, owner: UserId, email: string, key: HashKey, now: int)
    requires db.Valid() && owner in db.tools
    requires forall j :: j in db.tools && j != owner ==> db.tools[j].emailConfirmationKey != key
    ensures var out := ConfirmEmail(ChangeEmail(db, owner, email, key, now), key);
            && out.result.ConfirmUser? && out.result.owner == owner
            && out.db.users[owner].email == email
            && out.db.tools[owner].emailUnconfirmed == Some("")
            && out.db.tools[owner].emailConfirmationKey == ""
  {
    var changed := ChangeEmail(db, owner, email, key, now);
    IssuedKeysPassShapeCheck(key);
    ConfirmCompletes(changed, key, owner);
  }

  // ---------------------------------------------------------------------
  // delete_expired_users

  function IsNonStaff(db: Db): UserId -> bool {
    (id: UserId) => id in db.users && !db.users[id].isStaff
  }

  /** `User.objects.filter(is_staff=False)`, in scan order. */
  function NonStaffUsers(db: Db): (r: seq<UserId>)
    requires db.Valid()
    ensures NoDup(r)
    ensures forall id :: id in r <==> id in db.users && !db.users[id].isStaff
  {
    FilterNoDup(db.order, IsNonStaff(db));
    Filter(db.order, IsNonStaff(db))
  }

  /** A user the sweep deletes: not staff, unverified, and expired. */
  predicate Doomed(db: Db, now: int, verificationDays: int, id: UserId) {
    && id in db.users && !db.users[id].isStaff
    && id in db.tools && !db.tools[id].verified
    && VerificationKeyExpired(db.users[id].dateJoined, now, verificationDays)
  }

  function IsDoomed(db: Db, now: int, verificationDays: int): UserId -> bool {
    (id: UserId) => Doomed(db, now, verificationDays, id)
  }

  /** The list of deleted users, or the exception raised when a scanned user
      has no `UserTools` row (deletions made before it stay done). */
  datatype SweepResult = Swept(deleted: seq<UserId>) | SweepRaised(missing: UserId)

  datatype SweepStep = SweepStep(result: SweepResult, db: Db)

  /** The users deleted before the rest of a sweep, put in front of what
      the rest returns; an exception in the rest discards them. */
  function PrependAll(done: seq<UserId>, r: SweepResult): SweepResult {
    match r
    case Swept(d) => Swept(done + d)
    case SweepRaised(_) => r
  }

  /** A scan over distinct non-staff users of the store. */
  ghost predicate Scannable(db: Db, scan: seq<UserId>) {
    NoDup(scan) && forall id :: id in scan ==> id in db.users && !db.users[id].isStaff
  }

  /** The loop of `delete_expired_users` over the rest `scan` of the rows. */
  function SweepFrom(db: Db, scan: seq<UserId>, now: int, verificationDays: int): (out: SweepStep)
    requires db.Valid() && Scannable(db, scan)
    ensures out.db.Valid()
    decreases |scan|
  {
    if scan == [] then SweepStep(Swept([]), db)
    else
      var id := scan[0];
      if id !in db.tools then SweepStep(SweepRaised(id), db)
      else if !db.tools[id].verified && VerificationKeyExpired(db.users[id].dateJoined, now, verificationDays) then
        NoDupTail(scan);
        var rest := SweepFrom(db.DeleteUser(id), scan[1..], now, verificationDays);
        SweepStep(PrependAll([id], rest.result), rest.db)
      else
        NoDupTail(scan);
        SweepFrom(db, scan[1..], now, verificationDays)
  }

  /** One step of the sweep on a doomed head: delete it, sweep the rest. */
  lemma SweepFromDeleteStep(db: Db, scan: seq<UserId>, now: int, verificationDays: int)
    requires db.Valid() && Scannable(db, scan) && scan != [] && scan[0] in db.tools
    requires !db.tools[scan[0]].verified
    requires VerificationKeyExpired(db.users[scan[0]].dateJoined, now, verificationDays)
    ensures Scannable(db.DeleteUser(scan[0]), scan[1..])
    ensures var rest := SweepFrom(db.DeleteUser(scan[0]), scan[1..], now, verificationDays);
            SweepFrom(db, scan, now, verificationDays) == SweepStep(PrependAll([scan[0]], rest.result), rest.db)
  {
    NoDupTail(scan);
  }

  /** One step of the sweep on a head it keeps: sweep the rest. */
  lemma SweepFromKeepStep(db: Db, scan: seq<UserId>, now: int, verificationDays: int)
    requires db.Valid() && Scannable(db, scan) && scan != [] && scan[0] in db.tools
    requires db.tools[scan[0]].verified || !VerificationKeyExpired(db.users[scan[0]].dateJoined, now, verificationDays)
    ensures Scannable(db, scan[1..])
    ensures SweepFrom(db, scan, now, verificationDays) == SweepFrom(db, scan[1..], now, verificationDays)
  {
    NoDupTail(scan);
  }

  lemma PrependAllTwice(done: seq<UserId>, id: UserId, r: SweepResult)
    ensures PrependAll(done, PrependAll([id], r)) == PrependAll(done + [id], r)
  {
    if r.Swept? {
      assert done + ([id] + r.deleted) == (done + [id]) + r.deleted;
    }
  }

  /** `delete_expired_users()` at clock reading `now`. */
  function DeleteExpiredUsers(db: Db, now: int, verificationDays: int): (out: SweepStep)
    requires db.Valid()
    ensures out.db.Valid()
  {
    SweepFrom(db, NonStaffUsers(db), now, verificationDays)
  }

  /** Deleting one user leaves every other user as doomed as before. */
  lemma DoomedAfterDelete(db: Db, now: int, verificationDays: int, id: UserId, x: UserId)
    requires db.Valid() && x != id
    ensures Doomed(db.DeleteUser(id), now, verificationDays, x) == Doomed(db, now, verificationDays, x)
  {
  }

  /** The sweep touches only doomed users of its scan: every other row is
      still there, unchanged, and no row appears. */
  lemma {:induction false} SweepFromKeeps(db: Db, scan: seq<UserId>, now: int, verificationDays: int)
    requires db.Valid() && Scannable(db, scan)
    ensures var out := SweepFrom(db, scan, now, verificationDays);
            && out.db.users.Keys <= db.users.Keys
            && out.db.tools.Keys <= db.tools.Keys
            && (forall x :: x in db.users && !(x in scan && Doomed(db, now, verificationDays, x)) ==>
                  x in out.db.users && out.db.users[x] == db.users[x])
            && (forall x :: x in db.tools && !(x in scan && Doomed(db, now, verificationDays, x)) ==>
                  x in out.db.tools && out.db.tools[x] == db.tools[x])
    decreases |scan|
  {
    if scan != [] {
      var id := scan[0];
      NoDupTail(scan);
      if id in db.tools {
        if !db.tools[id].verified && VerificationKeyExpired(db.users[id].dateJoined, now, verificationDays) {
          var next := db.DeleteUser(id);
          SweepFromKeeps(next, scan[1..], now, verificationDays);
          forall x | x != id ensures Doomed(next, now, verificationDays, x) == Doomed(db, now, verificationDays, x) {
            DoomedAfterDelete(db, now, verificationDays, id, x);
          }
        } else {
          SweepFromKeeps(db, scan[1..], now, verificationDays);
        }
      }
    }
  }

  /** The sweep completes exactly when every scanned user has a `UserTools`
      row; when it raises, it names a scanned user without one. */
  lemma {:induction false} SweepFromOutcome(db: Db, scan: seq<UserId>, now: int, verificationDays: int)
    requires db.Valid() && Scannable(db, scan)
    ensures var out := SweepFrom(db, scan, now, verificationDays);
            && (out.result.Swept? <==> forall x :: x in scan ==> x in db.tools)
            && (out.result.SweepRaised? ==> out.result.missing in scan && out.result.missing !in db.tools)
    decreases |scan|
  {
    if scan != [] {
      var id := scan[0];
      NoDupTail(scan);
      assert forall x :: x in scan <==> x == id || x in scan[1..];
      if id in db.tools {
        if !db.tools[id].verified && VerificationKeyExpired(db.users[id].dateJoined, now, verificationDays) {
          var next := db.DeleteUser(id);
          SweepFromOutcome(next, scan[1..], now, verificationDays);
          assert forall x :: x in scan[1..] ==> (x in next.tools <==> x in db.tools);
        } else {
          SweepFromOutcome(db, scan[1..], now, verificationDays);
        }
      }
    }
  }

  /** A completed sweep returns exactly the doomed users of its scan, in
      scan order. */
  lemma {:induction false} SweepFromDeletedList(db: Db, scan: seq<UserId>, now: int, verificationDays: int)
    requires db.Valid() && Scannable(db, scan)
    ensures var out := SweepFrom(db, scan, now, verificationDays);
            out.result.Swept? ==> out.result.deleted == Filter(scan, IsDoomed(db, now, verificationDays))
    decreases |scan|
  {
    if scan != [] {
      var id := scan[0];
      NoDupTail(scan);
      if id in db.tools {
        if !db.tools[id].verified && VerificationKeyExpired(db.users[id].dateJoined, now, verificationDays) {
          var next := db.DeleteUser(id);
          SweepFromDeletedList(next, scan[1..], now, verificationDays);
          forall x | x in scan[1..]
            ensures IsDoomed(next, now, verificationDays)(x) == IsDoomed(db, now, verificationDays)(x)
          {
            DoomedAfterDelete(db, now, verificationDays, id, x);
          }
          FilterCongruent(scan[1..], IsDoomed(next, now, verificationDays), IsDoomed(db, now, verificationDays));
        } else {
          SweepFromDeletedList(db, scan[1..], now, verificationDays);
        }
      }
    }
  }

  /** A completed sweep has deleted every doomed user of its scan. */
  lemma {:induction false} SweepFromRemoves(db: Db, scan: seq<UserId>, now: int, verificationDays: int)
    requires db.Valid() && Scannable(db, scan)
    ensures var out := SweepFrom(db, scan, now, verificationDays);
            out.result.Swept? ==> forall x :: x in scan && Doomed(db, now, verificationDays, x) ==> x !in out.db.users
    decreases |scan|
  {
    if scan != [] {
      var id := scan[0];
      NoDupTail(scan);
      if id in db.tools {
        if !db.tools[id].verified && VerificationKeyExpired(db.users[id].dateJoined, now, verificationDays) {
          var next := db.DeleteUser(id);
          SweepFromRemoves(next, scan[1..], now, verificationDays);
          SweepFromKeeps(next, scan[1..], now, verificationDays);
          forall x | x in scan[1..] && x != id
            ensures Doomed(next, now, verificationDays, x) == Doomed(db, now, verificationDays, x)
          {
            DoomedAfterDelete(db, now, verificationDays, id, x);
          }
        } else {
          SweepFromRemoves(db, scan[1..], now, verificationDays);
        }
      }
    }
  }

  /** With nothing doomed in the scan and every scanned user holding a
      `UserTools` row, the sweep deletes nothing. */
  lemma {:induction false} SweepFromNothingToDo(db: Db, scan: seq<UserId>, now: int, verificationDays: int)
    requires db.Valid() && Scannable(db, scan)
    requires forall x :: x in scan ==> x in db.tools && !Doomed(db, now, verificationDays, x)
    ensures SweepFrom(db, scan, now, verificationDays) == SweepStep(Swept([]), db)
    decreases |scan|
  {
    if scan != [] {
      NoDupTail(scan);
      assert scan[0] in scan;
      SweepFromNothingToDo(db, scan[1..], now, verificationDays);
    }
  }

  /** `delete_expired_users` removes exactly the non-staff users whose
      record is unverified and expired, returns them in scan order, and
      leaves every other row as it was. */
  lemma DeleteExpiredUsersExact(db: Db, now: int, verificationDays: int)
    requires db.Valid()
    requires forall x :: x in db.users && !db.users[x].isStaff ==> x in db.tools
    ensures var out := DeleteExpiredUsers(db, now, verificationDays);
            && out.result == Swept(Filter(NonStaffUsers(db), IsDoomed(db, now, verificationDays)))
            && (forall x :: x in out.db.users <==> x in db.users && !Doomed(db, now, verificationDays, x))
            && (forall x :: x in out.db.users ==> out.db.users[x] == db.users[x])
            && (forall x :: x in out.db.tools <==> x in db.tools && !Doomed(db, now, verificationDays, x))
            && (forall x :: x in out.db.tools ==> out.db.tools[x] == db.tools[x])
  {
    var scan := NonStaffUsers(db);
    SweepFromOutcome(db, scan, now, verificationDays);
    SweepFromDeletedList(db, scan, now, verificationDays);
    SweepFromRemoves(db, scan, now, verificationDays);
    SweepFromKeeps(db, scan, now, verificationDays);
  }

  /** Whatever happens, staff users and verified records are never deleted
      or changed. A scanned user without a `UserTools` row makes the sweep
      raise, naming such a user. */
  lemma DeleteExpiredUsersSpares(db: Db, now: int, verificationDays: int)
    requires db.Valid()
    ensures var out := DeleteExpiredUsers(db, now, verificationDays);
            && (forall x :: x in db.users && db.users[x].isStaff ==> x in out.db.users && out.db.users[x] == db.users[x])
            && (forall x :: x in db.tools && db.tools[x].verified ==> x in out.db.tools && out.db.tools[x] == db.tools[x])
            && (out.result.SweepRaised? <==> exists x :: x in db.users && !db.users[x].isStaff && x !in db.tools)
            && (out.result.SweepRaised? ==> out.result.missing in db.users && out.result.missing !in db.tools)
  {
    var scan := NonStaffUsers(db);
    SweepFromOutcome(db, scan, now, verificationDays);
    SweepFromKeeps(db, scan, now, verificationDays);
  }

  /** A second sweep at the same instant finds nothing more to delete. */
  lemma DeleteExpiredUsersIdempotent(db: Db, now: int, verificationDays: int)
    requires db.Valid()
    requires DeleteExpiredUsers(db, now, verificationDays).result.Swept?
    ensures var first := DeleteExpiredUsers(db, now, verificationDays);
            DeleteExpiredUsers(first.db, now, verificationDays) == SweepStep(Swept([]), first.db)
  {
    var first := DeleteExpiredUsers(db, now, verificationDays);
    var scan := NonStaffUsers(db);
    SweepFromOutcome(db, scan, now, verificationDays);
    DeleteExpiredUsersExact(db, now, verificationDays);
    var scan2 := NonStaffUsers(first.db);
    forall x | x in scan2 ensures x in first.db.tools && !Doomed(first.db, now, verificationDays, x) {
      assert x in scan;
    }
    SweepFromNothingToDo(first.db, scan2, now, verificationDays);
  }
}
