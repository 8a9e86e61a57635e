/** `UserToolsManager` over the two tables it reads and writes. The tables
    are fields updated in place: a record fetched by `get` is a value that
    the method changes and writes back, as `save()` and `delete()` do.
    Each method is proved to leave the tables, return the outcome and send
    the signals that the corresponding function of `Managers` (or of
    `Models`, for `change_email`) describes. */
module Database {
  import opened Util
  import opened Keys
  import opened Models
  import Managers

  class UserToolsManager {
    var users: map<UserId, User>
    var tools: map<UserId, UserTools>
    /** Order in which a scan of the user table returns the rows. */
    var order: seq<UserId>
    /** Next primary key the user table hands out. */
    var nextId: UserId
    /** Every signal sent so far, oldest first. */
    ghost var signals: seq<Signal>

    function State(): Db
      reads this
    {
      Db(users, tools, order)
    }

    ghost predicate Valid()
      reads this
    {
      State().Valid() && forall id :: id in users ==> id < nextId
    }

    constructor ()
      ensures Valid() && State() == Db(map[], map[], []) && signals == []
    {
      users, tools, order, nextId := map[], map[], [], 0;
      signals := [];
    }

    /** A new user row, as the framework's `create_user` stores it (without
        its `UserTools` row, which `CreateUsertools` adds). */
    method AddUser(email: string, dateJoined: int, isStaff: bool) returns (id: UserId)
      requires Valid()
      modifies this
      ensures Valid() && nextId == old(nextId) + 1
      ensures id !in old(users)
      ensures users == old(users)[id := User(email, dateJoined, isStaff)]
      ensures tools == old(tools) && order == old(order) + [id] && signals == old(signals)
    {
      id := nextId;
      assert id !in order;
      users := users[id := User(email, dateJoined, isStaff)];
      order := order + [id];
      nextId := nextId + 1;
    }

    /** `create_usertools(user)`; `key` is what `generate_hash` returned. */
    method CreateUsertools(owner: UserId, key: HashKey) returns (r: Result<UserTools, Managers.CreateError>)
      requires Valid()
      modifies this
      ensures Valid() && signals == old(signals) && nextId == old(nextId)
      ensures var spec := Managers.CreateUsertools(old(State()), owner, key);
              && (r.Ok? <==> spec.Ok?)
              && (spec.Ok? ==> State() == spec.value && r.value == spec.value.tools[owner])
              && (spec.Err? ==> State() == old(State()))
    {
      if owner !in users || owner in tools {
        return Err(Managers.IntegrityError);
      }
      var t := UserTools(Some(key), false, None, "", None);
      tools := tools[owner := t];
      r := Ok(t);
    }

    /** `verify_email(key)` at clock reading `now`. */
    method VerifyEmail(key: string, now: int, verificationDays: int) returns (r: Managers.VerifyResult)
      requires Valid()
      modifies this
      ensures Valid() && nextId == old(nextId)
      ensures var spec := Managers.VerifyEmail(old(State()), key, now, verificationDays);
              r == spec.result && State() == spec.db && signals == old(signals) + spec.events
    {
      if !SearchSha1Re(key) {
        return Managers.VerifyFalse;
      }
      var found := Managers.Get(Managers.VerificationKeyMatches(State(), key));
      match found {
        case DoesNotExist =>
          return Managers.VerifyFalse;
        case MultipleObjectsReturned =>
          return Managers.VerifyMultiple;
        case Found(id) =>
          var record := tools[id];
          if !record.verified && !VerificationKeyExpired(users[id].dateJoined, now, verificationDays) {
            record := record.(verified := true);
            tools := tools[id := record];
            signals := signals + [VerificationComplete(id)];
            return Managers.VerifyInstance(id, record);
          }
          return Managers.VerifyTrue;
      }
    }

    /** `confirm_email(key)`. */
    method ConfirmEmail(key: string) returns (r: Managers.ConfirmResult)
      requires Valid()
      modifies this
      ensures Valid() && nextId == old(nextId)
      ensures var spec := Managers.ConfirmEmail(old(State()), key);
              r == spec.result && State() == spec.db && signals == old(signals) + spec.events
    {
      if !SearchSha1Re(key) {
        return Managers.ConfirmFalse;
      }
      var found := Managers.Get(Managers.PendingKeyMatches(State(), key));
      match found {
        case DoesNotExist =>
          return Managers.ConfirmFalse;
        case MultipleObjectsReturned =>
          return Managers.ConfirmMultiple;
        case Found(id) =>
          var record := tools[id];
          var user := users[id];
          var oldEmail := user.email;
          user := user.(email := record.emailUnconfirmed.value);
          record := record.(emailUnconfirmed := Some(""), emailConfirmationKey := "");
          tools := tools[id := record];
          users := users[id := user];
          signals := signals + [ConfirmationComplete(id, oldEmail)];
          return Managers.ConfirmUser(id, user);
      }
    }

    /** `UserTools.change_email(email)` on the record of `owner`; `key` is
        what `generate_hash` returned and `now` the clock reading. */
    method ChangeEmail(owner: UserId, email: string, key: HashKey, now: int)
      requires Valid() && owner in tools
      modifies this
      ensures Valid() && signals == old(signals) && nextId == old(nextId)
      ensures State() == Models.ChangeEmail(old(State()), owner, email, key, now)
    {
      var record := tools[owner];
      record := record.(emailUnconfirmed := Some(email));
      record := record.(emailConfirmationKey := key);
      record := record.(emailConfirmationKeyCreated := Some(now));
      tools := tools[owner := record];
    }

    /** `user.delete()` on the row of `id`, with the cascade to its
        `UserTools` row. */
    method DeleteUser(id: UserId)
      requires Valid()
      modifies this
      ensures Valid() && signals == old(signals) && nextId == old(nextId)
      ensures State() == old(State()).DeleteUser(id)
    {
      var next := State().DeleteUser(id);
      users, tools, order := next.users, next.tools, next.order;
    }

    /** `delete_expired_users()` at clock reading `now`: a scan of the
        non-staff users that deletes each unverified, expired one. */
    method DeleteExpiredUsers(now: int, verificationDays: int) returns (r: Managers.SweepResult)
      requires Valid()
      modifies this
      ensures Valid() && signals == old(signals) && nextId == old(nextId)
      ensures var spec := Managers.DeleteExpiredUsers(old(State()), now, verificationDays);
              r == spec.result && State() == spec.db
    {
      ghost var db := State();
      var rest := Managers.NonStaffUsers(State());
      var deleted: seq<UserId> := [];
      while rest != []
        invariant Valid() && signals == old(signals) && nextId == old(nextId) && State() == db
        invariant Managers.Scannable(db, rest)
        invariant var sweep := Managers.SweepFrom(db, rest, now, verificationDays);
                  Managers.DeleteExpiredUsers(old(State()), now, verificationDays)
                  == Managers.SweepStep(Managers.PrependAll(deleted, sweep.result), sweep.db)
        decreases |rest|
      {
        var id := rest[0];
        if id !in tools {
          return Managers.SweepRaised(id);
        }
        if !tools[id].verified && VerificationKeyExpired(users[id].dateJoined, now, verificationDays) {
          Managers.SweepFromDeleteStep(db, rest, now, verificationDays);
          ghost var after := Managers.SweepFrom(db.DeleteUser(id), rest[1..], now, verificationDays);
          Managers.PrependAllTwice(deleted, id, after.result);
          DeleteUser(id);
          db := db.DeleteUser(id);
          deleted := deleted + [id];
        } else {
          Managers.SweepFromKeepStep(db, rest, now, verificationDays);
        }
        rest := rest[1..];
      }
      return Managers.Swept(deleted);
    }
  }
}
