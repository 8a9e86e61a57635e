# django-usertools: verification and confirmation tokens

A Dafny model of the token lifecycle in django-usertools. The store holds two tables:

- users, with the fields `email`, `date_joined` and `is_staff`;
- one-to-one `UserTools` rows, with `verification_key`, `verified`, `email_unconfirmed`, `email_confirmation_key` and `email_confirmation_key_created`.

The model covers these operations of the store:

- A new account gets a `UserTools` row with a hashed verification key (`create_usertools`).
- `verify_email` marks the account verified when a well-formed key matches, within `VERIFICATION_DAYS` of joining.
- `change_email` parks a requested address as pending under a fresh confirmation key.
- `confirm_email` moves the pending address into the user's email.
- `delete_expired_users` sweeps away non-staff accounts that were never verified and whose window has closed.
- `ChangeEmailForm.clean_email` and `save` decide whether a requested address may be used, then hand it to `change_email`.

The project has two layers.

- Value level, in the modules `Keys`, `Models`, `Managers` and `Forms`. Each operation is a function from a store value (`Models.Db`) to an outcome, a new store and the signals sent. The properties the code promises are proved as lemmas about these functions.
- Imperative level, in the module `Database`. The class `Database.UserToolsManager` holds the tables as fields that its methods update in place. It is proved to update them exactly as the value-level functions describe. `delete_expired_users` is a loop over the scanned users, as in the source.

How the model maps the source's environment:

- Time is a whole number of seconds. Each operation takes the clock reading `now` as a parameter.
- `USERTOOLS_VERIFICATION_DAYS` is a parameter. Its default, 7, is `Models.DefaultVerificationDays` (`Models.DefaultExpiry`).
- `generate_hash` is an oracle. A caller passes its result in as a `Keys.HashKey`, a string of exactly forty lower-case hex digits.
- Sent signals are an event log. At the value level it is the `events` field of each step. In the class it is the ghost field `signals`.

Where the code and its documentation differ, the model follows the code:

- An expired, unverified key makes `verify_email` return `True`, the same value as for an already verified account, rather than a distinct failure.
- `SHA1_RE.search` also accepts forty hex digits followed by one newline, because Python's `$` matches before a final newline. Stored keys have at most forty characters, so such a key matches no row (`Managers.VerifyNewlineKey`).
- After a confirmation, `email_unconfirmed` is `''`, not null.
- The ORM's `get` raises `MultipleObjectsReturned` when two rows hold the same key. The model keeps that outcome (`VerifyMultiple`, `ConfirmMultiple`) instead of assuming keys are unique.
- A non-staff user without a `UserTools` row makes `delete_expired_users` raise. Deletions made before that point stay done (`SweepRaised`).

## Model

| member | source | states |
|---|---|---|
| `Keys.SearchSha1Re` | usertools/managers.py:24 | the pattern `^[a-f0-9]{40}$` as Python's `search` applies it: true exactly for forty lower-case hex digits, optionally followed by one final newline |
| `Keys.IssuedKeysPassShapeCheck` | usertools/managers.py:24 | every key the hash oracle can issue passes the shape check |
| `Keys.TrailingNewlinePasses` | usertools/managers.py:24 | an issued key with "\n" appended also passes the check, although it is not forty hex digits |
| `Models.Db.DeleteUser` | usertools/managers.py:190 | deleting a user removes its row and, by cascade, its `UserTools` row, removes it from the scan order, touches nothing else, and keeps the store well formed |
| `Models.NewUserTools` | usertools/models.py:41-49 | a new record holds the issued key, is unverified, has no pending address and an empty confirmation key, and keeps both key columns within forty characters |
| `Models.VerificationKeyExpired` | usertools/models.py:123-137 | `verification_key_expired` holds exactly when at least `VERIFICATION_DAYS` whole days have passed since `date_joined`, which is the same as `now >= date_joined + VERIFICATION_DAYS` days |
| `Models.WholeDays` | usertools/models.py:133-135 | an elapsed time makes at least `d` whole days exactly when it reaches `d` days in seconds |
| `Models.ExpiryBoundary` | usertools/models.py:133-137 | the key is still good one second before `date_joined + VERIFICATION_DAYS` days and counts as expired at exactly that instant |
| `Models.ExpiryMonotone` | usertools/models.py:133-137 | once the key has expired it stays expired at every later clock reading |
| `Models.DefaultExpiry` | usertools/settings.py:14 | with the default of 7 days a key is still good 604799 seconds after joining and expired at 604800 |
| `Models.ChangeEmail` | usertools/models.py:76-80 | the owner's record gets the given pending address, the issued forty-hex key and the creation time `now`; `verified`, `verification_key`, the user table and every other record stay as they were |
| `Managers.Get` | usertools/managers.py:123-126 | `get` finds a row exactly when one row matches; no match is `DoesNotExist` and more than one is `MultipleObjectsReturned` |
| `Managers.CreateUsertools` | usertools/managers.py:93-104 | a user without a record gets one holding the issued key with `verified` false, and all other rows are unchanged; a missing user or a second record is an integrity error |
| `Managers.VerifyEmail` | usertools/managers.py:106-138 | a key of the wrong shape gives `False` without reading the store; only the returned-instance outcome changes the store or sends a signal, and it returns the record of the sole holder of the key (the rows `get(verification_key=key)` selects), now verified, with one `verification_complete`; no record becomes unverified |
| `Managers.VerifyUnknownKey` | usertools/managers.py:122-126 | a well-formed key that no record holds gives `False` and changes nothing |
| `Managers.VerifyNewlineKey` | usertools/managers.py:122-126 | a key that passes the shape check only through a trailing newline gives `False` and changes nothing, because no stored key is that long |
| `Managers.VerifyActivates` | usertools/managers.py:128-136 | for the sole, unverified, unexpired holder of the key, only `verified` becomes true, one `verification_complete` is sent, and the updated record is returned |
| `Managers.VerifyAlreadyVerified` | usertools/managers.py:128-137 | for an already verified holder, the call returns `True` and changes nothing |
| `Managers.VerifyExpiredReturnsTrue` | usertools/managers.py:128-137 | for an unverified holder whose window has closed, the call returns `True`, and the record stays unverified and is not deleted |
| `Managers.VerifyDuplicateKey` | usertools/managers.py:124 | when two records hold the key, `get` raises `MultipleObjectsReturned` and nothing changes |
| `Managers.VerifyTwice` | usertools/managers.py:128-137 | after a call that verified a record, a second call with the same key at any clock reading returns `True` and leaves the store as the first left it |
| `Managers.ConfirmEmail` | usertools/managers.py:140-175 | a key of the wrong shape gives `False`; only a returned user changes the store; that user is the sole record pending under the key (the rows `get(email_confirmation_key=key, email_unconfirmed__isnull=False)` selects), stored with the confirmation key cleared; `verified` and the sets of rows are untouched |
| `Managers.ConfirmCompletes` | usertools/managers.py:156-174 | for the sole record pending under the key, the user's email becomes the pending address, the pending address and the key become `''`, one `confirmation_complete` carries the previous email, and nothing else changes |
| `Managers.ConfirmUnknownKey` | usertools/managers.py:156-161 | a well-formed key under which no non-null pending address is stored gives `False` and changes nothing |
| `Managers.ConfirmDuplicateKey` | usertools/managers.py:158-159 | when two records are pending under the key, `get` raises `MultipleObjectsReturned` and nothing changes |
| `Managers.ConfirmTwice` | usertools/managers.py:156-175 | a second confirmation with the same key returns `False`, because the stored key is now `''` |
| `Managers.ChangeThenConfirm` | usertools/managers.py:156-168 | `change_email(address)` followed by `confirm_email` with the issued key makes `address` the user's email and clears the pending fields |
| `Managers.NonStaffUsers` | usertools/managers.py:186 | `filter(is_staff=False)` yields each non-staff user exactly once |
| `Managers.SweepFrom` | usertools/managers.py:186-191 | the rest of the sweep leaves a well-formed store |
| `Managers.DeleteExpiredUsers` | usertools/managers.py:177-191 | the sweep leaves a well-formed store, with both key columns still within forty characters |
| `Managers.DoomedAfterDelete` | usertools/managers.py:187-190 | deleting one user does not change whether another user is due for deletion |
| `Managers.SweepFromKeeps` | usertools/managers.py:186-190 | the sweep adds no row and leaves every row it does not delete exactly as it was |
| `Managers.SweepFromOutcome` | usertools/managers.py:186-188 | the sweep completes exactly when every scanned user has a `UserTools` row; otherwise it raises on such a user |
| `Managers.SweepFromDeletedList` | usertools/managers.py:185-191 | a completed sweep returns exactly the scanned users that are due for deletion, in scan order |
| `Managers.SweepFromRemoves` | usertools/managers.py:187-190 | a completed sweep has deleted every scanned user that is due for deletion |
| `Managers.SweepFromNothingToDo` | usertools/managers.py:185-191 | with nobody due for deletion, the sweep returns `[]` and changes nothing |
| `Managers.DeleteExpiredUsersExact` | usertools/managers.py:185-191 | when every non-staff user has a record, exactly the non-staff, unverified, expired users are deleted and returned in scan order; every other row is unchanged |
| `Managers.DeleteExpiredUsersSpares` | usertools/managers.py:186-188 | staff users and verified records are never deleted or changed; the sweep raises exactly when some non-staff user has no record |
| `Managers.DeleteExpiredUsersIdempotent` | usertools/managers.py:185-191 | a second sweep at the same instant deletes nothing |
| `Forms.Lower` | usertools/forms.py:34 | `str.lower()` keeps the length and lower-cases each ASCII letter |
| `Forms.CleanEmail` | usertools/forms.py:30-39 | with the `filter(email__iexact=...).exclude(email__iexact=...)` query modelled as `ConflictingUsers`, rejects as "already your email" exactly when the lower-cased request equals the stored email as it is; rejects as "in use" exactly when, otherwise, some user's email matches the request up to case without matching the current email up to case; on acceptance, returns the request unchanged |
| `Forms.CaseOnlyChangeAccepted` | usertools/forms.py:34-39 | a request that matches one's own address up to case, but is not equal to the stored address once lower-cased, is accepted as typed |
| `Forms.CaseOnlyChangeExample` | usertools/forms.py:34-39 | `A@x.com` may change to `a@x.com` whatever the user table holds |
| `Forms.OwnAddressCaseAsymmetry` | usertools/forms.py:34-35 | only the request is lower-cased: `A@x.com` resubmitting `A@x.com` is accepted, while `a@x.com` submitting `A@x.com` is told it is already theirs |
| `Forms.Save` | usertools/forms.py:41-47 | `save` calls `change_email` with exactly the cleaned address, so the pending address is the request as typed; a user without a record raises |
| `Database.UserToolsManager.constructor` | usertools/managers.py:40 | starts with empty tables and an empty signal log |
| `Database.UserToolsManager.AddUser` | usertools/managers.py:66 | adds a user row under a fresh key at the end of the scan order, with no `UserTools` row yet |
| `Database.UserToolsManager.CreateUsertools` | usertools/managers.py:93-104 | updates the tables and returns the record exactly as `Managers.CreateUsertools` describes |
| `Database.UserToolsManager.VerifyEmail` | usertools/managers.py:106-138 | updates the record in place, returns the outcome and sends the signal exactly as `Managers.VerifyEmail` describes |
| `Database.UserToolsManager.ConfirmEmail` | usertools/managers.py:140-175 | updates the user and the record in place, returns the outcome and sends the signal exactly as `Managers.ConfirmEmail` describes |
| `Database.UserToolsManager.ChangeEmail` | usertools/models.py:62-80 | updates the owner's record in place exactly as `Models.ChangeEmail` describes |
| `Database.UserToolsManager.DeleteUser` | usertools/managers.py:190 | removes the user and its record in place, as `Models.Db.DeleteUser` describes |
| `Database.UserToolsManager.DeleteExpiredUsers` | usertools/managers.py:177-191 | the loop over the non-staff users deletes rows in place, and returns the list or the exception, exactly as `Managers.DeleteExpiredUsers` describes; its invariant ties the scanned prefix to the sweep function |

## Left out

- Sending mail is I/O and is not modelled. This covers `send_verification_email`, `send_confirmation_email`, template rendering and the `Site` lookup. `change_email` is modelled as its state update only.
- `generate_hash` (usertools/utils.py) uses SHA-1, the clock and `random`. It is an oracle whose result is only known to be forty lower-case hex digits. Two issued keys are therefore not known to differ.
- `Managers.ChangeThenConfirm`: requires that no other record already holds the issued confirmation key, since the oracle does not rule out a collision.
- `create_user` is not modelled beyond the user row it stores (`AddUser`) and the `create_usertools` call. That leaves out the profile creation and the permission assignment it does through django-guardian, and `check_permissions`.
- `get_profile_model`, `get_user_model` and `class_view_decorator` are framework plumbing and are not part of this model. So are the views, the URL routes, the `clean_expired` management command and the packaging files.
- Signal dispatch to receivers is not modelled. Sent signals are an event log.
- Datetimes and time zones are whole seconds. `delete_expired_users` reads the clock once for the whole sweep, whereas the source calls `now()` for each user.
- `Forms.Lower`: lower-cases ASCII letters only, not the full Unicode case mapping of `str.lower()`. The `iexact` lookup is modelled with the same function.
- The form's `EmailField` syntax check and its 75-character widget limit are not modelled. `clean_email` takes the submitted string as already cleaned by the field.
- Concurrent requests, and the transactions the ORM wraps them in, are not modelled. Each operation runs on its own.
- The order in which an unordered `filter()` returns rows is the database's choice. The model takes it to be the order in which users were added (`Db.order`).
