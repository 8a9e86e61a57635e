/** `ChangeEmailForm` of usertools/forms.py: the rule `clean_email` applies
    to a requested address and the `save` that hands it to `change_email`. */
module Forms {
  import opened Util
  import opened Keys
  import opened Models

  /** `str.lower()` on one character, for the ASCII letters. */
  function LowerChar(c: char): char {
    if 'A' <= c <= 'Z' then (c as int + 32) as char else c
  }

  function Lower(s: string): (r: string)
    ensures |r| == |s|
    ensures forall i :: 0 <= i < |s| ==> r[i] == LowerChar(s[i])
  {
    if s == [] then [] else [LowerChar(s[0])] + Lower(s[1..])
  }

  /** The `iexact` lookup: equal once both sides are lower-cased. */
  predicate IExact(a: string, b: string) {
    Lower(a) == Lower(b)
  }

  /** The two `ValidationError`s of `clean_email`. */
  datatype CleanError = AlreadyYourEmail | EmailInUse

  function EmailIs(db: Db, email: string): UserId -> bool {
    (id: UserId) => id in db.users && IExact(db.users[id].email, email)
  }

  function EmailIsNot(db: Db, email: string): UserId -> bool {
    (id: UserId) => !(id in db.users && IExact(db.users[id].email, email))
  }

  /** `User.objects.filter(email__iexact=submitted).exclude(email__iexact=current)`. */
  function ConflictingUsers(db: Db, submitted: string, current: string): seq<UserId> {
    Filter(Filter(db.order, EmailIs(db, submitted)), EmailIsNot(db, current))
  }

  /** Some user's email equals `submitted` up to case, and that email does
      not equal `current` up to case. */
  ghost predicate TakenByAnother(db: Db, submitted: string, current: string) {
    exists id :: id in db.users && IExact(db.users[id].email, submitted) && !IExact(db.users[id].email, current)
  }

  /** `clean_email` for the requested address `submitted`, a user whose
      email is `current`, and the user table of `db`. Only the requested
      address is lower-cased in the first test; the submitted address is
      returned as typed. */
  function CleanEmail(db: Db, current: string, submitted: string): (r: Result<string, CleanError>)
    requires db.Valid()
    ensures r == Err(AlreadyYourEmail) <==> Lower(submitted) == current
    ensures r == Err(EmailInUse) <==> Lower(submitted) != current && TakenByAnother(db, submitted, current)
    ensures r.Ok? ==> r.value == submitted
  {
    if Lower(submitted) == current then Err(AlreadyYourEmail)
    else if ConflictingUsers(db, submitted, current) != [] then Err(EmailInUse)
    else Ok(submitted)
  }

  /** Changing only the case of one's own address passes both tests
      whenever the address typed differs from the stored one once
      lower-cased: every row that matches it is excluded as one's own. */
  lemma CaseOnlyChangeAccepted(db: Db, current: string, submitted: string)
    requires db.Valid()
    requires IExact(submitted, current) && Lower(submitted) != current
    ensures CleanEmail(db, current, submitted) == Ok(submitted)
  {
  }

  /** `A@x.com` may be changed to `a@x.com`, whatever the user table holds. */
  lemma CaseOnlyChangeExample(db: Db)
    requires db.Valid()
    ensures CleanEmail(db, "A@x.com", "a@x.com") == Ok("a@x.com")
  {
    assert Lower("a@x.com") == "a@x.com";
    assert Lower("A@x.com") == "a@x.com";
    CaseOnlyChangeAccepted(db, "A@x.com", "a@x.com");
  }

  /** The stored address is not lower-cased: a user stored as `A@x.com`
      who submits `A@x.com` again passes both tests, while a user stored
      as `a@x.com` who submits `A@x.com` is told it is already theirs. */
  lemma OwnAddressCaseAsymmetry(db: Db)
    requires db.Valid()
    ensures CleanEmail(db, "A@x.com", "A@x.com") == Ok("A@x.com")
    ensures CleanEmail(db, "a@x.com", "A@x.com") == Err(AlreadyYourEmail)
  {
    assert Lower("A@x.com") == "a@x.com";
    CaseOnlyChangeAccepted(db, "A@x.com", "A@x.com");
  }

  /** `User.usertools` raises when the user has no `UserTools` row. */
  datatype SaveError = RelatedObjectDoesNotExist

  /** `save()` after a successful clean: `change_email` on the user's
      record with the cleaned address, a key from the hash oracle and the
      clock reading. */
  function Save(db: Db, owner: UserId, submitted: string, key: HashKey, now: int): (r: Result<Db, SaveError>)
    requires db.Valid() && owner in db.users
    requires CleanEmail(db, db.users[owner].email, submitted).Ok?
    ensures r.Err? <==> owner !in db.tools
    ensures r.Ok? ==> r.value == ChangeEmail(db, owner, CleanEmail(db, db.users[owner].email, submitted).value, key, now)
    ensures r.Ok? ==> r.value.tools[owner].emailUnconfirmed == Some(submitted)
    ensures r.Ok? ==> r.value.users == db.users
  {
    if owner !in db.tools then Err(RelatedObjectDoesNotExist)
    else
      var cleaned := CleanEmail(db, db.users[owner].email, submitted).value;
      Ok(ChangeEmail(db, owner, cleaned, key, now))
  }
}
