/**
 * The dialog that adds or edits a user: the form's validation schemas, its
 * default values, and the object it hands to its `onSubmit` callback.
 */
module UserDialog {
  import opened Wrappers
  import opened Domain

  /** The form's fields; `password` is `None` when the field is undefined. */
  datatype FormValues = FormValues(username: string, password: Option<string>, role: string)

  /** The user being edited, as the dialog receives it. */
  datatype DialogUser = DialogUser(id: Id, username: string, role: Role)

  /**
   * The object passed to `onSubmit`: the form values plus an `id` only when
   * a user is being edited; `password` is `None` when the key is absent.
   */
  datatype Submission = Submission(id: Option<Id>, username: string, password: Option<string>, role: string)

  predicate LongEnough(password: Option<string>) {
    password.Some? && |password.value| >= 6
  }

  /** `createUserSchema`: a username, a password of at least six characters, a known role. */
  predicate CreateSchemaValid(v: FormValues) {
    |v.username| >= 1 && LongEnough(v.password) && ParseRole(v.role).Some?
  }

  /**
   * `updateUserSchema` as written: the password must match
   * `z.string().optional()` (any string, or undefined) or
   * `z.string().min(6)`; the first alternative accepts every password.
   */
  predicate UpdateSchemaAsWritten(v: FormValues) {
    |v.username| >= 1 && (v.password.None? || v.password.Some? || LongEnough(v.password)) && ParseRole(v.role).Some?
  }

  /**
   * The edit schema as its message ("at least 6 characters if provided")
   * means it: an undefined or blank password is left out of the update,
   * any other password needs six characters.
   */
  predicate UpdateSchemaValid(v: FormValues) {
    |v.username| >= 1 && (!Truthy(v.password) || LongEnough(v.password)) && ParseRole(v.role).Some?
  }

  /** As written, the password has no say in whether the edit form validates. */
  lemma UpdateSchemaIgnoresPassword(v: FormValues, password: Option<string>)
    ensures UpdateSchemaAsWritten(v) <==> UpdateSchemaAsWritten(v.(password := password))
  {
  }

  /**
   * The discrepancy: a three-character password passes the edit schema as
   * written but not the schema its message describes.
   */
  lemma ShortPasswordPassesEdit()
    ensures UpdateSchemaAsWritten(FormValues("alice", Some("abc"), "STAFF"))
    ensures !UpdateSchemaValid(FormValues("alice", Some("abc"), "STAFF"))
  {
  }

  /**
   * The corrected edit schema accepts a password exactly when it is blank,
   * undefined, or at least six characters long, and never depends on more
   * than that.
   */
  lemma UpdateSchemaPassword(v: FormValues)
    requires |v.username| >= 1 && ParseRole(v.role).Some?
    ensures UpdateSchemaValid(v) <==> v.password.None? || v.password.value == "" || |v.password.value| >= 6
  {
  }

  /** Whatever the create form accepts, the edit form accepts too. */
  lemma CreateImpliesUpdate(v: FormValues)
    requires CreateSchemaValid(v)
    ensures UpdateSchemaValid(v) && UpdateSchemaAsWritten(v)
  {
  }

  /** `defaultValues` (and the reset when the edited user changes): a blank password and the user's name and role, or STAFF. */
  function Defaults(user: Option<DialogUser>): (v: FormValues)
    ensures v.password == Some("")
    ensures user.None? ==> v == FormValues("", Some(""), "STAFF")
    ensures user.Some? ==> v.username == user.value.username && ParseRole(v.role) == Some(user.value.role)
  {
    match user
    case None => FormValues("", Some(""), RoleName(STAFF))
    case Some(u) => FormValues(u.username, Some(""), RoleName(u.role))
  }

  /** The defaults never satisfy the create schema: a password has to be typed. */
  lemma DefaultsNeedPassword(user: Option<DialogUser>)
    ensures !CreateSchemaValid(Defaults(user))
  {
  }

  /** The defaults of an edit dialog validate as long as the user has a name. */
  lemma EditDefaultsValid(user: DialogUser)
    requires user.username != ""
    ensures UpdateSchemaValid(Defaults(Some(user)))
  {
  }

  /**
   * `handleSubmit`'s object: when editing, the user's id with the username
   * and role, and the password only when it is non-empty; when adding, the
   * form values unchanged.
   */
  function Payload(user: Option<DialogUser>, v: FormValues): (s: Submission)
    ensures user.Some? ==> s.id == Some(user.value.id) && s.username == v.username && s.role == v.role
    ensures user.Some? ==> (s.password.Some? <==> Truthy(v.password))
    ensures user.Some? && s.password.Some? ==> s.password == v.password
    ensures user.None? ==> s == Submission(None, v.username, v.password, v.role)
  {
    match user
    case Some(u) => Submission(Some(u.id), v.username, if Truthy(v.password) then v.password else None, v.role)
    case None => Submission(None, v.username, v.password, v.role)
  }

  /**
   * What the dialog submits: nothing when the form does not validate (the
   * edit dialog with the corrected schema), otherwise the payload above.
   */
  function Submit(user: Option<DialogUser>, v: FormValues): (s: Option<Submission>)
    ensures s.Some? <==> (if user.Some? then UpdateSchemaValid(v) else CreateSchemaValid(v))
    ensures s.Some? ==> s.value == Payload(user, v)
  {
    var valid := if user.Some? then UpdateSchemaValid(v) else CreateSchemaValid(v);
    if valid then Some(Payload(user, v)) else None
  }

  /**
   * What the dialog submits with the edit schema as written: the same
   * payload, but an edit validates whatever its password.
   */
  function SubmitAsWritten(user: Option<DialogUser>, v: FormValues): (s: Option<Submission>)
    ensures s.Some? <==> (if user.Some? then UpdateSchemaAsWritten(v) else CreateSchemaValid(v))
    ensures s.Some? ==> s.value == Payload(user, v)
  {
    var valid := if user.Some? then UpdateSchemaAsWritten(v) else CreateSchemaValid(v);
    if valid then Some(Payload(user, v)) else None
  }

  /**
   * The two differ only on edits: whatever the corrected dialog submits,
   * the dialog as written submits too, and an edit whose password is
   * non-blank and shorter than six characters is submitted only as written.
   */
  lemma SubmitAsWrittenAdmitsMore(user: Option<DialogUser>, v: FormValues)
    ensures Submit(user, v).Some? ==> SubmitAsWritten(user, v) == Submit(user, v)
    ensures user.None? ==> SubmitAsWritten(user, v) == Submit(user, v)
    ensures user.Some? && |v.username| >= 1 && ParseRole(v.role).Some? && Truthy(v.password) && |v.password.value| < 6 ==>
      SubmitAsWritten(user, v).Some? && Submit(user, v).None?
  {
  }

  /**
   * With the corrected schema, every password the dialog submits has at
   * least six characters, and a created user always comes with one.
   */
  lemma SubmittedPasswordLongEnough(user: Option<DialogUser>, v: FormValues)
    requires Submit(user, v).Some?
    ensures Submit(user, v).value.password.Some? ==> |Submit(user, v).value.password.value| >= 6
    ensures user.None? ==> Submit(user, v).value.password.Some?
  {
  }
}
