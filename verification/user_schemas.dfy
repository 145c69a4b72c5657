/**
 * The user record schemas: `UserBase`, `UserCreate`, `UserUpdate` and `UserResponse`. Each
 * is validated from a raw field-name-to-value mapping into either a record or the collection
 * of field errors, one per invalid field, all reported together.
 */
module UserSchemas {
  import opened Wrappers
  import opened Strings
  import opened FieldRules
  import opened PasswordPolicy

  /** A raw input value as decoded from a request body. */
  datatype RawValue = Null | Text(text: string) | Flag(flag: bool)

  /** The raw input: field names to raw values; unknown names are ignored by the fields. */
  type RawInput = map<string, RawValue>

  /** Python truthiness of a raw value. */
  predicate Truthy(v: RawValue) {
    match v
    case Null => false
    case Text(s) => |s| > 0
    case Flag(b) => b
  }

  datatype Field =
    | Email | Nickname | FirstName | LastName | Bio
    | ProfilePictureUrl | LinkedinProfileUrl | GithubProfileUrl
    | Password | Role | Id | IsProfessional
    | WholeRecord   // errors of a validator that looks at the whole input

  /** The input key of each field. */
  function Key(f: Field): string {
    match f
    case Email => "email"
    case Nickname => "nickname"
    case FirstName => "first_name"
    case LastName => "last_name"
    case Bio => "bio"
    case ProfilePictureUrl => "profile_picture_url"
    case LinkedinProfileUrl => "linkedin_profile_url"
    case GithubProfileUrl => "github_profile_url"
    case Password => "password"
    case Role => "role"
    case Id => "id"
    case IsProfessional => "is_professional"
    case WholeRecord => "__root__"
  }

  /** The optional profile fields shared by every user schema. */
  datatype Profile = Profile(
    nickname: Option<string>,
    firstName: Option<string>,
    lastName: Option<string>,
    bio: Option<string>,
    profilePictureUrl: Option<string>,
    linkedinProfileUrl: Option<string>,
    githubProfileUrl: Option<string>)

  datatype UserBase = UserBase(email: string, profile: Profile)

  datatype UserCreate = UserCreate(email: string, profile: Profile, password: string)

  datatype UserUpdate = UserUpdate(email: Option<string>, profile: Profile, role: Option<string>)

  datatype UserResponse = UserResponse(
    id: string, email: string, profile: Profile, isProfessional: Option<bool>, role: string)

  /**
   * What the schemas delegate to code outside this model: e-mail syntax (`EmailStr`),
   * UUID syntax, and the values of the `UserRole` enumeration (an enum is validated by value).
   */
  datatype Externals = Externals(emailSyntax: string -> bool, uuidSyntax: string -> bool, roles: set<string>)

  /** At most one error per field. */
  type Errors = map<Field, FieldError>

  const AtLeastOneMessage: string := "At least one field must be provided for update"

  const ProfileFields: set<Field> :=
    {Nickname, FirstName, LastName, Bio, ProfilePictureUrl, LinkedinProfileUrl, GithubProfileUrl}

  // ---------------------------------------------------------------------------------------
  // raw values

  /** The text given for `f`, if the input holds text under its key. */
  function Given(input: RawInput, f: Field): Option<string> {
    if Key(f) in input && input[Key(f)].Text? then Some(input[Key(f)].text) else None
  }

  /** An optional string field holds null, text, or nothing. */
  predicate OptionalTextTyped(input: RawInput, f: Field) {
    Key(f) !in input || !input[Key(f)].Flag?
  }

  /** An optional string field: absent and null both read as `None`. */
  function OptionalText(input: RawInput, f: Field): (r: Result<Option<string>, FieldError>)
    ensures r.Success? <==> OptionalTextTyped(input, f)
    ensures r.Success? ==> r.value == Given(input, f)
    ensures r.Failure? ==> r.error == WrongType
  {
    if Key(f) !in input then Success(None)
    else match input[Key(f)]
      case Null => Success(None)
      case Text(s) => Success(Some(s))
      case Flag(_) => Failure(WrongType)
  }

  /** A required string field must be present and hold text. */
  function RequiredText(input: RawInput, f: Field): (r: Result<string, FieldError>)
    ensures r.Success? <==> Given(input, f).Some?
    ensures r.Success? ==> r.value == Given(input, f).value
    ensures Key(f) !in input ==> r == Failure(Missing)
  {
    if Key(f) !in input then Failure(Missing)
    else match input[Key(f)]
      case Text(s) => Success(s)
      case _ => Failure(WrongType)
  }

  // ---------------------------------------------------------------------------------------
  // the profile fields

  /** The declarative acceptance condition of each profile field. */
  ghost predicate ProfileFieldValid(f: Field, input: RawInput, nicknameCap: Option<nat>) {
    && OptionalTextTyped(input, f)
    && match f
       case Nickname => NicknameAccepted(Given(input, f), nicknameCap)
       case FirstName => NameAccepted(Given(input, f))
       case LastName => NameAccepted(Given(input, f))
       case Bio => BioAccepted(Given(input, f))
       case ProfilePictureUrl => PictureAccepted(Given(input, f))
       case LinkedinProfileUrl => LinkAccepted(Given(input, f))
       case GithubProfileUrl => LinkAccepted(Given(input, f))
       case _ => true
  }

  /** One profile field: its raw value read as optional text, then the field's own check. */
  function ProfileField(input: RawInput, f: Field, nicknameCap: Option<nat>): (r: Result<Option<string>, FieldError>)
    requires f in ProfileFields
    ensures r.Success? <==> ProfileFieldValid(f, input, nicknameCap)
    ensures r.Success? ==> r.value == Given(input, f)
  {
    match OptionalText(input, f)
    case Failure(e) => Failure(e)
    case Success(v) =>
      match f
      case Nickname => CheckNickname(v, nicknameCap)
      case FirstName => CheckName(v, FirstNameMessage)
      case LastName => CheckName(v, LastNameMessage)
      case Bio => CheckBio(v)
      case ProfilePictureUrl => CheckPictureUrl(v)
      case LinkedinProfileUrl => CheckLinkUrl(v)
      case GithubProfileUrl => CheckLinkUrl(v)
  }

  /** The error entry a field contributes: none when it passed, its one failure otherwise. */
  function ErrorOf<T>(f: Field, r: Result<T, FieldError>): (e: Errors)
    ensures forall g :: g in e <==> r.Failure? && g == f
    ensures r.Failure? ==> e[f] == r.error
  {
    if r.Failure? then map[f := r.error] else map[]
  }

  /** The profile as given in the input, every field read as optional text. */
  function GivenProfile(input: RawInput): Profile {
    Profile(
      Given(input, Nickname), Given(input, FirstName), Given(input, LastName), Given(input, Bio),
      Given(input, ProfilePictureUrl), Given(input, LinkedinProfileUrl), Given(input, GithubProfileUrl))
  }

  /** The profile fields in declaration order. */
  const ProfileFieldOrder: seq<Field> :=
    [Nickname, FirstName, LastName, Bio, ProfilePictureUrl, LinkedinProfileUrl, GithubProfileUrl]

  lemma ProfileFieldOrderComplete()
    ensures forall f :: f in ProfileFields <==> f in ProfileFieldOrder
    ensures forall i :: 0 <= i < |ProfileFieldOrder| ==> ProfileFieldOrder[i] in ProfileFields
  {
  }

  /**
   * The errors of the listed fields, each checked on its own: exactly the fields whose check
   * fails have an entry, and that entry is the first failure of the field's own check.
   */
  function CollectErrors(fields: seq<Field>, input: RawInput, nicknameCap: Option<nat>): (e: Errors)
    requires forall i :: 0 <= i < |fields| ==> fields[i] in ProfileFields
    ensures forall f :: f in e <==> f in fields && ProfileField(input, f, nicknameCap).Failure?
    ensures forall f :: f in e ==> e[f] == ProfileField(input, f, nicknameCap).error
    decreases |fields|
  {
    if |fields| == 0 then map[]
    else
      var f := fields[0];
      var rest := CollectErrors(fields[1..], input, nicknameCap);
      assert forall g :: g in fields <==> g == f || g in fields[1..];
      ErrorOf(f, ProfileField(input, f, nicknameCap)) + rest
  }

  /** Every profile field is valid. */
  ghost predicate ProfileValid(input: RawInput, nicknameCap: Option<nat>) {
    forall f :: f in ProfileFields ==> ProfileFieldValid(f, input, nicknameCap)
  }

  /**
   * All seven profile fields, checked independently: the profile exactly as given when every
   * field is valid, otherwise one error for each invalid field and for no other.
   */
  method ValidateProfile(input: RawInput, nicknameCap: Option<nat>) returns (r: Result<Profile, Errors>)
    ensures r.Success? <==> ProfileValid(input, nicknameCap)
    ensures r.Success? ==> r.value == GivenProfile(input)
    ensures r.Failure? ==> r.error != map[]
    ensures r.Failure? ==> forall f :: f in r.error <==> f in ProfileFields && !ProfileFieldValid(f, input, nicknameCap)
    ensures r.Failure? ==> forall f :: f in r.error ==> f in ProfileFields && ProfileField(input, f, nicknameCap) == Failure(r.error[f])
  {
    ProfileFieldOrderComplete();
    var errors := CollectErrors(ProfileFieldOrder, input, nicknameCap);
    if errors == map[] {
      r := Success(GivenProfile(input));
    } else {
      r := Failure(errors);
    }
  }

  /** What `ValidateProfile` promises about its outcome `p`. */
  ghost predicate ProfileOutcome(input: RawInput, nicknameCap: Option<nat>, p: Result<Profile, Errors>) {
    && (p.Success? <==> ProfileValid(input, nicknameCap))
    && (p.Success? ==> p.value == GivenProfile(input))
    && (p.Failure? ==> p.error != map[])
    && (p.Failure? ==> forall f :: f in p.error <==> f in ProfileFields && !ProfileFieldValid(f, input, nicknameCap))
  }

  /** Each entry of a failed profile `p` is the failure its field reports on its own. */
  ghost predicate ProfileOwnEntries(input: RawInput, nicknameCap: Option<nat>, p: Result<Profile, Errors>) {
    p.Failure? ==> forall f :: f in p.error ==> f in ProfileFields && ProfileField(input, f, nicknameCap) == Failure(p.error[f])
  }

  /** The profile part of a failed record: its errors, or none. */
  function ProfileErrors(p: Result<Profile, Errors>): Errors {
    if p.Failure? then p.error else map[]
  }

  // ---------------------------------------------------------------------------------------
  // the four schemas

  datatype Schema = BaseSchema | CreateSchema | UpdateSchema | ResponseSchema

  /** The fields each schema checks besides the seven profile fields. */
  function ExtraFields(schema: Schema): set<Field> {
    match schema
    case BaseSchema => {Email}
    case CreateSchema => {Email, Password}
    case UpdateSchema => {Email, Role}
    case ResponseSchema => {Id, Email, IsProfessional, Role}
  }

  /** `UserResponse` redeclares `nickname` without `max_length=50`. */
  function NicknameCap(schema: Schema): Option<nat> {
    if schema == ResponseSchema then None else Some(NicknameMaxLength)
  }

  /** `UserResponse` redeclares `email` without `max_length=255`. */
  function EmailCap(schema: Schema): Option<nat> {
    if schema == ResponseSchema then None else Some(EmailMaxLength)
  }

  /** The declarative acceptance condition of a field outside the profile. */
  ghost predicate ExtraFieldValid(schema: Schema, f: Field, input: RawInput, ext: Externals) {
    match f
    case Email =>
      if schema == UpdateSchema then
        OptionalTextTyped(input, Email)
        && (Given(input, Email).None? || EmailAccepted(Given(input, Email).value, ext.emailSyntax, EmailCap(schema)))
      else
        Given(input, Email).Some? && EmailAccepted(Given(input, Email).value, ext.emailSyntax, EmailCap(schema))
    case Password => PasswordValid(input)
    case Role =>
      if schema == UpdateSchema then OptionalTextTyped(input, Role)
      else Given(input, Role).Some? && Given(input, Role).value in ext.roles
    case Id => Given(input, Id).Some? && ext.uuidSyntax(Given(input, Id).value)
    case IsProfessional =>
      Key(IsProfessional) !in input || !input[Key(IsProfessional)].Text?
      || TextAsBool(input[Key(IsProfessional)].text).Some?
    case _ => true
  }

  /** Every field of the schema is valid. */
  ghost predicate AllFieldsValid(schema: Schema, input: RawInput, ext: Externals) {
    && ProfileValid(input, NicknameCap(schema))
    && forall f :: f in ExtraFields(schema) ==> ExtraFieldValid(schema, f, input, ext)
  }

  /** The field is one the schema checks and its raw value breaks the field's rule. */
  ghost predicate InvalidField(schema: Schema, f: Field, input: RawInput, ext: Externals) {
    || (f in ExtraFields(schema) && !ExtraFieldValid(schema, f, input, ext))
    || (f in ProfileFields && !ProfileFieldValid(f, input, NicknameCap(schema)))
  }

  /** The errors report exactly the invalid fields of the schema, at least one. */
  ghost predicate ReportsInvalidFields(schema: Schema, input: RawInput, ext: Externals, errors: Errors) {
    errors != map[] && forall f :: f in errors <==> InvalidField(schema, f, input, ext)
  }

  /** No schema counts a profile field, or the whole record, among its extra fields. */
  lemma ExtraFieldsApart(schema: Schema)
    ensures forall f :: f in ExtraFields(schema) ==> f !in ProfileFields && f != WholeRecord
  {
    match schema
    case BaseSchema =>
    case CreateSchema =>
    case UpdateSchema =>
    case ResponseSchema =>
  }

  /** The extra-field errors name exactly the schema's invalid extra fields. */
  ghost predicate ReportsInvalidExtras(schema: Schema, input: RawInput, ext: Externals, extra: Errors) {
    forall f :: f in extra <==> f in ExtraFields(schema) && !ExtraFieldValid(schema, f, input, ext)
  }

  /**
   * `e` is the failure the field's own reader reports for this input under the schema: each
   * entry of a record's errors is that field's first failure, as the field alone would give it.
   */
  ghost predicate FieldFailsWith(schema: Schema, f: Field, input: RawInput, ext: Externals, e: FieldError) {
    match f
    case Email =>
      if schema == UpdateSchema then OptionalEmail(input, ext) == Failure(e)
      else RequiredEmail(input, ext, EmailCap(schema)) == Failure(e)
    case Password => PasswordField(input) == Failure(e)
    case Role =>
      if schema == UpdateSchema then OptionalText(input, Role) == Failure(e)
      else RoleField(input, ext) == Failure(e)
    case Id => IdField(input, ext) == Failure(e)
    case IsProfessional => ProfessionalField(input) == Failure(e)
    case WholeRecord => false
    case _ => ProfileField(input, f, NicknameCap(schema)) == Failure(e)
  }

  /** Every entry of `errors` is its field's own failure. */
  ghost predicate ReportsOwnErrors(schema: Schema, input: RawInput, ext: Externals, errors: Errors) {
    forall f :: f in errors ==> FieldFailsWith(schema, f, input, ext, errors[f])
  }

  /**
   * A record's outcome from its extra fields' errors and its profile's: accepted exactly when
   * neither part failed, which is exactly when every field of the schema is valid; otherwise
   * the two parts' errors together name exactly the invalid fields.
   */
  lemma RecordOutcome(schema: Schema, input: RawInput, ext: Externals, extra: Errors, profile: Result<Profile, Errors>)
    requires ReportsInvalidExtras(schema, input, ext, extra)
    requires ProfileOutcome(input, NicknameCap(schema), profile)
    ensures extra == map[] && profile.Success? <==> AllFieldsValid(schema, input, ext)
    ensures extra != map[] || profile.Failure? ==>
      ReportsInvalidFields(schema, input, ext, extra + ProfileErrors(profile))
    ensures WholeRecord !in extra + ProfileErrors(profile)
  {
    ExtraFieldsApart(schema);
    assert WholeRecord !in ProfileFields;
    assert WholeRecord !in extra;
    assert WholeRecord !in ProfileErrors(profile);
    if extra != map[] || profile.Failure? {
      RecordErrors(schema, input, ext, extra, profile);
    }
    if extra != map[] {
      var g :| g in extra;
      assert !ExtraFieldValid(schema, g, input, ext);
    }
  }

  lemma ProfileFieldFails(schema: Schema, f: Field, input: RawInput, ext: Externals, e: FieldError)
    requires f in ProfileFields && ProfileField(input, f, NicknameCap(schema)) == Failure(e)
    ensures FieldFailsWith(schema, f, input, ext, e)
  {
  }

  /** The profile's entries are the profile fields' own failures, and they win over no extra entry. */
  lemma ProfileOwnErrors(schema: Schema, input: RawInput, ext: Externals, extra: Errors, profile: Result<Profile, Errors>)
    requires ReportsOwnErrors(schema, input, ext, extra)
    requires ProfileOwnEntries(input, NicknameCap(schema), profile)
    ensures ReportsOwnErrors(schema, input, ext, extra + ProfileErrors(profile))
  {
    var all := extra + ProfileErrors(profile);
    forall f | f in all
      ensures FieldFailsWith(schema, f, input, ext, all[f])
    {
      if f in ProfileErrors(profile) {
        ProfileFieldFails(schema, f, input, ext, all[f]);
      } else {
        assert all[f] == extra[f];
      }
    }
  }

  /**
   * When either part failed, the extra fields' errors together with the profile's name
   * exactly the invalid fields of the schema.
   */
  lemma RecordErrors(schema: Schema, input: RawInput, ext: Externals, extra: Errors, profile: Result<Profile, Errors>)
    requires ReportsInvalidExtras(schema, input, ext, extra)
    requires ProfileOutcome(input, NicknameCap(schema), profile)
    requires extra != map[] || profile.Failure?
    ensures ReportsInvalidFields(schema, input, ext, extra + ProfileErrors(profile))
  {
    var errors := extra + ProfileErrors(profile);
    ExtraFieldsApart(schema);
    forall f
      ensures f in errors <==> InvalidField(schema, f, input, ext)
    {
      if f in ExtraFields(schema) {
        assert f !in ProfileErrors(profile);
        assert f in errors <==> f in extra;
      } else if f in ProfileFields {
        assert f !in extra;
        assert f in errors <==> profile.Failure? && f in profile.error;
        assert InvalidField(schema, f, input, ext) <==> !ProfileFieldValid(f, input, NicknameCap(schema));
      } else {
        assert f !in errors;
        assert !InvalidField(schema, f, input, ext);
      }
    }
    if extra != map[] {
      var g :| g in extra;
      assert g in errors;
    } else {
      var g :| g in profile.error;
      assert g in errors;
    }
  }

  // ---------------------------------------------------------------------------------------
  // UserBase

  /** The required `email` of `UserBase`, `UserCreate` and `UserResponse`. */
  function RequiredEmail(input: RawInput, ext: Externals, cap: Option<nat>): (r: Result<string, FieldError>)
    ensures r.Success? <==> Given(input, Email).Some? && EmailAccepted(Given(input, Email).value, ext.emailSyntax, cap)
    ensures r.Success? ==> r.value == Given(input, Email).value
  {
    match RequiredText(input, Email)
    case Failure(e) => Failure(e)
    case Success(s) => CheckEmail(s, ext.emailSyntax, cap)
  }

  /**
   * `UserBase(**input)`: the record exactly as given when every field is valid; otherwise
   * one error for each invalid field and for no other.
   */
  method ValidateUserBase(input: RawInput, ext: Externals) returns (r: Result<UserBase, Errors>)
    ensures r.Success? <==> AllFieldsValid(BaseSchema, input, ext)
    ensures r.Success? ==> Given(input, Email).Some? && r.value == UserBase(Given(input, Email).value, GivenProfile(input))
    ensures r.Failure? ==> ReportsInvalidFields(BaseSchema, input, ext, r.error)
    ensures r.Failure? ==> ReportsOwnErrors(BaseSchema, input, ext, r.error)
  {
    var email := RequiredEmail(input, ext, EmailCap(BaseSchema));
    var profile := ValidateProfile(input, NicknameCap(BaseSchema));
    var extra := ErrorOf(Email, email);
    BaseExtras(input, ext, email);
    RecordOutcome(BaseSchema, input, ext, extra, profile);
    ProfileOwnErrors(BaseSchema, input, ext, extra, profile);
    if extra == map[] && profile.Success? {
      r := Success(UserBase(email.value, profile.value));
    } else {
      r := Failure(extra + ProfileErrors(profile));
    }
  }

  lemma BaseExtras(input: RawInput, ext: Externals, email: Result<string, FieldError>)
    requires email == RequiredEmail(input, ext, EmailCap(BaseSchema))
    ensures ReportsInvalidExtras(BaseSchema, input, ext, ErrorOf(Email, email))
    ensures ReportsOwnErrors(BaseSchema, input, ext, ErrorOf(Email, email))
  {
  }

  // ---------------------------------------------------------------------------------------
  // UserCreate

  /** `password`: required text that satisfies the password policy. */
  ghost predicate PasswordValid(input: RawInput) {
    Given(input, Password).Some? && IsStrongPassword(Given(input, Password).value)
  }

  function PasswordField(input: RawInput): (r: Result<string, FieldError>)
    ensures r.Success? <==> PasswordValid(input)
    ensures r.Success? ==> r.value == Given(input, Password).value
    ensures Given(input, Password).Some? && r.Failure? ==>
      exists k: nat :: FirstBroken(k, Given(input, Password).value) && r.error == Rejected(Messages[k])
  {
    match RequiredText(input, Password)
    case Failure(e) => Failure(e)
    case Success(s) =>
      match ValidatePassword(s)
      case Failure(m) => Failure(Rejected(m))
      case Success(p) => Success(p)
  }

  /** `UserCreate(**input)`: the `UserBase` fields plus a password, all checked independently. */
  method ValidateUserCreate(input: RawInput, ext: Externals) returns (r: Result<UserCreate, Errors>)
    ensures r.Success? <==> AllFieldsValid(CreateSchema, input, ext)
    ensures r.Success? ==>
      && Given(input, Email).Some? && Given(input, Password).Some?
      && r.value == UserCreate(Given(input, Email).value, GivenProfile(input), Given(input, Password).value)
    ensures r.Failure? ==> ReportsInvalidFields(CreateSchema, input, ext, r.error)
    ensures r.Failure? ==> ReportsOwnErrors(CreateSchema, input, ext, r.error)
  {
    var email := RequiredEmail(input, ext, EmailCap(CreateSchema));
    var profile := ValidateProfile(input, NicknameCap(CreateSchema));
    var password := PasswordField(input);
    var extra := ErrorOf(Email, email) + ErrorOf(Password, password);
    CreateExtras(input, ext, email, password);
    RecordOutcome(CreateSchema, input, ext, extra, profile);
    ProfileOwnErrors(CreateSchema, input, ext, extra, profile);
    if extra == map[] && profile.Success? {
      r := Success(UserCreate(email.value, profile.value, password.value));
    } else {
      r := Failure(extra + ProfileErrors(profile));
    }
  }

  lemma CreateExtras(input: RawInput, ext: Externals, email: Result<string, FieldError>, password: Result<string, FieldError>)
    requires email == RequiredEmail(input, ext, EmailCap(CreateSchema))
    requires password == PasswordField(input)
    ensures ReportsInvalidExtras(CreateSchema, input, ext, ErrorOf(Email, email) + ErrorOf(Password, password))
    ensures ReportsOwnErrors(CreateSchema, input, ext, ErrorOf(Email, email) + ErrorOf(Password, password))
    ensures ErrorOf(Email, email) + ErrorOf(Password, password) == map[] ==> email.Success? && password.Success?
  {
    var extra := ErrorOf(Email, email) + ErrorOf(Password, password);
    forall f
      ensures f in extra <==> f in ExtraFields(CreateSchema) && !ExtraFieldValid(CreateSchema, f, input, ext)
    {
      if f == Email {
      } else if f == Password {
      } else {
      }
    }
    if email.Failure? {
      assert Email in extra;
    }
    if password.Failure? {
      assert Password in extra;
    }
  }

  // ---------------------------------------------------------------------------------------
  // UserUpdate

  /** The check run on the raw input before any field: some value, under any key, is truthy. */
  predicate AnyTruthy(input: RawInput) {
    exists k :: k in input && Truthy(input[k])
  }

  /** Python's falsy raw values: null, the empty string and `False`; everything else is truthy. */
  lemma FalsyValues(v: RawValue)
    ensures !Truthy(v) <==> v in {Null, Text(""), Flag(false)}
  {
  }

  /** `any(values.values())` is false exactly when every value given, under any key, is falsy. */
  lemma NoTruthyValue(input: RawInput)
    ensures !AnyTruthy(input) <==> forall k :: k in input ==> input[k] in {Null, Text(""), Flag(false)}
  {
    forall k | k in input {
      FalsyValues(input[k]);
    }
  }

  /** The optional `email` of `UserUpdate`. */
  function OptionalEmail(input: RawInput, ext: Externals): (r: Result<Option<string>, FieldError>)
    ensures r.Success? <==> ExtraFieldValid(UpdateSchema, Email, input, ext)
    ensures r.Success? ==> r.value == Given(input, Email)
  {
    match OptionalText(input, Email)
    case Failure(e) => Failure(e)
    case Success(None) => Success(None)
    case Success(Some(s)) =>
      match CheckEmail(s, ext.emailSyntax, Some(EmailMaxLength))
      case Failure(e) => Failure(e)
      case Success(a) => Success(Some(a))
  }

  /**
   * `UserUpdate(**input)`: rejected as a whole unless some raw value is truthy; then every
   * field is optional and checked as in `UserBase`, plus a free-text `role`.
   */
  method ValidateUserUpdate(input: RawInput, ext: Externals) returns (r: Result<UserUpdate, Errors>)
    ensures !AnyTruthy(input) <==> r == Failure(map[WholeRecord := Rejected(AtLeastOneMessage)])
    ensures r.Success? <==> AnyTruthy(input) && AllFieldsValid(UpdateSchema, input, ext)
    ensures r.Success? ==> r.value == UserUpdate(Given(input, Email), GivenProfile(input), Given(input, Role))
    ensures AnyTruthy(input) && r.Failure? ==> ReportsInvalidFields(UpdateSchema, input, ext, r.error)
    ensures AnyTruthy(input) && r.Failure? ==> ReportsOwnErrors(UpdateSchema, input, ext, r.error)
  {
    if !AnyTruthy(input) {
      return Failure(map[WholeRecord := Rejected(AtLeastOneMessage)]);
    }
    var email := OptionalEmail(input, ext);
    var profile := ValidateProfile(input, NicknameCap(UpdateSchema));
    var role := OptionalText(input, Role);
    var extra := ErrorOf(Email, email) + ErrorOf(Role, role);
    UpdateExtras(input, ext, email, role);
    RecordOutcome(UpdateSchema, input, ext, extra, profile);
    ProfileOwnErrors(UpdateSchema, input, ext, extra, profile);
    if extra == map[] && profile.Success? {
      r := Success(UserUpdate(email.value, profile.value, role.value));
    } else {
      r := Failure(extra + ProfileErrors(profile));
    }
  }

  lemma UpdateExtras(input: RawInput, ext: Externals, email: Result<Option<string>, FieldError>, role: Result<Option<string>, FieldError>)
    requires email == OptionalEmail(input, ext)
    requires role == OptionalText(input, Role)
    ensures ReportsInvalidExtras(UpdateSchema, input, ext, ErrorOf(Email, email) + ErrorOf(Role, role))
    ensures ReportsOwnErrors(UpdateSchema, input, ext, ErrorOf(Email, email) + ErrorOf(Role, role))
    ensures ErrorOf(Email, email) + ErrorOf(Role, role) == map[] ==> email.Success? && role.Success?
  {
    var extra := ErrorOf(Email, email) + ErrorOf(Role, role);
    forall f
      ensures f in extra <==> f in ExtraFields(UpdateSchema) && !ExtraFieldValid(UpdateSchema, f, input, ext)
    {
      if f == Email {
      } else if f == Role {
      } else {
      }
    }
    if email.Failure? {
      assert Email in extra;
    }
    if role.Failure? {
      assert Role in extra;
    }
  }

  // ---------------------------------------------------------------------------------------
  // UserResponse

  /** `id`: required text that the external UUID syntax accepts. */
  function IdField(input: RawInput, ext: Externals): (r: Result<string, FieldError>)
    ensures r.Success? <==> ExtraFieldValid(ResponseSchema, Id, input, ext)
    ensures r.Success? ==> r.value == Given(input, Id).value
  {
    match RequiredText(input, Id)
    case Failure(e) => Failure(e)
    case Success(s) => if ext.uuidSyntax(s) then Success(s) else Failure(InvalidUuid)
  }

  /** `role`: required, one of the role names. */
  function RoleField(input: RawInput, ext: Externals): (r: Result<string, FieldError>)
    ensures r.Success? <==> ExtraFieldValid(ResponseSchema, Role, input, ext)
    ensures r.Success? ==> r.value == Given(input, Role).value
  {
    if Key(Role) !in input then Failure(Missing)
    else match input[Key(Role)]
      case Text(s) => if s in ext.roles then Success(s) else Failure(InvalidRole)
      case _ => Failure(InvalidRole)
  }

  /** Text the schema library reads as `False`, and as `True`, whatever its ASCII case. */
  const FalseWords: set<string> := {"f", "n", "no", "off", "false"}
  const TrueWords: set<string> := {"t", "y", "on", "yes", "true"}

  /** Lax `bool` validation of text: `"0"`, `"1"` and the words above; anything else fails. */
  function TextAsBool(s: string): Option<bool> {
    if s == "0" || AsciiLower(s) in FalseWords then Some(false)
    else if s == "1" || AsciiLower(s) in TrueWords then Some(true)
    else None
  }

  /** The `is_professional` value an input stands for: `False` when absent, `None` for null. */
  function GivenFlag(input: RawInput): Option<bool> {
    if Key(IsProfessional) !in input then Some(false)
    else match input[Key(IsProfessional)]
      case Null => None
      case Flag(b) => Some(b)
      case Text(s) => TextAsBool(s)
  }

  /** `is_professional`: optional flag, `False` when absent; text is read as a boolean when it can be. */
  function ProfessionalField(input: RawInput): (r: Result<Option<bool>, FieldError>)
    ensures Key(IsProfessional) !in input ==> r == Success(Some(false))
    ensures r.Success? <==>
      Key(IsProfessional) !in input || !input[Key(IsProfessional)].Text?
      || TextAsBool(input[Key(IsProfessional)].text).Some?
    ensures Key(IsProfessional) in input && input[Key(IsProfessional)].Flag? ==>
      r == Success(Some(input[Key(IsProfessional)].flag))
    ensures Key(IsProfessional) in input && input[Key(IsProfessional)].Text? && r.Success? ==>
      r.value == TextAsBool(input[Key(IsProfessional)].text)
    ensures r.Success? ==> r.value == GivenFlag(input)
  {
    if Key(IsProfessional) !in input then Success(Some(false))
    else match input[Key(IsProfessional)]
      case Null => Success(None)
      case Flag(b) => Success(Some(b))
      case Text(s) => if TextAsBool(s).Some? then Success(TextAsBool(s)) else Failure(WrongType)
  }

  /**
   * `UserResponse(**input)`: the `UserBase` fields with `email` and `nickname` redeclared
   * without their maximum lengths, plus `id`, `is_professional` and `role`.
   */
  method ValidateUserResponse(input: RawInput, ext: Externals) returns (r: Result<UserResponse, Errors>)
    ensures r.Success? <==> AllFieldsValid(ResponseSchema, input, ext)
    ensures r.Success? ==>
      && Given(input, Id).Some? && Given(input, Email).Some? && Given(input, Role).Some?
      && r.value.id == Given(input, Id).value
      && r.value.email == Given(input, Email).value
      && r.value.profile == GivenProfile(input)
      && r.value.isProfessional == GivenFlag(input)
      && r.value.role == Given(input, Role).value
    ensures r.Failure? ==> ReportsInvalidFields(ResponseSchema, input, ext, r.error)
    ensures r.Failure? ==> ReportsOwnErrors(ResponseSchema, input, ext, r.error)
  {
    var id := IdField(input, ext);
    var email := RequiredEmail(input, ext, EmailCap(ResponseSchema));
    var profile := ValidateProfile(input, NicknameCap(ResponseSchema));
    var professional := ProfessionalField(input);
    var role := RoleField(input, ext);
    var extra := ResponseExtraErrors(id, email, professional, role);
    ResponseExtras(input, ext, id, email, professional, role);
    ResponseOwnErrors(input, ext, id, email, professional, role);
    RecordOutcome(ResponseSchema, input, ext, extra, profile);
    ProfileOwnErrors(ResponseSchema, input, ext, extra, profile);
    if extra == map[] && profile.Success? {
      r := Success(UserResponse(id.value, email.value, profile.value, professional.value, role.value));
    } else {
      r := Failure(extra + ProfileErrors(profile));
    }
  }

  /** The errors of the four fields `UserResponse` checks besides the profile. */
  function ResponseExtraErrors(
    id: Result<string, FieldError>, email: Result<string, FieldError>,
    professional: Result<Option<bool>, FieldError>, role: Result<string, FieldError>): (e: Errors)
    ensures forall f :: f in e <==>
      || (f == Id && id.Failure?) || (f == Email && email.Failure?)
      || (f == IsProfessional && professional.Failure?) || (f == Role && role.Failure?)
    ensures e == map[] <==> id.Success? && email.Success? && professional.Success? && role.Success?
    ensures Id in e ==> e[Id] == id.error
    ensures Email in e ==> e[Email] == email.error
    ensures IsProfessional in e ==> e[IsProfessional] == professional.error
    ensures Role in e ==> e[Role] == role.error
  {
    var e := ErrorOf(Id, id) + ErrorOf(Email, email) + ErrorOf(IsProfessional, professional) + ErrorOf(Role, role);
    assert id.Failure? ==> Id in e;
    assert email.Failure? ==> Email in e;
    assert professional.Failure? ==> IsProfessional in e;
    assert role.Failure? ==> Role in e;
    e
  }

  /** Each reader of a `UserResponse` field fails exactly when that field is invalid. */
  lemma ResponseFieldsValid(
    input: RawInput, ext: Externals, id: Result<string, FieldError>, email: Result<string, FieldError>,
    professional: Result<Option<bool>, FieldError>, role: Result<string, FieldError>)
    requires id == IdField(input, ext)
    requires email == RequiredEmail(input, ext, EmailCap(ResponseSchema))
    requires professional == ProfessionalField(input)
    requires role == RoleField(input, ext)
    ensures id.Failure? <==> !ExtraFieldValid(ResponseSchema, Id, input, ext)
    ensures email.Failure? <==> !ExtraFieldValid(ResponseSchema, Email, input, ext)
    ensures professional.Failure? <==> !ExtraFieldValid(ResponseSchema, IsProfessional, input, ext)
    ensures role.Failure? <==> !ExtraFieldValid(ResponseSchema, Role, input, ext)
  {
  }

  /** Each entry of a `UserResponse`'s extra errors is its own field's failure. */
  lemma ResponseOwnErrors(
    input: RawInput, ext: Externals, id: Result<string, FieldError>, email: Result<string, FieldError>,
    professional: Result<Option<bool>, FieldError>, role: Result<string, FieldError>)
    requires id == IdField(input, ext)
    requires email == RequiredEmail(input, ext, EmailCap(ResponseSchema))
    requires professional == ProfessionalField(input)
    requires role == RoleField(input, ext)
    ensures ReportsOwnErrors(ResponseSchema, input, ext, ResponseExtraErrors(id, email, professional, role))
  {
  }

  lemma ResponseExtras(
    input: RawInput, ext: Externals, id: Result<string, FieldError>, email: Result<string, FieldError>,
    professional: Result<Option<bool>, FieldError>, role: Result<string, FieldError>)
    requires id == IdField(input, ext)
    requires email == RequiredEmail(input, ext, EmailCap(ResponseSchema))
    requires professional == ProfessionalField(input)
    requires role == RoleField(input, ext)
    ensures ReportsInvalidExtras(ResponseSchema, input, ext, ResponseExtraErrors(id, email, professional, role))
  {
    var extra := ResponseExtraErrors(id, email, professional, role);
    var fields := ExtraFields(ResponseSchema);
    assert fields == {Id, Email, IsProfessional, Role};
    ResponseFieldsValid(input, ext, id, email, professional, role);
    forall f
      ensures f in extra <==> f in fields && !ExtraFieldValid(ResponseSchema, f, input, ext)
    {
      if f == Id {
        assert f in fields;
        assert f in extra <==> id.Failure?;
      } else if f == Email {
        assert f in fields;
        assert f in extra <==> email.Failure?;
      } else if f == IsProfessional {
        assert f in fields;
        assert f in extra <==> professional.Failure?;
      } else if f == Role {
        assert f in fields;
        assert f in extra <==> role.Failure?;
      } else {
        assert f !in fields;
        assert f !in extra;
      }
    }
  }

  // ---------------------------------------------------------------------------------------
  // how the schemas relate

  /** `UserCreate` accepts exactly the `UserBase` inputs that also carry a valid password. */
  lemma CreateIsBasePlusPassword(input: RawInput, ext: Externals)
    ensures AllFieldsValid(CreateSchema, input, ext) <==> AllFieldsValid(BaseSchema, input, ext) && PasswordValid(input)
  {
    assert ExtraFieldValid(CreateSchema, Email, input, ext) == ExtraFieldValid(BaseSchema, Email, input, ext);
    assert ExtraFieldValid(CreateSchema, Password, input, ext) == PasswordValid(input);
  }

  /** Dropping the nickname's `max_length` only lets more profiles through. */
  lemma ProfileValidWithoutCap(input: RawInput, cap: nat)
    requires ProfileValid(input, Some(cap))
    ensures ProfileValid(input, None)
  {
    assert ProfileFieldValid(Nickname, input, Some(cap));
  }

  /**
   * A valid `UserBase` input is a valid `UserResponse` input exactly when it also carries a
   * valid `id`, `role` and `is_professional`: the redeclared `email` and `nickname` of
   * `UserResponse` accept everything the `UserBase` ones accept.
   */
  lemma ResponseAcceptsValidBase(input: RawInput, ext: Externals)
    requires AllFieldsValid(BaseSchema, input, ext)
    ensures AllFieldsValid(ResponseSchema, input, ext) <==>
      && ExtraFieldValid(ResponseSchema, Id, input, ext)
      && ExtraFieldValid(ResponseSchema, IsProfessional, input, ext)
      && ExtraFieldValid(ResponseSchema, Role, input, ext)
  {
    ProfileValidWithoutCap(input, NicknameMaxLength);
    assert ExtraFieldValid(BaseSchema, Email, input, ext);
    assert ExtraFieldValid(ResponseSchema, Email, input, ext);
  }

  /**
   * A key that names no field changes no field's verdict, yet a truthy value under it is
   * enough for the whole-record check of `UserUpdate`.
   */
  lemma UpdateUnknownKey(input: RawInput, ext: Externals, k: string, v: RawValue)
    requires forall f :: Key(f) != k
    ensures AllFieldsValid(UpdateSchema, input[k := v], ext) <==> AllFieldsValid(UpdateSchema, input, ext)
    ensures Truthy(v) ==> AnyTruthy(input[k := v])
  {
    var input' := input[k := v];
    forall f
      ensures Given(input', f) == Given(input, f) && OptionalTextTyped(input', f) == OptionalTextTyped(input, f)
    {
      assert Key(f) != k;
    }
    forall f
      ensures ProfileFieldValid(f, input', Some(NicknameMaxLength)) == ProfileFieldValid(f, input, Some(NicknameMaxLength))
    {
      assert Given(input', f) == Given(input, f);
      assert OptionalTextTyped(input', f) == OptionalTextTyped(input, f);
    }
    assert ExtraFieldValid(UpdateSchema, Email, input', ext) == ExtraFieldValid(UpdateSchema, Email, input, ext) by {
      assert Given(input', Email) == Given(input, Email);
      assert OptionalTextTyped(input', Email) == OptionalTextTyped(input, Email);
    }
    assert ExtraFieldValid(UpdateSchema, Role, input', ext) == ExtraFieldValid(UpdateSchema, Role, input, ext) by {
      assert OptionalTextTyped(input', Role) == OptionalTextTyped(input, Role);
    }
    if Truthy(v) {
      assert k in input' && Truthy(input'[k]);
    }
  }

  /** Without a truthy value, `UserUpdate` rejects even an input whose every field is valid. */
  lemma UpdateNeedsTruthyValue(ext: Externals)
    ensures AllFieldsValid(UpdateSchema, map["first_name" := Text(""), "bio" := Null], ext)
    ensures !AnyTruthy(map["first_name" := Text(""), "bio" := Null])
  {
    var input: RawInput := map["first_name" := Text(""), "bio" := Null];
    assert Given(input, FirstName) == Some("");
    assert Given(input, Bio) == None;
  }
}
