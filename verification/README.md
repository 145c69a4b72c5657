# User record validation, in Dafny

A model of the validation layer of a user-management service's schemas
(`app/schemas/user_schemas.py`). Four record shapes are built from a raw field-name-to-value
mapping:

- `UserBase`: a required e-mail address plus seven optional profile fields. The profile fields
  are nickname, first and last name, bio, and three URLs.
- `UserCreate`: `UserBase` plus a password with a seven-rule policy.
- `UserUpdate`: every field optional, plus a free-text role. The whole record is rejected unless
  some raw value is truthy.
- `UserResponse`: `UserBase` with `email` and `nickname` redeclared without their maximum lengths,
  plus an `id`, an `is_professional` flag and a `role`.

Validation either yields the record exactly as given or fails with one error per invalid field.
Every field is checked independently and all failures are reported together.

## How the model is laid out

- `wrappers.dfy` (`Wrappers`): `Option` and `Result`.
- `strings.dfy` (`Strings`): predicates over strings, plus searches that mirror Python's `str`
  methods. It also holds `PyFullMatchPlus`, the meaning of `re.match(r"^[C]+$", v)` under Python's
  rule that `$` also matches in front of one final line break.
- `char_classes.dfy` (`CharClasses`): the character classes of the regular expressions:
  - `\s` is the exact list of characters Python's `str.isspace` accepts;
  - the nickname pattern's `\w`;
  - the password's special characters.
- `url_pattern.dfy` (`UrlPattern`): `validate_url`. A scanning matcher for
  `^https?:\/\/[^\s/$.?#].[^\s]*$` is proved equal to a declarative reading of the expression.
- `url_parse.dfy` (`UrlParse`): the part of `urllib.parse.urlparse` that yields a URL's path:
  - stripping leading C0 controls and spaces, then deleting tab, CR and LF;
  - splitting off the scheme, the network location, the fragment, the query and the
    `;parameters`;
  - the `Invalid IPv6 URL` bracket error.

  It also holds the profile-picture validator.
- `field_rules.dfy` (`FieldRules`): one check per field. Each runs the field's steps in the order
  the schema library applies them and reports the first failure. Each has a declarative
  "accepted" predicate it is proved equal to.
- `password.dfy` (`PasswordPolicy`): `validate_password`.
- `user_schemas.dfy` (`UserSchemas`): raw input, the four record validators, and lemmas relating
  the schemas.
- `examples.dfy` (`Examples`): the values the repository's schema tests use, with the verdicts
  the model reaches on them.

Order of the steps inside one field:
- validators declared `pre=True` run first, the later-declared one outermost;
- then the string type and its `min_length`, `max_length` and `pattern` constraints, in that
  order;
- then the plain validators.

So the profile picture's image-extension validator runs before the shared URL check, and a
`ftp://…/x.jpg` picture fails as "Invalid URL format". Text without `:`, such as `http//invalid`,
is all path and fails the image check.

Raw values are `Null`, `Text(s)` or `Flag(b)`. Unknown keys are ignored by the fields but are
seen by `UserUpdate`'s whole-record check.

What the schemas delegate to code that is not part of this model is passed in as
`Externals(emailSyntax, uuidSyntax, roles)`: e-mail syntax (`EmailStr`), UUID syntax, and the
values of the `UserRole` enumeration (pydantic validates an enumeration by value).

## Model

| member | source | states |
|---|---|---|
| UrlPattern.ValidateUrl | app/schemas/user_schemas.py:14-20 | `None` passes unchanged. Text is returned unchanged exactly when the URL expression matches it, and is otherwise rejected with "Invalid URL format". |
| UrlPattern.MatchesUrlShapeIffRegex | app/schemas/user_schemas.py:17-18 | The hand-written matcher accepts exactly the texts for which some reading exists. A reading is `http://` or `https://`, a character outside `\s/$.?#`, any character but a line break, non-space characters, and optionally one final line break. |
| UrlPattern.NonSpaceToEndShapes | app/schemas/user_schemas.py:17 | `[^\s]*$` accepts exactly the all-non-space texts and those followed by one final line break. |
| UrlPattern.UrlShapeWitness | app/schemas/user_schemas.py:17 | `http://` or `https://`, a character outside `\s/$.?#`, any character but a line break, then non-space characters: the URL expression matches. |
| UrlPattern.AfterSchemeShapes | app/schemas/user_schemas.py:17 | What follows the scheme is accepted iff it has one of the readings above. |
| UrlParse.Parse | app/schemas/user_schemas.py:55 | `urlparse` after stripping leading C0 controls and spaces and deleting tab, CR and LF. Of its errors only "Invalid IPv6 URL" is modelled. The path it yields holds no `?`, `#` or line break. |
| UrlParse.UrlPathOf | app/schemas/user_schemas.py:55 | For `scheme://host` + path + an optional query or fragment, the parsed path is exactly that path, and the scheme and network location come back as written. This holds when nothing in the text is stripped or cut by the parser and the host is ASCII without brackets, so neither network-location check applies. |
| UrlParse.NoSchemePath | app/schemas/user_schemas.py:55 | Some text parses with no scheme and no network location, and all of it except its leading controls and spaces is the path. The text must hold no `:`, `?`, `#`, `;`, tab, CR or LF, and must not start with `//` once those leading characters are stripped. |
| UrlParse.LeadingSpaceNetloc | app/schemas/user_schemas.py:55 | For an ASCII host without `/`, `?`, `#`, brackets, `:`, tab, CR or LF, ` //host` is stripped to `//host`. It parses with network location `host` and an empty path. |
| UrlParse.CheckProfilePicture | app/schemas/user_schemas.py:52-58 | `None` passes. A value is kept unchanged iff it parses and its path ends in `.jpg`, `.jpeg` or `.png`, case-sensitively. A value that fails to parse fails with the parser's error. A value whose parsed path names no image fails with the image message. |
| FieldRules.CheckNickname | app/schemas/user_schemas.py:24-38 | Accepts `None`, or 3 to 50 characters (no cap in `UserResponse`), all ASCII letters, digits, `_` or `-`. Failures are reported in order: shorter than 3 gives `TooShort(3)`; over the cap gives `TooLong`; a character outside the `\w-` pattern gives `PatternMismatch`. The validator's message is reported exactly for a value of valid length that the pattern lets through but that holds a non-ASCII letter. |
| FieldRules.CheckName | app/schemas/user_schemas.py:25-50 | Accepts `None`, the empty string (the validator skips falsy values), or at most 100 ASCII letters, white space, `'` and `-`. Over 100 characters always gives `TooLong(100)`. A value of at most 100 characters that is not accepted gets the field's own message. |
| FieldRules.CheckBio | app/schemas/user_schemas.py:27 | Accepts `None` or at most 500 characters. Otherwise `TooLong(500)`. |
| FieldRules.CheckLinkUrl | app/schemas/user_schemas.py:29-32 | Accepts `None`, or a text the URL expression matches of at most 255 characters. A text the expression rejects fails with "Invalid URL format", whatever its length. A matching text over 255 characters fails with `TooLong(255)`. |
| FieldRules.CheckPictureUrl | app/schemas/user_schemas.py:52-58 | Accepted exactly when the parsed path names an image and the link rules hold. A parser error is reported as that error, and a path naming no image as the image message, both before the URL check. With an image path, a text the URL expression rejects gets "Invalid URL format", and a matching text over 255 characters gets `TooLong(255)`. |
| FieldRules.PlainSchemeShape | app/schemas/user_schemas.py:17 | A scheme other than `http` and `https` never begins a text the URL expression matches. |
| FieldRules.PlainUrlShape | app/schemas/user_schemas.py:17-18 | For a plain `scheme://host/path` (ASCII host), the URL expression matches iff the scheme is `http` or `https`. |
| FieldRules.HttpPlainUrlShape | app/schemas/user_schemas.py:17 | A plain `http://host/path` or `https://host/path` (ASCII host) matches the URL expression. |
| FieldRules.PlainUrlImage | app/schemas/user_schemas.py:54-57 | For a plain `scheme://host/path` (ASCII host, nothing the parser strips or cuts), the image validator accepts iff the path ends with an image extension. |
| FieldRules.PlainUrlPicture | app/schemas/user_schemas.py:52-58 | For a plain `scheme://host/path` (ASCII host), the verdict is decided in this order: the image extension, then the `http(s)` shape, then the 255-character cap. |
| FieldRules.NoSchemePicture | app/schemas/user_schemas.py:52-58 | Some text is never accepted. It fails on the image check or, if its stripped text ends in an image extension, on the URL check. The text must hold no `:`, `?`, `#`, `;`, tab, CR or LF, and must not start with `//` once its leading controls and spaces are stripped. |
| FieldRules.LeadingSpacePicture | app/schemas/user_schemas.py:52-58 | For an ASCII host without `/`, `?`, `#`, brackets, `:`, tab, CR or LF, ` //host` always fails with the image message. The parser strips the space, so the path is empty. |
| FieldRules.CheckEmail | app/schemas/user_schemas.py:23 | Accepted iff the external syntax check accepts and the optional cap holds. A syntax failure is reported as `InvalidEmail`. A syntactically valid address over the cap gets `TooLong` with the cap. |
| CharClasses.NicknameClassesNested | app/schemas/user_schemas.py:24-36 | The validator's class is inside the pattern's `\w-`. Neither holds a line break. `é` passes the pattern but not the validator. |
| PasswordPolicy.ValidatePassword | app/schemas/user_schemas.py:66-82 | A password is accepted and returned unchanged iff it is strong: 8 to 128 characters, an upper-case letter, a lower-case letter, a digit, a special character and no space. It fails iff some rule breaks, with the message of the first rule broken, in the source's order. |
| PasswordPolicy.MessageIdentifiesRule | app/schemas/user_schemas.py:68-81 | The message identifies the rule. A password fails with rule k's message iff rule k is the first it breaks. |
| UserSchemas.OptionalText | app/schemas/user_schemas.py:24-30 | An optional string field reads absent or null as `None` and text as itself. A boolean is a type error. |
| UserSchemas.RequiredText | app/schemas/user_schemas.py:23 | A required string field succeeds iff text is given. Absence is reported as missing. |
| UserSchemas.ProfileField | app/schemas/user_schemas.py:24-58 | Each profile field succeeds iff its declarative rule holds, and yields the given value. |
| UserSchemas.ValidateProfile | app/schemas/user_schemas.py:24-58 | The seven profile fields are checked independently. The outcome is the profile exactly as given iff all are valid. Otherwise it is a non-empty error map naming exactly the invalid fields. Each entry is the error that field reports on its own. |
| UserSchemas.RecordOutcome | app/schemas/user_schemas.py:22-58 | The profile errors plus the other fields' errors give a record that is accepted iff every field of the schema is valid. On failure they name exactly the invalid fields, and never the whole-record key. |
| UserSchemas.ProfileOwnErrors | app/schemas/user_schemas.py:22-58 | Adding the profile's errors to the other fields' errors keeps every entry equal to its own field's error. |
| UserSchemas.ValidateUserBase | app/schemas/user_schemas.py:22-58 | `UserBase` is accepted iff every field is valid, and yields the given e-mail and profile. Otherwise it fails with exactly one error per invalid field, and each entry is the error that field's own check reports. |
| UserSchemas.PasswordField | app/schemas/user_schemas.py:64-82 | The required password succeeds iff the policy holds. A given password that fails carries the message of the first rule it breaks. |
| UserSchemas.ValidateUserCreate | app/schemas/user_schemas.py:63-82 | As `UserBase`, plus the password, and yields the given password. On failure the `password` entry is the password check's own error: the first broken rule's message. |
| UserSchemas.OptionalEmail | app/schemas/user_schemas.py:85 | `UserUpdate`'s e-mail may be absent or null. A given address needs valid syntax and at most 255 characters. |
| UserSchemas.FalsyValues | app/schemas/user_schemas.py:98 | A raw value is falsy to Python exactly when it is null, the empty string or `False`. |
| UserSchemas.NoTruthyValue | app/schemas/user_schemas.py:98 | `any(values.values())` fails exactly when every value under every key, known or not, is null, `""` or `False`. |
| UserSchemas.ValidateUserUpdate | app/schemas/user_schemas.py:84-100 | Rejected as a whole, with the one "at least one field" error, iff no raw value under any key is truthy. Otherwise it is accepted iff every field is valid, yielding the given values. It fails with one error per invalid field, each the error that field's own check reports. |
| UserSchemas.RequiredEmail | app/schemas/user_schemas.py:23 | The required `email` of `UserBase` and `UserCreate`, and of `UserResponse` (line 104, no cap there), succeeds iff text is given that the syntax check accepts within the cap. It yields that text. |
| UserSchemas.IdField | app/schemas/user_schemas.py:103 | `id` is required text that the external UUID syntax accepts. |
| UserSchemas.ProfessionalField | app/schemas/user_schemas.py:106 | `is_professional` defaults to `False` when absent; null is kept as `None` and a given flag is kept. Text succeeds exactly when pydantic can read it as a boolean, and yields that boolean. |
| UserSchemas.RoleField | app/schemas/user_schemas.py:107 | `role` is required and must be one of the enumeration's values. |
| UserSchemas.ResponseExtraErrors | app/schemas/user_schemas.py:102-107 | The error map of `id`, `email`, `is_professional` and `role` holds exactly the failed ones, each under its own error, and is empty iff all four succeed. |
| UserSchemas.ValidateUserResponse | app/schemas/user_schemas.py:102-107 | `UserResponse` is accepted iff every field is valid, with no caps on `email` and `nickname`. `id`, `email`, the profile and `role` read back as given. `is_professional` is `False` when absent and otherwise the given flag, or the boolean its text names. Otherwise there is one error per invalid field, each the error that field's own check reports. |
| UserSchemas.CreateIsBasePlusPassword | app/schemas/user_schemas.py:63-64 | `UserCreate` accepts exactly the `UserBase`-valid inputs that also carry a valid password. |
| UserSchemas.ProfileValidWithoutCap | app/schemas/user_schemas.py:105 | Dropping the nickname's cap only widens the accepted profiles. |
| UserSchemas.ResponseAcceptsValidBase | app/schemas/user_schemas.py:102-107 | A `UserBase`-valid input is `UserResponse`-valid iff its `id`, `is_professional` and `role` are valid. |
| UserSchemas.UpdateUnknownKey | app/schemas/user_schemas.py:96-100 | A key naming no field changes no field's verdict. A truthy value under it still satisfies the whole-record check. |
| UserSchemas.UpdateNeedsTruthyValue | app/schemas/user_schemas.py:96-100 | An input whose every field is valid (an empty first name, a null bio) is still rejected, since none of its values is truthy. |
| Examples.NicknameValidExamples | tests/test_schemas/test_user_schemas.py:87-91 | `test_user`, `test-user`, `testuser123` and `123test` are accepted. |
| Examples.NicknameInvalidExamples | tests/test_schemas/test_user_schemas.py:93-97 | `test user` and `test?user` break the pattern. The empty string and `us` are too short. |
| Examples.NicknameCapExample | tests/test_schemas/test_user_schemas.py:93-97 | `"us" * 26` exceeds the 50-character cap, and is accepted where there is no cap. |
| Examples.NicknameNonAsciiExample | app/schemas/user_schemas.py:34-38 | `José` passes the pattern and is rejected by the validator's message. |
| Examples.NameValidExamples | tests/test_schemas/test_user_schemas.py:113-117 | `Test`, `Test First`, `Test-First` and `Test'First` are accepted unchanged as first names. |
| Examples.LastNameValidExamples | tests/test_schemas/test_user_schemas.py:125-129 | `Test`, `Test Last`, `Test-Last` and `Test'Last` are accepted unchanged as last names. |
| Examples.NameInvalidExamples | tests/test_schemas/test_user_schemas.py:119-135 | `test123`, `test$` and `test_last` fail with the field's message. `"test" * 26` exceeds 100 characters. |
| Examples.NameEmptyExample | app/schemas/user_schemas.py:40-44 | An empty first name is accepted, because the validator skips falsy values. |
| Examples.BioExamples | tests/test_schemas/test_user_schemas.py:138-148 | `Bio` and `Bio Test $` are accepted. `"Bio" * 167` exceeds 500 characters. |
| Examples.PasswordValidExample | tests/test_schemas/test_user_schemas.py:23-24 | `SecurePassword123!`, the password of the tests' creation record, is accepted unchanged. |
| Examples.PasswordFieldExample | app/schemas/user_schemas.py:64 | `Secure*1234`, the field's example value, is accepted unchanged. |
| Examples.PasswordLengthBoundaryExample | app/schemas/user_schemas.py:68-71 | A 128-character password is accepted and a 129-character one fails with the too-long message. |
| Examples.PasswordTooShortExample | tests/test_schemas/test_user_schemas.py:179-181 | `Short1!` fails with the too-short message. |
| Examples.CreateShortPasswordEntry | tests/test_schemas/test_user_schemas.py:179-181 | A `UserCreate` input with the password `Short1!` has a `password` error, and it is the too-short message, whatever else is wrong with it. |
| Examples.PasswordTooLongExample | tests/test_schemas/test_user_schemas.py:183-185 | The 144-character password fails with the too-long message. |
| Examples.PasswordNoUppercaseExample | tests/test_schemas/test_user_schemas.py:187-189 | `nouppercase123!` fails with the upper-case message. |
| Examples.PasswordNoLowercaseExample | tests/test_schemas/test_user_schemas.py:191-193 | `NOLOWERCASE123!` fails with the lower-case message. |
| Examples.PasswordNoDigitExample | tests/test_schemas/test_user_schemas.py:195-197 | `NoDigitPassword!` fails with the digit message. |
| Examples.PasswordNoSpecialExample | tests/test_schemas/test_user_schemas.py:199-201 | `NoSpecialCharacter123` fails with the special-character message. |
| Examples.PasswordSpaceExample | tests/test_schemas/test_user_schemas.py:203-205 | `Space Password123!` fails with the space message. |
| Examples.PictureAbsentExample | tests/test_schemas/test_user_schemas.py:151-155 | An absent profile picture (`None`) is accepted. |
| Examples.PictureHttpJpgExample | tests/test_schemas/test_user_schemas.py:151-155 | `http://valid.com/profile.jpg` is accepted unchanged. |
| Examples.PictureHttpsPngExample | tests/test_schemas/test_user_schemas.py:151-155 | `https://valid.com/profile.png` is accepted unchanged. |
| Examples.PictureFtpExample | tests/test_schemas/test_user_schemas.py:157-161 | `ftp://invalid.com/profile.jpg` passes the image check and fails with "Invalid URL format". |
| Examples.PictureNoColonExample | tests/test_schemas/test_user_schemas.py:157-161 | `http//invalid` and `https//invalid` fail with the image message. |
| Examples.PictureTooLongExample | tests/test_schemas/test_user_schemas.py:163-167 | `http://valid.com/` + 255 × `a` + `.jpg` fails with `TooLong(255)`. |
| Examples.PictureBadExtensionExample | tests/test_schemas/test_user_schemas.py:169-173 | `http://valid.com/profile.jg` fails with the image message. |
| Examples.LeadingSpaceExample | app/schemas/user_schemas.py:52-58 | ` //ab.jpg` fails with the image message, because the parser strips the leading space and reads `ab.jpg` as the network location. |
| Examples.ProfessionalTextExamples | app/schemas/user_schemas.py:106 | `YES` reads as `True` and `0` as `False`. `maybe` names no boolean. |
| Examples.ProfessionalFieldExamples | app/schemas/user_schemas.py:106 | An absent `is_professional` is `False`, and the text `maybe` is rejected. |
| Examples.EmailTooLongExample | tests/test_schemas/test_user_schemas.py:106-110 | `"verylong" * 32 + "@email.com"` is rejected whatever the e-mail syntax check says. |
| Examples.EmailValidExample | tests/test_schemas/test_user_schemas.py:100-104 | An address the syntax check accepts and that fits the cap is kept. |

## Left out

- E-mail syntax (`EmailStr`), UUID parsing and the `UserRole` enumeration belong to libraries
  and modules that are not part of this model. They are parameters (`Externals`). A UUID is kept
  as its text. The e-mail examples with malformed addresses depend only on that parameter and
  are not stated.
- UserSchemas.RequiredEmail: `EmailStr` normalisation is dropped. The program stores the
  normalised address (spaces stripped, `Name <addr>` reduced to `addr`, the domain lower-cased)
  and applies `max_length=255` to it. The model keeps the raw text and caps the raw text.
- UserSchemas.OptionalEmail: the same; the raw text is kept and capped.
- UserSchemas.ValidateUserBase, UserSchemas.ValidateUserCreate, UserSchemas.ValidateUserUpdate,
  UserSchemas.ValidateUserResponse: "yields the given e-mail" means the raw text, not the
  normalised address the program stores (`John@EXAMPLE.com` is stored as `John@example.com`).
- UrlParse.Parse: the parser follows `urllib.parse.urlsplit` as shipped with Python 3.12 and
  later. Older releases split some URLs differently. The strip of leading C0 controls and
  spaces arrived in 3.11.4 (and in security releases of older branches). The deletion of tab,
  CR and LF arrived in 3.9.5. Neither older behaviour is modelled.
- UrlParse.Parse: two checks of `urlsplit` on the network location are left out. Each makes the
  program reject URLs that the model accepts, with a `ValueError` message instead of the
  model's verdict:
  - the NFKC check: a network location whose NFKC normalisation brings in `/`, `?`, `#`, `@`
    or `:` is rejected (`http://a\u2100b/x.jpg`, since U+2100 becomes `a/c`);
  - the bracketed-host check: a network location holding both brackets must hold an IPv6
    address or an `IPvFuture` literal between them (`http://[abc]/x.jpg` is rejected).

  Modelling them needs Unicode normalisation and IPv6 address parsing. The model raises only the
  one-sided-bracket error. The leading strip of C0 controls and spaces is modelled
  (`FieldRules.LeadingSpacePicture`).
- UrlParse.CheckProfilePicture, FieldRules.CheckPictureUrl: they inherit these two gaps. A URL
  whose network location is non-ASCII and breaks under NFKC, or holds a bracketed non-address,
  is accepted by the model and rejected by the program.
- UrlParse.UrlPathOf, UrlParse.LeadingSpaceNetloc, FieldRules.PlainUrlImage,
  FieldRules.PlainUrlShape, FieldRules.PlainUrlPicture, FieldRules.LeadingSpacePicture: these
  lemmas require an ASCII host without brackets. The NFKC check returns early for ASCII text,
  and the bracketed-host check needs a bracket, so for these hosts the model and the program
  agree. Non-ASCII hosts are not covered.
- `\w` in the nickname pattern is approximated by ASCII word characters plus the Latin letters
  U+00C0 to U+024F (except × and ÷). The schema library's full Unicode word class is not
  modelled. `\d` in
  the password rule is modelled as ASCII digits.
- The nickname and name checks use Python's `re.match` `$` rule (a final line break is tolerated).
  The `pattern=` constraint uses the schema library's own regex engine, whose `$` is strict.
- Raw values are limited to null, text and booleans; numbers and other JSON values are not
  modelled. A boolean given to a `str` field is rejected, as pydantic's `str` type does, and is
  reported as `WrongType`. For the URL fields, Python raises an uncaught exception there (the
  pre-validators hand the boolean to `re.match` or `urlparse`), which the model also reports
  as `WrongType`.
- UserSchemas.ProfessionalField: pydantic's text-to-bool coercion is modelled. `"0"`, `"1"` and
  the words `f`, `n`, `no`, `off`, `false`, `t`, `y`, `on`, `yes`, `true`, in any ASCII case,
  become booleans. Any other text is `WrongType`.
- The errors are a map from field to a structured reason (`FieldError`). Pydantic's
  error-list format and ordering are not modelled. The whole-record error of `UserUpdate` sits
  under the `WholeRecord` key.
- The `example=` metadata is left out, including `generate_nickname`, which only produces
  example values and is random.
- `Config.from_attributes` is left out.
- `LoginRequest`, `ErrorResponse` and `UserListResponse` are left out. They hold only required
  typed fields with no rules of their own.
- The commented-out timestamp fields of `UserResponse` are not in the source and are not
  modelled.
- Examples: the URL fixtures of the shared test record are not restated. They are covered by
  `FieldRules.PlainUrlPicture` and `UrlPattern.ValidateUrl`.

## Behaviour worth noting

Points where the code's behaviour is easy to misread from its messages or declarations. Line
numbers refer to `app/schemas/user_schemas.py`.

- `UserResponse` redeclares `email` without `max_length` (line 104) and `nickname` without
  `max_length` (line 105). Neither field is capped there.
- The too-long password message reads "less than 128 characters" (line 71), but the check on
  line 70 is `len(v) > 128`. A 128-character password is accepted
  (`Examples.PasswordLengthBoundaryExample`).
- `UserUpdate`'s message reads "At least one field must be provided for update" (line 99), and
  the check on line 98 is `any(values.values())`. It looks at every raw value, under known and
  unknown keys alike. A boolean `True` counts, and an empty string does not. Passing that check
  does not make an input valid, since every field is still checked
  (`UserSchemas.UpdateUnknownKey`, `UserSchemas.UpdateNeedsTruthyValue`).
- The name validators test `if v and ...` (lines 42 and 48), so they skip falsy values and an
  empty first or last name is accepted (`Examples.NameEmptyExample`).
