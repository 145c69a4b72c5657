/**
 * The checks of the individual `UserBase` fields. Each check runs the field's steps in the
 * order the schema library applies them (validators marked `pre=True` first, then the type
 * and its length/pattern constraints, then the other validators) and reports only the first
 * failure. Every check comes with a declarative statement of the values it accepts.
 */
module FieldRules {
  import opened Wrappers
  import opened CharClasses
  import opened Strings
  import opened UrlPattern
  import opened UrlParse

  /** Why one field was rejected. */
  datatype FieldError =
    | Missing                       // a required field is absent
    | WrongType                     // the raw value is not of the field's type
    | TooShort(minLength: nat)      // a `min_length` constraint
    | TooLong(maxLength: nat)       // a `max_length` constraint
    | PatternMismatch(pattern: string)
    | InvalidEmail
    | InvalidUuid
    | InvalidRole
    | Rejected(message: string)     // a validator raised `ValueError(message)`

  const NicknameMinLength: nat := 3
  const NicknameMaxLength: nat := 50
  const NameMaxLength: nat := 100
  const BioMaxLength: nat := 500
  const UrlMaxLength: nat := 255
  const EmailMaxLength: nat := 255

  const NicknamePattern: string := "^[\\w-]+$"

  const NicknameMessage: string := "Nickname can only contain letters, numbers, underscores, and hyphens."
  const FirstNameMessage: string := "First name can only contain letters, spaces, hyphens, or apostrophes."
  const LastNameMessage: string := "Last name can only contain letters, spaces, hyphens, or apostrophes."

  /** An optional `max_length`: absent means no upper bound. */
  predicate WithinCap(s: string, cap: Option<nat>) {
    cap.None? || |s| <= cap.value
  }

  // ---------------------------------------------------------------------------------------
  // nickname

  /** An accepted nickname: absent, or long enough, within the cap, and ASCII word characters or `-`. */
  predicate NicknameAccepted(v: Option<string>, cap: Option<nat>) {
    v.None? ||
    (NicknameMinLength <= |v.value| && WithinCap(v.value, cap) && All(v.value, IsNicknameChar))
  }

  /**
   * The nickname field: `min_length=3`, the optional `max_length`, the pattern `^[\w-]+$`,
   * then `validate_nickname`. Only a word character outside ASCII gets past the pattern and
   * is caught by the validator's message.
   */
  function CheckNickname(v: Option<string>, cap: Option<nat>): (r: Result<Option<string>, FieldError>)
    ensures r.Success? <==> NicknameAccepted(v, cap)
    ensures r.Success? ==> r.value == v
    ensures r == Failure(Rejected(NicknameMessage)) <==>
      v.Some? && NicknameMinLength <= |v.value| && WithinCap(v.value, cap)
      && All(v.value, IsNicknamePatternChar) && !All(v.value, IsNicknameChar)
    ensures r.Failure? ==>
      r.error in {TooShort(NicknameMinLength), PatternMismatch(NicknamePattern), Rejected(NicknameMessage)}
      || (cap.Some? && r.error == TooLong(cap.value))
    ensures v.Some? && |v.value| < NicknameMinLength ==> r == Failure(TooShort(NicknameMinLength))
    ensures v.Some? && NicknameMinLength <= |v.value| && cap.Some? && |v.value| > cap.value ==>
      r == Failure(TooLong(cap.value))
    ensures v.Some? && NicknameMinLength <= |v.value| && WithinCap(v.value, cap) && !All(v.value, IsNicknamePatternChar) ==>
      r == Failure(PatternMismatch(NicknamePattern))
  {
    match v
    case None => Success(None)
    case Some(s) =>
      if |s| < NicknameMinLength then Failure(TooShort(NicknameMinLength))
      else if cap.Some? && |s| > cap.value then Failure(TooLong(cap.value))
      else if !All(s, IsNicknamePatternChar) then
        assert !All(s, IsNicknameChar) by {
          var i :| 0 <= i < |s| && !IsNicknamePatternChar(s[i]);
          NicknameClassesNested(s[i]);
        }
        Failure(PatternMismatch(NicknamePattern))
      else
        assert '\n' !in s by {
          NicknameClassesNested('\n');
        }
        PyFullMatchPlusStrict(s, IsNicknameChar);
        if |s| > 0 && !PyFullMatchPlus(s, IsNicknameChar) then Failure(Rejected(NicknameMessage))
        else Success(v)
  }

  // ---------------------------------------------------------------------------------------
  // first_name, last_name

  /** An accepted name: absent, empty, or at most 100 letters, whitespace, `'` and `-`. */
  predicate NameAccepted(v: Option<string>) {
    v.None? || |v.value| == 0 || (|v.value| <= NameMaxLength && All(v.value, IsNameChar))
  }

  /**
   * A name field: `max_length=100`, then the name validator, which only looks at non-empty
   * values and rejects them with `message`.
   */
  function CheckName(v: Option<string>, message: string): (r: Result<Option<string>, FieldError>)
    ensures r.Success? <==> NameAccepted(v)
    ensures r.Success? ==> r.value == v
    ensures r.Failure? ==> r.error in {TooLong(NameMaxLength), Rejected(message)}
    ensures v.Some? && |v.value| > NameMaxLength ==> r == Failure(TooLong(NameMaxLength))
    ensures v.Some? && |v.value| <= NameMaxLength && !NameAccepted(v) ==> r == Failure(Rejected(message))
  {
    match v
    case None => Success(None)
    case Some(s) =>
      if |s| > NameMaxLength then Failure(TooLong(NameMaxLength))
      else
        PyFullMatchPlusLineBreakInClass(s, IsNameChar);
        if |s| > 0 && !PyFullMatchPlus(s, IsNameChar) then Failure(Rejected(message))
        else Success(v)
  }

  // ---------------------------------------------------------------------------------------
  // bio

  /** An accepted bio: absent, or any text of at most 500 characters. */
  predicate BioAccepted(v: Option<string>) {
    v.None? || |v.value| <= BioMaxLength
  }

  function CheckBio(v: Option<string>): (r: Result<Option<string>, FieldError>)
    ensures r.Success? <==> BioAccepted(v)
    ensures r.Success? ==> r.value == v
    ensures r.Failure? ==> r.error == TooLong(BioMaxLength)
  {
    if v.Some? && |v.value| > BioMaxLength then Failure(TooLong(BioMaxLength)) else Success(v)
  }

  // ---------------------------------------------------------------------------------------
  // linkedin_profile_url, github_profile_url, profile_picture_url

  /** An accepted link: absent, or an http(s) URL of the required shape of at most 255 characters. */
  ghost predicate LinkAccepted(v: Option<string>) {
    v.None? || (UrlRegexMatches(v.value) && |v.value| <= UrlMaxLength)
  }

  /** A URL field: `validate_url` (declared `pre=True`), then `max_length=255`. */
  function CheckLinkUrl(v: Option<string>): (r: Result<Option<string>, FieldError>)
    ensures r.Success? <==> LinkAccepted(v)
    ensures r.Success? ==> r.value == v
    ensures r.Failure? ==> r.error in {Rejected(InvalidUrlMessage), TooLong(UrlMaxLength)}
    ensures v.Some? && !UrlRegexMatches(v.value) ==> r == Failure(Rejected(InvalidUrlMessage))
    ensures v.Some? && UrlRegexMatches(v.value) && |v.value| > UrlMaxLength ==> r == Failure(TooLong(UrlMaxLength))
  {
    match ValidateUrl(v)
    case Failure(m) => Failure(Rejected(m))
    case Success(u) =>
      if u.Some? && |u.value| > UrlMaxLength then Failure(TooLong(UrlMaxLength)) else Success(u)
  }

  /** The parsed path of the URL ends in `.jpg`, `.jpeg` or `.png`. */
  predicate PointsToImage(url: string) {
    Parse(url).Success? && HasImageSuffix(Parse(url).value.path)
  }

  /** An accepted profile picture: absent, or an accepted link whose path names an image. */
  ghost predicate PictureAccepted(v: Option<string>) {
    v.None? || (PointsToImage(v.value) && LinkAccepted(v))
  }

  /**
   * The profile-picture field. Both of its validators are declared `pre=True`; the library
   * runs the later-declared one first, so the image check comes before the shape check,
   * and `max_length=255` comes last.
   */
  function CheckPictureUrl(v: Option<string>): (r: Result<Option<string>, FieldError>)
    ensures r.Success? <==> PictureAccepted(v)
    ensures r.Success? ==> r.value == v
    ensures v.Some? && !PointsToImage(v.value) ==> r.Failure? && r.error in {Rejected(ImageMessage), Rejected(InvalidIpv6Message)}
    ensures r.Failure? ==>
      r.error in {Rejected(ImageMessage), Rejected(InvalidIpv6Message), Rejected(InvalidUrlMessage), TooLong(UrlMaxLength)}
    ensures v.Some? && Parse(v.value).Failure? ==> r == Failure(Rejected(Parse(v.value).error))
    ensures v.Some? && Parse(v.value).Success? && !HasImageSuffix(Parse(v.value).value.path) ==>
      r == Failure(Rejected(ImageMessage))
    ensures v.Some? && PointsToImage(v.value) && !LinkAccepted(v) ==>
      r.Failure? && r.error in {Rejected(InvalidUrlMessage), TooLong(UrlMaxLength)}
    ensures v.Some? && PointsToImage(v.value) && !UrlRegexMatches(v.value) ==> r == Failure(Rejected(InvalidUrlMessage))
    ensures v.Some? && PointsToImage(v.value) && UrlRegexMatches(v.value) && |v.value| > UrlMaxLength ==>
      r == Failure(TooLong(UrlMaxLength))
  {
    match CheckProfilePicture(v)
    case Failure(m) => Failure(Rejected(m))
    case Success(u) => CheckLinkUrl(u)
  }

  /** Behind a plain scheme, the only prefix that ends in its first `:` is the scheme itself. */
  lemma SchemePrefix(scheme: string, rest: string, p: string)
    requires IsPlainScheme(scheme)
    requires |p| > 0 && p[|p| - 1] == ':' && ':' !in p[..|p| - 1]
    ensures StartsWith(scheme + ":" + rest, p) <==> p == scheme + ":"
  {
    var url := scheme + ":" + rest;
    if StartsWith(url, p) {
      var n := |p| - 1;
      assert forall i :: 0 <= i < |scheme| ==> url[i] == scheme[i] && IsSchemeChar(scheme[i]);
      assert url[n] == ':';
      assert n >= |scheme|;
      assert p[..n] == url[..n];
      assert url[|scheme|] == ':';
      assert n == |scheme|;
      assert url[..n] == scheme;
      assert p == p[..n] + [':'];
    }
    if p == scheme + ":" {
      assert url[..|p|] == p;
    }
  }

  /** Only the schemes `http` and `https` begin a URL of the required shape. */
  lemma PlainSchemeShape(scheme: string, rest: string)
    requires IsPlainScheme(scheme) && scheme !in {"http", "https"}
    ensures !MatchesUrlShape(scheme + ":" + rest)
  {
    var url := scheme + ":" + rest;
    SchemePrefix(scheme, rest, "http:");
    SchemePrefix(scheme, rest, "https:");
    assert (scheme + ":")[..|scheme|] == scheme;
    assert "http:"[..4] == "http" && "https:"[..5] == "https";
    assert !StartsWith(url, "http:") && !StartsWith(url, "https:");
    if StartsWith(url, "http://") {
      assert "http://" == "http:" + "//";
      StartsWithShorter(url, "http:", "//");
    }
    if StartsWith(url, "https://") {
      assert "https://" == "https:" + "//";
      StartsWithShorter(url, "https:", "//");
    }
  }

  /**
   * A network location the parser keeps whole and the URL expression accepts; it is ASCII,
   * so the parser's Unicode-normalisation check of network locations leaves it alone.
   */
  predicate IsPlainHost(host: string) {
    && |host| >= 2 && IsHostStart(host[0])
    && Excludes(host, {'/', '?', '#', '[', ']'}) && Excludes(host, UnsafeChars) && All(host, IsNonSpace)
    && All(host, IsAscii)
  }

  /** A path with no query, fragment, parameters or white space. */
  predicate IsPlainPath(path: string) {
    && |path| > 0 && path[0] == '/'
    && Excludes(path, {'?', '#', ';'}) && Excludes(path, UnsafeChars) && All(path, IsNonSpace)
  }

  /** The requirements on the URL `scheme://host` + `path` used below. */
  predicate IsPlainUrl(scheme: string, host: string, path: string) {
    IsPlainScheme(scheme) && IsPlainHost(host) && IsPlainPath(path)
  }

  /** Such a URL points to an image exactly when `path` ends with an image extension. */
  lemma PlainUrlImage(scheme: string, host: string, path: string)
    requires IsPlainUrl(scheme, host, path)
    ensures CheckProfilePicture(Some(scheme + "://" + host + path)) ==
      if HasImageSuffix(path) then Success(Some(scheme + "://" + host + path)) else Failure(ImageMessage)
  {
    var url := scheme + "://" + host + path;
    assert url == scheme + "://" + host + path + "";
    UrlPathOf(scheme, host, path, "");
  }

  /** Such a URL has the required shape exactly when its scheme is `http` or `https`. */
  lemma PlainUrlShape(scheme: string, host: string, path: string)
    requires IsPlainUrl(scheme, host, path)
    ensures UrlRegexMatches(scheme + "://" + host + path) <==> scheme in {"http", "https"}
  {
    var url := scheme + "://" + host + path;
    MatchesUrlShapeIffRegex(url);
    if scheme in {"http", "https"} {
      HttpPlainUrlShape(scheme, host, path);
    } else {
      assert url == scheme + ":" + ("//" + host + path);
      PlainSchemeShape(scheme, "//" + host + path);
    }
  }

  /** With an `http` or `https` scheme, such a URL matches the URL expression. */
  lemma HttpPlainUrlShape(scheme: string, host: string, path: string)
    requires IsPlainUrl(scheme, host, path) && scheme in {"http", "https"}
    ensures UrlRegexMatches(scheme + "://" + host + path)
  {
    var url := scheme + "://" + host + path;
    var prefix := scheme + "://";
    assert prefix in {"http://", "https://"} by {
      if scheme == "http" { assert prefix == "http://"; } else { assert prefix == "https://"; }
    }
    var rest := host + path;
    assert url == prefix + rest;
    assert rest[2..] == host[2..] + path;
    UrlShapeWitness(prefix, rest);
  }

  /**
   * How the profile-picture field treats a URL `scheme://host` + `path` with nothing the
   * parser treats specially: the image extension is checked first, then the `http(s)` shape,
   * then the length.
   */
  lemma PlainUrlPicture(scheme: string, host: string, path: string)
    requires IsPlainUrl(scheme, host, path)
    ensures var url := scheme + "://" + host + path;
      CheckPictureUrl(Some(url)) ==
        if !HasImageSuffix(path) then Failure(Rejected(ImageMessage))
        else if scheme !in {"http", "https"} then Failure(Rejected(InvalidUrlMessage))
        else if |url| > UrlMaxLength then Failure(TooLong(UrlMaxLength))
        else Success(Some(url))
  {
    PlainUrlImage(scheme, host, path);
    PlainUrlShape(scheme, host, path);
  }

  /**
   * Text without `:` (and without query, fragment, parameters or, after its leading controls
   * and spaces, a leading `//`) is its own path: it is rejected as no image unless it ends in
   * an image extension, and then as no URL.
   */
  lemma NoSchemePicture(url: string)
    requires Excludes(url, {':', '?', '#', ';'}) && Excludes(url, UnsafeChars)
    requires !StartsWith(StripLeading(url), "//")
    ensures CheckPictureUrl(Some(url)) ==
      if HasImageSuffix(StripLeading(url)) then Failure(Rejected(InvalidUrlMessage)) else Failure(Rejected(ImageMessage))
  {
    NoSchemePath(url);
    ExcludesNotIn(url, {':', '?', '#', ';'}, ':');
    NoColonNoShape(url);
    MatchesUrlShapeIffRegex(url);
  }

  /** ` //host` is always rejected as naming no image: after the leading space is stripped its path is empty. */
  lemma LeadingSpacePicture(host: string)
    requires Excludes(host, {'/', '?', '#', '[', ']', ':'}) && Excludes(host, UnsafeChars) && All(host, IsAscii)
    ensures CheckPictureUrl(Some(" //" + host)) == Failure(Rejected(ImageMessage))
  {
    LeadingSpaceNetloc(host);
  }

  /** Both accepted schemes end in `:`, so text without one never has the required shape. */
  lemma NoColonNoShape(url: string)
    requires ':' !in url
    ensures !MatchesUrlShape(url)
  {
    PrefixChar(url, "http://", 4);
    PrefixChar(url, "https://", 5);
  }

  // ---------------------------------------------------------------------------------------
  // email

  /** An accepted address: valid syntax by the external checker and within the optional cap. */
  predicate EmailAccepted(v: string, emailSyntax: string -> bool, cap: Option<nat>) {
    emailSyntax(v) && WithinCap(v, cap)
  }

  /** `EmailStr`: the external syntax check, then the optional `max_length`. */
  function CheckEmail(v: string, emailSyntax: string -> bool, cap: Option<nat>): (r: Result<string, FieldError>)
    ensures r.Success? <==> EmailAccepted(v, emailSyntax, cap)
    ensures r.Success? ==> r.value == v
    ensures !emailSyntax(v) ==> r == Failure(InvalidEmail)
    ensures emailSyntax(v) && cap.Some? && |v| > cap.value ==> r == Failure(TooLong(cap.value))
  {
    if !emailSyntax(v) then Failure(InvalidEmail)
    else if cap.Some? && |v| > cap.value then Failure(TooLong(cap.value))
    else Success(v)
  }
}
