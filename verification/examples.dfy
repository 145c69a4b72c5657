/**
 * Concrete inputs and the verdicts the field checks reach on them: the valid and invalid
 * values the repository's schema tests use, plus the edge cases the model brings out.
 */
module Examples {
  import opened Wrappers
  import opened CharClasses
  import opened Strings
  import opened UrlPattern
  import opened UrlParse
  import opened FieldRules
  import opened PasswordPolicy
  import opened UserSchemas

  /** `s * n` in Python. */
  function Repeat(s: string, n: nat): (r: string)
    ensures |r| == |s| * n
    ensures forall i :: 0 <= i < |r| ==> r[i] in s
  {
    if n == 0 then ""
    else
      var rest := Repeat(s, n - 1);
      assert |s| * n == |s| + |s| * (n - 1);
      s + rest
  }

  // ---------------------------------------------------------------------------------------
  // nickname

  lemma NicknameValidExamples()
    ensures CheckNickname(Some("test_user"), Some(NicknameMaxLength)) == Success(Some("test_user"))
    ensures CheckNickname(Some("test-user"), Some(NicknameMaxLength)) == Success(Some("test-user"))
    ensures CheckNickname(Some("testuser123"), Some(NicknameMaxLength)) == Success(Some("testuser123"))
    ensures CheckNickname(Some("123test"), Some(NicknameMaxLength)) == Success(Some("123test"))
  {
    assert All("test_user", IsNicknameChar);
    assert All("test-user", IsNicknameChar);
    assert All("testuser123", IsNicknameChar);
    assert All("123test", IsNicknameChar);
  }

  lemma NicknameInvalidExamples()
    ensures CheckNickname(Some("test user"), Some(NicknameMaxLength)) == Failure(PatternMismatch(NicknamePattern))
    ensures CheckNickname(Some("test?user"), Some(NicknameMaxLength)) == Failure(PatternMismatch(NicknamePattern))
    ensures CheckNickname(Some(""), Some(NicknameMaxLength)) == Failure(TooShort(NicknameMinLength))
    ensures CheckNickname(Some("us"), Some(NicknameMaxLength)) == Failure(TooShort(NicknameMinLength))
  {
    assert !IsNicknamePatternChar("test user"[4]);
    assert !IsNicknamePatternChar("test?user"[4]);
  }

  /** `"us" * 26` is too long for `UserBase` but fine for `UserResponse`, which has no cap. */
  lemma NicknameCapExample()
    ensures CheckNickname(Some(Repeat("us", 26)), Some(NicknameMaxLength)) == Failure(TooLong(NicknameMaxLength))
    ensures CheckNickname(Some(Repeat("us", 26)), None) == Success(Some(Repeat("us", 26)))
  {
    var s := Repeat("us", 26);
    assert All(s, IsNicknameChar) by {
      forall i | 0 <= i < |s|
        ensures IsNicknameChar(s[i])
      {
        assert s[i] in "us";
      }
    }
  }

  /** A non-ASCII letter passes the `\w` pattern and is caught by the nickname validator. */
  lemma NicknameNonAsciiExample()
    ensures CheckNickname(Some("Jos\U{E9}"), Some(NicknameMaxLength)) == Failure(Rejected(NicknameMessage))
  {
    var s := "Jos\U{E9}";
    NicknameClassesNested(s[3]);
    assert All(s, IsNicknamePatternChar);
    assert !IsNicknameChar(s[3]);
  }

  // ---------------------------------------------------------------------------------------
  // first_name, last_name

  lemma NameValidExamples()
    ensures CheckName(Some("Test"), FirstNameMessage) == Success(Some("Test"))
    ensures CheckName(Some("Test First"), FirstNameMessage) == Success(Some("Test First"))
    ensures CheckName(Some("Test-First"), FirstNameMessage) == Success(Some("Test-First"))
    ensures CheckName(Some("Test'First"), FirstNameMessage) == Success(Some("Test'First"))
  {
    assert All("Test", IsNameChar);
    assert All("Test First", IsNameChar);
    assert All("Test-First", IsNameChar);
    assert All("Test'First", IsNameChar);
  }

  lemma LastNameValidExamples()
    ensures CheckName(Some("Test"), LastNameMessage) == Success(Some("Test"))
    ensures CheckName(Some("Test Last"), LastNameMessage) == Success(Some("Test Last"))
    ensures CheckName(Some("Test-Last"), LastNameMessage) == Success(Some("Test-Last"))
    ensures CheckName(Some("Test'Last"), LastNameMessage) == Success(Some("Test'Last"))
  {
    assert All("Test", IsNameChar);
    assert All("Test Last", IsNameChar);
    assert All("Test-Last", IsNameChar);
    assert All("Test'Last", IsNameChar);
  }

  lemma NameInvalidExamples()
    ensures CheckName(Some("test123"), FirstNameMessage) == Failure(Rejected(FirstNameMessage))
    ensures CheckName(Some("test$"), FirstNameMessage) == Failure(Rejected(FirstNameMessage))
    ensures CheckName(Some("test_last"), LastNameMessage) == Failure(Rejected(LastNameMessage))
    ensures CheckName(Some(Repeat("test", 26)), FirstNameMessage) == Failure(TooLong(NameMaxLength))
  {
    assert !IsNameChar("test123"[4]);
    assert !IsNameChar("test$"[4]);
    assert !IsNameChar("test_last"[4]);
  }

  /** The name validators skip falsy values: an empty name is accepted. */
  lemma NameEmptyExample()
    ensures CheckName(Some(""), FirstNameMessage) == Success(Some(""))
  {
  }

  // ---------------------------------------------------------------------------------------
  // bio

  lemma BioExamples()
    ensures CheckBio(Some("Bio")) == Success(Some("Bio"))
    ensures CheckBio(Some("Bio Test $")) == Success(Some("Bio Test $"))
    ensures CheckBio(Some(Repeat("Bio", 167))) == Failure(TooLong(BioMaxLength))
  {
  }

  // ---------------------------------------------------------------------------------------
  // password

  lemma PasswordValidExample()
    ensures ValidatePassword("SecurePassword123!") == Success("SecurePassword123!")
  {
    var v := "SecurePassword123!";
    assert IsAsciiUpper(v[0]) && IsAsciiLower(v[1]) && IsAsciiDigit(v[14]) && IsSpecialChar(v[17]);
    assert IsStrongPassword(v);
  }

  /** The example password of the `password` field. */
  lemma PasswordFieldExample()
    ensures ValidatePassword("Secure*1234") == Success("Secure*1234")
  {
    var v := "Secure*1234";
    assert IsAsciiUpper(v[0]) && IsAsciiLower(v[1]) && IsAsciiDigit(v[7]) && IsSpecialChar(v[6]);
    assert IsStrongPassword(v);
  }

  lemma PasswordTooShortExample()
    ensures ValidatePassword("Short1!") == Failure(TooShortMessage)
  {
    assert FirstBroken(0, "Short1!");
    MessageIdentifiesRule("Short1!", 0);
  }

  /**
   * A `UserCreate` whose password is "Short1!" fails, and whatever else is wrong with it, the
   * `password` entry of its errors carries the too-short message.
   */
  lemma CreateShortPasswordEntry(input: RawInput, ext: Externals, errors: Errors)
    requires Key(Password) in input && input[Key(Password)] == Text("Short1!")
    requires ReportsInvalidFields(CreateSchema, input, ext, errors)
    requires ReportsOwnErrors(CreateSchema, input, ext, errors)
    ensures Password in errors && errors[Password] == Rejected(TooShortMessage)
  {
    PasswordTooShortExample();
    assert PasswordField(input) == Failure(Rejected(TooShortMessage));
    assert InvalidField(CreateSchema, Password, input, ext);
  }

  lemma PasswordTooLongExample()
    ensures ValidatePassword(Repeat("ThisIsAVeryLongPasswordThatExceeds128Characters!", 3)) == Failure(TooLongMessage)
  {
    var v := Repeat("ThisIsAVeryLongPasswordThatExceeds128Characters!", 3);
    assert FirstBroken(1, v);
    MessageIdentifiesRule(v, 1);
  }

  /** The length cap is inclusive, whatever the message says: 128 characters pass, 129 do not. */
  lemma PasswordLengthBoundaryExample()
    ensures ValidatePassword(Repeat("Aa1!", 32)) == Success(Repeat("Aa1!", 32))
    ensures ValidatePassword(Repeat("Aa1!", 32) + "a") == Failure(TooLongMessage)
  {
    var v := Repeat("Aa1!", 32);
    assert |v| == 128;
    assert v[..4] == "Aa1!";
    assert IsAsciiUpper(v[0]) && IsAsciiLower(v[1]) && IsAsciiDigit(v[2]) && IsSpecialChar(v[3]);
    assert ' ' !in v by {
      forall i | 0 <= i < |v|
        ensures v[i] != ' '
      {
        assert v[i] in "Aa1!";
      }
    }
    assert IsStrongPassword(v);
    assert FirstBroken(1, v + "a");
    MessageIdentifiesRule(v + "a", 1);
  }

  lemma PasswordNoUppercaseExample()
    ensures ValidatePassword("nouppercase123!") == Failure(NoUppercaseMessage)
  {
    var v := "nouppercase123!";
    assert FirstBroken(2, v);
    MessageIdentifiesRule(v, 2);
  }

  lemma PasswordNoLowercaseExample()
    ensures ValidatePassword("NOLOWERCASE123!") == Failure(NoLowercaseMessage)
  {
    var v := "NOLOWERCASE123!";
    assert IsAsciiUpper(v[0]);
    assert FirstBroken(3, v);
    MessageIdentifiesRule(v, 3);
  }

  lemma PasswordNoDigitExample()
    ensures ValidatePassword("NoDigitPassword!") == Failure(NoDigitMessage)
  {
    var v := "NoDigitPassword!";
    assert IsAsciiUpper(v[0]) && IsAsciiLower(v[1]);
    assert FirstBroken(4, v);
    MessageIdentifiesRule(v, 4);
  }

  lemma AlphanumericNotSpecial(c: char)
    requires IsAsciiLetter(c) || IsAsciiDigit(c)
    ensures !IsSpecialChar(c)
  {
  }

  lemma PasswordNoSpecialExample()
    ensures ValidatePassword("NoSpecialCharacter123") == Failure(NoSpecialMessage)
  {
    var v := "NoSpecialCharacter123";
    assert IsAsciiUpper(v[0]) && IsAsciiLower(v[1]) && IsAsciiDigit(v[18]);
    assert !Any(v, IsSpecialChar) by {
      forall i | 0 <= i < |v|
        ensures !IsSpecialChar(v[i])
      {
        assert IsAsciiLetter(v[i]) || IsAsciiDigit(v[i]);
        AlphanumericNotSpecial(v[i]);
      }
    }
    assert FirstBroken(5, v);
    MessageIdentifiesRule(v, 5);
  }

  lemma PasswordSpaceExample()
    ensures ValidatePassword("Space Password123!") == Failure(SpaceMessage)
  {
    var v := "Space Password123!";
    assert IsAsciiUpper(v[0]) && IsAsciiLower(v[1]) && IsAsciiDigit(v[14]) && IsSpecialChar(v[17]);
    assert v[5] == ' ';
    assert FirstBroken(6, v);
    MessageIdentifiesRule(v, 6);
  }

  // ---------------------------------------------------------------------------------------
  // URL fields

  lemma SchemeFacts()
    ensures IsPlainScheme("http") && IsPlainScheme("https") && IsPlainScheme("ftp")
  {
  }

  lemma HostFacts()
    ensures IsPlainHost("valid.com")
  {
    assert All("valid.com", IsNonSpace) && All("valid.com", IsAscii);
  }

  lemma InvalidHostFacts()
    ensures IsPlainHost("invalid.com")
  {
    assert All("invalid.com", IsNonSpace) && All("invalid.com", IsAscii);
  }

  lemma JpgPathFacts()
    ensures IsPlainPath("/profile.jpg") && HasImageSuffix("/profile.jpg")
  {
    assert All("/profile.jpg", IsNonSpace);
  }

  lemma PngPathFacts()
    ensures IsPlainPath("/profile.png") && HasImageSuffix("/profile.png")
  {
    assert All("/profile.png", IsNonSpace);
  }

  lemma JgPathFacts()
    ensures IsPlainPath("/profile.jg") && !HasImageSuffix("/profile.jg")
  {
    assert All("/profile.jg", IsNonSpace);
  }

  /** The test URLs, assembled from scheme, host and path (one lemma each keeps the proofs small). */
  lemma HttpJpgText()
    ensures "http" + "://" + "valid.com" + "/profile.jpg" == "http://valid.com/profile.jpg"
  {
  }

  lemma HttpsPngText()
    ensures "https" + "://" + "valid.com" + "/profile.png" == "https://valid.com/profile.png"
  {
  }

  lemma FtpJpgText()
    ensures "ftp" + "://" + "invalid.com" + "/profile.jpg" == "ftp://invalid.com/profile.jpg"
  {
  }

  lemma HttpJgText()
    ensures "http" + "://" + "valid.com" + "/profile.jg" == "http://valid.com/profile.jg"
  {
  }

  lemma PictureHttpJpgExample()
    ensures CheckPictureUrl(Some("http://valid.com/profile.jpg")) == Success(Some("http://valid.com/profile.jpg"))
  {
    SchemeFacts();
    HostFacts();
    JpgPathFacts();
    HttpJpgText();
    PlainUrlPicture("http", "valid.com", "/profile.jpg");
  }

  lemma PictureHttpsPngExample()
    ensures CheckPictureUrl(Some("https://valid.com/profile.png")) == Success(Some("https://valid.com/profile.png"))
  {
    SchemeFacts();
    HostFacts();
    PngPathFacts();
    HttpsPngText();
    PlainUrlPicture("https", "valid.com", "/profile.png");
  }

  /** An image URL with another scheme passes the image check and fails the shape check. */
  lemma PictureFtpExample()
    ensures CheckPictureUrl(Some("ftp://invalid.com/profile.jpg")) == Failure(Rejected(InvalidUrlMessage))
  {
    SchemeFacts();
    InvalidHostFacts();
    JpgPathFacts();
    FtpJpgText();
    PlainUrlPicture("ftp", "invalid.com", "/profile.jpg");
  }

  lemma PictureBadExtensionExample()
    ensures CheckPictureUrl(Some("http://valid.com/profile.jg")) == Failure(Rejected(ImageMessage))
  {
    SchemeFacts();
    HostFacts();
    JgPathFacts();
    HttpJgText();
    PlainUrlPicture("http", "valid.com", "/profile.jg");
  }

  /** The path `/` + 255 `a` + `.jpg` meets the requirements and names an image. */
  lemma LongPathFacts(path: string)
    requires path == "/" + Repeat("a", 255) + ".jpg"
    ensures IsPlainPath(path) && HasImageSuffix(path)
  {
    assert forall i :: 0 <= i < |path| ==> path[i] in "/a.jpg";
    assert path[|path| - 4..] == ".jpg";
  }

  /** An image URL of the right shape that exceeds the 255-character cap. */
  lemma PictureTooLongExample(url: string)
    requires url == "http://valid.com/" + Repeat("a", 255) + ".jpg"
    ensures CheckPictureUrl(Some(url)) == Failure(TooLong(UrlMaxLength))
  {
    var path := "/" + Repeat("a", 255) + ".jpg";
    SchemeFacts();
    HostFacts();
    LongPathFacts(path);
    assert "http" + "://" + "valid.com" + path == url;
    PlainUrlPicture("http", "valid.com", path);
  }

  /** The characters of the two colon-free test values. */
  lemma NoColonText(url: string)
    requires url in {"http//invalid", "https//invalid"}
    ensures |url| > 0 && url[0] == 'h' && url[|url| - 1] == 'd'
    ensures forall i :: 0 <= i < |url| ==> url[i] in "htps/invald"
  {
  }

  /** A text ending in `d` ends in no image extension. */
  lemma EndsInD(url: string)
    requires |url| > 0 && url[|url| - 1] == 'd'
    ensures !HasImageSuffix(url)
  {
    SuffixChar(url, ".jpg");
    SuffixChar(url, ".jpeg");
    SuffixChar(url, ".png");
  }

  lemma SuffixChar(s: string, suffix: string)
    requires |suffix| > 0
    ensures EndsWith(s, suffix) ==> s[|s| - 1] == suffix[|suffix| - 1]
  {
    if EndsWith(s, suffix) {
      assert s[|s| - |suffix|..][|suffix| - 1] == s[|s| - 1];
    }
  }

  /** Text made of these letters, starting with `h` and ending in `d`, meets the conditions of a bare path naming no image. */
  lemma NoColonFacts(url: string)
    requires |url| > 0 && url[0] == 'h' && url[|url| - 1] == 'd'
    requires forall i :: 0 <= i < |url| ==> url[i] in "htps/invald"
    ensures Excludes(url, {':', '?', '#', ';'}) && Excludes(url, UnsafeChars)
    ensures !StartsWith(url, "//") && !HasImageSuffix(url)
  {
    PrefixChar(url, "//", 0);
    EndsInD(url);
  }

  /** Without `:` there is no scheme and no network location: the whole text is the path. */
  lemma PictureNoColonExample(url: string)
    requires url in {"http//invalid", "https//invalid"}
    ensures CheckPictureUrl(Some(url)) == Failure(Rejected(ImageMessage))
  {
    NoColonText(url);
    NoColonFacts(url);
    StripLeadingKeeps(url);
    NoSchemePicture(url);
  }

  // ---------------------------------------------------------------------------------------
  // is_professional

  lemma LowerYes()
    ensures AsciiLower("YES") == "yes"
  {
  }

  lemma LowerMaybe()
    ensures AsciiLower("maybe") == "maybe"
  {
  }

  /** Text is read as a boolean, ignoring ASCII case, when the library knows the word. */
  lemma ProfessionalTextExamples()
    ensures TextAsBool("YES") == Some(true)
    ensures TextAsBool("0") == Some(false)
    ensures TextAsBool("maybe") == None
  {
    LowerYes();
    LowerMaybe();
    assert "yes" !in FalseWords;
    assert "maybe" !in FalseWords && "maybe" !in TrueWords;
  }

  /** `is_professional` is `False` when absent, and text that names no boolean is rejected. */
  lemma ProfessionalFieldExamples(input: RawInput)
    requires input == map["is_professional" := Text("maybe")]
    ensures ProfessionalField(map[]) == Success(Some(false))
    ensures ProfessionalField(input) == Failure(WrongType)
  {
    ProfessionalTextExamples();
    assert Key(IsProfessional) in input && input[Key(IsProfessional)] == Text("maybe");
  }

  lemma AbJpgFacts()
    ensures Excludes("ab.jpg", {'/', '?', '#', '[', ']', ':'}) && Excludes("ab.jpg", UnsafeChars)
    ensures All("ab.jpg", IsAscii)
  {
  }

  /** A leading space changes how the text splits: ` //ab.jpg` has an empty path, so no image. */
  lemma LeadingSpaceExample()
    ensures CheckPictureUrl(Some(" //ab.jpg")) == Failure(Rejected(ImageMessage))
  {
    AbJpgFacts();
    assert " //" + "ab.jpg" == " //ab.jpg";
    LeadingSpacePicture("ab.jpg");
  }

  lemma PictureAbsentExample()
    ensures CheckPictureUrl(None) == Success(None)
  {
  }

  /** Whatever the address syntax accepts, 266 characters exceed the cap of `UserBase`. */
  lemma EmailTooLongExample(emailSyntax: string -> bool)
    ensures CheckEmail(Repeat("verylong", 32) + "@email.com", emailSyntax, Some(EmailMaxLength)).Failure?
  {
  }

  /** An address the syntax check accepts is kept when it fits the cap. */
  lemma EmailValidExample(emailSyntax: string -> bool)
    requires emailSyntax("valid@email.com")
    ensures CheckEmail("valid@email.com", emailSyntax, Some(EmailMaxLength)) == Success("valid@email.com")
  {
  }
}
