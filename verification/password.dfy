/**
 * The password policy of `UserCreate`: seven rules checked in a fixed order, the first one
 * that fails deciding the message.
 */
module PasswordPolicy {
  import opened Wrappers
  import opened CharClasses
  import opened Strings

  const MinLength: nat := 8
  const MaxLength: nat := 128

  const TooShortMessage: string := "Password must be at least 8 characters long."
  const TooLongMessage: string := "Password must be less than 128 characters long."
  const NoUppercaseMessage: string := "Password must contain at least one uppercase letter."
  const NoLowercaseMessage: string := "Password must contain at least one lowercase letter."
  const NoDigitMessage: string := "Password must contain at least one digit."
  const NoSpecialMessage: string := "Password must contain at least one special character."
  const SpaceMessage: string := "Password must not contain spaces."

  const RuleCount: nat := 7

  /** The failure message of each rule, in checking order. */
  const Messages: seq<string> := [
    TooShortMessage, TooLongMessage, NoUppercaseMessage, NoLowercaseMessage,
    NoDigitMessage, NoSpecialMessage, SpaceMessage
  ]

  /** Rule `k` of the policy, in checking order. */
  predicate Rule(k: nat, v: string)
    requires k < RuleCount
  {
    match k
    case 0 => |v| >= MinLength
    case 1 => |v| <= MaxLength
    case 2 => Any(v, IsAsciiUpper)
    case 3 => Any(v, IsAsciiLower)
    case 4 => Any(v, IsAsciiDigit)
    case 5 => Any(v, IsSpecialChar)
    case _ => ' ' !in v
  }

  /** A strong password, stated directly: every requirement at once. */
  ghost predicate IsStrongPassword(v: string) {
    && MinLength <= |v| <= MaxLength
    && (exists i :: 0 <= i < |v| && 'A' <= v[i] <= 'Z')
    && (exists i :: 0 <= i < |v| && 'a' <= v[i] <= 'z')
    && (exists i :: 0 <= i < |v| && '0' <= v[i] <= '9')
    && (exists i :: 0 <= i < |v| && v[i] in SpecialChars)
    && (forall i :: 0 <= i < |v| ==> v[i] != ' ')
  }

  /** `k` is the first rule `v` breaks. */
  ghost predicate FirstBroken(k: nat, v: string) {
    k < RuleCount && !Rule(k, v) && forall j :: 0 <= j < k ==> Rule(j, v)
  }

  /**
   * `validate_password`: an accepted password is returned unchanged and is exactly a strong
   * one; a rejected one carries the message of the first rule it breaks.
   */
  function ValidatePassword(v: string): (r: Result<string, string>)
    ensures r.Success? <==> IsStrongPassword(v)
    ensures r.Success? ==> r.value == v
    ensures r.Failure? <==> exists k: nat :: FirstBroken(k, v)
    ensures r.Failure? ==> exists k: nat :: FirstBroken(k, v) && r.error == Messages[k]
  {
    if |v| < MinLength then
      assert FirstBroken(0, v);
      Failure(TooShortMessage)
    else if |v| > MaxLength then
      assert FirstBroken(1, v);
      Failure(TooLongMessage)
    else if !Any(v, IsAsciiUpper) then
      assert FirstBroken(2, v);
      Failure(NoUppercaseMessage)
    else if !Any(v, IsAsciiLower) then
      assert FirstBroken(3, v);
      Failure(NoLowercaseMessage)
    else if !Any(v, IsAsciiDigit) then
      assert FirstBroken(4, v);
      Failure(NoDigitMessage)
    else if !Any(v, IsSpecialChar) then
      assert FirstBroken(5, v);
      Failure(NoSpecialMessage)
    else if ' ' in v then
      assert FirstBroken(6, v);
      Failure(SpaceMessage)
    else
      assert forall k :: 0 <= k < RuleCount ==> Rule(k, v);
      Success(v)
  }

  /** The seven messages are pairwise distinct, so a message names exactly one rule. */
  lemma MessagesDistinct()
    ensures forall j, k :: 0 <= j < k < RuleCount ==> Messages[j] != Messages[k]
  {
  }

  /** The message alone tells which rule broke first. */
  lemma MessageIdentifiesRule(v: string, k: nat)
    requires k < RuleCount
    ensures ValidatePassword(v) == Failure(Messages[k]) <==> FirstBroken(k, v)
  {
    MessagesDistinct();
    if FirstBroken(k, v) {
      var r := ValidatePassword(v);
      var j: nat :| FirstBroken(j, v) && r.error == Messages[j];
      assert j == k;
    }
  }
}
