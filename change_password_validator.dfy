/** The rules of `ChangePasswordRequestValidator`. */
module ChangePasswordValidator {
  import opened Common
  import opened Text
  import opened Rules
  import RegisterValidator

  datatype ChangePasswordRequest = ChangePasswordRequest(currentPassword: string, newPassword: string)

  /** `CurrentPassword`: not empty; its strength is not checked. */
  predicate CurrentPasswordOk(p: string)
    ensures CurrentPasswordOk(p) ==> |p| > 0 && !AllWhiteSpace(p)
  {
    NotEmpty(Some(p))
  }

  /** `NewPassword`: not empty, at least 8 characters, an upper-case letter, a
      lower-case letter, a digit and a character that is none of these. */
  predicate NewPasswordOk(p: string)
    // every acceptable new password would also be accepted as a current one
    ensures NewPasswordOk(p) ==> |p| >= 8 && CurrentPasswordOk(p)
  {
    && NotEmpty(Some(p))
    && MinimumLength(p, 8)
    && HasUpper(p)
    && HasLower(p)
    && HasDigit(p)
    && HasSpecial(p)
  }

  predicate IsValid(req: ChangePasswordRequest)
    ensures IsValid(req) ==> |req.newPassword| >= 8 && HasSpecial(req.newPassword) && |req.currentPassword| > 0
  {
    CurrentPasswordOk(req.currentPassword) && NewPasswordOk(req.newPassword)
  }

  /** The new password is held to exactly the registration password rule. */
  lemma SameRuleAsRegistration(p: string)
    ensures NewPasswordOk(p) <==> RegisterValidator.PasswordOk(p)
  {
  }

  /** A weak current password is accepted; a new password of letters and
      digits only is not. */
  lemma ChangePasswordExamples()
    ensures IsValid(ChangePasswordRequest("abc", "Aa1!aaaa"))
    ensures !IsValid(ChangePasswordRequest("Aa1!aaaa", "Aa1aaaaa"))
    ensures !IsValid(ChangePasswordRequest(" ", "Aa1!aaaa"))
  {
    RegisterValidator.PasswordExamples();
    AlphanumericIsNotEmpty("abc", 0);
    assert " "[0] == ' ';
  }
}
