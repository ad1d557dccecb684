/** The rules of `RegisterRequestValidator`, one predicate per property.
    Every rule of a chain is evaluated, so a request is valid exactly when
    every rule holds. The validator is not registered with the request
    pipeline, so `Auth.RegisterStep` does not consult it. */
module RegisterValidator {
  import opened Common
  import opened Text
  import opened Rules
  import Entities
  import Jwt
  import Auth

  const AllowedRoles: seq<string> := ["Admin", "Staff", "Tenant"]

  /** `Email`: not empty and an e-mail address. The address check belongs to
      the validation library and is a parameter here. */
  predicate EmailOk(email: string, isEmailAddress: string -> bool)
    ensures EmailOk(email, isEmailAddress) ==> |email| > 0 && isEmailAddress(email)
  {
    NotEmpty(Some(email)) && isEmailAddress(email)
  }

  /** `UserName`: not empty, at least 4 characters. */
  predicate UserNameOk(userName: string)
    ensures UserNameOk(userName) ==> |userName| >= 4 && !AllWhiteSpace(userName)
  {
    NotEmpty(Some(userName)) && MinimumLength(userName, 4)
  }

  /** `Password`: not empty, at least 8 characters, and an upper-case letter, a
      lower-case letter, a digit and a character that is none of these. */
  predicate PasswordOk(password: string)
    // a strong password has a special character and, repeated as the
    // confirmation, passes that rule too
    ensures PasswordOk(password) ==> |password| >= 8 && HasSpecial(password)
    ensures PasswordOk(password) ==> ConfirmPasswordOk(password, password)
  {
    && NotEmpty(Some(password))
    && MinimumLength(password, 8)
    && HasUpper(password)
    && HasLower(password)
    && HasDigit(password)
    && HasSpecial(password)
  }

  /** `ConfirmPassword`: not empty and equal to `Password`. */
  predicate ConfirmPasswordOk(confirm: string, password: string)
    ensures ConfirmPasswordOk(confirm, password) ==> confirm == password && NotEmpty(Some(password))
  {
    NotEmpty(Some(confirm)) && confirm == password
  }

  predicate AllDigits(s: string) {
    forall i :: 0 <= i < |s| ==> IsAsciiDigit(s[i])
  }

  /** `\+?\d{9,15}` matching the whole of `s`. */
  predicate PhoneBody(s: string)
    // 9 to 15 digits, one more character with the '+', and a digit at the end
    ensures PhoneBody(s) ==> 9 <= |s| <= 16 && IsAsciiDigit(s[|s| - 1])
    ensures PhoneBody(s) && |s| > 15 ==> s[0] == '+'
  {
    || (9 <= |s| <= 15 && AllDigits(s))
    || (10 <= |s| <= 16 && s[0] == '+' && AllDigits(s[1..]))
  }

  /** `^\+?\d{9,15}$`: the .NET `$` also matches just before a final line
      feed, so one trailing "\n" is accepted. */
  predicate PhoneMatches(s: string)
    // a matching phone has 9 to 17 characters and never starts with white space
    ensures PhoneMatches(s) ==> 9 <= |s| <= 17 && !IsWhiteSpace(s[0])
  {
    || PhoneBody(s)
    || (|s| > 0 && s[|s| - 1] == '\n' && PhoneBody(s[..|s| - 1]))
  }

  /** `Phone`: checked only when it is not null or white space. */
  predicate PhoneOk(phone: Option<string>)
    ensures IsNullOrWhiteSpace(phone) ==> PhoneOk(phone)
    ensures PhoneOk(phone) && phone.Some? && !AllWhiteSpace(phone.value) ==> 9 <= |phone.value| <= 17
  {
    IsNullOrWhiteSpace(phone) || PhoneMatches(phone.value)
  }

  /** `Role`: null, empty, or one of the three role names, case-sensitively. */
  predicate RoleOk(role: Option<string>)
    // an accepted role resolves, in the service, to one of the three names
    ensures RoleOk(role) ==> Auth.RoleNameFor(role) in AllowedRoles
  {
    IsNullOrEmpty(role) || role.value in AllowedRoles
  }

  predicate IsValid(req: Auth.RegisterRequest, isEmailAddress: string -> bool)
    ensures IsValid(req, isEmailAddress) ==>
      && req.confirmPassword == req.password
      && |req.password| >= 8
      && Auth.RoleNameFor(req.role) in AllowedRoles
  {
    && EmailOk(req.email, isEmailAddress)
    && UserNameOk(req.userName)
    && PasswordOk(req.password)
    && ConfirmPasswordOk(req.confirmPassword, req.password)
    && PhoneOk(req.phone)
    && RoleOk(req.role)
  }

  /** The password rule, stated without `NotEmpty`: a password with an
      upper-case letter is never blank, so that rule adds nothing. */
  lemma PasswordRule(p: string)
    ensures PasswordOk(p) <==> |p| >= 8 && HasUpper(p) && HasLower(p) && HasDigit(p) && HasSpecial(p)
  {
    if HasUpper(p) {
      var i :| 0 <= i < |p| && IsAsciiUpper(p[i]);
      AlphanumericIsNotEmpty(p, i);
    }
  }

  /** A password of letters and digits only fails, whatever its length. */
  lemma AlphanumericPasswordRejected(p: string)
    requires forall i :: 0 <= i < |p| ==> IsAsciiAlphanumeric(p[i])
    ensures !PasswordOk(p)
  {
  }

  lemma PasswordExamples()
    ensures !PasswordOk("abc")
    ensures !PasswordOk("Aa1aaaaa")
    ensures !PasswordOk("Aa1!aaa")
    ensures PasswordOk("Aa1!aaaa")
  {
    var good := "Aa1!aaaa";
    assert IsAsciiUpper(good[0]) && IsAsciiLower(good[1]) && IsAsciiDigit(good[2]) && !IsAsciiAlphanumeric(good[3]);
    AlphanumericIsNotEmpty(good, 0);
    AlphanumericPasswordRejected("Aa1aaaaa");
  }

  /** The confirmation must repeat a password that is itself not blank; next
      to a password that passes its own rule, equality is all that is left. */
  lemma ConfirmPasswordRule(confirm: string, password: string)
    ensures ConfirmPasswordOk(confirm, password) <==> confirm == password && NotEmpty(Some(password))
    ensures PasswordOk(password) ==> (ConfirmPasswordOk(confirm, password) <==> confirm == password)
    // a blank password cannot be confirmed, whatever the confirmation
    ensures AllWhiteSpace(password) ==> !ConfirmPasswordOk(confirm, password)
  {
  }

  /** A name of only white space never passes; four characters with an ASCII
      letter or digit among them always do. */
  lemma UserNameRule(userName: string)
    ensures AllWhiteSpace(userName) ==> !UserNameOk(userName)
    ensures |userName| >= 4 && (exists i :: 0 <= i < |userName| && IsAsciiAlphanumeric(userName[i])) ==>
      UserNameOk(userName)
  {
    if |userName| >= 4 && exists i :: 0 <= i < |userName| && IsAsciiAlphanumeric(userName[i]) {
      var i :| 0 <= i < |userName| && IsAsciiAlphanumeric(userName[i]);
      AlphanumericIsNotEmpty(userName, i);
    }
  }

  /** Four spaces are four characters but still fail `NotEmpty`. */
  lemma UserNameExamples()
    ensures !UserNameOk("    ")
    ensures !UserNameOk("bob")
    ensures UserNameOk("alice")
  {
    assert "    "[0] == ' ';
    AlphanumericIsNotEmpty("alice", 0);
  }

  /** A phone that passes holds only digits, apart from one leading '+' and
      one final line feed, and has 9 to 15 digits. */
  lemma PhoneShape(s: string)
    requires PhoneMatches(s)
    ensures forall i :: 0 <= i < |s| ==>
      IsAsciiDigit(s[i]) || (i == 0 && s[i] == '+') || (i == |s| - 1 && s[i] == '\n')
    ensures 9 <= |s| <= 17
    // without the optional '+' and final line feed, 9 to 15 digits remain
    ensures var start := if s[0] == '+' then 1 else 0;
            var end := if s[|s| - 1] == '\n' then |s| - 1 else |s|;
            start <= end && 9 <= end - start <= 15 && AllDigits(s[start..end])
  {
    var start := if s[0] == '+' then 1 else 0;
    var end := if s[|s| - 1] == '\n' then |s| - 1 else |s|;
    var body := if PhoneBody(s) then s else s[..|s| - 1];
    assert end == |body| && body == s[..end];
    if 9 <= |body| <= 15 && AllDigits(body) {
      assert start == 0 && s[start..end] == body;
    } else {
      assert body[0] == s[0] == '+';
      assert s[start..end] == body[1..];
    }
    forall i | 0 <= i < |s|
      ensures IsAsciiDigit(s[i]) || (i == 0 && s[i] == '+') || (i == |s| - 1 && s[i] == '\n')
    {
      if i < |body| && !(i == 0 && s[i] == '+') {
        assert body[i] == s[i];
        if 9 <= |body| <= 15 && AllDigits(body) {
          assert IsAsciiDigit(body[i]);
        } else {
          assert body[1..][i - 1] == body[i];
        }
      }
    }
  }

  /** The phone rule both ways: a non-empty string matches exactly when,
      once an optional leading '+' and an optional final line feed are
      dropped, 9 to 15 ASCII digits remain. */
  lemma PhoneRule(s: string)
    ensures PhoneMatches(s) <==>
      && |s| > 0
      && var start := if s[0] == '+' then 1 else 0;
         var end := if s[|s| - 1] == '\n' then |s| - 1 else |s|;
         start <= end && 9 <= end - start <= 15 && AllDigits(s[start..end])
  {
    if PhoneMatches(s) {
      PhoneShape(s);
    }
    if |s| > 0 {
      var start := if s[0] == '+' then 1 else 0;
      var end := if s[|s| - 1] == '\n' then |s| - 1 else |s|;
      if start <= end && 9 <= end - start <= 15 && AllDigits(s[start..end]) {
        var body := s[..end];
        if start == 0 {
          assert body == s[start..end];
        } else {
          assert body[1..] == s[start..end];
        }
        assert PhoneBody(body);
        if end == |s| {
          assert body == s;
        }
      }
    }
  }

  /** Nine to fifteen digits pass, with or without a leading '+', and so do
      they with a final line feed. */
  lemma PhoneAccepts(digits: string)
    requires AllDigits(digits) && 9 <= |digits| <= 15
    ensures PhoneOk(Some(digits)) && PhoneOk(Some("+" + digits))
    ensures PhoneOk(Some(digits + "\n")) && PhoneOk(Some("+" + digits + "\n"))
  {
    assert ("+" + digits)[1..] == digits;
    assert (digits + "\n")[..|digits|] == digits;
    assert ("+" + digits + "\n")[..|digits| + 1] == "+" + digits;
  }

  lemma PhoneExamples()
    ensures PhoneOk(None) && PhoneOk(Some("")) && PhoneOk(Some("   "))
    ensures PhoneOk(Some("+84912345678"))
    ensures !PhoneOk(Some("12345678"))
    ensures !PhoneOk(Some("0912-345-678"))
  {
    var good := "+84912345678";
    assert good[1..] == "84912345678";
    assert !IsWhiteSpace(good[0]);
    var dashed := "0912-345-678";
    assert !IsWhiteSpace(dashed[0]);
    assert !IsAsciiDigit(dashed[4]) && dashed[0] != '+' && dashed[|dashed| - 1] != '\n';
    assert !AllDigits(dashed);
    var short := "12345678";
    assert !IsWhiteSpace(short[0]);
  }

  /** The role check is exact and case-sensitive; a blank role of white space
      fails it. */
  lemma RoleExamples()
    ensures RoleOk(None) && RoleOk(Some("")) && RoleOk(Some("Staff"))
    ensures !RoleOk(Some("admin")) && !RoleOk(Some(" ")) && !RoleOk(Some("Owner"))
  {
  }

  /** The validator and the service read a role of only white space
      differently: the validator rejects it, the service registers the user
      as "Tenant". */
  lemma BlankRoleDisagreement(r: string)
    requires |r| > 0 && AllWhiteSpace(r)
    ensures !RoleOk(Some(r))
    ensures Auth.RoleNameFor(Some(r)) == Auth.DefaultRoleName
  {
    // every allowed role starts with a letter, and `r` starts with white space
    assert IsWhiteSpace(r[0]);
    assert forall name <- AllowedRoles :: !IsWhiteSpace(name[0]);
  }

  /** Since nothing runs the validator, a registration with a weak password
      is stored all the same. */
  lemma WeakPasswordStillRegisters(s: Entities.Store, req: Auth.RegisterRequest, ip: Option<string>, now: Time,
                                   f: Auth.Fresh, hasher: Auth.Hasher, settings: Jwt.JwtSettings)
    requires req.password == "abc"
    requires !Auth.EmailInUse(s.users, req.email)
    ensures !PasswordOk(req.password)
    ensures Auth.RegisterStep(s, req, ip, now, f, hasher, settings).response.Ok?
  {
  }
}
