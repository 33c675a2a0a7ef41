/** The sign-up form validator: five checks in a fixed order, the first failing one deciding which
    error is shown. */
module Signup {
  import opened Wrappers
  import opened Text
  import LocalAuth

  const MinPasswordLength := 6

  datatype FormError = NameMissing | EmailMissing | EmailInvalid | PasswordTooShort | PasswordMismatch

  /** The error `validateForm` reports, or `None` when the form passes. */
  function FormErrorOf(name: string, email: string, password: string, confirmPassword: string): Option<FormError>
  {
    if Trim(name) == [] then Some(NameMissing)
    else if Trim(email) == [] then Some(EmailMissing)
    else if '@' !in email then Some(EmailInvalid)
    else if |password| < MinPasswordLength then Some(PasswordTooShort)
    else if password != confirmPassword then Some(PasswordMismatch)
    else None
  }

  /** `validateForm`. */
  function ValidateForm(name: string, email: string, password: string, confirmPassword: string): (ok: bool)
    ensures ok <==> && !(forall k :: 0 <= k < |name| ==> IsWhiteSpace(name[k]))
                    && !(forall k :: 0 <= k < |email| ==> IsWhiteSpace(email[k]))
                    && '@' in email
                    && |password| >= MinPasswordLength
                    && password == confirmPassword
  {
    TrimEmptyIff(name);
    TrimEmptyIff(email);
    FormErrorOf(name, email, password, confirmPassword).None?
  }

  /** The check that fails first decides the error: each error is reported exactly when its own
      check fails and every earlier check passed. */
  lemma FirstFailureReported(name: string, email: string, password: string, confirmPassword: string)
    ensures var r := FormErrorOf(name, email, password, confirmPassword);
      && (r == Some(NameMissing) <==> forall k :: 0 <= k < |name| ==> IsWhiteSpace(name[k]))
      && (r == Some(EmailMissing) <==> Trim(name) != [] && forall k :: 0 <= k < |email| ==> IsWhiteSpace(email[k]))
      && (r == Some(EmailInvalid) <==> Trim(name) != [] && Trim(email) != [] && '@' !in email)
      && (r == Some(PasswordTooShort) <==> Trim(name) != [] && Trim(email) != [] && '@' in email && |password| < MinPasswordLength)
      && (r == Some(PasswordMismatch) <==>
            Trim(name) != [] && Trim(email) != [] && '@' in email && |password| >= MinPasswordLength && password != confirmPassword)
  {
    TrimEmptyIff(name);
    TrimEmptyIff(email);
  }

  /** A form that passes yields a non-empty stored email once the sign-up normalises it. */
  lemma ValidFormHasEmail(name: string, email: string, password: string, confirmPassword: string)
    requires ValidateForm(name, email, password, confirmPassword)
    ensures LocalAuth.NormalizeEmail(email) != []
    ensures |password| >= MinPasswordLength
  {
    TrimEmptyIff(email);
  }
}
