/**
 * The login / sign-up form: which labels each mode shows, how the identity
 * provider's error text is turned into the message the user reads, and the
 * form's own state as the handlers change it.
 */
module Auth {
  import opened Text

  // Error codes the identity provider embeds in its error messages.
  const EmailInUseCode := "auth/email-already-in-use"
  const InvalidEmailCode := "auth/invalid-email"
  const WeakPasswordCode := "auth/weak-password"
  const InvalidCredentialsCode := "INVALID_LOGIN_CREDENTIALS"
  const WrongPasswordCode := "auth/wrong-password"
  const UserNotFoundCode := "auth/user-not-found"
  const TooManyRequestsCode := "auth/too-many-requests"

  // The fixed messages shown in their place, written in short pieces so that
  // their characters can be checked piece by piece.
  const EmailInUseMessage := "Email already in " + "use."
  const InvalidEmailMessage := "Invalid email " + "address."
  const WeakPasswordMessage := "Password should " + "be at least 6 " + "characters."
  const BadCredentialsMessage := "Invalid email or " + "password. Please " + "try again."
  const NoAccountMessage := "No account found " + "for this email."
  const TooManyMessage := "Too many failed " + "attempts. Please " + "try again later."
  const SignupSuccessMessage := "Signup successful! You can now log in."

  /** One branch of an error-mapping chain: any of `codes` found in the text yields `message`. */
  datatype Rule = Rule(codes: seq<string>, message: string)

  predicate Matches(rule: Rule, msg: string)
  {
    exists c | c in rule.codes :: Contains(msg, c)
  }

  predicate AnyMatch(rules: seq<Rule>, msg: string)
  {
    exists k | 0 <= k < |rules| :: Matches(rules[k], msg)
  }

  /** Reference semantics of an `if … else if …` chain over `includes`: the first matching rule wins. */
  function Remap(rules: seq<Rule>, msg: string): string
  {
    if rules == [] then msg
    else if Matches(rules[0], msg) then rules[0].message
    else Remap(rules[1..], msg)
  }

  /** The first rule that matches decides the message. */
  lemma {:induction false} RemapFirstMatch(rules: seq<Rule>, msg: string, k: nat)
    requires k < |rules| && Matches(rules[k], msg)
    requires forall j | 0 <= j < k :: !Matches(rules[j], msg)
    ensures Remap(rules, msg) == rules[k].message
  {
    if k > 0 {
      assert !Matches(rules[0], msg);
      RemapFirstMatch(rules[1..], msg, k - 1);
    }
  }

  /** When no rule matches, the text passes through unchanged. */
  lemma {:induction false} RemapNoMatch(rules: seq<Rule>, msg: string)
    requires !AnyMatch(rules, msg)
    ensures Remap(rules, msg) == msg
  {
    if rules != [] {
      assert !Matches(rules[0], msg);
      assert !AnyMatch(rules[1..], msg) by {
        forall k | 0 <= k < |rules| - 1 ensures !Matches(rules[1..][k], msg) {
          assert rules[1..][k] == rules[k + 1];
        }
      }
      RemapNoMatch(rules[1..], msg);
    }
  }

  /** When some rule matches, the result is the message of one of the rules. */
  lemma {:induction false} RemapSomeMatch(rules: seq<Rule>, msg: string)
    requires AnyMatch(rules, msg)
    ensures exists k | 0 <= k < |rules| :: Remap(rules, msg) == rules[k].message
  {
    if Matches(rules[0], msg) {
      assert Remap(rules, msg) == rules[0].message;
    } else {
      var k :| 0 <= k < |rules| && Matches(rules[k], msg);
      assert k > 0;
      assert Matches(rules[1..][k - 1], msg);
      RemapSomeMatch(rules[1..], msg);
      var j :| 0 <= j < |rules| - 1 && Remap(rules[1..], msg) == rules[1..][j].message;
      assert Remap(rules, msg) == rules[j + 1].message;
    }
  }

  const SignupRules := [
    Rule([EmailInUseCode], EmailInUseMessage),
    Rule([InvalidEmailCode], InvalidEmailMessage),
    Rule([WeakPasswordCode], WeakPasswordMessage)
  ]

  const SigninRules := [
    Rule([InvalidCredentialsCode, WrongPasswordCode], BadCredentialsMessage),
    Rule([UserNotFoundCode], NoAccountMessage),
    Rule([TooManyRequestsCode], TooManyMessage)
  ]

  /** The message shown when creating an account fails with error text `msg`. */
  function SignupMessage(msg: string): (r: string)
    ensures r == msg || r in {EmailInUseMessage, InvalidEmailMessage, WeakPasswordMessage}
    ensures r != msg ==> Contains(msg, EmailInUseCode) || Contains(msg, InvalidEmailCode) || Contains(msg, WeakPasswordCode)
  {
    if Contains(msg, EmailInUseCode) then EmailInUseMessage
    else if Contains(msg, InvalidEmailCode) then InvalidEmailMessage
    else if Contains(msg, WeakPasswordCode) then WeakPasswordMessage
    else msg
  }

  /** The message shown when signing in fails with error text `msg`. */
  function SigninMessage(msg: string): (r: string)
    ensures r == msg || r in {BadCredentialsMessage, NoAccountMessage, TooManyMessage}
    ensures r != msg ==>
      Contains(msg, InvalidCredentialsCode) || Contains(msg, WrongPasswordCode) ||
      Contains(msg, UserNotFoundCode) || Contains(msg, TooManyRequestsCode)
  {
    if Contains(msg, InvalidCredentialsCode) || Contains(msg, WrongPasswordCode) then BadCredentialsMessage
    else if Contains(msg, UserNotFoundCode) then NoAccountMessage
    else if Contains(msg, TooManyRequestsCode) then TooManyMessage
    else msg
  }

  /** The sign-up chain is the first-match reading of its rule table. */
  lemma SignupFollowsRules(msg: string)
    ensures SignupMessage(msg) == Remap(SignupRules, msg)
  {
    var rules := SignupRules;
    var tail1, tail2, tail3 := rules[1..], rules[1..][1..], rules[1..][1..][1..];
    assert tail1 == [rules[1], rules[2]] && tail2 == [rules[2]] && tail3 == [];
    assert Matches(rules[0], msg) == Contains(msg, EmailInUseCode);
    assert Matches(rules[1], msg) == Contains(msg, InvalidEmailCode);
    assert Matches(rules[2], msg) == Contains(msg, WeakPasswordCode);
    assert Remap(tail3, msg) == msg;
    assert Remap(tail2, msg) == if Matches(rules[2], msg) then rules[2].message else msg;
    assert Remap(tail1, msg) == if Matches(rules[1], msg) then rules[1].message else Remap(tail2, msg);
  }

  /** The sign-in chain is the first-match reading of its rule table. */
  lemma SigninFollowsRules(msg: string)
    ensures SigninMessage(msg) == Remap(SigninRules, msg)
  {
    var rules := SigninRules;
    var tail1, tail2, tail3 := rules[1..], rules[1..][1..], rules[1..][1..][1..];
    assert tail1 == [rules[1], rules[2]] && tail2 == [rules[2]] && tail3 == [];
    assert Matches(rules[0], msg) == (Contains(msg, InvalidCredentialsCode) || Contains(msg, WrongPasswordCode));
    assert Matches(rules[1], msg) == Contains(msg, UserNotFoundCode);
    assert Matches(rules[2], msg) == Contains(msg, TooManyRequestsCode);
    assert Remap(tail3, msg) == msg;
    assert Remap(tail2, msg) == if Matches(rules[2], msg) then rules[2].message else msg;
    assert Remap(tail1, msg) == if Matches(rules[1], msg) then rules[1].message else Remap(tail2, msg);
  }

  /** The fixed messages of both chains, sign-up first. */
  const FixedMessages := [EmailInUseMessage, InvalidEmailMessage, WeakPasswordMessage,
                           BadCredentialsMessage, NoAccountMessage, TooManyMessage]

  /** Every fixed error message is free of '/' and '_', the characters that mark the codes. */
  lemma MessagesLackCodeMarks(k: nat)
    requires k < |FixedMessages|
    ensures Lacks(FixedMessages[k], '/') && Lacks(FixedMessages[k], '_')
  {
    match k
    case 0 => EmailInUseMarkFree();
    case 1 => InvalidEmailMarkFree();
    case 2 => WeakPasswordMarkFree();
    case 3 => BadCredentialsMarkFree();
    case 4 => NoAccountMarkFree();
    case 5 => TooManyMarkFree();
  }

  lemma EmailInUseMarkFree()
    ensures MarkFree(EmailInUseMessage)
  {
    LacksConcat("Email already in ", "use.", '/');
    LacksConcat("Email already in ", "use.", '_');
  }

  lemma InvalidEmailMarkFree()
    ensures MarkFree(InvalidEmailMessage)
  {
    LacksConcat("Invalid email ", "address.", '/');
    LacksConcat("Invalid email ", "address.", '_');
  }

  lemma WeakPasswordMarkFree()
    ensures MarkFree(WeakPasswordMessage)
  {
    LacksConcat("Password should ", "be at least 6 ", '/');
    LacksConcat("Password should ", "be at least 6 ", '_');
    LacksConcat("Password should " + "be at least 6 ", "characters.", '/');
    LacksConcat("Password should " + "be at least 6 ", "characters.", '_');
  }

  lemma BadCredentialsMarkFree()
    ensures MarkFree(BadCredentialsMessage)
  {
    LacksConcat("Invalid email or ", "password. Please ", '/');
    LacksConcat("Invalid email or ", "password. Please ", '_');
    LacksConcat("Invalid email or " + "password. Please ", "try again.", '/');
    LacksConcat("Invalid email or " + "password. Please ", "try again.", '_');
  }

  lemma NoAccountMarkFree()
    ensures MarkFree(NoAccountMessage)
  {
    LacksConcat("No account found ", "for this email.", '/');
    LacksConcat("No account found ", "for this email.", '_');
  }

  lemma TooManyMarkFree()
    ensures MarkFree(TooManyMessage)
  {
    LacksConcat("Too many failed ", "attempts. Please ", '/');
    LacksConcat("Too many failed ", "attempts. Please ", '_');
    LacksConcat("Too many failed " + "attempts. Please ", "try again later.", '/');
    LacksConcat("Too many failed " + "attempts. Please ", "try again later.", '_');
  }

  /** No '/' and no '_' anywhere in `s`. */
  predicate MarkFree(s: string)
  {
    Lacks(s, '/') && Lacks(s, '_')
  }

  /** None of the fixed sign-up messages contains a sign-up error code (each code has a '/', no message does). */
  lemma SignupMessagesCodeFree(k: nat, j: nat)
    requires k < |SignupRules| && j < |SignupRules|
    ensures !Matches(SignupRules[j], SignupRules[k].message)
  {
    var m := SignupRules[k].message;
    assert m == FixedMessages[k];
    MessagesLackCodeMarks(k);
    var code := SignupRules[j].codes[0];
    assert SignupRules[j].codes == [code];
    assert code[4] == '/';
    NotContainsByChar(m, code, 4);
  }

  /** None of the fixed sign-in messages contains a sign-in error code (each code has '/' or '_', no message does). */
  lemma SigninMessagesCodeFree(k: nat, j: nat)
    requires k < |SigninRules| && j < |SigninRules|
    ensures !Matches(SigninRules[j], SigninRules[k].message)
  {
    var m := SigninRules[k].message;
    assert m == FixedMessages[k + 3];
    MessagesLackCodeMarks(k + 3);
    forall c | c in SigninRules[j].codes
      ensures !Contains(m, c)
    {
      if c == InvalidCredentialsCode {
        assert c[7] == '_';
        NotContainsByChar(m, c, 7);
      } else {
        assert c[4] == '/';
        NotContainsByChar(m, c, 4);
      }
    }
  }

  /** A sign-up error text is shown verbatim exactly when it contains none of the sign-up codes. */
  lemma SignupPassThrough(msg: string)
    ensures SignupMessage(msg) == msg <==> !AnyMatch(SignupRules, msg)
  {
    SignupFollowsRules(msg);
    if AnyMatch(SignupRules, msg) {
      RemapSomeMatch(SignupRules, msg);
      var k :| 0 <= k < |SignupRules| && SignupMessage(msg) == SignupRules[k].message;
      var j :| 0 <= j < |SignupRules| && Matches(SignupRules[j], msg);
      SignupMessagesCodeFree(k, j);
    } else {
      RemapNoMatch(SignupRules, msg);
    }
  }

  /** A sign-in error text is shown verbatim exactly when it contains none of the sign-in codes. */
  lemma SigninPassThrough(msg: string)
    ensures SigninMessage(msg) == msg <==> !AnyMatch(SigninRules, msg)
  {
    SigninFollowsRules(msg);
    if AnyMatch(SigninRules, msg) {
      RemapSomeMatch(SigninRules, msg);
      var k :| 0 <= k < |SigninRules| && SigninMessage(msg) == SigninRules[k].message;
      var j :| 0 <= j < |SigninRules| && Matches(SigninRules[j], msg);
      SigninMessagesCodeFree(k, j);
    } else {
      RemapNoMatch(SigninRules, msg);
    }
  }

  /** Mapping an already mapped sign-up message changes nothing. */
  lemma SignupIdempotent(msg: string)
    ensures SignupMessage(SignupMessage(msg)) == SignupMessage(msg)
  {
    var r := SignupMessage(msg);
    SignupFollowsRules(msg);
    SignupFollowsRules(r);
    if AnyMatch(SignupRules, msg) {
      RemapSomeMatch(SignupRules, msg);
      var k :| 0 <= k < |SignupRules| && r == SignupRules[k].message;
      forall j | 0 <= j < |SignupRules| ensures !Matches(SignupRules[j], r) {
        SignupMessagesCodeFree(k, j);
      }
      RemapNoMatch(SignupRules, r);
    } else {
      RemapNoMatch(SignupRules, msg);
    }
  }

  /** Mapping an already mapped sign-in message changes nothing. */
  lemma SigninIdempotent(msg: string)
    ensures SigninMessage(SigninMessage(msg)) == SigninMessage(msg)
  {
    var r := SigninMessage(msg);
    SigninFollowsRules(msg);
    SigninFollowsRules(r);
    if AnyMatch(SigninRules, msg) {
      RemapSomeMatch(SigninRules, msg);
      var k :| 0 <= k < |SigninRules| && r == SigninRules[k].message;
      forall j | 0 <= j < |SigninRules| ensures !Matches(SigninRules[j], r) {
        SigninMessagesCodeFree(k, j);
      }
      RemapNoMatch(SigninRules, r);
    } else {
      RemapNoMatch(SigninRules, msg);
    }
  }

  /** Both spellings of "wrong password" lead to the same message, whatever else the text holds. */
  lemma SigninSharedMessage(msg: string)
    requires Contains(msg, InvalidCredentialsCode) || Contains(msg, WrongPasswordCode)
    ensures SigninMessage(msg) == BadCredentialsMessage
  {
  }

  /** The texts of the submit button and of the toggle link. */
  datatype Labels = Labels(submit: string, toggle: string)

  /** `setMode`'s labels for the mode it enters. */
  function ModeLabels(signup: bool): (r: Labels)
    ensures r.submit != r.toggle
  {
    if signup then Labels("Sign Up", "Back to Login") else Labels("Login", "Sign Up")
  }

  /** The submit label tells the modes apart, and the login page's toggle names the sign-up mode. */
  lemma ModeLabelsDistinguish(a: bool, b: bool)
    ensures ModeLabels(a).submit == ModeLabels(b).submit <==> a == b
    ensures ModeLabels(false).toggle == ModeLabels(true).submit
  {
    assert "Sign Up"[0] != "Login"[0];
  }

  /** What a form submission asks of the identity provider. */
  datatype Request = CreateAccount(email: string, password: string) | SignIn(email: string, password: string)

  /** How the error line is coloured. */
  datatype Tone = Plain | SuccessGreen | ErrorRed

  /** The state of the login page: the mode flag and the texts and inputs the handlers write. */
  class AuthView {
    var isSignup: bool
    var labels: Labels
    var errorText: string
    var tone: Tone
    var email: string
    var password: string

    /** The page as loaded: login mode, with whatever label texts the page itself carries. */
    constructor (initialLabels: Labels)
      ensures !isSignup && labels == initialLabels
      ensures errorText == "" && tone == Plain && email == "" && password == ""
    {
      isSignup := false;
      labels := initialLabels;
      errorText := "";
      tone := Plain;
      email := "";
      password := "";
    }

    /** `setMode`: enter a mode, relabel the controls, clear the error line. */
    method SetMode(signup: bool)
      modifies this
      ensures isSignup == signup && labels == ModeLabels(signup) && errorText == ""
      ensures tone == old(tone) && email == old(email) && password == old(password)
    {
      isSignup := signup;
      labels := ModeLabels(signup);
      errorText := "";
    }

    /** A click on the toggle link flips the mode. */
    method Toggle()
      modifies this
      ensures isSignup == !old(isSignup) && labels == ModeLabels(isSignup) && errorText == ""
      ensures tone == old(tone) && email == old(email) && password == old(password)
    {
      SetMode(!isSignup);
    }

    /**
     * The user types into the two inputs: a step of the environment, which
     * the handlers then read as `authEmail.value` and `authPassword.value`.
     */
    method Type(newEmail: string, newPassword: string)
      modifies this
      ensures email == newEmail && password == newPassword
      ensures isSignup == old(isSignup) && labels == old(labels)
      ensures errorText == old(errorText) && tone == old(tone)
    {
      email, password := newEmail, newPassword;
    }

    /** Submitting the form clears the error line and sends the request the mode calls for. */
    method Submit() returns (req: Request)
      modifies this
      ensures req == (if isSignup then CreateAccount(email, password) else SignIn(email, password))
      ensures errorText == ""
      ensures isSignup == old(isSignup) && labels == old(labels) && tone == old(tone)
      ensures email == old(email) && password == old(password)
    {
      errorText := "";
      req := if isSignup then CreateAccount(email, password) else SignIn(email, password);
    }

    /** Account creation succeeded: a green confirmation. */
    method SignupSucceeded()
      modifies this
      ensures errorText == SignupSuccessMessage && tone == SuccessGreen
      ensures isSignup == old(isSignup) && labels == old(labels)
      ensures email == old(email) && password == old(password)
    {
      tone := SuccessGreen;
      errorText := SignupSuccessMessage;
    }

    /** The delay after a successful sign-up ran out: back to login mode with empty inputs. */
    method SignupDelayElapsed()
      modifies this
      ensures !isSignup && labels == ModeLabels(false)
      ensures email == "" && password == "" && errorText == ""
      ensures tone == old(tone)
    {
      SetMode(false);
      email := "";
      password := "";
      errorText := "";
    }

    /** Account creation failed with error text `msg`. */
    method SignupFailed(msg: string)
      modifies this
      ensures errorText == SignupMessage(msg) && tone == ErrorRed
      ensures isSignup == old(isSignup) && labels == old(labels)
      ensures email == old(email) && password == old(password)
    {
      tone := ErrorRed;
      errorText := SignupMessage(msg);
    }

    /** Signing in failed with error text `msg`. */
    method SigninFailed(msg: string)
      modifies this
      ensures errorText == SigninMessage(msg) && tone == ErrorRed
      ensures isSignup == old(isSignup) && labels == old(labels)
      ensures email == old(email) && password == old(password)
    {
      tone := ErrorRed;
      errorText := SigninMessage(msg);
    }
  }
}
