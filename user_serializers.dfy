/**
 * Registration and login checks of `apps/users/serializers.py`: the password
 * confirmation, the phone field check, and login by phone number, which tries
 * up to three spellings of the number with the authentication backend.
 */
module UserSerializers {
  import opened Strings
  import opened Attrs
  import Values

  // ---------------------------------------------------------------------------
  // RegisterSerializer.validate

  /**
   * Registration is refused under "password" exactly when the two passwords
   * differ; otherwise the attributes come back unchanged.
   */
  function RegisterValidate(attrs: map<string, Value>): (r: Values.Result<map<string, Value>, ValidationError>)
    requires "password" in attrs && "password_confirm" in attrs
    ensures r.Ok? <==> attrs["password"] == attrs["password_confirm"]
    ensures r.Ok? ==> r.value == attrs
    ensures r.Err? ==> r.error == ValidationError("password", "Passwords don't match")
  {
    if attrs["password"] != attrs["password_confirm"] then Values.Err(ValidationError("password", "Passwords don't match"))
    else Values.Ok(attrs)
  }

  // ---------------------------------------------------------------------------
  // LoginSerializer.validate_phone

  /** The characters that count toward the phone length: all but '+' and ' '. */
  predicate CountsTowardLength(c: char) {
    c != '+' && c != ' '
  }

  /**
   * `validate_phone`: an empty value is refused as missing; a value that,
   * stripped of surrounding whitespace and with every '+' and ' ' removed,
   * has fewer than 9 characters is refused as malformed; otherwise the
   * stripped value is the field's value.
   */
  function ValidatePhone(value: string): (r: Values.Result<string, ValidationError>)
    ensures r.Ok? <==> value != "" && |Filter(Strip(value), CountsTowardLength)| >= 9
    ensures r.Ok? ==> r.value == Strip(value) && |r.value| >= 9
    ensures r.Err? ==> r.error.field == "phone"
    ensures r.Err? ==> (r.error.message == "Phone number is required" <==> value == "")
  {
    if value == "" then Values.Err(ValidationError("phone", "Phone number is required"))
    else
      var cleaned := Strip(value);
      if cleaned == "" || |Filter(cleaned, CountsTowardLength)| < 9 then
        Values.Err(ValidationError("phone", "Invalid phone number format"))
      else Values.Ok(cleaned)
  }

  /** An accepted phone value is accepted again unchanged. */
  lemma ValidatePhoneIdempotent(value: string)
    requires ValidatePhone(value).Ok?
    ensures ValidatePhone(ValidatePhone(value).value) == ValidatePhone(value)
  {
    StripIdempotent(value);
  }

  // ---------------------------------------------------------------------------
  // LoginSerializer.validate

  /** The validated `phone` and `password` are text when present (both are character fields). */
  predicate TextFields(attrs: map<string, Value>) {
    && (Get(attrs, "phone").Str? || Get(attrs, "phone").NoneValue?)
    && (Get(attrs, "password").Str? || Get(attrs, "password").NoneValue?)
  }

  /** `phone_digits`: the decimal digits of the stripped phone, each as often as it occurs there, in order. */
  function PhoneDigits(phone: string): (d: string)
    ensures IsDigits(d) && |d| <= |phone|
    ensures forall c :: c in Strip(phone) && IsDigitChar(c) ==> c in d
    ensures forall c :: multiset(d)[c] == if IsDigitChar(c) then multiset(Strip(phone))[c] else 0
    ensures Subsequence(d, Strip(phone))
  {
    FilterCountsAndOrder(Strip(phone), IsDigitChar);
    Filter(Strip(phone), IsDigitChar)
  }

  /**
   * The usernames tried, in order: "+" and the digits, the digits alone, and
   * the phone as given only when it is neither of those.
   */
  function Candidates(phone: string, digits: string): (names: seq<string>)
    ensures |names| == 2 || |names| == 3
    ensures names[0] == "+" + digits && names[1] == digits
    ensures |names| == 3 <==> phone != digits && phone != "+" + digits
    ensures |names| == 3 ==> names[2] == phone
  {
    ["+" + digits, digits] + (if phone != digits && phone != "+" + digits then [phone] else [])
  }

  /** No username is tried twice. */
  lemma CandidatesDistinct(phone: string, digits: string)
    ensures var names := Candidates(phone, digits);
            forall j, k :: 0 <= j < k < |names| ==> names[j] != names[k]
  {
    var names := Candidates(phone, digits);
    assert |names[0]| == |names[1]| + 1;
  }

  /**
   * The first user `authenticate` returns when the usernames are tried in
   * order, stopping at the first success.
   */
  function FirstAuthenticated(authenticate: (string, string) -> Values.Option<User>, names: seq<string>, password: string): (r: Values.Option<User>)
    ensures r.None? <==> forall k :: 0 <= k < |names| ==> authenticate(names[k], password).None?
    ensures r.Some? ==> exists k :: 0 <= k < |names| && authenticate(names[k], password) == r
                                    && forall j :: 0 <= j < k ==> authenticate(names[j], password).None?
  {
    if names == [] then Values.None
    else match authenticate(names[0], password)
      case Some(u) => Values.Some(u)
      case None =>
        var rest := FirstAuthenticated(authenticate, names[1..], password);
        if rest.Some? then
          var k :| 0 <= k < |names[1..]| && authenticate(names[1..][k], password) == rest
                   && forall j :: 0 <= j < k ==> authenticate(names[1..][j], password).None?;
          assert authenticate(names[k + 1], password) == rest;
          assert forall j :: 0 <= j < k + 1 ==> authenticate(names[j], password).None? by {
            forall j | 0 <= j < k + 1
              ensures authenticate(names[j], password).None?
            {
              if j > 0 {
                assert names[j] == names[1..][j - 1];
              }
            }
          }
          rest
        else
          assert forall k :: 0 <= k < |names| ==> authenticate(names[k], password).None? by {
            forall k | 0 <= k < |names|
              ensures authenticate(names[k], password).None?
            {
              if k > 0 {
                assert names[k] == names[1..][k - 1];
              }
            }
          }
          rest
  }

  /**
   * The search over the candidates is the sequence of attempts the login
   * makes: "+digits" first, then the digits, then the phone as given when it
   * differs from both.
   */
  lemma AttemptOrder(authenticate: (string, string) -> Values.Option<User>, phone: string, digits: string, password: string)
    ensures FirstAuthenticated(authenticate, Candidates(phone, digits), password) ==
              if authenticate("+" + digits, password).Some? then authenticate("+" + digits, password)
              else if authenticate(digits, password).Some? then authenticate(digits, password)
              else if phone != digits && phone != "+" + digits then authenticate(phone, password)
              else Values.None
  {
    var names := Candidates(phone, digits);
    assert names[1..] == [digits] + names[2..];
    if |names| == 3 {
      assert names[2..] == [phone] && names[2..][1..] == [];
    } else {
      assert names[2..] == [];
    }
  }

  /** The conditions under which login is refused before any authentication attempt. */
  predicate RefusedUpFront(attrs: map<string, Value>)
    requires TextFields(attrs)
  {
    var phone := Get(attrs, "phone");
    var password := Get(attrs, "password");
    !Truthy(phone) || !Truthy(password) || Strip(password.s) == "" || |PhoneDigits(phone.s)| < 9
  }

  /**
   * `LoginSerializer.validate` as a function of the attributes and the
   * authentication backend: the user to store under `attrs['user']`, or the
   * error raised under "non_field_errors".
   */
  function LoginOutcome(authenticate: (string, string) -> Values.Option<User>, attrs: map<string, Value>): (r: Values.Result<User, ValidationError>)
    requires TextFields(attrs)
    ensures r.Err? ==> r.error.field == NON_FIELD_ERRORS
    ensures RefusedUpFront(attrs) ==> r.Err?
    ensures r.Ok? ==>
              && r.value.isActive
              && var phone := Get(attrs, "phone").s;
                 Values.Some(r.value) == FirstAuthenticated(authenticate, Candidates(phone, PhoneDigits(phone)), Get(attrs, "password").s)
  {
    var phone := Get(attrs, "phone");
    var password := Get(attrs, "password");
    if !Truthy(phone) || !Truthy(password) then Values.Err(ValidationError(NON_FIELD_ERRORS, "Must include phone and password"))
    else if Strip(password.s) == "" then Values.Err(ValidationError(NON_FIELD_ERRORS, "Password cannot be empty"))
    else
      var digits := PhoneDigits(phone.s);
      if |digits| < 9 then Values.Err(ValidationError(NON_FIELD_ERRORS, "Invalid phone number format"))
      else match FirstAuthenticated(authenticate, Candidates(phone.s, digits), password.s)
        case None => Values.Err(ValidationError(NON_FIELD_ERRORS, "Telefon raqam yoki parol noto'g'ri"))
        case Some(user) =>
          if !user.isActive then Values.Err(ValidationError(NON_FIELD_ERRORS, "Foydalanuvchi hisobi o'chirilgan"))
          else Values.Ok(user)
  }

  /** A login refused up front does not depend on the authentication backend at all. */
  lemma RefusedUpFrontIgnoresBackend(
    auth1: (string, string) -> Values.Option<User>, auth2: (string, string) -> Values.Option<User>, attrs: map<string, Value>)
    requires TextFields(attrs) && RefusedUpFront(attrs)
    ensures LoginOutcome(auth1, attrs) == LoginOutcome(auth2, attrs)
  {
  }

  /**
   * An otherwise valid login is accepted exactly when some spelling of the
   * number authenticates and the first user found is active.
   */
  lemma LoginAcceptance(authenticate: (string, string) -> Values.Option<User>, attrs: map<string, Value>)
    requires TextFields(attrs) && !RefusedUpFront(attrs)
    ensures var phone := Get(attrs, "phone").s;
            var first := FirstAuthenticated(authenticate, Candidates(phone, PhoneDigits(phone)), Get(attrs, "password").s);
            LoginOutcome(authenticate, attrs).Ok? <==> first.Some? && first.value.isActive
  {
  }

  /**
   * `validate`: rejects without touching the attributes, or adds the
   * authenticated user under "user" and changes nothing else. The three
   * attempts are made one after the other and stop at the first success.
   */
  method ValidateLogin(authenticate: (string, string) -> Values.Option<User>, attrs: AttrDict)
    returns (r: Values.Result<AttrDict, ValidationError>)
    requires TextFields(attrs.data)
    modifies attrs
    ensures var expected := LoginOutcome(authenticate, old(attrs.data));
            && (expected.Err? ==> r == Values.Err(expected.error) && attrs.data == old(attrs.data))
            && (expected.Ok? ==> r == Values.Ok(attrs) && attrs.data == old(attrs.data)["user" := UserRef(expected.value)])
  {
    var phone := Get(attrs.data, "phone");
    var password := Get(attrs.data, "password");
    if !Truthy(phone) || !Truthy(password) {
      return Values.Err(ValidationError(NON_FIELD_ERRORS, "Must include phone and password"));
    }
    if Strip(password.s) == "" {
      return Values.Err(ValidationError(NON_FIELD_ERRORS, "Password cannot be empty"));
    }
    var digits := PhoneDigits(phone.s);
    if |digits| < 9 {
      return Values.Err(ValidationError(NON_FIELD_ERRORS, "Invalid phone number format"));
    }
    var user := authenticate("+" + digits, password.s);
    if user.None? {
      user := authenticate(digits, password.s);
    }
    if user.None? && phone.s != digits && phone.s != "+" + digits {
      user := authenticate(phone.s, password.s);
    }
    AttemptOrder(authenticate, phone.s, digits, password.s);
    if user.None? {
      return Values.Err(ValidationError(NON_FIELD_ERRORS, "Telefon raqam yoki parol noto'g'ri"));
    }
    if !user.value.isActive {
      return Values.Err(ValidationError(NON_FIELD_ERRORS, "Foydalanuvchi hisobi o'chirilgan"));
    }
    attrs.Set("user", UserRef(user.value));
    r := Values.Ok(attrs);
  }
}
