/** The sign-up form (src/screens/RegisterScreen.js): the e-mail pattern
    `^[^\s@]+@[^\s@]+\.[^\s@]+$`, the check order of `handleRegister` and the
    mapping of server errors to messages. */
module Register {
  import opened Common

  const FillAll := "Preencha todos os campos"
  const BadEmail := "Email inválido. Digite um email válido."
  const ShortPassword := "A senha deve ter pelo menos 6 caracteres."
  const AlreadyRegistered := "Este email já está cadastrado. Faça login."
  const RegisterFailed := "Erro no cadastro. Verifique os dados e tente novamente."
  const UserExists := "User already exists"

  /** The characters JavaScript's `\s` matches. */
  predicate IsSpace(c: char) {
    || c == ' ' || c == '\t' || c == '\n' || c == '\r' || c == '\U{B}' || c == '\U{C}'
    || c == '\U{A0}' || c == '\U{1680}' || ('\U{2000}' <= c <= '\U{200A}')
    || c == '\U{2028}' || c == '\U{2029}' || c == '\U{202F}' || c == '\U{205F}'
    || c == '\U{3000}' || c == '\U{FEFF}'
  }

  /** A character of the class `[^\s@]`. */
  predicate Plain(c: char) {
    !IsSpace(c) && c != '@'
  }

  /** A non-empty run of `[^\s@]`, i.e. `[^\s@]+`. */
  predicate PlainRun(t: string) {
    |t| > 0 && forall i :: 0 <= i < |t| ==> Plain(t[i])
  }

  /** The language of the pattern, as the concatenation it describes. */
  ghost predicate MatchesEmailPattern(s: string) {
    exists local: string, host: string, tld: string ::
      s == local + "@" + host + "." + tld && PlainRun(local) && PlainRun(host) && PlainRun(tld)
  }

  /** The position of the first `c` in `s`. */
  function FirstIndex(s: string, c: char): (i: Option<nat>)
    ensures i.Some? ==> i.value < |s| && s[i.value] == c && forall k :: 0 <= k < i.value ==> s[k] != c
    ensures i.None? ==> forall k :: 0 <= k < |s| ==> s[k] != c
  {
    if s == [] then None
    else if s[0] == c then Some(0)
    else
      var rest := FirstIndex(s[1..], c);
      if rest.Some? then Some(rest.value + 1) else None
  }

  /** `validateEmail(email)`: an `@` that is not first, every other character
      neither whitespace nor `@`, and a `.` strictly inside the part after
      the `@`. */
  function ValidateEmail(s: string): (ok: bool)
    ensures ok ==> |s| >= 5
    ensures ok ==> forall k :: 0 <= k < |s| ==> !IsSpace(s[k])
    ensures ok ==> exists a :: 0 < a < |s| && s[a] == '@' && forall k :: 0 <= k < |s| && k != a ==> s[k] != '@'
  {
    match FirstIndex(s, '@')
    case None => false
    case Some(a) =>
      var domain := s[a + 1..];
      && 0 < a
      && (forall k :: 0 <= k < |s| && k != a ==> Plain(s[k]))
      && |domain| >= 3 && '.' in domain[1..|domain| - 1]
  }

  lemma ValidEmailMatches(s: string)
    requires ValidateEmail(s)
    ensures MatchesEmailPattern(s)
  {
    var a := FirstIndex(s, '@').value;
    var domain := s[a + 1..];
    var inner := domain[1..|domain| - 1];
    var j :| 0 <= j < |inner| && inner[j] == '.';
    var d := a + 2 + j;
    assert |domain| >= 3;
    assert inner[j] == domain[1 + j];
    assert domain[1 + j] == s[d];
    var local, host, tld := s[..a], s[a + 1..d], s[d + 1..];
    assert s == local + "@" + host + "." + tld;
    assert PlainRun(local) && PlainRun(host) && PlainRun(tld) by {
      assert forall i :: 0 <= i < |local| ==> local[i] == s[i];
      assert forall i :: 0 <= i < |host| ==> host[i] == s[a + 1 + i];
      assert forall i :: 0 <= i < |tld| ==> tld[i] == s[d + 1 + i];
    }
  }

  lemma PatternValidates(s: string, local: string, host: string, tld: string)
    requires s == local + "@" + host + "." + tld && PlainRun(local) && PlainRun(host) && PlainRun(tld)
    ensures ValidateEmail(s)
  {
    var a := |local|;
    var d := a + 1 + |host|;
    assert s[a] == '@' && s[d] == '.';
    assert forall k :: 0 <= k < a ==> s[k] == local[k];
    assert forall k :: a < k < d ==> s[k] == host[k - a - 1];
    assert forall k :: d < k < |s| ==> s[k] == tld[k - d - 1];
    assert FirstIndex(s, '@') == Some(a);
    var domain := s[a + 1..];
    assert domain[1..|domain| - 1][d - a - 2] == '.';
  }

  /** `validateEmail` accepts exactly the strings the pattern matches. */
  lemma ValidateEmailMatchesPattern(s: string)
    ensures ValidateEmail(s) <==> MatchesEmailPattern(s)
  {
    if ValidateEmail(s) {
      ValidEmailMatches(s);
    }
    if MatchesEmailPattern(s) {
      var local, host, tld :| s == local + "@" + host + "." + tld && PlainRun(local) && PlainRun(host) && PlainRun(tld);
      PatternValidates(s, local, host, tld);
    }
  }

  /** The checks of `handleRegister` in order: every field filled, then the
      e-mail, then the password length; `None` lets the request go out. */
  function RegisterCheck(name: string, email: string, password: string): (err: Option<string>)
    ensures err.None? <==> name != "" && email != "" && ValidateEmail(email) && |password| >= 6
    ensures err == Some(FillAll) <==> name == "" || email == "" || password == ""
    ensures err == Some(BadEmail) <==>
      name != "" && email != "" && password != "" && !ValidateEmail(email)
    ensures err == Some(ShortPassword) <==>
      name != "" && email != "" && password != "" && ValidateEmail(email) && |password| < 6
  {
    if name == "" || email == "" || password == "" then Some(FillAll)
    else if !ValidateEmail(email) then Some(BadEmail)
    else if |password| < 6 then Some(ShortPassword)
    else None
  }

  /** The e-mail is judged before the password, and six characters suffice. */
  lemma EmailJudgedBeforePassword(name: string, email: string, password: string)
    requires name != "" && email != "" && password != ""
    ensures !ValidateEmail(email) ==> RegisterCheck(name, email, password) == Some(BadEmail)
    ensures ValidateEmail(email) && |password| == 6 ==> RegisterCheck(name, email, password).None?
  {
  }

  /** The message shown for a failed request. */
  function RegisterErrorText(msg: Option<string>): (t: string)
    ensures t == AlreadyRegistered <==> msg == Some(UserExists)
    ensures t == RegisterFailed <==> msg != Some(UserExists)
  {
    if msg == Some(UserExists) then AlreadyRegistered else RegisterFailed
  }

  /** The form's state. */
  class RegisterForm {
    var name: string
    var email: string
    var password: string
    var loading: bool
    var errorMessage: string

    constructor ()
      ensures name == "" && email == "" && password == "" && !loading && errorMessage == ""
    {
      name, email, password, loading, errorMessage := "", "", "", false, "";
    }

    /** `handleRegister`. `failure` is the outcome of `register`: `None` for
        success, `Some(msg)` for a failure with the server's optional `msg`;
        `called` tells whether `register` was called. */
    method HandleRegister(failure: Option<Option<string>>) returns (called: bool)
      modifies this
      ensures var err := RegisterCheck(name, email, password);
        && (called <==> err.None?)
        && (err.Some? ==> errorMessage == err.value && loading == old(loading))
        && (err.None? && failure.None? ==> errorMessage == "" && !loading)
        && (err.None? && failure.Some? ==> errorMessage == RegisterErrorText(failure.value) && !loading)
      ensures name == old(name) && email == old(email) && password == old(password)
    {
      var err := RegisterCheck(name, email, password);
      if err.Some? {
        errorMessage := err.value;
        return false;
      }
      errorMessage := "";
      loading := true;
      called := true;
      if failure.Some? {
        errorMessage := RegisterErrorText(failure.value);
      }
      loading := false;
    }
  }
}
