/**
 * The registration and login page: a three-step registration wizard
 * (account, personal details, favourite sports) guarded by two
 * validators, the favourite-sport toggle, the per-field edit handler and
 * the login form's required-field check.
 *
 * The current year and the year of the entered birth date are parameters
 * of the step that reads them; `None` stands for a birth date the date
 * parser cannot read (its year is then not a number).
 */
module Auth {
  import opened Common
  import opened Text
  import opened Seqs

  datatype Sport =
    | Tenis | Basketbol | Futbol | Voleybol | Yuzme | Kosu | Bisiklet
    | Yoga | MasaTenisi | Badminton | Golf | Boks | Dans | Kayak

  datatype Form = Form(
    name: string,
    email: string,
    password: string,
    confirmPassword: string,
    birthDate: string,
    city: string,
    favoriteSports: seq<Sport>)

  const InitialForm: Form := Form("", "", "", "", "", "", [])

  datatype LoginForm = LoginForm(email: string, password: string)

  const InitialLogin: LoginForm := LoginForm("", "")

  /** One message per field. */
  datatype Errors = Errors(
    name: Message,
    email: Message,
    password: Message,
    confirmPassword: Message,
    birthDate: Message,
    city: Message,
    favoriteSports: Message)

  const NoErrors: Errors := Errors(NoError, NoError, NoError, NoError, NoError, NoError, NoError)

  /** The fields edited through the text inputs: every field but the sport list. */
  datatype TextField = Name | Email | Password | ConfirmPassword | BirthDate | City

  function FieldOf(f: Form, field: TextField): string
  {
    match field
    case Name => f.name
    case Email => f.email
    case Password => f.password
    case ConfirmPassword => f.confirmPassword
    case BirthDate => f.birthDate
    case City => f.city
  }

  function ErrorOf(e: Errors, field: TextField): Message
  {
    match field
    case Name => e.name
    case Email => e.email
    case Password => e.password
    case ConfirmPassword => e.confirmPassword
    case BirthDate => e.birthDate
    case City => e.city
  }

  /** `{ ...prev, [field]: value }` on the form. */
  function WithField(f: Form, field: TextField, value: string): (r: Form)
    ensures FieldOf(r, field) == value
    ensures forall g :: g != field ==> FieldOf(r, g) == FieldOf(f, g)
    ensures r.favoriteSports == f.favoriteSports
  {
    match field
    case Name => f.(name := value)
    case Email => f.(email := value)
    case Password => f.(password := value)
    case ConfirmPassword => f.(confirmPassword := value)
    case BirthDate => f.(birthDate := value)
    case City => f.(city := value)
  }

  /** `{ ...prev, [field]: "" }` on the errors. */
  function ClearError(e: Errors, field: TextField): (r: Errors)
    ensures ErrorOf(r, field) == NoError
    ensures forall g :: g != field ==> ErrorOf(r, g) == ErrorOf(e, g)
    ensures r.favoriteSports == e.favoriteSports
  {
    match field
    case Name => e.(name := NoError)
    case Email => e.(email := NoError)
    case Password => e.(password := NoError)
    case ConfirmPassword => e.(confirmPassword := NoError)
    case BirthDate => e.(birthDate := NoError)
    case City => e.(city := NoError)
  }

  // ---------------------------------------------------------------------------
  // The email pattern `^[^\s@]+@[^\s@]+\.[^\s@]+$`

  /** A character of the class `[^\s@]`; `\s` is the same set `trim` removes. */
  predicate Plain(c: char)
  {
    !IsSpace(c) && c != '@'
  }

  predicate AllPlain(s: string)
  {
    forall i :: 0 <= i < |s| ==> Plain(s[i])
  }

  /** `s` reads as A `@` B `.` C with A, B and C non-empty runs of plain characters. */
  predicate SplitsAt(s: string, i: int, j: int)
  {
    && 0 < i && i + 1 < j && j + 1 < |s|
    && s[i] == '@' && s[j] == '.'
    && AllPlain(s[..i]) && AllPlain(s[i + 1..j]) && AllPlain(s[j + 1..])
  }

  /** `validateEmail`: the pattern matches the whole string. */
  predicate ValidateEmail(s: string)
  {
    exists i, j :: 0 <= i < |s| && 0 <= j < |s| && SplitsAt(s, i, j)
  }

  predicate NoSpace(s: string)
  {
    forall i :: 0 <= i < |s| ==> !IsSpace(s[i])
  }

  /** `k` is the position of the one and only `@` of `s`. */
  predicate OnlyAtSignAt(s: string, k: int)
  {
    0 <= k < |s| && s[k] == '@' && forall m :: 0 <= m < |s| && s[m] == '@' ==> m == k
  }

  /** `d` has a `.` that is neither its first nor its last character. */
  predicate InnerDot(d: string)
  {
    exists j :: 0 < j < |d| - 1 && d[j] == '.'
  }

  /** The characters of a slice are the characters of the string at the shifted positions. */
  lemma PlainSlice(s: string, lo: int, hi: int)
    requires 0 <= lo <= hi <= |s|
    ensures AllPlain(s[lo..hi]) <==> forall m :: lo <= m < hi ==> Plain(s[m])
  {
    var t := s[lo..hi];
    assert forall m :: lo <= m < hi ==> s[m] == t[m - lo];
  }

  /** A match of the pattern has the shape: no white space, one `@`, an inner dot after it. */
  lemma SplitShape(s: string, i: int, j: int)
    requires SplitsAt(s, i, j)
    ensures NoSpace(s) && OnlyAtSignAt(s, i) && InnerDot(s[i + 1..])
  {
    PlainSlice(s, 0, i);
    PlainSlice(s, i + 1, j);
    PlainSlice(s, j + 1, |s|);
    assert s[..i] == s[0..i] && s[j + 1..] == s[j + 1..|s|];
    assert forall m :: 0 <= m < |s| && m != i && m != j ==> Plain(s[m]);
    assert s[i + 1..][j - i - 1] == '.';
  }

  /** A string of that shape matches the pattern. */
  lemma ShapeSplits(s: string, k: int, jd: int)
    requires NoSpace(s) && OnlyAtSignAt(s, k) && 0 < k
    requires 0 < jd < |s[k + 1..]| - 1 && s[k + 1..][jd] == '.'
    ensures SplitsAt(s, k, k + 1 + jd)
  {
    var j := k + 1 + jd;
    assert s[j] == '.';
    assert forall m :: 0 <= m < |s| && m != k ==> Plain(s[m]);
    PlainSlice(s, 0, k);
    PlainSlice(s, k + 1, j);
    PlainSlice(s, j + 1, |s|);
    assert s[..k] == s[0..k] && s[j + 1..] == s[j + 1..|s|];
  }

  /**
   * The pattern accepts exactly the strings with no white space and a
   * single `@`, preceded by at least one character and followed by a part
   * with a `.` that is neither its first nor its last character.
   */
  lemma ValidateEmailShape(s: string)
    ensures ValidateEmail(s) <==>
      NoSpace(s) && exists k :: OnlyAtSignAt(s, k) && 0 < k && InnerDot(s[k + 1..])
  {
    if ValidateEmail(s) {
      var i, j :| 0 <= i < |s| && 0 <= j < |s| && SplitsAt(s, i, j);
      SplitShape(s, i, j);
    }
    if NoSpace(s) && exists k :: OnlyAtSignAt(s, k) && 0 < k && InnerDot(s[k + 1..]) {
      var k :| OnlyAtSignAt(s, k) && 0 < k && InnerDot(s[k + 1..]);
      var jd :| 0 < jd < |s[k + 1..]| - 1 && s[k + 1..][jd] == '.';
      ShapeSplits(s, k, jd);
    }
  }

  /** An address the pattern accepts is never blank, so the "required" branch cannot hide it. */
  lemma ValidEmailNotBlank(s: string)
    ensures ValidateEmail(s) ==> Trim(s) != ""
  {
    if ValidateEmail(s) {
      var i, j :| 0 <= i < |s| && 0 <= j < |s| && SplitsAt(s, i, j);
      assert s[0] == s[..i][0];
      assert !AllSpace(s);
    }
  }

  // ---------------------------------------------------------------------------
  // The messages

  /** The error messages of the page; `NoError` is the empty string. */
  datatype Message =
    | NoError
    | NameRequired | NameTooShort
    | EmailRequired | EmailInvalid
    | PasswordRequired | PasswordTooShort
    | ConfirmRequired | PasswordsDiffer
    | BirthDateRequired | TooYoung | BirthDateInvalid
    | CityRequired
    | SportsRequired

  /** The text the page shows for each message. */
  function MessageText(m: Message): string
  {
    match m
    case NoError => ""
    case NameRequired => "Ad Soyad zorunludur"
    case NameTooShort => "Ad Soyad en az 3 karakter olmalıdır"
    case EmailRequired => "Email zorunludur"
    case EmailInvalid => "Geçerli bir email adresi girin"
    case PasswordRequired => "Şifre zorunludur"
    case PasswordTooShort => "Şifre en az 6 karakter olmalıdır"
    case ConfirmRequired => "Şifre tekrarı zorunludur"
    case PasswordsDiffer => "Şifreler eşleşmiyor"
    case BirthDateRequired => "Doğum tarihi zorunludur"
    case TooYoung => "En az 13 yaşında olmalısınız"
    case BirthDateInvalid => "Geçerli bir doğum tarihi girin"
    case CityRequired => "Şehir seçimi zorunludur"
    case SportsRequired => "En az bir spor seçmelisiniz"
  }

  /**
   * A message's text is empty exactly for `NoError`, so the page's test of
   * an error field for truthiness is the test `m != NoError`.
   */
  lemma MessageTextEmpty(m: Message)
    ensures MessageText(m) == "" <==> m == NoError
  {
    if m != NoError {
      assert |MessageText(m)| > 0;
    }
  }

  // ---------------------------------------------------------------------------
  // Step 1: one message per field, the "required" message first

  function NameError(name: string): Message
  {
    if Trim(name) == "" then NameRequired
    else if |Trim(name)| < 3 then NameTooShort
    else NoError
  }

  function EmailError(email: string): Message
  {
    if Trim(email) == "" then EmailRequired
    else if !ValidateEmail(email) then EmailInvalid
    else NoError
  }

  function PasswordError(password: string): Message
  {
    if password == "" then PasswordRequired
    else if |password| < 6 then PasswordTooShort
    else NoError
  }

  function ConfirmError(password: string, confirm: string): Message
  {
    if confirm == "" then ConfirmRequired
    else if password != confirm then PasswordsDiffer
    else NoError
  }

  /**
   * Each account field shows exactly one message when it fails: the
   * "required" one when it is blank (empty for the passwords), and the
   * length, format or mismatch one only when it is not.
   */
  lemma NameMessages(name: string)
    ensures NameError(name) == NameRequired <==> Trim(name) == ""
    ensures NameError(name) == NameTooShort <==> 0 < |Trim(name)| < 3
    ensures NameError(name) == NoError <==> |Trim(name)| >= 3
  {
  }

  lemma EmailMessages(email: string)
    ensures EmailError(email) == EmailRequired <==> Trim(email) == ""
    ensures EmailError(email) == EmailInvalid <==> Trim(email) != "" && !ValidateEmail(email)
    ensures EmailError(email) == NoError <==> ValidateEmail(email)
  {
    ValidEmailNotBlank(email);
  }

  lemma PasswordMessages(password: string, confirm: string)
    ensures PasswordError(password) == PasswordRequired <==> password == ""
    ensures PasswordError(password) == PasswordTooShort <==> 0 < |password| < 6
    ensures PasswordError(password) == NoError <==> |password| >= 6
    ensures ConfirmError(password, confirm) == ConfirmRequired <==> confirm == ""
    ensures ConfirmError(password, confirm) == PasswordsDiffer <==> confirm != "" && confirm != password
    ensures ConfirmError(password, confirm) == NoError <==> confirm != "" && confirm == password
  {
  }

  /** The errors step 1 shows: the four account fields, every other message cleared. */
  function Step1Errors(f: Form): Errors
  {
    NoErrors.(name := NameError(f.name), email := EmailError(f.email),
              password := PasswordError(f.password),
              confirmPassword := ConfirmError(f.password, f.confirmPassword))
  }

  /** The conditions for leaving step 1. */
  predicate Step1Ok(f: Form)
  {
    && |Trim(f.name)| >= 3
    && ValidateEmail(f.email)
    && |f.password| >= 6
    && f.confirmPassword != "" && f.confirmPassword == f.password
  }

  /** Step 1 passes exactly when it shows no error. */
  lemma Step1Valid(f: Form)
    ensures Step1Errors(f) == NoErrors <==> Step1Ok(f)
  {
    NameMessages(f.name);
    EmailMessages(f.email);
    PasswordMessages(f.password, f.confirmPassword);
  }

  // ---------------------------------------------------------------------------
  // Step 2: age in whole calendar years, and the city

  function BirthDateError(birthDate: string, birthYear: Option<int>, currentYear: int): Message
  {
    if birthDate == "" then BirthDateRequired
    else match birthYear
      case None => NoError
      case Some(y) =>
        var age := currentYear - y;
        if age < 13 then TooYoung
        else if age > 100 then BirthDateInvalid
        else NoError
  }

  function CityError(city: string): Message
  {
    if city == "" then CityRequired else NoError
  }

  function Step2Errors(f: Form, birthYear: Option<int>, currentYear: int): Errors
  {
    NoErrors.(birthDate := BirthDateError(f.birthDate, birthYear, currentYear), city := CityError(f.city))
  }

  predicate Step2Ok(f: Form, birthYear: Option<int>, currentYear: int)
  {
    && f.birthDate != ""
    && (birthYear.Some? ==> 13 <= currentYear - birthYear.value <= 100)
    && f.city != ""
  }

  /**
   * The birth date shows the "required" message when empty; otherwise,
   * with a readable year, the "too young" message below 13 years and the
   * "invalid date" message above 100, and nothing in between; an
   * unreadable year fails neither comparison. The city shows its message
   * exactly when empty, and every other field is cleared.
   */
  lemma Step2Messages(f: Form, birthYear: Option<int>, currentYear: int)
    ensures var e := Step2Errors(f, birthYear, currentYear);
      && (e.birthDate == BirthDateRequired <==> f.birthDate == "")
      && (f.birthDate != "" && birthYear.Some? ==>
            && (e.birthDate == TooYoung <==> currentYear - birthYear.value < 13)
            && (e.birthDate == BirthDateInvalid <==> currentYear - birthYear.value > 100))
      && (f.birthDate != "" && birthYear.None? ==> e.birthDate == NoError)
      && (e.city == NoError <==> f.city != "")
      && e.name == NoError && e.email == NoError && e.password == NoError && e.confirmPassword == NoError
      && e.favoriteSports == NoError
  {
  }

  /** Step 2 passes exactly when it shows no error. */
  lemma Step2Valid(f: Form, birthYear: Option<int>, currentYear: int)
    ensures Step2Errors(f, birthYear, currentYear) == NoErrors <==> Step2Ok(f, birthYear, currentYear)
  {
    Step2Messages(f, birthYear, currentYear);
  }

  /**
   * The checks of `validateStep1` as the page runs them: a fresh error
   * record, a flag, and one `if`/`else if` per field.
   */
  method CheckStep1(f: Form) returns (isValid: bool, newErrors: Errors)
    ensures newErrors == Step1Errors(f)
    ensures isValid <==> newErrors == NoErrors
  {
    newErrors := NoErrors;
    isValid := true;
    if Trim(f.name) == "" {
      newErrors := newErrors.(name := NameRequired);
      isValid := false;
    } else if |Trim(f.name)| < 3 {
      newErrors := newErrors.(name := NameTooShort);
      isValid := false;
    }
    assert newErrors == NoErrors.(name := NameError(f.name)) && (isValid <==> newErrors == NoErrors);
    if Trim(f.email) == "" {
      newErrors := newErrors.(email := EmailRequired);
      isValid := false;
    } else if !ValidateEmail(f.email) {
      newErrors := newErrors.(email := EmailInvalid);
      isValid := false;
    }
    assert newErrors == NoErrors.(name := NameError(f.name), email := EmailError(f.email))
           && (isValid <==> newErrors == NoErrors);
    if f.password == "" {
      newErrors := newErrors.(password := PasswordRequired);
      isValid := false;
    } else if |f.password| < 6 {
      newErrors := newErrors.(password := PasswordTooShort);
      isValid := false;
    }
    if f.confirmPassword == "" {
      newErrors := newErrors.(confirmPassword := ConfirmRequired);
      isValid := false;
    } else if f.password != f.confirmPassword {
      newErrors := newErrors.(confirmPassword := PasswordsDiffer);
      isValid := false;
    }
  }

  /** The checks of `validateStep2` as the page runs them. */
  method CheckStep2(f: Form, birthYear: Option<int>, currentYear: int) returns (isValid: bool, newErrors: Errors)
    ensures newErrors == Step2Errors(f, birthYear, currentYear)
    ensures isValid <==> newErrors == NoErrors
  {
    newErrors := NoErrors;
    isValid := true;
    if f.birthDate == "" {
      newErrors := newErrors.(birthDate := BirthDateRequired);
      isValid := false;
    } else if birthYear.Some? {
      var age := currentYear - birthYear.value;
      if age < 13 {
        newErrors := newErrors.(birthDate := TooYoung);
        isValid := false;
      } else if age > 100 {
        newErrors := newErrors.(birthDate := BirthDateInvalid);
        isValid := false;
      }
    }
    if f.city == "" {
      newErrors := newErrors.(city := CityRequired);
      isValid := false;
    }
  }

  // ---------------------------------------------------------------------------
  // The favourite-sport toggle

  /** `has ? list.filter(s => s !== sport) : [...list, sport]`. */
  function Toggle(list: seq<Sport>, sport: Sport): seq<Sport>
  {
    if sport in list then Filter(list, Other(sport)) else list + [sport]
  }

  /** The filter callback `s => s !== sport`. */
  function Other(sport: Sport): Sport -> bool
  {
    s => s != sport
  }

  /** Toggling flips the membership of that sport and of no other. */
  lemma ToggleFlips(list: seq<Sport>, sport: Sport)
    ensures sport in Toggle(list, sport) <==> sport !in list
    ensures forall t :: t != sport ==> (t in Toggle(list, sport) <==> t in list)
  {
  }

  /** Toggling twice restores the membership of every sport. */
  lemma ToggleTwice(list: seq<Sport>, sport: Sport)
    ensures forall t :: t in Toggle(Toggle(list, sport), sport) <==> t in list
  {
    ToggleFlips(list, sport);
    ToggleFlips(Toggle(list, sport), sport);
  }

  /** Adding a sport and removing it again gives back the very same list. */
  lemma ToggleRoundTrip(list: seq<Sport>, sport: Sport)
    requires sport !in list
    ensures Toggle(Toggle(list, sport), sport) == list
  {
    var keep := Other(sport);
    assert Filter(list + [sport], keep) == list by {
      FilterAppend(list, [sport], keep);
      FilterKeepsAll(list, keep);
      assert Filter([sport], keep) == [];
    }
    assert sport in list + [sport];
  }

  /** A list without repeats stays without repeats. */
  lemma ToggleKeepsDistinct(list: seq<Sport>, sport: Sport)
    requires forall i, j :: 0 <= i < j < |list| ==> list[i] != list[j]
    ensures var r := Toggle(list, sport);
      forall i, j :: 0 <= i < j < |r| ==> r[i] != r[j]
  {
    var r := Toggle(list, sport);
    if sport in list {
      var self := (s: Sport) => s;
      assert DistinctBy(list, self);
      FilterDistinctBy(list, Other(sport), self);
      assert DistinctBy(r, self);
    } else {
      forall i, j | 0 <= i < j < |r| ensures r[i] != r[j] {
        if j == |list| {
          assert r[i] in list;
        } else {
          assert r[i] == list[i] && r[j] == list[j];
        }
      }
    }
  }

  // ---------------------------------------------------------------------------
  // The page

  class AuthPage {
    var isLogin: bool
    var currentStep: int
    var formData: Form
    var loginData: LoginForm
    var errors: Errors

    /** The wizard is on step 1, 2 or 3. */
    ghost predicate Valid()
      reads this
    {
      1 <= currentStep <= 3
    }

    constructor ()
      ensures Valid()
      ensures !isLogin && currentStep == 1
      ensures formData == InitialForm && loginData == InitialLogin && errors == NoErrors
    {
      isLogin := false;
      currentStep := 1;
      formData := InitialForm;
      loginData := InitialLogin;
      errors := NoErrors;
    }

    /** `handleInputChange`: set the field and clear its error (a no-op when it is already clear). */
    method HandleInputChange(field: TextField, value: string)
      modifies this`formData, this`errors
      ensures formData == WithField(old(formData), field, value)
      ensures errors == ClearError(old(errors), field)
    {
      formData := WithField(formData, field, value);
      if ErrorOf(errors, field) != NoError {
        errors := ClearError(errors, field);
      } else {
        assert ClearError(errors, field) == errors by {
          match field
          case Name =>
          case Email =>
          case Password =>
          case ConfirmPassword =>
          case BirthDate =>
          case City =>
        }
      }
    }

    /** `handleSportToggle`: toggle the sport and clear the sport error. */
    method HandleSportToggle(sport: Sport)
      modifies this`formData, this`errors
      ensures formData == old(formData).(favoriteSports := Toggle(old(formData.favoriteSports), sport))
      ensures errors == old(errors).(favoriteSports := NoError)
    {
      formData := formData.(favoriteSports := Toggle(formData.favoriteSports, sport));
      if errors.favoriteSports != NoError {
        errors := errors.(favoriteSports := NoError);
      }
    }

    /** `validateStep1`: replace all errors by the step's own and report whether there are none. */
    method ValidateStep1() returns (isValid: bool)
      modifies this`errors
      ensures errors == Step1Errors(formData)
      ensures isValid <==> Step1Ok(formData)
    {
      isValid, errors := CheckStep1(formData);
      Step1Valid(formData);
    }

    /** `validateStep2`, with the two years as parameters. */
    method ValidateStep2(birthYear: Option<int>, currentYear: int) returns (isValid: bool)
      modifies this`errors
      ensures errors == Step2Errors(formData, birthYear, currentYear)
      ensures isValid <==> Step2Ok(formData, birthYear, currentYear)
    {
      isValid, errors := CheckStep2(formData, birthYear, currentYear);
      Step2Valid(formData, birthYear, currentYear);
    }

    /**
     * `handleNextStep`: from step 1 to 2 when step 1 validates, from step 2
     * to 3 when step 2 validates; it never moves by more than one step and
     * does nothing on step 3.
     */
    method HandleNextStep(birthYear: Option<int>, currentYear: int)
      requires Valid()
      modifies this`currentStep, this`errors
      ensures Valid()
      ensures old(currentStep) <= currentStep <= old(currentStep) + 1
      ensures old(currentStep) == 1 ==>
        errors == Step1Errors(formData) && (currentStep == 2 <==> Step1Ok(formData))
      ensures old(currentStep) == 2 ==>
        errors == Step2Errors(formData, birthYear, currentYear)
        && (currentStep == 3 <==> Step2Ok(formData, birthYear, currentYear))
      ensures old(currentStep) == 3 ==> currentStep == 3 && errors == old(errors)
    {
      if currentStep == 1 {
        var ok := ValidateStep1();
        if ok {
          currentStep := 2;
        }
      } else if currentStep == 2 {
        var ok := ValidateStep2(birthYear, currentYear);
        if ok {
          currentStep := 3;
        }
      }
    }

    /** The "back" buttons of steps 2 and 3. */
    method PreviousStep()
      requires Valid() && currentStep > 1
      modifies this`currentStep
      ensures Valid() && currentStep == old(currentStep) - 1
    {
      currentStep := currentStep - 1;
    }

    /**
     * `handleRegister`: refused, with only the sport error set, when no
     * sport is chosen; otherwise registration completes and nothing changes.
     */
    method HandleRegister() returns (registered: bool)
      modifies this`errors
      ensures registered <==> formData.favoriteSports != []
      ensures !registered ==> errors == old(errors).(favoriteSports := SportsRequired)
      ensures registered ==> errors == old(errors)
    {
      if |formData.favoriteSports| == 0 {
        errors := errors.(favoriteSports := SportsRequired);
        return false;
      }
      return true;
    }

    /** The login form's change handlers. */
    method EditLogin(d: LoginForm)
      modifies this`loginData
      ensures loginData == d
    {
      loginData := d;
    }

    /** `handleLogin`: refused when the email or the password is empty. */
    method HandleLogin() returns (accepted: bool)
      ensures accepted <==> loginData.email != "" && loginData.password != ""
    {
      if loginData.email == "" || loginData.password == "" {
        return false;
      }
      return true;
    }

    /** The "register" tab: back to step 1 with no errors. */
    method ShowRegister()
      modifies this`isLogin, this`currentStep, this`errors
      ensures Valid() && !isLogin && currentStep == 1 && errors == NoErrors
    {
      isLogin := false;
      currentStep := 1;
      errors := NoErrors;
    }

    /** The "login" tab: errors cleared, the wizard's step kept. */
    method ShowLogin()
      modifies this`isLogin, this`errors
      ensures isLogin && errors == NoErrors
    {
      isLogin := true;
      errors := NoErrors;
    }

    /** The link under the card: switch mode, back to step 1, errors cleared. */
    method SwitchMode()
      modifies this`isLogin, this`currentStep, this`errors
      ensures Valid() && isLogin == !old(isLogin) && currentStep == 1 && errors == NoErrors
    {
      isLogin := !isLogin;
      currentStep := 1;
      errors := NoErrors;
    }
  }
}
