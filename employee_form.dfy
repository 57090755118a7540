/**
 * The employee form's pre-submit validation (app/Components/EmployeeForm.tsx,
 * `handleSubmit`): per-field rules on the trimmed name, e-mail and phone, the
 * salary as parsed, and the age reached on the given date of birth; the
 * rules fill a fresh error map, and submission is blocked exactly when it has
 * an entry.
 *
 * Parsing is not modelled: the salary comes as the number `parseFloat` gives
 * (None for NaN) and dates as (year, month, day) in local time.
 */
module EmployeeForm {
  import opened Options
  import opened Text

  /** A calendar date as `getFullYear`, `getMonth` and `getDate` read it. */
  datatype Date = Date(year: int, month: int, day: int)

  /** The date_of_birth field: empty, text that is no date, or a date. */
  datatype BirthDate = Blank | Unparsable | Given(date: Date)

  /** The values `handleSubmit` reads from the form. */
  datatype Submission = Submission(
    fullName: string,
    email: string,
    phone: string,
    salary: Option<real>,
    dateOfBirth: BirthDate)

  /** The fields that carry a rule; the error map is keyed by them. */
  datatype Field = FullName | Email | Phone | Salary | DateOfBirth {
    /** The form field's name, the key the source's error record uses. */
    function Key(): (key: string) {
      match this
      case FullName => "full_name"
      case Email => "email"
      case Phone => "phone"
      case Salary => "salary"
      case DateOfBirth => "date_of_birth"
    }
  }

  /**
   * Different fields have different names, so a map keyed by fields and the
   * source's record keyed by their names hold the same entries.
   */
  lemma KeyInjective(a: Field, b: Field)
    ensures a.Key() == b.Key() <==> a == b
  {
    if a != b {
      assert |a.Key()| != |b.Key()| || a.Key()[0] != b.Key()[0];
    }
  }

  const FullNameMessage := "Full name must be at least 3 characters."
  const EmailMessage := "Invalid email format."
  const PhoneMessage := "Phone number must be 8\U{2013}15 digits."
  const SalaryMessage := "Salary must be a positive number and 500$ minimum."
  const DateOfBirthMessage := "Employee must be at least 18 years old."

  const MinimumSalary: real := 500.0
  const MinimumAge := 18

  // ---------------------------------------------------------------- e-mail

  /**
   * The strings `^\S+@\S+\.\S+$` describes: no white space, and an '@' and a
   * later '.' that cut the string into three non-empty parts.
   */
  ghost predicate EmailShape(s: string) {
    NoWhitespace(s) && exists i, j :: 0 < i && i + 1 < j < |s| - 1 && s[i] == '@' && s[j] == '.'
  }

  /** The first position at or after `from` that holds `c`, or |s| when none does. */
  function IndexFrom(s: string, c: char, from: nat): (k: nat)
    requires from <= |s|
    ensures from <= k <= |s|
    ensures k < |s| ==> s[k] == c
    ensures forall i :: from <= i < k ==> s[i] != c
    decreases |s| - from
  {
    if from == |s| || s[from] == c then from else IndexFrom(s, c, from + 1)
  }

  /** The last position before `end` that holds `c`, or -1 when none does. */
  function LastIndexBefore(s: string, c: char, end: nat): (k: int)
    requires end <= |s|
    ensures -1 <= k < end
    ensures k >= 0 ==> s[k] == c
    ensures forall i :: k < i < end ==> s[i] != c
  {
    if end == 0 then -1
    else if s[end - 1] == c then end - 1
    else LastIndexBefore(s, c, end - 1)
  }

  /**
   * The e-mail test: the earliest '@' that has something before it must come
   * more than one place before the latest '.' that has something after it.
   */
  predicate MatchesEmail(s: string) {
    && NoWhitespace(s)
    && |s| > 0
    && var at := IndexFrom(s, '@', 1);
       var dot := LastIndexBefore(s, '.', |s| - 1);
       at < |s| && at + 1 < dot
  }

  /** The e-mail test accepts exactly the strings of the pattern. */
  lemma MatchesEmailIffShape(s: string)
    ensures MatchesEmail(s) <==> EmailShape(s)
  {
    if MatchesEmail(s) {
      var at := IndexFrom(s, '@', 1);
      var dot := LastIndexBefore(s, '.', |s| - 1);
      assert 0 < at && at + 1 < dot < |s| - 1 && s[at] == '@' && s[dot] == '.';
    }
    if EmailShape(s) {
      var i, j :| 0 < i && i + 1 < j < |s| - 1 && s[i] == '@' && s[j] == '.';
      var at := IndexFrom(s, '@', 1);
      var dot := LastIndexBefore(s, '.', |s| - 1);
      assert at <= i;
      assert j <= dot;
    }
  }

  // ----------------------------------------------------------------- phone

  /** `^\+?\d{8,15}$`: an optional leading '+' and then 8 to 15 decimal digits. */
  predicate MatchesPhone(s: string) {
    var digits := if |s| > 0 && s[0] == '+' then s[1..] else s;
    8 <= |digits| <= 15 && AllDigits(digits)
  }

  /**
   * Character by character: every character is a digit except possibly a '+'
   * in first place, and there are 8 to 15 digits.
   */
  lemma MatchesPhoneByCharacters(s: string)
    ensures MatchesPhone(s) <==>
      && (forall i :: 0 <= i < |s| ==> IsDigit(s[i]) || (i == 0 && s[i] == '+'))
      && 8 <= |s| - (if |s| > 0 && s[0] == '+' then 1 else 0) <= 15
  {
    if |s| > 0 && s[0] == '+' {
      if forall i :: 0 <= i < |s| ==> IsDigit(s[i]) || (i == 0 && s[i] == '+') {
        forall i | 0 <= i < |s| - 1 ensures IsDigit(s[1..][i]) {
          assert s[1..][i] == s[i + 1];
        }
      }
      if AllDigits(s[1..]) {
        forall i | 1 <= i < |s| ensures IsDigit(s[i]) {
          assert s[i] == s[1..][i - 1];
        }
      }
    }
  }

  // ------------------------------------------------------------------- age

  /** `a` is not later than `b` (order by year, then month, then day). */
  predicate OnOrBefore(a: Date, b: Date) {
    || a.year < b.year
    || (a.year == b.year && (a.month < b.month || (a.month == b.month && a.day <= b.day)))
  }

  /** The date `years` after `dob`, on the same month and day. */
  function Anniversary(dob: Date, years: int): (anniversary: Date) {
    Date(dob.year + years, dob.month, dob.day)
  }

  /**
   * The age on `today`: the year difference, less one when this year's
   * birthday is still ahead. It is the number of birthdays reached: the
   * `age`-th anniversary is on or before today and the next is after it.
   */
  function Age(today: Date, dob: Date): (age: int)
    ensures OnOrBefore(Anniversary(dob, age), today)
    ensures !OnOrBefore(Anniversary(dob, age + 1), today)
  {
    var age := today.year - dob.year;
    var m := today.month - dob.month;
    var birthdayPassed := m > 0 || (m == 0 && today.day >= dob.day);
    if birthdayPassed then age else age - 1
  }

  /** No other number of years sits between two consecutive anniversaries around today. */
  lemma AgeIsUnique(today: Date, dob: Date, years: int)
    requires OnOrBefore(Anniversary(dob, years), today)
    requires !OnOrBefore(Anniversary(dob, years + 1), today)
    ensures years == Age(today, dob)
  {
  }

  /**
   * Born `years` years ago today, one is `years` old; born one day of the
   * month later, one is a year younger. (At the end of a month `day + 1` is
   * no calendar date; AgeIsUnique covers every date of birth.)
   */
  lemma BirthdayBoundary(today: Date, years: int)
    ensures Age(today, Date(today.year - years, today.month, today.day)) == years
    ensures Age(today, Date(today.year - years, today.month, today.day + 1)) == years - 1
  {
  }

  // ----------------------------------------------------------------- rules

  /** `length` counts UTF-16 code units, so a character beyond U+FFFF counts twice. */
  predicate NameTooShort(sub: Submission) {
    Utf16Length(Trim(sub.fullName)) < 3
  }

  /** Two characters beyond U+FFFF make a name of length 4: long enough. */
  lemma TwoAstralCharactersAreLongEnough(sub: Submission)
    requires sub.fullName == "\U{1F600}\U{1F600}"
    ensures !NameTooShort(sub)
    ensures Utf16Length(Trim(sub.fullName)) == 4
    ensures 0 < |Trim(sub.fullName)| < 3
  {
    var s := sub.fullName;
    assert !IsWhitespace(s[0]) && !IsWhitespace(s[1]);
    assert TrimStart(s) == s;
    assert TrimEnd(s) == s;
    assert Utf16Length(s[1..]) == 2;
  }

  predicate EmailInvalid(sub: Submission) {
    !MatchesEmail(Trim(sub.email))
  }

  predicate PhoneInvalid(sub: Submission) {
    !MatchesPhone(Trim(sub.phone))
  }

  /** NaN or below the minimum. */
  predicate SalaryInvalid(sub: Submission) {
    sub.salary.None? || sub.salary.value < MinimumSalary
  }

  /** Only a date that parses can be too recent: NaN < 18 is false for text that is no date. */
  predicate TooYoung(sub: Submission, today: Date) {
    sub.dateOfBirth.Given? && Age(today, sub.dateOfBirth.date) < MinimumAge
  }

  /** The fields that break their rule. */
  function FieldsInError(sub: Submission, today: Date): (fields: set<Field>) {
    Flagged(NameTooShort(sub), EmailInvalid(sub), PhoneInvalid(sub), SalaryInvalid(sub), TooYoung(sub, today))
  }

  /** The fields whose rule outcome is `true`. */
  function Flagged(nameBad: bool, emailBad: bool, phoneBad: bool, salaryBad: bool, dobBad: bool): (fields: set<Field>)
    ensures FullName in fields <==> nameBad
    ensures Email in fields <==> emailBad
    ensures Phone in fields <==> phoneBad
    ensures Salary in fields <==> salaryBad
    ensures DateOfBirth in fields <==> dobBad
  {
    (if nameBad then {FullName} else {})
    + (if emailBad then {Email} else {})
    + (if phoneBad then {Phone} else {})
    + (if salaryBad then {Salary} else {})
    + (if dobBad then {DateOfBirth} else {})
  }

  /** The message shown under a field in error. */
  function Message(field: Field): (message: string) {
    match field
    case FullName => FullNameMessage
    case Email => EmailMessage
    case Phone => PhoneMessage
    case Salary => SalaryMessage
    case DateOfBirth => DateOfBirthMessage
  }

  /** One message per field in error, and nothing for the others. */
  function ExpectedErrors(sub: Submission, today: Date): (errors: map<Field, string>) {
    ErrorMap(FieldsInError(sub, today))
  }

  /** One message for each of `fields`. */
  function ErrorMap(fields: set<Field>): (errors: map<Field, string>) {
    map field | field in fields :: Message(field)
  }

  /** The only map with one message for each of `fields` and no other entry. */
  lemma ErrorMapUnique(m: map<Field, string>, fields: set<Field>)
    requires forall field :: field in m <==> field in fields
    requires forall field :: field in m ==> m[field] == Message(field)
    ensures m == ErrorMap(fields)
  {
  }

  /**
   * Field by field: an entry exactly for a trimmed name under 3 characters, a
   * trimmed e-mail outside the pattern, a trimmed phone outside the pattern, a
   * salary that is NaN or under 500, and a date of birth that gives an age
   * under 18; each entry holds its field's message.
   */
  lemma ExpectedErrorsByField(sub: Submission, today: Date)
    ensures FullName in ExpectedErrors(sub, today) <==> Utf16Length(Trim(sub.fullName)) < 3
    ensures Email in ExpectedErrors(sub, today) <==> !EmailShape(Trim(sub.email))
    ensures Phone in ExpectedErrors(sub, today) <==> !MatchesPhone(Trim(sub.phone))
    ensures Salary in ExpectedErrors(sub, today) <==> sub.salary.None? || sub.salary.value < 500.0
    ensures DateOfBirth in ExpectedErrors(sub, today) <==>
      sub.dateOfBirth.Given? && Age(today, sub.dateOfBirth.date) < 18
    ensures forall field :: field in ExpectedErrors(sub, today) ==> ExpectedErrors(sub, today)[field] == Message(field)
  {
    MatchesEmailIffShape(Trim(sub.email));
  }

  /** Some rule is broken exactly when the expected error map has an entry. */
  lemma ErrorsNonEmptyIffSomeRuleBroken(sub: Submission, today: Date)
    ensures |ExpectedErrors(sub, today)| > 0 <==>
      NameTooShort(sub) || EmailInvalid(sub) || PhoneInvalid(sub) || SalaryInvalid(sub) || TooYoung(sub, today)
  {
    var errs := ExpectedErrors(sub, today);
    if NameTooShort(sub) { assert FullName in errs; }
    if EmailInvalid(sub) { assert Email in errs; }
    if PhoneInvalid(sub) { assert Phone in errs; }
    if SalaryInvalid(sub) { assert Salary in errs; }
    if TooYoung(sub, today) { assert DateOfBirth in errs; }
    if |errs| > 0 {
      var field :| field in errs;
    }
  }

  /**
   * The validation pass of `handleSubmit`: a fresh map, one conditional entry
   * per rule. `today` is the clock reading the source takes with `new Date()`.
   */
  method CollectErrors(sub: Submission, today: Date) returns (newErrors: map<Field, string>)
    ensures newErrors == ExpectedErrors(sub, today)
  {
    newErrors := map[];

    var fullName := Trim(sub.fullName);
    var email := Trim(sub.email);
    var phone := Trim(sub.phone);

    if Utf16Length(fullName) < 3 {
      newErrors := newErrors[FullName := FullNameMessage];
    }
    if !MatchesEmail(email) {
      newErrors := newErrors[Email := EmailMessage];
    }
    if !MatchesPhone(phone) {
      newErrors := newErrors[Phone := PhoneMessage];
    }
    if sub.salary.None? || sub.salary.value < MinimumSalary {
      newErrors := newErrors[Salary := SalaryMessage];
    }
    if sub.dateOfBirth != Blank {
      // text that is no date gives a NaN age, and NaN < 18 is false
      if sub.dateOfBirth.Given? && Age(today, sub.dateOfBirth.date) < MinimumAge {
        newErrors := newErrors[DateOfBirth := DateOfBirthMessage];
      }
    }
    ExpectedErrorsUnique(newErrors, sub, today);
  }

  /**
   * The expected error map is the only map that holds, for each rule broken,
   * its field's message, and nothing for the rules kept.
   */
  lemma ExpectedErrorsUnique(m: map<Field, string>, sub: Submission, today: Date)
    requires if NameTooShort(sub) then FullName in m && m[FullName] == FullNameMessage else FullName !in m
    requires if EmailInvalid(sub) then Email in m && m[Email] == EmailMessage else Email !in m
    requires if PhoneInvalid(sub) then Phone in m && m[Phone] == PhoneMessage else Phone !in m
    requires if SalaryInvalid(sub) then Salary in m && m[Salary] == SalaryMessage else Salary !in m
    requires if TooYoung(sub, today) then DateOfBirth in m && m[DateOfBirth] == DateOfBirthMessage
             else DateOfBirth !in m
    ensures m == ExpectedErrors(sub, today)
  {
    var fields := FieldsInError(sub, today);
    forall field
      ensures field in m <==> field in fields
      ensures field in m ==> m[field] == Message(field)
    {
      match field
      case FullName =>
      case Email =>
      case Phone =>
      case Salary =>
      case DateOfBirth =>
    }
    ErrorMapUnique(m, fields);
  }

  /** The form component's error state, rendered under the fields. */
  class FormState {
    var errors: map<Field, string>

    constructor ()
      ensures errors == map[]
    {
      errors := map[];
    }

    /**
     * `handleSubmit`: submission is prevented exactly when some rule is broken,
     * and only then is the error state replaced, by the errors of this attempt alone.
     */
    method HandleSubmit(sub: Submission, today: Date) returns (prevented: bool)
      modifies this
      ensures prevented <==> FieldsInError(sub, today) != {}
      ensures errors == if prevented then ExpectedErrors(sub, today) else old(errors)
    {
      var newErrors := CollectErrors(sub, today);
      prevented := false;
      if |newErrors| > 0 {
        prevented := true;
        errors := newErrors;
      }
      ErrorsNonEmptyIffSomeRuleBroken(sub, today);
    }
  }
}
