/**
 * The backend's input validators: the e-mail, phone-number and password
 * patterns used at registration and profile update, and the checks a
 * property listing must pass before it is stored.
 *
 * Each regular expression is written as a predicate that follows the shape
 * of the pattern (one conjunct per group), and is paired with a flat
 * characterization proved equivalent to it.
 */
module Validators {
  import opened Common
  import opened JsText

  // ---------------------------------------------------------------------
  // E-mail: ^[^\s@]+@[^\s@]+\.[^\s@]+$

  /** A character of the class `[^\s@]`. */
  predicate EmailChar(c: char) { !IsSpace(c) && c != '@' }

  /** `[^\s@]+` matching the whole of t. */
  predicate EmailRun(t: string)
  {
    |t| > 0 && forall k :: 0 <= k < |t| ==> EmailChar(t[k])
  }

  /** The pattern matches s: some `@` at i and some `.` at j split s into three runs. */
  predicate IsValidEmail(s: string): (r: bool)
    ensures r ==> |s| >= 5 && s[0] != '@' && s[|s| - 1] != '@'
  {
    exists i, j :: 0 <= i < j < |s| && s[i] == '@' && s[j] == '.' &&
      EmailRun(s[..i]) && EmailRun(s[i + 1..j]) && EmailRun(s[j + 1..])
  }

  /**
   * The flat reading of the pattern: no whitespace, exactly one `@`, not first,
   * and after it a `.` that is neither the first nor the last character.
   */
  predicate EmailShape(s: string)
  {
    (forall k :: 0 <= k < |s| ==> !IsSpace(s[k])) &&
    '@' in s &&
    var a := IndexOf(s, '@');
    a > 0 && '@' !in s[a + 1..] &&
    exists j :: a + 1 < j < |s| - 1 && s[j] == '.'
  }

  /** The pattern and its flat reading accept the same strings. */
  lemma EmailShapeIsPattern(s: string)
    ensures IsValidEmail(s) <==> EmailShape(s)
  {
    if IsValidEmail(s) {
      PatternHasShape(s);
    }
    if EmailShape(s) {
      ShapeMatchesPattern(s);
    }
  }

  lemma PatternHasShape(s: string)
    requires IsValidEmail(s)
    ensures EmailShape(s)
  {
    var i, j :| 0 <= i < j < |s| && s[i] == '@' && s[j] == '.' &&
      EmailRun(s[..i]) && EmailRun(s[i + 1..j]) && EmailRun(s[j + 1..]);
    forall k | 0 <= k < |s| ensures !IsSpace(s[k]) && (k != i ==> s[k] != '@')
    {
      if k < i { assert s[k] == s[..i][k]; }
      else if i < k < j { assert s[k] == s[i + 1..j][k - i - 1]; }
      else if j < k { assert s[k] == s[j + 1..][k - j - 1]; }
    }
    assert s[i] == '@';
    var a := IndexOf(s, '@');
    assert a == i;
    assert '@' !in s[a + 1..] by {
      forall k | a + 1 <= k < |s| ensures s[k] != '@' { }
    }
    assert a + 1 < j < |s| - 1;
  }

  lemma ShapeMatchesPattern(s: string)
    requires EmailShape(s)
    ensures IsValidEmail(s)
  {
    var a := IndexOf(s, '@');
    var j :| a + 1 < j < |s| - 1 && s[j] == '.';
    forall k | 0 <= k < |s| && k != a ensures s[k] != '@'
    {
      if k < a { assert s[k] in s[..a]; }
      else { assert s[k] == s[a + 1..][k - a - 1]; }
    }
    assert EmailRun(s[..a]);
    assert EmailRun(s[a + 1..j]);
    assert EmailRun(s[j + 1..]);
  }

  /** Three runs joined by `@` and `.` always form a valid address. */
  lemma EmailFromParts(local: string, domain: string, tld: string)
    requires EmailRun(local) && EmailRun(domain) && EmailRun(tld)
    ensures IsValidEmail(local + "@" + domain + "." + tld)
  {
    var s := local + "@" + domain + "." + tld;
    var i := |local|;
    var j := |local| + 1 + |domain|;
    assert s[..i] == local;
    assert s[i + 1..j] == domain;
    assert s[j + 1..] == tld;
    assert s[i] == '@' && s[j] == '.';
  }

  // ---------------------------------------------------------------------
  // Phone number: ^01([0|1|6|7|8|9])-?([0-9]{3,4})-?([0-9]{4})$

  /**
   * The bracket class `[0|1|6|7|8|9]`. Inside brackets `|` is an ordinary
   * character, so the class holds the six digits and the bar itself.
   */
  predicate PhoneClassChar(c: char)
  {
    c == '0' || c == '|' || c == '1' || c == '6' || c == '7' || c == '8' || c == '9'
  }

  /** `[0-9]{4}$` */
  predicate LastBlock(t: string) { |t| == 4 && AllDigits(t) }

  /** `-?[0-9]{4}$` */
  predicate AfterMiddle(t: string)
  {
    LastBlock(t) || (|t| > 0 && t[0] == '-' && LastBlock(t[1..]))
  }

  /** `[0-9]{3,4}-?[0-9]{4}$`: the middle block takes three or four digits. */
  predicate MiddleBlock(t: string)
  {
    (|t| >= 3 && AllDigits(t[..3]) && AfterMiddle(t[3..])) ||
    (|t| >= 4 && AllDigits(t[..4]) && AfterMiddle(t[4..]))
  }

  /** `-?[0-9]{3,4}-?[0-9]{4}$` */
  predicate PhoneTail(t: string)
  {
    MiddleBlock(t) || (|t| > 0 && t[0] == '-' && MiddleBlock(t[1..]))
  }

  /** The backend phone pattern matches s. */
  predicate IsValidPhoneNumber(s: string): (r: bool)
    ensures r ==> 10 <= |s| <= 13
  {
    |s| >= 3 && s[0] == '0' && s[1] == '1' && PhoneClassChar(s[2]) && PhoneTail(s[3..])
  }

  function Hyphen(present: bool): string { if present then "-" else "" }

  /** `-?[0-9]{4}$` accepts the last block with or without its hyphen. */
  lemma AfterMiddleFromParts(h2: bool, last: string)
    requires LastBlock(last)
    ensures AfterMiddle(Hyphen(h2) + last)
  {
    if h2 { assert (Hyphen(h2) + last)[1..] == last; }
  }

  /** `[0-9]{3,4}-?[0-9]{4}$` accepts a middle block of three or four digits. */
  lemma MiddleFromParts(middle: string, h2: bool, last: string)
    requires (|middle| == 3 || |middle| == 4) && AllDigits(middle)
    requires LastBlock(last)
    ensures MiddleBlock(middle + Hyphen(h2) + last)
  {
    var m := middle + Hyphen(h2) + last;
    AfterMiddleFromParts(h2, last);
    assert m[..|middle|] == middle;
    assert m[|middle|..] == Hyphen(h2) + last;
  }

  /** `-?[0-9]{3,4}-?[0-9]{4}$` accepts every combination of the hyphens. */
  lemma TailFromParts(h1: bool, middle: string, h2: bool, last: string)
    requires (|middle| == 3 || |middle| == 4) && AllDigits(middle)
    requires LastBlock(last)
    ensures PhoneTail(Hyphen(h1) + middle + Hyphen(h2) + last)
  {
    MiddleFromParts(middle, h2, last);
    if h1 {
      assert (Hyphen(h1) + middle + Hyphen(h2) + last)[1..] == middle + Hyphen(h2) + last;
    }
  }

  /** `^01[0|1|6|7|8|9]` accepts its prefix followed by any tail the rest accepts. */
  lemma PrefixTail(c: char, t: string)
    requires PhoneClassChar(c) && PhoneTail(t)
    ensures IsValidPhoneNumber("01" + [c] + t)
  {
    var s := "01" + [c] + t;
    assert s[3..] == t;
  }

  lemma RegroupTail(p: string, a: string, b: string, c: string, d: string)
    ensures p + a + b + c + d == p + (a + b + c + d)
  {
  }

  /** Every combination of the pattern's optional parts is accepted. */
  lemma PhoneFromParts(c: char, h1: bool, middle: string, h2: bool, last: string)
    requires PhoneClassChar(c)
    requires (|middle| == 3 || |middle| == 4) && AllDigits(middle)
    requires LastBlock(last)
    ensures IsValidPhoneNumber("01" + [c] + Hyphen(h1) + middle + Hyphen(h2) + last)
  {
    TailFromParts(h1, middle, h2, last);
    PrefixTail(c, Hyphen(h1) + middle + Hyphen(h2) + last);
    RegroupTail("01" + [c], Hyphen(h1), middle, Hyphen(h2), last);
  }

  /** What `-?[0-9]{4}$` accepts is the last block after an optional hyphen. */
  lemma AfterMiddleParts(t: string) returns (h2: bool, last: string)
    requires AfterMiddle(t)
    ensures LastBlock(last)
    ensures t == Hyphen(h2) + last
  {
    h2 := !LastBlock(t);
    last := if h2 then t[1..] else t;
    if h2 { assert t == [t[0]] + t[1..]; }
  }

  /** What `[0-9]{3,4}-?[0-9]{4}$` accepts is a middle block, an optional hyphen and the last block. */
  lemma MiddleParts(m: string) returns (middle: string, h2: bool, last: string)
    requires MiddleBlock(m)
    ensures (|middle| == 3 || |middle| == 4) && AllDigits(middle)
    ensures LastBlock(last)
    ensures m == middle + Hyphen(h2) + last
  {
    var n := if |m| >= 3 && AllDigits(m[..3]) && AfterMiddle(m[3..]) then 3 else 4;
    middle := m[..n];
    h2, last := AfterMiddleParts(m[n..]);
    assert m == m[..n] + m[n..];
  }

  /** What `-?[0-9]{3,4}-?[0-9]{4}$` accepts is the two blocks with optional hyphens. */
  lemma TailParts(t: string) returns (h1: bool, middle: string, h2: bool, last: string)
    requires PhoneTail(t)
    ensures (|middle| == 3 || |middle| == 4) && AllDigits(middle)
    ensures LastBlock(last)
    ensures t == Hyphen(h1) + middle + Hyphen(h2) + last
  {
    h1 := !MiddleBlock(t);
    var m := if h1 then t[1..] else t;
    middle, h2, last := MiddleParts(m);
    if h1 { assert t == [t[0]] + t[1..]; }
  }

  /** Every accepted string is 01, a class character, then the blocks with optional hyphens. */
  lemma PhoneParts(s: string) returns (c: char, h1: bool, middle: string, h2: bool, last: string)
    requires IsValidPhoneNumber(s)
    ensures PhoneClassChar(c)
    ensures (|middle| == 3 || |middle| == 4) && AllDigits(middle)
    ensures LastBlock(last)
    ensures s == "01" + [c] + Hyphen(h1) + middle + Hyphen(h2) + last
  {
    c := s[2];
    h1, middle, h2, last := TailParts(s[3..]);
    assert s == s[..3] + s[3..];
    assert s[..3] == "01" + [c];
    RegroupTail("01" + [c], Hyphen(h1), middle, Hyphen(h2), last);
  }

  /** An accepted number has between 10 and 13 characters. */
  lemma PhoneLength(s: string)
    requires IsValidPhoneNumber(s)
    ensures 10 <= |s| <= 13
  {
    var c, h1, middle, h2, last := PhoneParts(s);
  }

  /** The bar in the bracket class lets `01|` numbers through. */
  lemma PhoneAcceptsBar()
    ensures IsValidPhoneNumber("01|-1234-5678")
  {
    PhoneFromParts('|', true, "1234", true, "5678");
  }

  // ---------------------------------------------------------------------
  // Password: ^(?=.*[a-z])(?=.*[A-Z])(?=.*\d)[a-zA-Z\d]{8,}$

  /** The line terminators, which `.` does not match. */
  predicate IsLineTerminator(c: char)
  {
    c == '\n' || c == '\r' || c == '\U{2028}' || c == '\U{2029}'
  }

  datatype CharClass = LowerClass | UpperClass | DigitClass

  predicate InClass(c: char, cls: CharClass)
  {
    match cls
    case LowerClass => IsLower(c)
    case UpperClass => IsUpper(c)
    case DigitClass => IsDigit(c)
  }

  /** The lookahead `(?=.*[cls])` at position 0: a character of cls with no line break before it. */
  predicate LookaheadFinds(s: string, cls: CharClass)
  {
    exists i :: 0 <= i < |s| && InClass(s[i], cls) &&
      forall k :: 0 <= k < i ==> !IsLineTerminator(s[k])
  }

  predicate IsAlnum(c: char) { IsLower(c) || IsUpper(c) || IsDigit(c) }

  /** The backend password pattern matches s. */
  predicate IsStrongPassword(s: string): (r: bool)
    ensures r ==> exists i :: 0 <= i < |s| && IsDigit(s[i])
  {
    LookaheadFinds(s, LowerClass) && LookaheadFinds(s, UpperClass) && LookaheadFinds(s, DigitClass) &&
    |s| >= 8 && forall k :: 0 <= k < |s| ==> IsAlnum(s[k])
  }

  /** The flat requirement: eight or more letters and digits, with a lower-case letter, an upper-case letter and a digit. */
  predicate PasswordRule(s: string)
  {
    |s| >= 8 && (forall k :: 0 <= k < |s| ==> IsAlnum(s[k])) &&
    (exists i :: 0 <= i < |s| && IsLower(s[i])) &&
    (exists i :: 0 <= i < |s| && IsUpper(s[i])) &&
    (exists i :: 0 <= i < |s| && IsDigit(s[i]))
  }

  /** The pattern with its lookaheads accepts exactly the strings of the flat rule. */
  lemma StrongPasswordIsRule(s: string)
    ensures IsStrongPassword(s) <==> PasswordRule(s)
  {
    if PasswordRule(s) {
      forall cls: CharClass | exists i :: 0 <= i < |s| && InClass(s[i], cls)
        ensures LookaheadFinds(s, cls)
      {
        var i :| 0 <= i < |s| && InClass(s[i], cls);
        assert forall k :: 0 <= k < i ==> IsAlnum(s[k]);
      }
      var l :| 0 <= l < |s| && IsLower(s[l]);
      assert InClass(s[l], LowerClass);
      var u :| 0 <= u < |s| && IsUpper(s[u]);
      assert InClass(s[u], UpperClass);
      var d :| 0 <= d < |s| && IsDigit(s[d]);
      assert InClass(s[d], DigitClass);
    }
  }

  // ---------------------------------------------------------------------
  // validatePropertyData

  /** The checks of the property validator, in the order it runs them. */
  datatype PropertyError =
    | AddressRequired | CityRequired | DepositRequired | RentRequired
    | NegativeDeposit | NegativeRent | NegativeFee

  /** The message the validator reports for each failed check. */
  function ErrorMessage(e: PropertyError): string
  {
    match e
    case AddressRequired => "Address is required"
    case CityRequired => "City is required"
    case DepositRequired => "Deposit amount is required"
    case RentRequired => "Monthly rent amount is required"
    case NegativeDeposit => "Deposit cannot be negative"
    case NegativeRent => "Monthly rent cannot be negative"
    case NegativeFee => "Maintenance fee cannot be negative"
  }

  /** The position of each check in the validator. */
  function Rank(e: PropertyError): nat
  {
    match e
    case AddressRequired => 0
    case CityRequired => 1
    case DepositRequired => 2
    case RentRequired => 3
    case NegativeDeposit => 4
    case NegativeRent => 5
    case NegativeFee => 6
  }

  /** `v === undefined || v === null` */
  predicate Missing(o: Option<Value>) { o.None? || o.value == Null }

  /** `v < 0`, where `undefined < 0` is false. */
  predicate Negative(o: Option<Value>) { o.Some? && LessThanZero(o.value) }

  /** Whether the body fails check e. */
  predicate Violates(data: map<string, Value>, e: PropertyError)
  {
    match e
    case AddressRequired => !TruthyOpt(Get(data, "address"))
    case CityRequired => !TruthyOpt(Get(data, "city"))
    case DepositRequired => Missing(Get(data, "deposit"))
    case RentRequired => Missing(Get(data, "monthly_rent"))
    case NegativeDeposit => Negative(Get(data, "deposit"))
    case NegativeRent => Negative(Get(data, "monthly_rent"))
    case NegativeFee => TruthyOpt(Get(data, "maintenance_fee")) && Negative(Get(data, "maintenance_fee"))
  }

  /**
   * `validatePropertyData(data)`: the failed checks, each once, in the order
   * the validator runs them; an empty list means the body is valid.
   */
  method ValidatePropertyData(data: map<string, Value>) returns (errors: seq<PropertyError>)
    ensures forall e :: e in errors <==> Violates(data, e)
    ensures forall i, j :: 0 <= i < j < |errors| ==> Rank(errors[i]) < Rank(errors[j])
  {
    var deposit := Get(data, "deposit");
    var rent := Get(data, "monthly_rent");
    var fee := Get(data, "maintenance_fee");
    errors := [];
    var before1 := errors;
    if !TruthyOpt(Get(data, "address")) {
      errors := errors + [AddressRequired];
    }
    FailedStep(data, 1, before1, errors);
    var before2 := errors;
    if !TruthyOpt(Get(data, "city")) {
      errors := errors + [CityRequired];
    }
    FailedStep(data, 2, before2, errors);
    var before3 := errors;
    if Missing(deposit) {
      errors := errors + [DepositRequired];
    }
    FailedStep(data, 3, before3, errors);
    var before4 := errors;
    if Missing(rent) {
      errors := errors + [RentRequired];
    }
    FailedStep(data, 4, before4, errors);
    var before5 := errors;
    if Negative(deposit) {
      errors := errors + [NegativeDeposit];
    }
    FailedStep(data, 5, before5, errors);
    var before6 := errors;
    if Negative(rent) {
      errors := errors + [NegativeRent];
    }
    FailedStep(data, 6, before6, errors);
    var before7 := errors;
    if TruthyOpt(fee) && Negative(fee) {
      errors := errors + [NegativeFee];
    }
    FailedStep(data, 7, before7, errors);
    ReportMeaning(data);
  }

  /** Running every check reports exactly the violated ones, in increasing rank. */
  lemma ReportMeaning(data: map<string, Value>)
    ensures forall e :: e in Failed(data, CHECKS) <==> Violates(data, e)
    ensures forall i, j :: 0 <= i < j < |Failed(data, CHECKS)| ==> Rank(Failed(data, CHECKS)[i]) < Rank(Failed(data, CHECKS)[j])
  {
    FailedMembers(data, CHECKS);
    FailedOrdered(data, CHECKS);
    EveryCheckRuns();
  }

  /** The number of checks the validator runs. */
  const CHECKS := 7

  /** The i-th check the validator runs. */
  function CheckAt(i: nat): PropertyError
    requires i < CHECKS
  {
    match i
    case 0 => AddressRequired
    case 1 => CityRequired
    case 2 => DepositRequired
    case 3 => RentRequired
    case 4 => NegativeDeposit
    case 5 => NegativeRent
    case _ => NegativeFee
  }

  /** The validator runs every check, each at the position its rank gives. */
  lemma EveryCheckRuns()
    ensures forall e :: Rank(e) < CHECKS && CheckAt(Rank(e)) == e
    ensures forall i :: 0 <= i < CHECKS ==> Rank(CheckAt(i)) == i
  {
  }

  /** The first k checks report only checks of rank below k. */
  lemma {:induction false} FailedBelow(data: map<string, Value>, k: nat)
    requires k <= CHECKS
    ensures forall i :: 0 <= i < |Failed(data, k)| ==> Rank(Failed(data, k)[i]) < k
  {
    if k > 0 {
      FailedBelow(data, k - 1);
      RankOfCheckAt(k - 1);
      var before := Failed(data, k - 1);
      forall i | 0 <= i < |Failed(data, k)| ensures Rank(Failed(data, k)[i]) < k
      {
        if i < |before| {
          assert Failed(data, k)[i] == before[i];
        }
      }
    }
  }

  lemma RankOfCheckAt(i: nat)
    requires i < CHECKS
    ensures Rank(CheckAt(i)) == i
  {
  }

  /** The failed checks among the first k the validator runs, in their order. */
  function Failed(data: map<string, Value>, k: nat): (r: seq<PropertyError>)
    requires k <= CHECKS
    ensures |r| <= k
  {
    if k == 0 then []
    else Failed(data, k - 1) + (if Violates(data, CheckAt(k - 1)) then [CheckAt(k - 1)] else [])
  }

  /** Running the first k checks runs the first k - 1 and then the k-th. */
  lemma FailedStep(data: map<string, Value>, k: nat, before: seq<PropertyError>, after: seq<PropertyError>)
    requires 1 <= k <= CHECKS
    requires before == Failed(data, k - 1)
    requires Violates(data, CheckAt(k - 1)) ==> after == before + [CheckAt(k - 1)]
    requires !Violates(data, CheckAt(k - 1)) ==> after == before
    ensures after == Failed(data, k)
  {
    if !Violates(data, CheckAt(k - 1)) {
      assert before + [] == before;
    }
  }

  /** The first k checks report exactly the failed checks of rank below k. */
  lemma {:induction false} FailedMembers(data: map<string, Value>, k: nat)
    requires k <= CHECKS
    ensures forall e :: e in Failed(data, k) <==> Rank(e) < k && Violates(data, e)
  {
    if k > 0 {
      FailedMembers(data, k - 1);
      EveryCheckRuns();
    }
  }

  /** The first k checks report the failed checks in increasing rank. */
  lemma {:induction false} FailedOrdered(data: map<string, Value>, k: nat)
    requires k <= CHECKS
    ensures forall i, j :: 0 <= i < j < |Failed(data, k)| ==> Rank(Failed(data, k)[i]) < Rank(Failed(data, k)[j])
  {
    if k > 0 && Violates(data, CheckAt(k - 1)) {
      FailedOrdered(data, k - 1);
      FailedBelow(data, k - 1);
      RankOfCheckAt(k - 1);
      var before := Failed(data, k - 1);
      var after := before + [CheckAt(k - 1)];
      assert Failed(data, k) == after;
      forall i, j | 0 <= i < j < |after| ensures Rank(after[i]) < Rank(after[j])
      {
        assert after[i] == before[i];
        if j < |before| {
          assert after[j] == before[j];
        }
      }
    } else if k > 0 {
      FailedOrdered(data, k - 1);
      assert Failed(data, k) == Failed(data, k - 1);
    }
  }

  /** A body passes exactly when address and city are given, the two amounts are present and none of the three amounts is negative. */
  predicate PropertyDataValid(data: map<string, Value>)
  {
    TruthyOpt(Get(data, "address")) && TruthyOpt(Get(data, "city")) &&
    !Missing(Get(data, "deposit")) && !Missing(Get(data, "monthly_rent")) &&
    !Negative(Get(data, "deposit")) && !Negative(Get(data, "monthly_rent")) &&
    !(TruthyOpt(Get(data, "maintenance_fee")) && Negative(Get(data, "maintenance_fee")))
  }

  /** No check fails exactly when the body is valid. */
  lemma NoViolationIffValid(data: map<string, Value>)
    ensures (forall e :: !Violates(data, e)) <==> PropertyDataValid(data)
  {
    if !PropertyDataValid(data) {
      if !TruthyOpt(Get(data, "address")) { assert Violates(data, AddressRequired); }
      else if !TruthyOpt(Get(data, "city")) { assert Violates(data, CityRequired); }
      else if Missing(Get(data, "deposit")) { assert Violates(data, DepositRequired); }
      else if Missing(Get(data, "monthly_rent")) { assert Violates(data, RentRequired); }
      else if Negative(Get(data, "deposit")) { assert Violates(data, NegativeDeposit); }
      else if Negative(Get(data, "monthly_rent")) { assert Violates(data, NegativeRent); }
      else { assert Violates(data, NegativeFee); }
    }
  }

  /** The validator's list is empty exactly when the body is valid. */
  lemma ErrorsEmptyIffValid(data: map<string, Value>, errors: seq<PropertyError>)
    requires forall e :: e in errors <==> Violates(data, e)
    ensures errors == [] <==> PropertyDataValid(data)
  {
    NoViolationIffValid(data);
    if errors != [] {
      assert errors[0] in errors;
    }
  }
}
