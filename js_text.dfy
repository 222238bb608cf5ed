/**
 * The pieces of JavaScript's string semantics the backend relies on:
 * the whitespace class `\s`, `parseInt`, the `Number(...)` conversion used by
 * `isNaN` and by `<` comparisons, `split` on one character, `startsWith`,
 * `path.basename`, and the integer input PostgreSQL accepts for an integer
 * parameter given as text.
 */
module JsText {
  import opened Common

  /** The characters of the regular-expression class `\s`, which are also the ones `trim` removes. */
  predicate IsSpace(c: char)
  {
    c == '\t' || c == '\n' || c == '\U{000B}' || c == '\U{000C}' || c == '\r' || c == ' ' ||
    c == '\U{00A0}' || c == '\U{1680}' || ('\U{2000}' <= c <= '\U{200A}') ||
    c == '\U{2028}' || c == '\U{2029}' || c == '\U{202F}' || c == '\U{205F}' ||
    c == '\U{3000}' || c == '\U{FEFF}'
  }

  predicate IsDigit(c: char) { '0' <= c <= '9' }
  predicate IsLower(c: char) { 'a' <= c <= 'z' }
  predicate IsUpper(c: char) { 'A' <= c <= 'Z' }

  predicate AllDigits(s: string)
  {
    forall i :: 0 <= i < |s| ==> IsDigit(s[i])
  }

  predicate StartsWith(s: string, prefix: string)
  {
    |prefix| <= |s| && s[..|prefix|] == prefix
  }

  /** The string without its leading `\s` characters. */
  function TrimStart(s: string): (r: string)
    ensures |r| <= |s| && r == s[|s| - |r|..]
    ensures r == [] || !IsSpace(r[0])
    ensures forall i :: 0 <= i < |s| - |r| ==> IsSpace(s[i])
  {
    if |s| > 0 && IsSpace(s[0]) then TrimStart(s[1..]) else s
  }

  /** The string without its trailing `\s` characters. */
  function TrimEnd(s: string): (r: string)
    ensures |r| <= |s| && r == s[..|r|]
    ensures r == [] || !IsSpace(r[|r| - 1])
    ensures forall i :: |r| <= i < |s| ==> IsSpace(s[i])
  {
    if |s| > 0 && IsSpace(s[|s| - 1]) then TrimEnd(s[..|s| - 1]) else s
  }

  /** `s.trim()` */
  function Trim(s: string): string
  {
    TrimEnd(TrimStart(s))
  }

  /** `s.replace(/\s/g, '')` */
  function RemoveSpaces(s: string): (r: string)
    ensures |r| <= |s|
    ensures forall i :: 0 <= i < |r| ==> !IsSpace(r[i])
    ensures forall c :: c in s && !IsSpace(c) ==> c in r
  {
    if s == [] then []
    else if IsSpace(s[0]) then RemoveSpaces(s[1..])
    else [s[0]] + RemoveSpaces(s[1..])
  }

  // ---------------------------------------------------------------------
  // Digits in radix 10 and 16

  /** The value of a digit character in the given radix, or -1 when it is not one. */
  function DigitValue(c: char, radix: nat): (d: int)
    requires radix == 10 || radix == 16
    ensures -1 <= d < radix
    ensures radix == 10 ==> (d >= 0 <==> IsDigit(c))
  {
    if '0' <= c <= '9' then c as int - '0' as int
    else if radix == 16 && 'a' <= c <= 'f' then c as int - 'a' as int + 10
    else if radix == 16 && 'A' <= c <= 'F' then c as int - 'A' as int + 10
    else -1
  }

  predicate AllRadixDigits(s: string, radix: nat)
    requires radix == 10 || radix == 16
  {
    forall i :: 0 <= i < |s| ==> DigitValue(s[i], radix) >= 0
  }

  /** The longest prefix of s made of digits of the radix. */
  function DigitPrefix(s: string, radix: nat): (r: string)
    requires radix == 10 || radix == 16
    ensures |r| <= |s| && r == s[..|r|]
    ensures AllRadixDigits(r, radix)
    ensures |r| < |s| ==> DigitValue(s[|r|], radix) < 0
  {
    if |s| > 0 && DigitValue(s[0], radix) >= 0 then [s[0]] + DigitPrefix(s[1..], radix) else []
  }

  /** The number a string of digits denotes, most significant digit first. */
  function DigitsValue(s: string, radix: nat): (v: nat)
    requires radix == 10 || radix == 16
    requires AllRadixDigits(s, radix)
  {
    if s == [] then 0 else DigitsValue(s[..|s| - 1], radix) * radix + DigitValue(s[|s| - 1], radix)
  }

  /** The decimal digits of n, most significant first, without leading zeros ("0" for zero). */
  function DecimalDigits(n: nat): (s: string)
    ensures |s| > 0 && AllDigits(s)
    decreases n
  {
    if n < 10 then [('0' as int + n) as char] else DecimalDigits(n / 10) + [('0' as int + n % 10) as char]
  }

  /** `String(n)` for an integer n. */
  function DecimalString(n: int): (s: string)
  {
    if n < 0 then "-" + DecimalDigits(-n) else DecimalDigits(n)
  }

  lemma {:induction false} DecimalDigitsValue(n: nat)
    ensures DigitsValue(DecimalDigits(n), 10) == n
    decreases n
  {
    var s := DecimalDigits(n);
    if n >= 10 {
      DecimalDigitsValue(n / 10);
      assert s[..|s| - 1] == DecimalDigits(n / 10);
    }
  }

  lemma DigitPrefixOfDigits(s: string)
    requires AllDigits(s)
    ensures DigitPrefix(s, 10) == s
  {
  }

  // ---------------------------------------------------------------------
  // parseInt

  /**
   * `parseInt(s)` with no radix: leading whitespace is skipped, one sign is
   * allowed, a `0x`/`0X` prefix selects radix 16, and the longest run of
   * digits that follows is read; no digit at all gives NaN.
   */
  function ParseInt(s: string): (r: Value)
    ensures r.Int? || r.NaN?
  {
    var t := TrimStart(s);
    var neg := |t| > 0 && t[0] == '-';
    var u := if |t| > 0 && (t[0] == '-' || t[0] == '+') then t[1..] else t;
    var hex := |u| >= 2 && u[0] == '0' && (u[1] == 'x' || u[1] == 'X');
    var radix := if hex then 16 else 10;
    var digits := DigitPrefix(if hex then u[2..] else u, radix);
    if digits == [] then NaN
    else if neg then Int(-(DigitsValue(digits, radix) as int))
    else Int(DigitsValue(digits, radix))
  }

  /** `parseInt(String(n))` gives n back for every integer: the round trip used on numeric offsets. */
  lemma ParseIntOfDecimalString(n: int)
    ensures ParseInt(DecimalString(n)) == Int(n)
  {
    var m: nat := if n < 0 then -n else n;
    var d := DecimalDigits(m);
    DecimalDigitsValue(m);
    ParseIntOfDigits(d, n < 0);
    assert DecimalString(n) == (if n < 0 then "-" + d else d);
  }

  /** parseInt reads an optional minus sign followed by decimal digits exactly. */
  lemma ParseIntOfDigits(d: string, neg: bool)
    requires NonEmptyDigits(d)
    ensures ParseInt(if neg then "-" + d else d) ==
            Int(if neg then -(DigitsValue(d, 10) as int) else DigitsValue(d, 10))
  {
    var s := if neg then "-" + d else d;
    assert !IsSpace(s[0]) by { assert s[0] == '-' || IsDigit(s[0]); }
    assert TrimStart(s) == s;
    var u := if neg then s[1..] else s;
    assert u == d;
    assert !(|u| >= 2 && u[0] == '0' && (u[1] == 'x' || u[1] == 'X')) by {
      if |u| >= 2 { assert IsDigit(u[1]); }
    }
    DigitPrefixOfDigits(d);
  }

  /** The JavaScript result of `parseInt` applied to a value (its string form). */
  function ParseIntValue(v: Value): (r: Value)
    ensures r.Int? || r.NaN?
    ensures v.Int? ==> r == v
  {
    match v
    case Int(i) => ParseIntOfDecimalString(i); ParseInt(DecimalString(i))
    case Str(s) => ParseInt(s)
    case _ => NaN
  }

  // ---------------------------------------------------------------------
  // Number(s): which strings are numeric, which are negative

  predicate NonEmptyDigits(s: string) { |s| > 0 && AllDigits(s) }

  /** `DecimalDigits [. DecimalDigits?] | . DecimalDigits` */
  predicate Mantissa(m: string)
  {
    if '.' in m then
      var k := IndexOf(m, '.');
      AllDigits(m[..k]) && AllDigits(m[k + 1..]) && |m| >= 2
    else
      NonEmptyDigits(m)
  }

  /** The index of the first occurrence of c in s, which must occur. */
  function IndexOf(s: string, c: char): (k: nat)
    requires c in s
    ensures k < |s| && s[k] == c && c !in s[..k]
  {
    if s[0] == c then 0 else 1 + IndexOf(s[1..], c)
  }

  predicate IsExponentMark(c: char) { c == 'e' || c == 'E' }

  /** The position of the first exponent mark, or |s| when there is none. */
  function ExponentAt(s: string): (k: nat)
    ensures k <= |s|
    ensures k < |s| ==> IsExponentMark(s[k])
    ensures forall i :: 0 <= i < k ==> !IsExponentMark(s[i])
  {
    if s == [] then 0 else if IsExponentMark(s[0]) then 0 else 1 + ExponentAt(s[1..])
  }

  /** `(e|E) [+-]? DecimalDigits`, given what follows the mark. */
  predicate ExponentPart(x: string)
  {
    NonEmptyDigits(x) || (|x| > 0 && (x[0] == '+' || x[0] == '-') && NonEmptyDigits(x[1..]))
  }

  /** StrUnsignedDecimalLiteral: `Infinity`, or a mantissa with an optional exponent. */
  predicate UnsignedDecimal(t: string)
  {
    t == "Infinity" ||
    var k := ExponentAt(t);
    Mantissa(t[..k]) && (k == |t| || ExponentPart(t[k + 1..]))
  }

  predicate IsBinaryDigit(c: char) { c == '0' || c == '1' }
  predicate IsOctalDigit(c: char) { '0' <= c <= '7' }

  /** `0b…`, `0o…` or `0x…` integer literal (no sign allowed). */
  predicate NonDecimalInteger(t: string)
  {
    |t| > 2 && t[0] == '0' &&
    (((t[1] == 'b' || t[1] == 'B') && forall i :: 2 <= i < |t| ==> IsBinaryDigit(t[i])) ||
     ((t[1] == 'o' || t[1] == 'O') && forall i :: 2 <= i < |t| ==> IsOctalDigit(t[i])) ||
     ((t[1] == 'x' || t[1] == 'X') && forall i :: 2 <= i < |t| ==> DigitValue(t[i], 16) >= 0))
  }

  /** `!isNaN(Number(s))`: the trimmed string is empty or a numeric literal. */
  predicate IsNumeric(s: string)
  {
    var t := Trim(s);
    t == [] ||
    NonDecimalInteger(t) ||
    UnsignedDecimal(t) ||
    (|t| > 0 && (t[0] == '+' || t[0] == '-') && UnsignedDecimal(t[1..]))
  }

  predicate HasNonZeroDigit(s: string)
  {
    exists i :: 0 <= i < |s| && '1' <= s[i] <= '9'
  }

  /** `Number(s) < 0`: a minus sign before Infinity or before a mantissa with a non-zero digit. */
  predicate IsNegativeNumeral(s: string)
  {
    var t := Trim(s);
    |t| > 1 && t[0] == '-' && UnsignedDecimal(t[1..]) &&
    (t[1..] == "Infinity" || HasNonZeroDigit(t[1..][..ExponentAt(t[1..])]))
  }

  /** JavaScript `v < 0` for a request value. */
  predicate LessThanZero(v: Value)
  {
    match v
    case Int(i) => i < 0
    case Str(s) => IsNegativeNumeral(s)
    case _ => false
  }

  /**
   * `Number(s)` for a string in plain integer notation: surrounding `\s` is
   * ignored, an empty string is 0, and an optional sign may precede decimal
   * digits. None stands for NaN and for every other notation.
   */
  function NumberOf(s: string): (r: Option<int>)
    ensures Trim(s) == "" ==> r == Some(0)
    ensures NonEmptyDigits(Trim(s)) ==> r == Some(DigitsValue(Trim(s), 10))
  {
    var t := Trim(s);
    if t == "" then Some(0)
    else if NonEmptyDigits(t) then Some(DigitsValue(t, 10))
    else if |t| > 1 && (t[0] == '-' || t[0] == '+') && NonEmptyDigits(t[1..]) then
      Some(if t[0] == '-' then -(DigitsValue(t[1..], 10) as int) else DigitsValue(t[1..], 10))
    else None
  }

  /** A number written in decimal reads back as itself. */
  lemma NumberOfDecimalString(n: int)
    ensures NumberOf(DecimalString(n)) == Some(n)
  {
    var m: nat := if n < 0 then -n else n;
    DecimalDigitsValue(m);
    if n < 0 {
      NumberOfNegated(DecimalDigits(m));
    } else {
      NumberOfDigits(DecimalDigits(m));
    }
  }

  /** `Number` reads plain decimal digits as their value. */
  lemma NumberOfDigits(d: string)
    requires NonEmptyDigits(d)
    ensures NumberOf(d) == Some(DigitsValue(d, 10))
  {
    NoSpaceTrimmed(d);
  }

  /** `Number` reads a minus sign before decimal digits as the negated value. */
  lemma NumberOfNegated(d: string)
    requires NonEmptyDigits(d)
    ensures NumberOf("-" + d) == Some(-(DigitsValue(d, 10) as int))
  {
    var s := "-" + d;
    NoSpaceTrimmed(s);
    assert s[1..] == d;
    assert !NonEmptyDigits(s) by { assert !IsDigit(s[0]); }
  }

  /** A string that starts with neither `\s` nor a minus sign is not below zero. */
  lemma NoMinusNotNegative(s: string)
    requires |s| > 0 && !IsSpace(s[0]) && !IsSpace(s[|s| - 1]) && s[0] != '-'
    ensures !LessThanZero(Str(s))
  {
    NoSpaceTrimmed(s);
  }

  /** A string that neither starts nor ends with `\s` is its own trim. */
  lemma NoSpaceTrimmed(s: string)
    requires |s| > 0 && !IsSpace(s[0]) && !IsSpace(s[|s| - 1])
    ensures Trim(s) == s
  {
    assert TrimStart(s) == s;
  }

  // ---------------------------------------------------------------------
  // PostgreSQL integer input

  /** PostgreSQL's space characters around an integer literal. */
  predicate IsPgSpace(c: char)
  {
    c == ' ' || c == '\t' || c == '\n' || c == '\r' || c == '\U{000B}' || c == '\U{000C}'
  }

  function TrimPg(s: string): (r: string)
    ensures |r| <= |s|
  {
    if |s| > 0 && IsPgSpace(s[0]) then TrimPg(s[1..])
    else if |s| > 0 && IsPgSpace(s[|s| - 1]) then TrimPg(s[..|s| - 1])
    else s
  }

  /** The integer a value denotes when bound to an integer column, if any. */
  function SqlInt(v: Value): (r: Option<int>)
    ensures v.Int? ==> r == Some(v.i)
    ensures v.Null? || v.NaN? ==> r == None
  {
    match v
    case Int(i) => Some(i)
    case Str(s) =>
      var t := TrimPg(s);
      if NonEmptyDigits(t) then Some(DigitsValue(t, 10))
      else if |t| > 1 && (t[0] == '-' || t[0] == '+') && NonEmptyDigits(t[1..]) then
        Some(if t[0] == '-' then -(DigitsValue(t[1..], 10) as int) else DigitsValue(t[1..], 10))
      else None
    case _ => None
  }

  /** A decimal numeral has no space to trim and reads back as its integer: the text form of a number fits an integer column. */
  lemma SqlIntOfDecimalString(n: int)
    ensures SqlInt(Str(DecimalString(n))) == Some(n)
  {
    var m: nat := if n < 0 then -n else n;
    DecimalDigitsValue(m);
    if n < 0 {
      SqlIntOfNegatedDigits(DecimalDigits(m));
    } else {
      SqlIntOfDigits(DecimalDigits(m));
    }
  }

  lemma SqlIntOfDigits(d: string)
    requires NonEmptyDigits(d)
    ensures SqlInt(Str(d)) == Some(DigitsValue(d, 10))
  {
    assert !IsPgSpace(d[0]) && !IsPgSpace(d[|d| - 1]);
  }

  lemma SqlIntOfNegatedDigits(d: string)
    requires NonEmptyDigits(d)
    ensures SqlInt(Str("-" + d)) == Some(-(DigitsValue(d, 10) as int))
  {
    var s := "-" + d;
    assert !IsPgSpace(s[0]) && !IsPgSpace(s[|s| - 1]);
    assert TrimPg(s) == s;
    assert s[1..] == d;
    assert !NonEmptyDigits(s) by { assert !IsDigit(s[0]); }
  }

  // ---------------------------------------------------------------------
  // PostgreSQL boolean and text input

  /**
   * The text node-postgres sends for a non-null parameter: `String(v)`,
   * which for a boolean is `true` or `false`.
   */
  function ParamText(v: Value): string
  {
    match v
    case Null => ""
    case Int(i) => DecimalString(i)
    case NaN => "NaN"
    case Str(s) => s
    case Bool(b) => if b then "true" else "false"
  }

  function LowerChar(c: char): char
  {
    if IsUpper(c) then (c as int + 32) as char else c
  }

  /** ASCII letters in lower case; PostgreSQL reads boolean words without regard to case. */
  function LowerAscii(s: string): string
  {
    seq(|s|, i requires 0 <= i < |s| => LowerChar(s[i]))
  }

  /** t is a start of word, at least minLen long, in any letter case. */
  predicate Abbreviates(t: string, word: string, minLen: nat)
  {
    minLen <= |t| <= |word| && LowerAscii(t) == word[..|t|]
  }

  /**
   * PostgreSQL's boolean input on trimmed text: a start of `true`, `yes`,
   * `false` or `no`, `on`, `of`/`off`, or the digits `1` and `0`.
   */
  function BoolText(t: string): Option<bool>
  {
    if Abbreviates(t, "true", 1) || Abbreviates(t, "yes", 1) || Abbreviates(t, "on", 2) || t == "1" then Some(true)
    else if Abbreviates(t, "false", 1) || Abbreviates(t, "no", 1) || Abbreviates(t, "off", 2) || t == "0" then Some(false)
    else None
  }

  /** The truth value a non-null parameter gives a boolean column, if any. */
  function SqlBool(v: Value): Option<bool>
  {
    BoolText(TrimPg(ParamText(v)))
  }

  /**
   * A JSON boolean is stored as itself, the strings a form sends for a
   * checkbox are read as the flag they name, and of the numbers only 1 and 0
   * are booleans.
   */
  lemma SqlBoolInputs(b: bool, i: int)
    ensures SqlBool(Bool(b)) == Some(b)
    ensures SqlBool(Str("true")) == Some(true) && SqlBool(Str("false")) == Some(false)
    ensures SqlBool(Int(i)) == (if i == 1 then Some(true) else if i == 0 then Some(false) else None)
  {
    TrueText();
    FalseText();
    IntegerText(i);
  }

  lemma TrueText()
    ensures TrimPg("true") == "true" && BoolText("true") == Some(true)
  {
    assert LowerAscii("true") == "true";
  }

  lemma FalseText()
    ensures TrimPg("false") == "false" && BoolText("false") == Some(false)
  {
    assert LowerAscii("false") == "false";
    assert !Abbreviates("false", "true", 1) by { assert LowerAscii("false")[0] != "true"[0]; }
  }

  /** A decimal numeral is a boolean only when it is `1` or `0`. */
  lemma IntegerText(i: int)
    ensures SqlBool(Int(i)) == (if i == 1 then Some(true) else if i == 0 then Some(false) else None)
  {
    var s := DecimalString(i);
    var m: nat := if i < 0 then -i else i;
    var d := DecimalDigits(m);
    assert s == (if i < 0 then "-" + d else d);
    assert !IsPgSpace(s[0]) && !IsPgSpace(s[|s| - 1]);
    assert TrimPg(s) == s;
    assert !IsUpper(s[0]) && LowerAscii(s)[0] == s[0];
    assert !Abbreviates(s, "true", 1) && !Abbreviates(s, "yes", 1) && !Abbreviates(s, "on", 2);
    assert !Abbreviates(s, "false", 1) && !Abbreviates(s, "no", 1) && !Abbreviates(s, "off", 2);
    DecimalDigitsValue(m);
    if s == "1" || s == "0" {
      assert i >= 0 && d == s;
    }
    if i == 1 {
      assert d == "1";
    } else if i == 0 {
      assert d == "0";
    }
  }

  // ---------------------------------------------------------------------
  // split, basename

  /** `s.split(sep)` for a one-character separator. */
  function Split(s: string, sep: char): (r: seq<string>)
    ensures |r| >= 1
    ensures forall k :: 0 <= k < |r| ==> sep !in r[k]
  {
    if s == [] then [""]
    else if s[0] == sep then [""] + Split(s[1..], sep)
    else
      var rest := Split(s[1..], sep);
      [[s[0]] + rest[0]] + rest[1..]
  }

  /** `pieces.join(sep)` */
  function Join(pieces: seq<string>, sep: char): string
    requires |pieces| >= 1
  {
    if |pieces| == 1 then pieces[0] else pieces[0] + [sep] + Join(pieces[1..], sep)
  }

  /** Splitting and joining again gives the string back. */
  lemma {:induction false} JoinSplit(s: string, sep: char)
    ensures Join(Split(s, sep), sep) == s
  {
    if s == [] {
    } else if s[0] == sep {
      JoinSplit(s[1..], sep);
      assert Split(s, sep)[1..] == Split(s[1..], sep);
    } else {
      JoinSplit(s[1..], sep);
      var rest := Split(s[1..], sep);
      if |rest| == 1 {
        assert Split(s, sep) == [[s[0]] + rest[0]];
      } else {
        assert Split(s, sep)[1..] == rest[1..];
        assert Join(rest, sep) == rest[0] + [sep] + Join(rest[1..], sep);
      }
    }
  }

  /** The prefix of s before the first occurrence of sep (all of s when there is none). */
  function UpTo(s: string, sep: char): (r: string)
    ensures sep !in r && StartsWith(s, r)
    ensures |r| < |s| ==> s[|r|] == sep
  {
    if s == [] || s[0] == sep then [] else [s[0]] + UpTo(s[1..], sep)
  }

  /** The first piece of a split is the text up to the first separator. */
  lemma {:induction false} SplitFirst(s: string, sep: char)
    ensures Split(s, sep)[0] == UpTo(s, sep)
  {
    if s != [] && s[0] != sep {
      SplitFirst(s[1..], sep);
    }
  }

  /** What comes after the first separator is split into the remaining pieces. */
  lemma {:induction false} SplitAfterSeparator(s: string, sep: char, k: nat)
    requires k < |s| && s[k] == sep && sep !in s[..k]
    ensures Split(s, sep) == [s[..k]] + Split(s[k + 1..], sep)
  {
    if k == 0 {
    } else {
      assert s[0] != sep by { assert s[0] == s[..k][0]; }
      assert s[1..][..k - 1] == s[..k][1..];
      SplitAfterSeparator(s[1..], sep, k - 1);
      assert s[1..][k..] == s[k + 1..];
      var rest := Split(s[1..], sep);
      assert rest[0] == s[1..][..k - 1] && rest[1..] == Split(s[k + 1..], sep);
      assert [s[0]] + s[1..][..k - 1] == s[..k];
    }
  }

  /** `path.basename(p)` on POSIX paths: the last segment, ignoring trailing slashes. */
  function Basename(p: string): (r: string)
    ensures '/' !in r
  {
    var q := StripTrailingSlashes(p);
    if '/' in q then AfterLastSlash(q) else q
  }

  function StripTrailingSlashes(p: string): (r: string)
    ensures |r| <= |p| && r == p[..|r|]
    ensures r == [] || r[|r| - 1] != '/'
  {
    if |p| > 0 && p[|p| - 1] == '/' then StripTrailingSlashes(p[..|p| - 1]) else p
  }

  function AfterLastSlash(q: string): (r: string)
    ensures '/' !in r
    ensures |r| <= |q| && r == q[|q| - |r|..]
    ensures |r| < |q| ==> q[|q| - |r| - 1] == '/'
  {
    if q == [] then [] else if q[|q| - 1] == '/' then [] else AfterLastSlash(q[..|q| - 1]) + [q[|q| - 1]]
  }
}
