/** The input validators (src/utils/validators.js) and the category list they
    check against (src/utils/constants.js).

    `Number(v)` and `parseFloat(v)` are modelled on the decimal grammar of
    string numerals (section 7.1.4.1 of ECMA-262): an optional sign, decimal
    digits with an optional fraction, and an optional exponent. The literal
    `Infinity` and hexadecimal, octal and binary numerals are outside the
    model. */
module Validators {
  import opened Values
  import Security

  // ------------------------------------------------------------ categories

  datatype CategoryInfo = CategoryInfo(name: string, icon: string, color: string)

  /** `CATEGORIES`, in declaration order. */
  const Categories: seq<CategoryInfo> := [
    CategoryInfo("Food & Dining", "\U{1F354}", "#FF6B6B"),
    CategoryInfo("Transportation", "\U{1F697}", "#4ECDC4"),
    CategoryInfo("Shopping", "\U{1F6CD}\U{FE0F}", "#FFE66D"),
    CategoryInfo("Entertainment", "\U{1F3AC}", "#A8E6CF"),
    CategoryInfo("Bills & Utilities", "\U{1F4A1}", "#FF8B94"),
    CategoryInfo("Healthcare", "\U{2695}\U{FE0F}", "#C7CEEA"),
    CategoryInfo("Education", "\U{1F4DA}", "#B4A7D6"),
    CategoryInfo("Salary", "\U{1F4B0}", "#95E1D3"),
    CategoryInfo("Investment", "\U{1F4C8}", "#667eea"),
    CategoryInfo("Other", "\U{1F4CC}", "#F38181")
  ]

  /** `cats.some(c => c.name === category)`, element by element. */
  predicate SomeNamed(cats: seq<CategoryInfo>, category: Option<Json>)
  {
    cats != [] && (category == Some(JStr(cats[0].name)) || SomeNamed(cats[1..], category))
  }

  /** `isValidCategory(category)`. */
  predicate IsValidCategory(category: Option<Json>)
  {
    SomeNamed(Categories, category)
  }

  /** The search succeeds exactly when the value is the string name of one
      of the entries: no conversion, no case folding. */
  lemma {:induction false} SomeNamedIff(cats: seq<CategoryInfo>, category: Option<Json>)
    ensures SomeNamed(cats, category) <==> exists i :: 0 <= i < |cats| && category == Some(JStr(cats[i].name))
  {
    if cats != [] {
      SomeNamedIff(cats[1..], category);
      if exists i :: 0 <= i < |cats| && category == Some(JStr(cats[i].name)) {
        var i :| 0 <= i < |cats| && category == Some(JStr(cats[i].name));
        if i > 0 {
          assert cats[1..][i - 1] == cats[i];
        }
      }
      if exists i :: 0 <= i < |cats[1..]| && category == Some(JStr(cats[1..][i].name)) {
        var i :| 0 <= i < |cats[1..]| && category == Some(JStr(cats[1..][i].name));
        assert cats[i + 1] == cats[1..][i];
      }
    }
  }

  lemma CategoryIff(category: Option<Json>)
    ensures IsValidCategory(category) <==>
            exists i :: 0 <= i < |Categories| && category == Some(JStr(Categories[i].name))
  {
    SomeNamedIff(Categories, category);
  }

  // ------------------------------------------------------------------ type

  /** `isValidType(type)`: `['income', 'expense'].includes(type)`. */
  predicate IsValidType(t: Option<Json>)
  {
    t in [Some(JStr("income")), Some(JStr("expense"))]
  }

  /** Exactly the two strings are accepted, in lower case. */
  lemma TypeIff(t: Option<Json>)
    ensures IsValidType(t) <==> t == Some(JStr("income")) || t == Some(JStr("expense"))
    ensures !IsValidType(Some(JStr("Income"))) && !IsValidType(None)
  {
    assert "Income"[0] != "income"[0];
  }

  // --------------------------------------------------------------- strings

  predicate IsDigit(c: char)
  {
    '0' <= c <= '9'
  }

  /** The white space and line terminators `trim` and `parseFloat` skip. */
  predicate IsSpace(c: char)
  {
    var n := c as int;
    n == 0x09 || n == 0x0A || n == 0x0B || n == 0x0C || n == 0x0D || n == 0x20 ||
    n == 0xA0 || n == 0x1680 || (0x2000 <= n <= 0x200A) || n == 0x2028 || n == 0x2029 ||
    n == 0x202F || n == 0x205F || n == 0x3000 || n == 0xFEFF
  }

  /** The characters of a decimal numeral. */
  predicate NumChar(c: char)
  {
    IsDigit(c) || c == '+' || c == '-' || c == '.' || c == 'e' || c == 'E'
  }

  /** `s` with its leading white space removed. */
  function TrimStart(s: string): (r: string)
    ensures |r| <= |s| && r == s[|s| - |r|..]
    ensures forall i :: 0 <= i < |s| - |r| ==> IsSpace(s[i])
    ensures r != [] ==> !IsSpace(r[0])
  {
    if s != [] && IsSpace(s[0]) then TrimStart(s[1..]) else s
  }

  /** `s` with its trailing white space removed. */
  function TrimEnd(s: string): (r: string)
    ensures |r| <= |s| && r == s[..|r|]
    ensures forall i :: |r| <= i < |s| ==> IsSpace(s[i])
    ensures r != [] ==> !IsSpace(r[|r| - 1])
  {
    if s != [] && IsSpace(s[|s| - 1]) then TrimEnd(s[..|s| - 1]) else s
  }

  function Trim(s: string): string
  {
    TrimEnd(TrimStart(s))
  }

  // -------------------------------------------------------------- numerals

  function DigitValue(c: char): nat
    requires IsDigit(c)
  {
    c as int - '0' as int
  }

  function Pow10(n: nat): (p: nat)
    ensures p >= 1
  {
    if n == 0 then 1 else 10 * Pow10(n - 1)
  }

  /** m times ten to the e. */
  function Scale(m: real, e: int): real
  {
    if e >= 0 then m * Pow10(e) as real else m / Pow10(-e) as real
  }

  /** Where a left-to-right reading of a decimal numeral
      `[+-]? (digits ('.' digits?)? | '.' digits) ([eE] [+-]? digits)?` stands. */
  datatype Phase =
    | Start     // nothing read
    | Signed    // a sign read
    | Whole     // at least one digit before any '.'
    | DotOnly   // a '.' with no digit yet
    | Fraction  // after the '.', with at least one digit read in all
    | ExpMark   // an 'e' or 'E' read
    | ExpSigned // the exponent's sign read
    | ExpDigits // at least one exponent digit read

  /** The reading so far: the phase, the sign, the digits read as one integer
      (`mant`), how many of them follow the '.', and the exponent. */
  datatype Scan = Scan(phase: Phase, neg: bool, mant: nat, fracDigits: nat, expNeg: bool, exp: nat)

  const Begin := Scan(Start, false, 0, 0, false, 0)

  /** One character more, or None when it cannot continue a numeral. */
  function Step(st: Scan, c: char): Option<Scan>
  {
    match st.phase
    case Start =>
      if c == '+' || c == '-' then Some(st.(phase := Signed, neg := c == '-'))
      else if IsDigit(c) then Some(st.(phase := Whole, mant := DigitValue(c)))
      else if c == '.' then Some(st.(phase := DotOnly))
      else None
    case Signed =>
      if IsDigit(c) then Some(st.(phase := Whole, mant := DigitValue(c)))
      else if c == '.' then Some(st.(phase := DotOnly))
      else None
    case Whole =>
      if IsDigit(c) then Some(st.(mant := st.mant * 10 + DigitValue(c)))
      else if c == '.' then Some(st.(phase := Fraction))
      else if c == 'e' || c == 'E' then Some(st.(phase := ExpMark))
      else None
    case DotOnly =>
      if IsDigit(c) then Some(st.(phase := Fraction, mant := st.mant * 10 + DigitValue(c), fracDigits := st.fracDigits + 1))
      else None
    case Fraction =>
      if IsDigit(c) then Some(st.(mant := st.mant * 10 + DigitValue(c), fracDigits := st.fracDigits + 1))
      else if c == 'e' || c == 'E' then Some(st.(phase := ExpMark))
      else None
    case ExpMark =>
      if c == '+' || c == '-' then Some(st.(phase := ExpSigned, expNeg := c == '-'))
      else if IsDigit(c) then Some(st.(phase := ExpDigits, exp := DigitValue(c)))
      else None
    case ExpSigned =>
      if IsDigit(c) then Some(st.(phase := ExpDigits, exp := DigitValue(c)))
      else None
    case ExpDigits =>
      if IsDigit(c) then Some(st.(exp := st.exp * 10 + DigitValue(c)))
      else None
  }

  /** The value read, when the reading may end here. */
  function Finish(st: Scan): Option<real>
  {
    if st.phase in {Whole, Fraction, ExpDigits} then
      var e := (if st.expNeg then -(st.exp as int) else st.exp as int) - st.fracDigits;
      var m := Scale(st.mant as real, e);
      Some(if st.neg then -m else m)
    else None
  }

  function Run(s: string, st: Scan): Option<real>
  {
    if s == [] then Finish(st)
    else
      match Step(st, s[0])
      case None => None
      case Some(next) => Run(s[1..], next)
  }

  /** The value of a whole string read as a signed decimal numeral, or None. */
  function Numeral(t: string): Option<real>
  {
    Run(t, Begin)
  }

  /** The value of the longest prefix of `t[..k]` that is a numeral. */
  function LongestNumeral(t: string, k: nat): Option<real>
    requires k <= |t|
  {
    if k == 0 then None
    else if Numeral(t[..k]).Some? then Numeral(t[..k])
    else LongestNumeral(t, k - 1)
  }

  /** `Number(s)` for a string: blank text is 0, otherwise the trimmed text
      must be a numeral as a whole. */
  function StringToNumber(s: string): Option<real>
  {
    var t := Trim(s);
    if t == [] then Some(0.0) else Numeral(t)
  }

  /** `parseFloat(s)`: the longest numeral after the leading white space. */
  function StringParseFloat(s: string): Option<real>
  {
    var t := TrimStart(s);
    LongestNumeral(t, |t|)
  }

  /** Only numeral characters move the reading on. */
  lemma {:induction false} RunChars(s: string, st: Scan)
    requires Run(s, st).Some?
    ensures forall k :: 0 <= k < |s| ==> NumChar(s[k])
  {
    if s != [] {
      var next := Step(st, s[0]);
      assert next.Some?;
      RunChars(s[1..], next.value);
      forall k | 1 <= k < |s| ensures NumChar(s[k]) {
        assert s[k] == s[1..][k - 1];
      }
    }
  }

  /** A numeral consists of numeral characters only; in particular it holds
      no white space. */
  lemma NumeralChars(t: string)
    requires Numeral(t).Some?
    ensures forall k :: 0 <= k < |t| ==> NumChar(t[k])
  {
    RunChars(t, Begin);
  }

  /** With no numeral among the prefixes longer than `m`, the longest numeral
      is the one of length `m`. */
  lemma {:induction false} LongestIs(x: string, m: nat, k: nat)
    requires 0 < m <= k <= |x| && Numeral(x[..m]).Some?
    requires forall n :: m < n <= k ==> Numeral(x[..n]).None?
    ensures LongestNumeral(x, k) == Numeral(x[..m])
  {
    if k > m {
      assert Numeral(x[..k]).None?;
      LongestIs(x, m, k - 1);
    } else {
      assert LongestNumeral(x, k) == Numeral(x[..k]);
    }
  }

  /** No prefix of blank text is a numeral. */
  lemma {:induction false} BlankHasNoNumeral(x: string, k: nat)
    requires k <= |x| && forall i :: 0 <= i < |x| ==> IsSpace(x[i])
    ensures LongestNumeral(x, k) == None
  {
    if k > 0 {
      if Numeral(x[..k]).Some? {
        NumeralChars(x[..k]);
        assert NumChar(x[..k][0]);
      }
      BlankHasNoNumeral(x, k - 1);
    }
  }

  /** A string holding white space, or any other character foreign to
      numerals, is no numeral. */
  lemma ForeignCharEndsNumeral(s: string, k: int)
    requires 0 <= k < |s| && !NumChar(s[k])
    ensures Numeral(s).None?
  {
    if Numeral(s).Some? {
      NumeralChars(s);
    }
  }

  /** `parseFloat` reads a numeral followed by white space as the numeral. */
  lemma ParseFloatOfNumeral(t: string, w: string)
    requires t != [] && Numeral(t).Some? && forall i :: 0 <= i < |w| ==> IsSpace(w[i])
    ensures LongestNumeral(t + w, |t + w|) == Numeral(t)
  {
    var x := t + w;
    assert x[..|t|] == t;
    forall n | |t| < n <= |x| ensures Numeral(x[..n]).None? {
      assert x[..n][|t|] == w[0];
      ForeignCharEndsNumeral(x[..n], |t|);
    }
    LongestIs(x, |t|, |x|);
  }

  // ------------------------------------------------- Number and parseFloat

  /** `Number(v)` for a present value; None is NaN. An array converts through
      its `join(',')` text; an object, and the encrypted byte arrays (at least
      sixteen bytes), are NaN. */
  function NumberOf(v: Json): Option<real>
  {
    match v
    case JNull => Some(0.0)
    case JBool(b) => Some(if b then 1.0 else 0.0)
    case JNum(n) => Some(n)
    case JStr(s) => StringToNumber(s)
    case JArr(items) =>
      if |items| == 0 then Some(0.0)
      else if |items| > 1 then None
      else if items[0].JNull? then Some(0.0)
      else if items[0].JBool? then None
      else NumberOf(items[0])
    case JBytes(b) =>
      if |b| == 0 then Some(0.0) else if |b| > 1 then None else Some(b[0] as int as real)
    case _ => None
  }

  /** `parseFloat(v)` for a present value, which reads `String(v)`. An array
      reads as its first element's text, since ',' ends a numeral. */
  function ParseFloatOf(v: Json): Option<real>
  {
    match v
    case JNum(n) => Some(n)
    case JStr(s) => StringParseFloat(s)
    case JArr(items) =>
      if |items| == 0 || items[0].JBool? then None else ParseFloatOf(items[0])
    case JBytes(b) => if |b| == 0 then None else Some(b[0] as int as real)
    case _ => None
  }

  /** `isValidAmount(amount)`: `!isNaN(amount) && parseFloat(amount) > 0`. */
  predicate IsValidAmount(amount: Option<Json>)
  {
    && amount.Some?
    && NumberOf(amount.value).Some?
    && ParseFloatOf(amount.value).Some?
    && ParseFloatOf(amount.value).value > 0.0
  }

  /** A number is a valid amount exactly when it is positive. */
  lemma AmountOfNumber(n: real)
    ensures IsValidAmount(Some(JNum(n))) <==> n > 0.0
  {
  }

  /** A string is a valid amount exactly when both readings agree on a
      positive value. */
  lemma StringAmountReadings(s: string)
    ensures IsValidAmount(Some(JStr(s))) <==>
              StringToNumber(s).Some? && StringParseFloat(s).Some? && StringParseFloat(s).value > 0.0
  {
  }

  /** Blank text reads as 0 for `Number` but as NaN for `parseFloat`. */
  lemma BlankAmount(s: string)
    requires Trim(s) == []
    ensures !IsValidAmount(Some(JStr(s)))
  {
    var t := TrimStart(s);
    assert StringParseFloat(s) == LongestNumeral(t, |t|);
    BlankHasNoNumeral(t, |t|);
    StringAmountReadings(s);
  }

  /** Text that trims to a numeral reads as that numeral both ways. */
  lemma NumeralAmount(s: string)
    requires Trim(s) != [] && Numeral(Trim(s)).Some?
    ensures StringToNumber(s) == Numeral(Trim(s)) && StringParseFloat(s) == Numeral(Trim(s))
  {
    var t := TrimStart(s);
    var r := TrimEnd(t);
    var w := t[|r|..];
    assert t == r + w;
    ParseFloatOfNumeral(r, w);
  }

  /** A string is a valid amount exactly when, white space trimmed, it is a
      numeral as a whole and its value is positive: trailing text that
      `parseFloat` alone would skip makes `Number` NaN. */
  lemma StringAmount(s: string)
    ensures IsValidAmount(Some(JStr(s))) <==> Numeral(Trim(s)).Some? && Numeral(Trim(s)).value > 0.0
  {
    StringAmountReadings(s);
    if Trim(s) == [] {
      BlankAmount(s);
      assert Numeral(Trim(s)).None?;
    } else if Numeral(Trim(s)).Some? {
      NumeralAmount(s);
    }
  }

  /** "0.5" reads as one half. */
  lemma NumeralExample()
    ensures Trim("0.5") == "0.5" && Numeral("0.5") == Some(0.5)
  {
    assert TrimStart("0.5") == "0.5" by { assert !IsSpace("0.5"[0]); }
    assert TrimEnd("0.5") == "0.5" by { assert !IsSpace("0.5"[2]); }
  }

  /** Text of a positive numeral and a positive number are amounts. */
  lemma AmountExamples(s: string)
    requires s == "0.5"
    ensures IsValidAmount(Some(JStr(s))) && IsValidAmount(Some(JNum(12.5)))
  {
    NumeralExample();
    StringAmount(s);
    AmountOfNumber(12.5);
  }

  /** Neither a negative value nor blank text nor a non-numeric value is an
      amount. */
  lemma RefusedAmountExamples()
    ensures !IsValidAmount(Some(JStr("-5"))) && !IsValidAmount(Some(JStr("")))
    ensures !IsValidAmount(None) && !IsValidAmount(Some(JNull)) && !IsValidAmount(Some(JBool(true)))
  {
    assert !IsValidAmount(Some(JStr("-5"))) by {
      assert TrimStart("-5") == "-5" by { assert !IsSpace("-5"[0]); }
      assert TrimEnd("-5") == "-5" by { assert !IsSpace("-5"[1]); }
      assert Numeral("-5") == Some(-5.0);
      StringAmount("-5");
    }
    StringAmount("");
  }

  /** Trailing text after a numeral: `parseFloat` alone reads the numeral,
      but `Number` is NaN, so the amount is refused. */
  lemma TrailingTextExample(s: string)
    requires s == "12abc"
    ensures StringParseFloat(s) == Some(12.0) && !IsValidAmount(Some(JStr(s)))
  {
    assert |s| == 5 && !IsSpace(s[0]) && !IsSpace(s[4]) && !NumChar(s[2]);
    assert TrimStart(s) == s;
    assert s[|s| - 1] == s[4];
    assert TrimEnd(s) == s;
    assert Trim(s) == s;
    assert StringParseFloat(s) == Some(12.0) by {
      assert Numeral(s[..2]) == Some(12.0) by {
        assert Numeral("12") == Some(12.0);
        assert s[..2] == "12";
      }
      forall n | 2 < n <= 5 ensures Numeral(s[..n]).None? {
        assert s[..n][2] == s[2];
        ForeignCharEndsNumeral(s[..n], 2);
      }
      LongestIs(s, 2, 5);
    }
    assert !IsValidAmount(Some(JStr(s))) by {
      ForeignCharEndsNumeral(s, 2);
      StringAmount(s);
    }
  }

  // ------------------------------------------------------------ passphrase

  /** `v.length >= 6` for a truthy value: strings count UTF-16 units, arrays
      their elements; an object compares its own `length` property; numbers
      and booleans have no length (undefined, which compares false). */
  predicate LengthAtLeast6(v: Json)
  {
    match v
    case JStr(s) => Utf16Length(s) >= 6
    case JArr(items) => |items| >= 6
    case JBytes(b) => |b| >= 6
    case JObj(fields) =>
      "length" in fields && NumberOf(fields["length"]).Some? && NumberOf(fields["length"]).value >= 6.0
    case JSealed(_, _, _) => true
    case JDigest(_) => true
    case _ => false
  }

  /** `isValidPassphrase(p)`, read as a condition: `p && p.length >= 6`. */
  predicate IsValidPassphrase(p: Option<Json>)
  {
    Truthy(p) && LengthAtLeast6(p.value)
  }

  /** A string passphrase is valid exactly when it has six UTF-16 units; no
      digit or letter is required. */
  lemma PassphraseOfString(s: string)
    ensures IsValidPassphrase(Some(JStr(s))) <==> Utf16Length(s) >= 6
  {
  }

  /** Every valid PIN is a valid passphrase, but not the other way round. */
  lemma PinIsPassphrase(s: string)
    ensures Security.IsValidPin(s) ==> IsValidPassphrase(Some(JStr(s)))
    ensures IsValidPassphrase(Some(JStr("aaaaaa"))) && !Security.IsValidPin("aaaaaa")
  {
    assert Utf16Length("aaaaaa") == 6;
    assert !Security.HasDigit("aaaaaa");
  }

  // ----------------------------------------------------------- transaction

  /** `isValidTransaction(t)`, read as a condition. `Date.parse` is not part
      of this model: `isValidDate` stands for `validators.isValidDate`. */
  predicate IsValidTransaction(t: Option<Json>, isValidDate: Option<Json> -> bool)
  {
    && Truthy(t)
    && IsValidAmount(FieldOf(t, "amount"))
    && isValidDate(FieldOf(t, "date"))
    && IsValidCategory(FieldOf(t, "category"))
    && IsValidType(FieldOf(t, "type"))
  }

  /** A value other than an object is never a valid transaction, truthy or
      not: it has none of the properties checked. */
  lemma TransactionNeedsObject(t: Option<Json>, isValidDate: Option<Json> -> bool)
    requires !(t.Some? && t.value.JObj?)
    ensures !IsValidTransaction(t, isValidDate)
  {
    assert FieldOf(t, "amount") == None;
    assert !IsValidAmount(None);
  }

  /** The amount check on a property of an object. */
  lemma AmountField(fields: map<string, Json>)
    ensures IsValidAmount(FieldOf(Some(JObj(fields)), "amount")) <==>
              "amount" in fields && IsValidAmount(Some(fields["amount"]))
  {
    assert !IsValidAmount(None);
  }

  /** The category check on a property of an object. */
  lemma CategoryField(fields: map<string, Json>)
    ensures IsValidCategory(FieldOf(Some(JObj(fields)), "category")) <==>
              "category" in fields && IsValidCategory(Some(fields["category"]))
  {
    CategoryIff(None);
  }

  /** The type check on a property of an object. */
  lemma TypeField(fields: map<string, Json>)
    ensures IsValidType(FieldOf(Some(JObj(fields)), "type")) <==>
              "type" in fields && IsValidType(Some(fields["type"]))
  {
    assert !IsValidType(None);
  }

  /** An object is a valid transaction exactly when it has an amount, a
      category and a type, each passing its own check, and its date passes
      the date check; nothing else is looked at. */
  lemma TransactionOfObject(fields: map<string, Json>, isValidDate: Option<Json> -> bool)
    ensures IsValidTransaction(Some(JObj(fields)), isValidDate) <==>
            && "amount" in fields && IsValidAmount(Some(fields["amount"]))
            && isValidDate(Field(JObj(fields), "date"))
            && "category" in fields && IsValidCategory(Some(fields["category"]))
            && "type" in fields && IsValidType(Some(fields["type"]))
  {
    AmountField(fields);
    CategoryField(fields);
    TypeField(fields);
  }
}
