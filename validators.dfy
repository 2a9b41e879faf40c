/** The pure helpers of services/telegram_bot.py: name and amount validation,
    display capitalisation, date formatting, and the parsing of the
    administrator list. */
module Validators {
  import opened Options
  import opened Strings
  import opened Ledger

  const MAX_NAME_LENGTH: nat := 100

  /** The largest amount accepted, 99999999.99. */
  const MAX_AMOUNT: real := 99999999.99

  /** The same bound in cents. */
  const MAX_CENTS: nat := 9999999999

  // ---------------------------------------------------------------------
  // Names

  /** The character class `[a-zA-ZÀ-ɏḀ-ỿ]`. */
  predicate IsNameChar(c: char) {
    || ('a' <= c <= 'z') || ('A' <= c <= 'Z')
    || ('\U{C0}' <= c <= '\U{24F}') || ('\U{1E00}' <= c <= '\U{1EFF}')
  }

  predicate AllNameChars(s: string) {
    forall i :: 0 <= i < |s| ==> IsNameChar(s[i])
  }

  /** is_valid_name: between 1 and 100 characters, and `re.match` of
      `^[...]+$` succeeds. Python's `$` also matches just before a final
      newline, so one trailing "\n" after the name is accepted. */
  predicate IsValidName(name: string) {
    && 0 < |name| <= MAX_NAME_LENGTH
    && (|| AllNameChars(name)
        || (|name| >= 2 && name[|name| - 1] == '\n' && AllNameChars(name[..|name| - 1])))
  }

  /** For a name with no trailing newline (every stripped name), validity is
      exactly: 1 to 100 characters, each in the name ranges. */
  lemma ValidNameIff(name: string)
    requires name == [] || name[|name| - 1] != '\n'
    ensures IsValidName(name) <==> 0 < |name| <= MAX_NAME_LENGTH && AllNameChars(name)
  {
  }

  /** A valid name has no digit, hyphen, whitespace or other character outside
      the name ranges, except a final newline. */
  lemma ValidNameCharacters(name: string, i: nat)
    requires IsValidName(name) && i < |name|
    ensures IsNameChar(name[i]) || (i == |name| - 1 && name[i] == '\n')
  {
    if !AllNameChars(name) && i < |name| - 1 {
      assert name[..|name| - 1][i] == name[i];
    }
  }

  lemma NameExamples()
    ensures IsValidName("kamal") && IsValidName("Nimal") && IsValidName("José")
    ensures IsValidName("kamal\n")
    ensures IsValidName("k\U{D7}mal") && IsValidName("\U{F7}")
    ensures !IsValidName("") && !IsValidName("k1mal") && !IsValidName("kamal perera")
    ensures !IsValidName("anne-marie")
  {
    assert "kamal\n"[..5] == "kamal";
    assert "k1mal"[1] == '1';
    assert "kamal perera"[5] == ' ';
    assert "anne-marie"[4] == '-';
  }

  // ---------------------------------------------------------------------
  // Amounts

  /** A decimal number as written: sign, digits, and how many of them follow
      the point. Its value is `mantissa / 10^scale`, negated when `negative`. */
  datatype Decimal = Decimal(negative: bool, mantissa: nat, scale: nat)

  function Value(d: Decimal): real {
    var magnitude := (d.mantissa as real) / (Pow10(d.scale) as real);
    if d.negative then -magnitude else magnitude
  }

  /** `float(text)` on the plain decimal grammar: surrounding whitespace, an
      optional sign, digits, an optional point followed by digits, and at least
      one digit in all. */
  function ParseDecimal(text: string): Option<Decimal> {
    var t := Strip(text);
    if t != [] && (t[0] == '-' || t[0] == '+') then
      match ParseUnsigned(t[1..])
      case None => None
      case Some(d) => Some(d.(negative := t[0] == '-'))
    else
      ParseUnsigned(t)
  }

  /** Digits, optionally a point and more digits, at least one digit in all. */
  function ParseUnsigned(body: string): (r: Option<Decimal>)
    ensures r.Some? ==> !r.value.negative
  {
    var whole := if '.' in body then body[..IndexOf(body, '.')] else body;
    var fraction := if '.' in body then body[IndexOf(body, '.') + 1..] else [];
    if IsDigits(whole) && IsDigits(fraction) && |whole| + |fraction| > 0 then
      Some(Decimal(false, DigitsValue(whole + fraction), |fraction|))
    else
      None
  }

  /** is_valid_amount: the text parses, and `0 < amount <= 99999999.99`. */
  predicate IsValidAmount(text: string) {
    match ParseDecimal(text)
    case None => false
    case Some(d) => 0.0 < Value(d) <= MAX_AMOUNT
  }

  /** The decimal stored into a DECIMAL(10,2) column: whole cents, rounded
      half up. */
  function Cents(d: Decimal): nat {
    if d.scale <= 2 then d.mantissa * Pow10(2 - d.scale)
    else Quotient(d.mantissa + 5 * Pow10(d.scale - 3), Pow10(d.scale - 2))
  }

  function Quotient(a: nat, b: nat): nat
    requires b >= 1
  {
    a / b
  }

  /** The cents recorded for a valid amount text. */
  function AmountCents(text: string): nat
    requires IsValidAmount(text)
  {
    Cents(ParseDecimal(text).value)
  }

  /** `f"{cents / 100:.2f}"`: whole part, point, two digits. */
  function CentsText(cents: nat): string {
    NatToString(cents / 100) + "." + TwoDigits(cents % 100)
  }

  /** `%02d`. */
  function TwoDigits(n: nat): (s: string)
    requires n < 100
    ensures |s| == 2 && IsDigits(s) && DigitsValue(s) == n
  {
    var s := [DigitChar(n / 10), DigitChar(n % 10)];
    assert s[..1] == [DigitChar(n / 10)] && s[..1][..0] == [];
    assert DigitsValue(s[..1]) == n / 10;
    assert DigitsValue(s) == 10 * (n / 10) + n % 10;
    s
  }

  /** Digits, a point and digits parse as the decimal they spell. */
  lemma ParsePlainDecimal(w: string, f: string)
    requires w != [] && IsDigits(w) && IsDigits(f)
    ensures IsDigits(w + f)
    ensures ParseDecimal(w + ['.'] + f) == Some(Decimal(false, DigitsValue(w + f), |f|))
  {
    var t := w + ['.'] + f;
    assert t[0] == w[0];
    assert !IsSpace(t[|t| - 1]) by {
      if f != [] { assert t[|t| - 1] == f[|f| - 1]; }
    }
    StripUnchanged(t);
    ParseUnsignedPoint(w, f);
  }

  lemma ParseUnsignedPoint(w: string, f: string)
    requires IsDigits(w) && IsDigits(f) && |w| + |f| > 0
    ensures IsDigits(w + f)
    ensures ParseUnsigned(w + ['.'] + f) == Some(Decimal(false, DigitsValue(w + f), |f|))
  {
    var t := w + ['.'] + f;
    assert '.' !in w;
    IndexOfAfter(w, '.', f);
    assert t[..|w|] == w && t[|w| + 1..] == f;
    DigitsValueAppend(w, f);
  }

  /** The two-decimal text of a number of cents parses as exactly that
      decimal. */
  lemma ParseCentsText(c: nat)
    ensures ParseDecimal(CentsText(c)) == Some(Decimal(false, c, 2))
  {
    var q, r := c / 100, c % 100;
    var w, f := NatToString(q), TwoDigits(r);
    assert CentsText(c) == w + ['.'] + f;
    ParsePlainDecimal(w, f);
    assert DigitsValue(w + f) == c by {
      DigitsValueAppend(w, f);
      assert Pow10(2) == 100;
      assert c == q * 100 + r;
    }
  }

  /** A text that parses to a decimal in range is a valid amount, recorded as
      that decimal rounded to cents. */
  lemma ValidAmountOf(text: string, d: Decimal)
    requires ParseDecimal(text) == Some(d) && 0.0 < Value(d) <= MAX_AMOUNT
    ensures IsValidAmount(text) && AmountCents(text) == Cents(d)
  {
  }

  /** Every amount from one cent to the maximum, written with two decimals as
      the success reply writes it, is a valid amount text that records exactly
      that many cents. */
  lemma CentsTextRoundTrip(c: nat)
    requires 0 < c <= MAX_CENTS
    ensures IsValidAmount(CentsText(c)) && AmountCents(CentsText(c)) == c
  {
    ParseCentsText(c);
    TwoDecimalsInRange(c);
    ValidAmountOf(CentsText(c), Decimal(false, c, 2));
  }

  lemma TwoDecimalsInRange(c: nat)
    requires 0 < c <= MAX_CENTS
    ensures 0.0 < Value(Decimal(false, c, 2)) <= MAX_AMOUNT
    ensures Cents(Decimal(false, c, 2)) == c
  {
    var d := Decimal(false, c, 2);
    assert Pow10(2) == 100 && Pow10(0) == 1;
    assert Value(d) == c as real / 100.0;
  }

  /** A valid amount is never recorded as more than the maximum, rounding
      included. */
  lemma ValidAmountCents(text: string)
    requires IsValidAmount(text)
    ensures AmountCents(text) <= MAX_CENTS
  {
    CentsInRange(ParseDecimal(text).value);
  }

  /** A decimal in `(0, 99999999.99]` rounds to at most 9999999999 cents. */
  lemma CentsInRange(d: Decimal)
    requires 0.0 < Value(d) <= MAX_AMOUNT
    ensures Cents(d) <= MAX_CENTS
  {
    var p := Pow10(d.scale);
    assert !d.negative;
    ScaledBound(d.mantissa, p);
    CentsNearest(d);
    var c := Cents(d);
    assert (2 * c) * p <= (2 * MAX_CENTS + 1) * p;
    CancelPositive(2 * c, 2 * MAX_CENTS + 1, p);
  }

  lemma ScaledBound(m: nat, p: nat)
    requires p >= 1 && (m as real) / (p as real) <= MAX_AMOUNT
    ensures m * 100 <= MAX_CENTS * p
  {
    var v := (m as real) / (p as real);
    assert v * (p as real) == m as real;
    assert (m as real) <= MAX_AMOUNT * (p as real);
  }

  lemma CancelPositive(a: int, b: int, p: int)
    requires p >= 1 && a * p <= b * p
    ensures a <= b
  {
    assert (b - a) * p == b * p - a * p;
  }

  /** A run of digits parses as that whole number. */
  lemma ParseDigits(w: string)
    requires w != [] && IsDigits(w)
    ensures ParseDecimal(w) == Some(Decimal(false, DigitsValue(w), 0))
  {
    assert !IsSpace(w[0]) && !IsSpace(w[|w| - 1]);
    StripUnchanged(w);
    assert '.' !in w;
    assert w + [] == w;
  }

  lemma WholeValue(n: nat)
    ensures Value(Decimal(false, n, 0)) == n as real
    ensures Cents(Decimal(false, n, 0)) == 100 * n
  {
    assert Pow10(0) == 1 && Pow10(2) == 100;
  }

  /** A whole number of rupees is a valid amount exactly when it is between
      1 and 99999999, and it is recorded as that many hundred cents. */
  lemma WholeAmount(w: string)
    requires w != [] && IsDigits(w)
    ensures IsValidAmount(w) <==> 0 < DigitsValue(w) <= 99999999
    ensures IsValidAmount(w) ==> AmountCents(w) == 100 * DigitsValue(w)
  {
    var n := DigitsValue(w);
    ParseDigits(w);
    WholeValue(n);
    if 0 < n <= 99999999 {
      ValidAmountOf(w, Decimal(false, n, 0));
    }
  }

  lemma WholeAmountExamples()
    ensures IsValidAmount("500") && AmountCents("500") == 50000
    ensures !IsValidAmount("0") && !IsValidAmount("100000000")
  {
    FiveHundred();
    WholeAmount("500");
    assert DigitsValue("0") == 0;
    WholeAmount("0");
    HundredMillion();
    WholeAmount("100000000");
  }

  lemma FiveHundred()
    ensures IsDigits("500") && DigitsValue("500") == 500
  {
    assert "500"[..2] == "50";
    assert "50"[..1] == "5";
  }

  lemma HundredMillion()
    ensures IsDigits("100000000") && DigitsValue("100000000") == 100000000
  {
    Zeros("00000000");
    DigitsValueAppend("1", "00000000");
    assert "1" + "00000000" == "100000000";
    assert Pow10(8) == 100000000;
  }

  lemma {:induction false} Zeros(s: string)
    requires forall i :: 0 <= i < |s| ==> s[i] == '0'
    ensures IsDigits(s) && DigitsValue(s) == 0
  {
    if s != [] {
      Zeros(s[..|s| - 1]);
    }
  }

  /** Text without a single digit (words, a lone sign or point, nothing at
      all) is never a valid amount. */
  lemma NoDigitRejected(text: string)
    requires forall i :: 0 <= i < |text| ==> !IsDigit(text[i])
    ensures !IsValidAmount(text)
  {
    var t := Strip(text);
    StripSlice(text);
    assert forall i :: 0 <= i < |t| ==> !IsDigit(t[i]);
    if t != [] && (t[0] == '-' || t[0] == '+') {
      UnsignedNoDigit(t[1..]);
    } else {
      UnsignedNoDigit(t);
    }
  }

  lemma UnsignedNoDigit(body: string)
    requires forall i :: 0 <= i < |body| ==> !IsDigit(body[i])
    ensures ParseUnsigned(body) == None
  {
    var whole := if '.' in body then body[..IndexOf(body, '.')] else body;
    var fraction := if '.' in body then body[IndexOf(body, '.') + 1..] else [];
    assert whole == [] || !IsDigit(whole[0]);
    assert fraction == [] || !IsDigit(fraction[0]);
  }

  /** Words, nothing at all, a lone sign, a lone point and a negative number
      are rejected. */
  lemma MalformedAmounts(text: string)
    requires text == "abc" || text == "" || text == "-" || text == "." || text == "-5"
    ensures !IsValidAmount(text)
  {
    if text == "-5" {
      StripUnchanged(text);
      NegativeRejected(text);
    } else {
      NoDigitRejected(text);
    }
  }

  /** A text that, stripped, starts with a minus sign is never a valid
      amount: it reads as a number no greater than zero, or not at all. */
  lemma NegativeRejected(text: string)
    requires Strip(text) != [] && Strip(text)[0] == '-'
    ensures !IsValidAmount(text)
  {
    var d := ParseDecimal(text);
    if d.Some? {
      assert d.value.negative;
      assert Value(d.value) <= 0.0;
    }
  }

  /** Any text that reads as a positive amount below half a cent, such as
      "0.001", is accepted, yet it is recorded as zero cents: the
      DECIMAL(10,2) column rounds it away. */
  lemma SubCentParsed(text: string, d: Decimal)
    requires ParseDecimal(text) == Some(d) && !d.negative && d.scale >= 3
    requires 0 < d.mantissa && 2 * d.mantissa < Pow10(d.scale - 2)
    ensures IsValidAmount(text) && AmountCents(text) == 0
  {
    SubCentDecimal(d);
  }

  /** A positive decimal below half a cent is in range and rounds to zero
      cents. */
  lemma SubCentDecimal(d: Decimal)
    requires !d.negative && d.scale >= 3 && 0 < d.mantissa && 2 * d.mantissa < Pow10(d.scale - 2)
    ensures 0.0 < Value(d) <= MAX_AMOUNT && Cents(d) == 0
  {
    var p, q, h := Pow10(d.scale), Pow10(d.scale - 2), Pow10(d.scale - 3);
    Pow10Add(2, d.scale - 2);
    assert q == 10 * h;
    SmallQuotient(d.mantissa + 5 * h, q);
    FractionBelowOne(d.mantissa, p);
  }

  lemma SmallQuotient(a: nat, b: nat)
    requires a < b
    ensures a / b == 0
  {
  }

  lemma FractionBelowOne(m: nat, p: nat)
    requires 0 < m < p
    ensures 0.0 < (m as real) / (p as real) < 1.0
  {
  }

  /** Rounding to cents picks the nearest cent, a tie going up:
      `|Cents(d) - 100 * mantissa / 10^scale| <= 1/2`, scaled by `10^scale`. */
  lemma CentsNearest(d: Decimal)
    ensures var p: int := Pow10(d.scale);
      -p < 2 * (Cents(d) * p - 100 * d.mantissa) <= p
  {
    var p := Pow10(d.scale);
    if d.scale <= 2 {
      Pow10Add(2 - d.scale, d.scale);
      assert Cents(d) * p == d.mantissa * (Pow10(2 - d.scale) * p);
    } else {
      var q := Pow10(d.scale - 2);
      Pow10Add(2, d.scale - 2);
      assert q == 10 * Pow10(d.scale - 3);
      var c := Cents(d);
      assert c == (d.mantissa + q / 2) / q;
      RoundHalfUp(d.mantissa, q, c);
      ScaleBounds(c * q - d.mantissa, q);
      assert c * p - 100 * d.mantissa == 100 * (c * q - d.mantissa) by {
        assert p == 100 * q;
      }
    }
  }

  /** `(m + q/2) / q` is within half of `q` of `m / q`, a tie going up. */
  lemma RoundHalfUp(m: int, q: int, c: int)
    requires m >= 0 && q >= 2 && q % 2 == 0 && c == (m + q / 2) / q
    ensures -q < 2 * (c * q - m) <= q
  {
    var r := m + q / 2 - c * q;
    assert 0 <= r < q;
  }

  lemma ScaleBounds(e: int, q: int)
    requires -q < 2 * e <= q
    ensures -(100 * q) < 2 * (100 * e) <= 100 * q
  {
  }

  /** capitalize_first_letter: the first character upper-cased and every later
      one lower-cased (not title case); the empty string is left alone. */
  function CapitalizeFirstLetter(text: string): (r: string)
    ensures |r| == |text|
    ensures text != [] ==> r[0] == UpperChar(text[0])
    ensures forall i :: 1 <= i < |text| ==> r[i] == LowerChar(text[i])
  {
    if text == [] then text else [UpperChar(text[0])] + Lower(text[1..])
  }

  /** Capitalising an already capitalised text changes nothing. */
  lemma CapitalizeIdempotent(text: string)
    ensures CapitalizeFirstLetter(CapitalizeFirstLetter(text)) == CapitalizeFirstLetter(text)
  {
    var once := CapitalizeFirstLetter(text);
    if text != [] {
      CaseIdempotent(text[0]);
      forall i | 1 <= i < |text|
        ensures LowerChar(once[i]) == once[i]
      {
        CaseIdempotent(text[i]);
      }
    }
  }

  lemma CapitalizeExamples()
    ensures CapitalizeFirstLetter("kAMAL") == "Kamal"
    ensures CapitalizeFirstLetter("joHN") == "John"
    ensures CapitalizeFirstLetter("\U{E9}LAN") == "\U{C9}lan"
    ensures CapitalizeFirstLetter("") == ""
  {
    assert CapitalizeFirstLetter("kAMAL") == ['K'] + Lower("AMAL");
    assert CapitalizeFirstLetter("joHN") == ['J'] + Lower("oHN");
    assert CapitalizeFirstLetter("\U{E9}LAN") == ['\U{C9}'] + Lower("LAN");
  }

  /** format_datetime: `strftime('%Y-%m-%d %H:%M')`. */
  function FormatDatetime(dt: DateTime): string
    requires dt.Valid()
  {
    NatToString(dt.year) + "-" + TwoDigits(dt.month) + "-" + TwoDigits(dt.day)
    + " " + TwoDigits(dt.hour) + ":" + TwoDigits(dt.minute)
  }

  /** The text is `YYYY-MM-DD HH:MM`: sixteen characters, the separators at
      their fixed places, and each field the zero-padded digits of its value. */
  lemma FormatDatetimeLayout(dt: DateTime)
    requires dt.Valid()
    ensures var s := FormatDatetime(dt);
      && |s| == 16
      && s[4] == '-' && s[7] == '-' && s[10] == ' ' && s[13] == ':'
      && IsDigits(s[..4]) && DigitsValue(s[..4]) == dt.year
      && IsDigits(s[5..7]) && DigitsValue(s[5..7]) == dt.month
      && IsDigits(s[8..10]) && DigitsValue(s[8..10]) == dt.day
      && IsDigits(s[11..13]) && DigitsValue(s[11..13]) == dt.hour
      && IsDigits(s[14..16]) && DigitsValue(s[14..16]) == dt.minute
  {
    var s := FormatDatetime(dt);
    NatToStringFourDigits(dt.year);
    var y, mo, d, h, mi := NatToString(dt.year), TwoDigits(dt.month), TwoDigits(dt.day), TwoDigits(dt.hour), TwoDigits(dt.minute);
    assert s == y + "-" + mo + "-" + d + " " + h + ":" + mi;
    assert s[..4] == y && s[5..7] == mo && s[8..10] == d && s[11..13] == h && s[14..16] == mi;
  }

  // ---------------------------------------------------------------------
  // Administrators

  /** A token `id_str` that load_admin_ids keeps: `id_str.strip().isdigit()`
      (which also rules out the empty token). */
  predicate IsIdToken(token: string) {
    Strip(token) != [] && IsDigits(Strip(token))
  }

  /** `int(id_str.strip())`. */
  function TokenId(token: string): nat
    requires IsIdToken(token)
  {
    DigitsValue(Strip(token))
  }

  /** load_admin_ids, given a set value: the integers of the comma-separated
      tokens that, stripped, are non-empty runs of digits; other tokens are
      dropped, so no id is negative. */
  function ParseAdminIds(value: string): (ids: set<int>)
    ensures forall id :: id in ids ==> id >= 0
    ensures forall t :: t in Split(value, ',') && IsIdToken(t) ==> TokenId(t) as int in ids
  {
    set t | t in Split(value, ',') && IsIdToken(t) :: TokenId(t) as int
  }

  /** `str` of each id. */
  function IdTexts(ids: seq<nat>): (texts: seq<string>)
    ensures |texts| == |ids|
    ensures forall k :: 0 <= k < |ids| ==> texts[k] == NatToString(ids[k])
  {
    seq(|ids|, k requires 0 <= k < |ids| => NatToString(ids[k]))
  }

  /** Ids written out with `str` and joined by commas load back as exactly
      those ids. */
  lemma AdminIdsRoundTrip(ids: seq<nat>)
    requires |ids| >= 1
    ensures ParseAdminIds(Join(IdTexts(ids), ',')) == set k | 0 <= k < |ids| :: ids[k] as int
  {
    var texts := IdTexts(ids);
    forall k | 0 <= k < |texts|
      ensures ',' !in texts[k] && IsIdToken(texts[k]) && TokenId(texts[k]) == ids[k]
    {
      DigitToken(texts[k]);
    }
    SplitJoin(texts, ',');
    TokensParsed(Join(texts, ','), texts, ids);
  }

  /** For any value: an integer is an administrator exactly when some
      comma-separated token of the value is an id token of that integer. This
      restates the membership law of ParseAdminIds's set comprehension; the
      round trip above is the property that takes proof. */
  lemma AdminIdsExactly(value: string)
    ensures forall id :: id in ParseAdminIds(value) <==>
      exists t :: t in Split(value, ',') && IsIdToken(t) && id == TokenId(t) as int
  {
  }

  /** When every token of `value` is an id token, the ids are exactly theirs. */
  lemma TokensParsed(value: string, texts: seq<string>, ids: seq<nat>)
    requires Split(value, ',') == texts && |texts| == |ids|
    requires forall k :: 0 <= k < |texts| ==> IsIdToken(texts[k]) && TokenId(texts[k]) == ids[k]
    ensures ParseAdminIds(value) == set k | 0 <= k < |ids| :: ids[k] as int
  {
    ParsedAmongTokens(value, texts, ids);
    TokensAmongParsed(value, texts, ids);
  }

  lemma ParsedAmongTokens(value: string, texts: seq<string>, ids: seq<nat>)
    requires Split(value, ',') == texts && |texts| == |ids|
    requires forall k :: 0 <= k < |texts| ==> IsIdToken(texts[k]) && TokenId(texts[k]) == ids[k]
    ensures forall id :: id in ParseAdminIds(value) ==> exists k :: 0 <= k < |ids| && id == ids[k] as int
  {
    forall id | id in ParseAdminIds(value)
      ensures exists k :: 0 <= k < |ids| && id == ids[k] as int
    {
      var t :| t in texts && IsIdToken(t) && id == TokenId(t) as int;
      var k :| 0 <= k < |texts| && texts[k] == t;
      assert id == ids[k] as int;
    }
  }

  lemma TokensAmongParsed(value: string, texts: seq<string>, ids: seq<nat>)
    requires Split(value, ',') == texts && |texts| == |ids|
    requires forall k :: 0 <= k < |texts| ==> IsIdToken(texts[k]) && TokenId(texts[k]) == ids[k]
    ensures forall k :: 0 <= k < |ids| ==> ids[k] as int in ParseAdminIds(value)
  {
    forall k | 0 <= k < |ids|
      ensures ids[k] as int in ParseAdminIds(value)
    {
      assert texts[k] in Split(value, ',');
    }
  }

  /** A run of digits is a token of its own value. */
  lemma DigitToken(t: string)
    requires t != [] && IsDigits(t)
    ensures IsIdToken(t) && TokenId(t) == DigitsValue(t)
  {
    StripUnchanged(t);
  }

  /** Whitespace around a run of digits is ignored (" 12 " is 12). */
  lemma PaddedToken(pre: string, t: string, post: string)
    requires forall i :: 0 <= i < |pre| ==> IsSpace(pre[i])
    requires forall i :: 0 <= i < |post| ==> IsSpace(post[i])
    requires t != [] && IsDigits(t)
    ensures IsIdToken(pre + t + post) && TokenId(pre + t + post) == DigitsValue(t)
  {
    assert !IsSpace(t[0]) && !IsSpace(t[|t| - 1]);
    StripPadded(pre, t, post);
  }

  /** A signed number ("-5") is dropped. */
  lemma SignedTokenDropped(sign: char, t: string)
    requires sign == '-' || sign == '+'
    requires t != [] && IsDigits(t)
    ensures !IsIdToken([sign] + t)
  {
    assert !IsDigit(sign) && !IsSpace(sign);
    var s := [sign] + t;
    assert s[0] == sign && s[|s| - 1] == t[|t| - 1];
    StripUnchanged(s);
  }

  /** Digits followed by anything else that is not whitespace ("12a") are
      dropped. */
  lemma TrailingTextDropped(t: string, c: char)
    requires t != [] && IsDigits(t) && !IsDigit(c) && !IsSpace(c)
    ensures !IsIdToken(t + [c])
  {
    var s := t + [c];
    assert s[0] == t[0];
    StripUnchanged(s);
    assert s[|s| - 1] == c;
  }

  /** An empty or blank token (",," or ", ,") is dropped. */
  lemma BlankTokenDropped(t: string)
    requires forall i :: 0 <= i < |t| ==> IsSpace(t[i])
    ensures !IsIdToken(t)
  {
    StripSlice(t);
  }
}
