/** The string helpers of the utilities module: human-readable shipment and quote
    numbers, GSTIN validation, filename sanitising and query-string building. The clock
    and the random draws are parameters. */
module Helpers {
  import opened Values

  const Uppercase := "ABCDEFGHIJKLMNOPQRSTUVWXYZ"
  const Digits := "0123456789"
  /** `string.ascii_uppercase + string.digits` */
  const ShipmentSuffixChars := Uppercase + Digits

  predicate IsDigit(c: char) { '0' <= c <= '9' }
  predicate IsUpper(c: char) { 'A' <= c <= 'Z' }
  predicate AllDigits(s: string) { forall i :: 0 <= i < |s| ==> IsDigit(s[i]) }

  // ---------------------------------------------------------------------------
  // Decimal digits

  function Pow10(n: nat): nat {
    if n == 0 then 1 else 10 * Pow10(n - 1)
  }

  function DigitChar(d: nat): (c: char)
    requires d < 10
    ensures IsDigit(c)
  {
    ('0' as int + d) as char
  }

  /** The low `width` decimal digits of `n`, zero-padded (`%0<width>d` for `n` below 10^width). */
  function Pad(n: nat, width: nat): (r: string)
    ensures |r| == width
    ensures AllDigits(r)
  {
    if width == 0 then "" else Pad(n / 10, width - 1) + [DigitChar(n % 10)]
  }

  /** The number a string of decimal digits denotes. */
  function DigitsValue(s: string): nat
    requires AllDigits(s)
  {
    if s == [] then 0 else 10 * DigitsValue(s[..|s| - 1]) + (s[|s| - 1] as int - '0' as int)
  }

  lemma {:induction false} PadValue(n: nat, width: nat)
    requires n < Pow10(width)
    ensures DigitsValue(Pad(n, width)) == n
  {
    if width > 0 {
      assert n / 10 < Pow10(width - 1);
      PadValue(n / 10, width - 1);
      var p := Pad(n, width);
      assert p[..|p| - 1] == Pad(n / 10, width - 1);
    }
  }

  // ---------------------------------------------------------------------------
  // Shipment and quote numbers

  /** A calendar date as `datetime` holds it (years 1 to 9999). */
  datatype Date = Date(year: int, month: int, day: int)

  predicate ValidDate(d: Date) {
    1 <= d.year <= 9999 && 1 <= d.month <= 12 && 1 <= d.day <= 31
  }

  /** `strftime("%Y%m")` */
  function YearMonth(d: Date): (r: string)
    requires ValidDate(d)
  {
    Pad(d.year, 4) + Pad(d.month, 2)
  }

  /** `strftime("%Y%m%d")` */
  function YearMonthDay(d: Date): (r: string)
    requires ValidDate(d)
  {
    YearMonth(d) + Pad(d.day, 2)
  }

  /** What `random.choices(population, k=|picks|)` returns when it draws the positions `picks`. */
  function Choices(population: string, picks: seq<nat>): (r: string)
    requires forall i :: 0 <= i < |picks| ==> picks[i] < |population|
    ensures |r| == |picks|
    ensures forall i :: 0 <= i < |r| ==> r[i] == population[picks[i]]
  {
    seq(|picks|, i requires 0 <= i < |picks| => population[picks[i]])
  }

  predicate ValidPicks(picks: seq<nat>, population: string, k: nat) {
    |picks| == k && forall i :: 0 <= i < |picks| ==> picks[i] < |population|
  }

  lemma SuffixCharsAreUpperOrDigit(i: nat)
    requires i < |ShipmentSuffixChars|
    ensures IsUpper(ShipmentSuffixChars[i]) || IsDigit(ShipmentSuffixChars[i])
  {
    if i < 26 {
      assert ShipmentSuffixChars[i] == Uppercase[i];
    } else {
      assert ShipmentSuffixChars[i] == Digits[i - 26];
    }
  }

  /** `generate_shipment_number`: `TF-` + `strftime("%Y%m%d")` + `-` + five draws. */
  function ShipmentNumber(today: Date, picks: seq<nat>): (r: string)
    requires ValidDate(today) && ValidPicks(picks, ShipmentSuffixChars, 5)
    ensures |r| == 17
  {
    "TF-" + YearMonthDay(today) + "-" + Choices(ShipmentSuffixChars, picks)
  }

  /** A shipment number is `TF-`, eight digits, `-` and five characters from A-Z/0-9. */
  lemma ShipmentNumberFormat(today: Date, picks: seq<nat>)
    requires ValidDate(today) && ValidPicks(picks, ShipmentSuffixChars, 5)
    ensures var r := ShipmentNumber(today, picks);
      && r[..3] == "TF-" && r[11] == '-'
      && AllDigits(r[3..11])
      && forall i :: 12 <= i < 17 ==> IsUpper(r[i]) || IsDigit(r[i])
  {
    var ymd := YearMonthDay(today);
    var suffix := Choices(ShipmentSuffixChars, picks);
    var r := "TF-" + ymd + "-" + suffix;
    assert r[3..11] == ymd;
    forall i | 12 <= i < 17 ensures IsUpper(r[i]) || IsDigit(r[i]) {
      assert r[i] == suffix[i - 12];
      SuffixCharsAreUpperOrDigit(picks[i - 12]);
    }
  }

  /** `generate_quote_number`: `Q-` + `strftime("%Y%m")` + `-` + five digits. */
  function QuoteNumber(today: Date, picks: seq<nat>): (r: string)
    requires ValidDate(today) && ValidPicks(picks, Digits, 5)
    ensures |r| == 14
  {
    "Q-" + YearMonth(today) + "-" + Choices(Digits, picks)
  }

  /** A quote number is `Q-`, six digits, `-` and five digits. */
  lemma QuoteNumberFormat(today: Date, picks: seq<nat>)
    requires ValidDate(today) && ValidPicks(picks, Digits, 5)
    ensures var r := QuoteNumber(today, picks);
      r[..2] == "Q-" && r[8] == '-' && AllDigits(r[2..8]) && AllDigits(r[9..])
  {
    var ym := YearMonth(today);
    var suffix := Choices(Digits, picks);
    var r := "Q-" + ym + "-" + suffix;
    assert r[2..8] == ym;
    assert r[9..] == suffix;
    forall i | 0 <= i < 5 ensures IsDigit(suffix[i]) {
      assert suffix[i] == Digits[picks[i]];
    }
  }

  lemma AllDigitsSlice(s: string, a: nat, b: nat, i: nat, j: nat)
    requires a <= i <= j <= b <= |s| && AllDigits(s[a..b])
    ensures AllDigits(s[i..j])
  {
    forall k | 0 <= k < j - i ensures IsDigit(s[i..j][k]) {
      assert s[i..j][k] == s[a..b][i - a + k];
    }
  }

  /** Reads a shipment number back into its date and its random suffix. */
  function ParseShipmentNumber(s: string): Option<(Date, string)> {
    if |s| == 17 && s[..3] == "TF-" && s[11] == '-' && AllDigits(s[3..11]) then
      AllDigitsSlice(s, 3, 11, 3, 7);
      AllDigitsSlice(s, 3, 11, 7, 9);
      AllDigitsSlice(s, 3, 11, 9, 11);
      Some((Date(DigitsValue(s[3..7]), DigitsValue(s[7..9]), DigitsValue(s[9..11])), s[12..]))
    else None
  }

  /** Reads a quote number back into its year, month and random digits. */
  function ParseQuoteNumber(s: string): Option<(int, int, string)> {
    if |s| == 14 && s[..2] == "Q-" && s[8] == '-' && AllDigits(s[2..8]) then
      AllDigitsSlice(s, 2, 8, 2, 6);
      AllDigitsSlice(s, 2, 8, 6, 8);
      Some((DigitsValue(s[2..6]), DigitsValue(s[6..8]), s[9..]))
    else None
  }

  lemma DatePadsValue(d: Date)
    requires ValidDate(d)
    ensures DigitsValue(Pad(d.year, 4)) == d.year
    ensures DigitsValue(Pad(d.month, 2)) == d.month
    ensures DigitsValue(Pad(d.day, 2)) == d.day
  {
    assert Pow10(2) == 100 && Pow10(4) == 10000;
    PadValue(d.year, 4);
    PadValue(d.month, 2);
    PadValue(d.day, 2);
  }

  lemma ShipmentNumberRoundTrip(today: Date, picks: seq<nat>)
    requires ValidDate(today) && ValidPicks(picks, ShipmentSuffixChars, 5)
    ensures ParseShipmentNumber(ShipmentNumber(today, picks))
         == Some((today, Choices(ShipmentSuffixChars, picks)))
  {
    var r := ShipmentNumber(today, picks);
    assert r[3..7] == Pad(today.year, 4);
    assert r[7..9] == Pad(today.month, 2);
    assert r[9..11] == Pad(today.day, 2);
    assert r[12..] == Choices(ShipmentSuffixChars, picks);
    DatePadsValue(today);
  }

  lemma QuoteNumberRoundTrip(today: Date, picks: seq<nat>)
    requires ValidDate(today) && ValidPicks(picks, Digits, 5)
    ensures ParseQuoteNumber(QuoteNumber(today, picks))
         == Some((today.year, today.month, Choices(Digits, picks)))
  {
    var r := QuoteNumber(today, picks);
    QuoteNumberFormat(today, picks);
    assert r[2..6] == Pad(today.year, 4);
    assert r[6..8] == Pad(today.month, 2);
    assert r[9..] == Choices(Digits, picks);
    DatePadsValue(today);
  }

  /** Two shipment numbers are equal only when their dates and random suffixes are. */
  lemma ShipmentNumberInjective(d1: Date, p1: seq<nat>, d2: Date, p2: seq<nat>)
    requires ValidDate(d1) && ValidPicks(p1, ShipmentSuffixChars, 5)
    requires ValidDate(d2) && ValidPicks(p2, ShipmentSuffixChars, 5)
    requires ShipmentNumber(d1, p1) == ShipmentNumber(d2, p2)
    ensures d1 == d2 && Choices(ShipmentSuffixChars, p1) == Choices(ShipmentSuffixChars, p2)
  {
    ShipmentNumberRoundTrip(d1, p1);
    ShipmentNumberRoundTrip(d2, p2);
  }

  // ---------------------------------------------------------------------------
  // GSTIN validation: the pattern as a sequence of fixed-count character classes

  datatype CharClass = Digit | Upper | NonZeroDigitOrUpper | DigitOrUpper | Literal(c: char)

  predicate InClass(c: char, k: CharClass) {
    match k
    case Digit => IsDigit(c)
    case Upper => IsUpper(c)
    case NonZeroDigitOrUpper => ('1' <= c <= '9') || IsUpper(c)
    case DigitOrUpper => IsDigit(c) || IsUpper(c)
    case Literal(l) => c == l
  }

  /** `^\d{2}[A-Z]{5}\d{4}[A-Z]{1}[1-9A-Z]{1}Z[0-9A-Z]{1}$`, one (class, count) per item. */
  const GstinPattern: seq<(CharClass, nat)> := [
    (Digit, 2), (Upper, 5), (Digit, 4), (Upper, 1),
    (NonZeroDigitOrUpper, 1), (Literal('Z'), 1), (DigitOrUpper, 1)
  ]

  function Repeat(k: CharClass, n: nat): (r: seq<CharClass>)
    ensures |r| == n && forall i :: 0 <= i < n ==> r[i] == k
  {
    if n == 0 then [] else [k] + Repeat(k, n - 1)
  }

  /** The pattern with its counts written out, one class per character. */
  function Expand(p: seq<(CharClass, nat)>): seq<CharClass> {
    if p == [] then [] else Repeat(p[0].0, p[0].1) + Expand(p[1..])
  }

  /** The classes match the first `|cls|` characters of `s`, one each. */
  predicate MatchesPrefix(cls: seq<CharClass>, s: string) {
    if cls == [] then true
    else |s| > 0 && InClass(s[0], cls[0]) && MatchesPrefix(cls[1..], s[1..])
  }

  /** `re.match("^" + cls + "$", s)`: without MULTILINE, `$` matches at the end of the
      string and also just before a newline that ends it. */
  predicate FullMatch(cls: seq<CharClass>, s: string) {
    MatchesPrefix(cls, s) && (|s| == |cls| || (|s| == |cls| + 1 && s[|cls|] == '\n'))
  }

  /** `validate_gstin` */
  predicate ValidateGstin(gstin: string) {
    FullMatch(Expand(GstinPattern), gstin)
  }

  lemma {:induction false} MatchesPrefixAt(cls: seq<CharClass>, s: string)
    ensures MatchesPrefix(cls, s) <==>
      |cls| <= |s| && forall i :: 0 <= i < |cls| ==> InClass(s[i], cls[i])
  {
    if cls != [] && |s| > 0 {
      MatchesPrefixAt(cls[1..], s[1..]);
      if |cls| <= |s| && forall i :: 0 <= i < |cls| ==> InClass(s[i], cls[i]) {
        forall i | 0 <= i < |cls| - 1 ensures InClass(s[1..][i], cls[1..][i]) {
          assert s[1..][i] == s[i + 1] && cls[1..][i] == cls[i + 1];
        }
      }
      if MatchesPrefix(cls, s) {
        forall i | 0 <= i < |cls| ensures InClass(s[i], cls[i]) {
          if i > 0 {
            assert s[1..][i - 1] == s[i] && cls[1..][i - 1] == cls[i];
          }
        }
      }
    }
  }

  /** The class the pattern puts at position `i` of a GSTIN. */
  function GstinClassAt(i: nat): CharClass {
    if i < 2 then Digit
    else if i < 7 then Upper
    else if i < 11 then Digit
    else if i == 11 then Upper
    else if i == 12 then NonZeroDigitOrUpper
    else if i == 13 then Literal('Z')
    else DigitOrUpper
  }

  lemma {:induction false} RepeatAt(k: CharClass, n: nat, rest: seq<CharClass>, i: nat)
    requires i < n + |rest|
    ensures (Repeat(k, n) + rest)[i] == if i < n then k else rest[i - n]
  {
  }

  /** The expanded pattern has fifteen positions, each with the class `GstinClassAt` names. */
  lemma GstinClasses()
    ensures |Expand(GstinPattern)| == 15
    ensures forall i :: 0 <= i < 15 ==> Expand(GstinPattern)[i] == GstinClassAt(i)
  {
    var p := GstinPattern;
    forall k | 0 <= k < 7 ensures p[k..][1..] == p[k + 1..] { }
    var tail := [Upper, NonZeroDigitOrUpper, Literal('Z'), DigitOrUpper];
    assert Expand(p[7..]) == [];
    assert Expand(p[6..]) == [DigitOrUpper];
    assert Expand(p[5..]) == [Literal('Z'), DigitOrUpper];
    assert Expand(p[4..]) == [NonZeroDigitOrUpper, Literal('Z'), DigitOrUpper];
    assert Expand(p[3..]) == tail;
    var e2 := Repeat(Digit, 4) + tail;
    var e1 := Repeat(Upper, 5) + e2;
    var e0 := Repeat(Digit, 2) + e1;
    assert Expand(p[2..]) == e2;
    assert Expand(p[1..]) == e1;
    assert Expand(p) == e0;
    forall i | 0 <= i < 15 ensures e0[i] == GstinClassAt(i) {
      RepeatAt(Digit, 2, e1, i);
      if i >= 2 {
        RepeatAt(Upper, 5, e2, i - 2);
        if i >= 7 {
          RepeatAt(Digit, 4, tail, i - 7);
        }
      }
    }
  }

  /** A GSTIN written out: 2 digits, 5 capitals, 4 digits, a capital, a character in
      1-9/A-Z, the letter Z and a character in 0-9/A-Z, optionally followed by one newline. */
  predicate GstinShape(g: string) {
    && (|g| == 15 || (|g| == 16 && g[15] == '\n'))
    && IsDigit(g[0]) && IsDigit(g[1])
    && (forall i :: 2 <= i < 7 ==> IsUpper(g[i]))
    && (forall i :: 7 <= i < 11 ==> IsDigit(g[i]))
    && IsUpper(g[11])
    && (('1' <= g[12] <= '9') || IsUpper(g[12]))
    && g[13] == 'Z'
    && (IsDigit(g[14]) || IsUpper(g[14]))
  }

  /** The match written position by position. */
  predicate GstinPositions(g: string) {
    && (|g| == 15 || (|g| == 16 && g[15] == '\n'))
    && forall i :: 0 <= i < 15 ==> InClass(g[i], GstinClassAt(i))
  }

  lemma GstinMatchesPositions(g: string)
    ensures ValidateGstin(g) <==> GstinPositions(g)
  {
    GstinClasses();
    MatchesPrefixAt(Expand(GstinPattern), g);
  }

  lemma GstinPositionsShape(g: string)
    ensures GstinPositions(g) <==> GstinShape(g)
  {
    if GstinPositions(g) {
      assert InClass(g[0], GstinClassAt(0)) && InClass(g[1], GstinClassAt(1));
      forall i | 2 <= i < 7 ensures IsUpper(g[i]) {
        assert InClass(g[i], GstinClassAt(i));
      }
      forall i | 7 <= i < 11 ensures IsDigit(g[i]) {
        assert InClass(g[i], GstinClassAt(i));
      }
      assert InClass(g[11], GstinClassAt(11)) && InClass(g[12], GstinClassAt(12));
      assert InClass(g[13], GstinClassAt(13)) && InClass(g[14], GstinClassAt(14));
    }
  }

  /** `validate_gstin` accepts exactly the strings of that shape. */
  lemma ValidateGstinIff(g: string)
    ensures ValidateGstin(g) <==> GstinShape(g)
  {
    GstinMatchesPositions(g);
    GstinPositionsShape(g);
  }

  // ---------------------------------------------------------------------------
  // Filename sanitising (character classes taken on ASCII)

  /** `\w` */
  predicate IsWordChar(c: char) {
    IsDigit(c) || IsUpper(c) || ('a' <= c <= 'z') || c == '_'
  }

  /** `\s`: space, tab to carriage return, and the separators 0x1C to 0x1F. */
  predicate IsSpaceChar(c: char) {
    c == ' ' || (9 <= c as int <= 13) || (28 <= c as int <= 31)
  }

  /** The characters `[^\w\s.-]` does not remove. */
  predicate Kept(c: char) {
    IsWordChar(c) || IsSpaceChar(c) || c == '.' || c == '-'
  }

  /** `re.sub(r'[^\w\s.-]', '', s)` */
  function RemoveSpecial(s: string): (r: string)
    ensures forall i :: 0 <= i < |r| ==> Kept(r[i])
    ensures forall c :: c in r <==> c in s && Kept(c)
    ensures |r| <= |s|
  {
    if s == [] then []
    else
      assert forall c :: c in s <==> c == s[0] || c in s[1..];
      (if Kept(s[0]) then [s[0]] else []) + RemoveSpecial(s[1..])
  }

  /** The substitution works character by character: removing from a concatenation is
      removing from each part, so the kept characters stay in order, each as often as
      it occurs. */
  lemma {:induction false} RemoveSpecialConcat(s: string, t: string)
    ensures RemoveSpecial(s + t) == RemoveSpecial(s) + RemoveSpecial(t)
  {
    if s == [] {
      assert s + t == t;
    } else {
      assert (s + t)[1..] == s[1..] + t;
      RemoveSpecialConcat(s[1..], t);
    }
  }

  /** `s.replace(' ', '_')` */
  function ReplaceSpaces(s: string): (r: string)
    ensures |r| == |s|
    ensures forall i :: 0 <= i < |r| ==> r[i] == (if s[i] == ' ' then '_' else s[i])
  {
    if s == [] then [] else [if s[0] == ' ' then '_' else s[0]] + ReplaceSpaces(s[1..])
  }

  /** The index of the last occurrence of `c` in `s`. */
  function LastIndexOf(s: string, c: char): (r: Option<nat>)
    ensures r.Some? ==> r.value < |s| && s[r.value] == c && c !in s[r.value + 1..]
    ensures r.None? <==> c !in s
  {
    if s == [] then None
    else if s[|s| - 1] == c then Some(|s| - 1)
    else
      assert s == s[..|s| - 1] + [s[|s| - 1]];
      LastIndexOf(s[..|s| - 1], c)
  }

  /** `s[:n]` */
  function Prefix(s: string, n: nat): string {
    if |s| <= n then s else s[..n]
  }

  /** What survives the character filter and the space replacement. */
  function Cleaned(filename: string): string {
    ReplaceSpaces(RemoveSpecial(filename))
  }

  /** `sanitize_filename`; None where the source raises ValueError (a cleaned name that is
      longer than 255 characters and has no `.` cannot be unpacked into name and extension). */
  function SanitizeFilename(filename: string): Option<string> {
    var cleaned := Cleaned(filename);
    if |cleaned| <= 255 then Some(cleaned)
    else match LastIndexOf(cleaned, '.')
      case None => None
      case Some(k) => Some(Prefix(cleaned[..k], 250) + "." + cleaned[k + 1..])
  }

  /** The characters a sanitised name may contain. */
  predicate SafeChar(c: char) {
    c != ' ' && (IsWordChar(c) || IsSpaceChar(c) || c == '.' || c == '-')
  }

  lemma CleanedIsSafe(filename: string)
    ensures forall i :: 0 <= i < |Cleaned(filename)| ==> SafeChar(Cleaned(filename)[i])
  {
    var r := RemoveSpecial(filename);
    var t := ReplaceSpaces(r);
    forall i | 0 <= i < |t| ensures SafeChar(t[i]) {
      assert Kept(r[i]);
    }
  }

  /** Output contains no space; every character is a word character, `.`, `-` or
      whitespace other than the space. */
  lemma SanitizeSafeChars(filename: string)
    ensures SanitizeFilename(filename).Some? ==>
      forall i :: 0 <= i < |SanitizeFilename(filename).value| ==>
        SafeChar(SanitizeFilename(filename).value[i])
  {
    var cleaned := Cleaned(filename);
    CleanedIsSafe(filename);
    if |cleaned| > 255 && LastIndexOf(cleaned, '.').Some? {
      var k := LastIndexOf(cleaned, '.').value;
      SafeJoin(cleaned, k);
    }
  }

  /** Cutting a safe name at a `.` and re-attaching the extension keeps it safe. */
  lemma SafeJoin(cleaned: string, k: nat)
    requires k < |cleaned|
    requires forall i :: 0 <= i < |cleaned| ==> SafeChar(cleaned[i])
    ensures var r := Prefix(cleaned[..k], 250) + "." + cleaned[k + 1..];
      forall i :: 0 <= i < |r| ==> SafeChar(r[i])
  {
    var base := Prefix(cleaned[..k], 250);
    var ext := cleaned[k + 1..];
    assert forall i :: 0 <= i < |base| ==> base[i] == cleaned[i];
    assert forall i :: 0 <= i < |ext| ==> ext[i] == cleaned[k + 1 + i];
    var r := base + "." + ext;
    forall i | 0 <= i < |r| ensures SafeChar(r[i]) {
      if i < |base| {
        assert r[i] == base[i];
      } else if i > |base| {
        assert r[i] == ext[i - |base| - 1];
      }
    }
  }

  /** Short names pass through; a long name keeps the first 250 characters of the part
      before its last `.`, then `.` and the extension; a long name without `.` raises. */
  lemma SanitizeLength(filename: string)
    ensures |Cleaned(filename)| <= 255 ==> SanitizeFilename(filename) == Some(Cleaned(filename))
    ensures |Cleaned(filename)| > 255 && '.' !in Cleaned(filename) ==>
      SanitizeFilename(filename).None?
    ensures |Cleaned(filename)| > 255 && '.' in Cleaned(filename) ==>
      exists k :: 0 <= k < |Cleaned(filename)| && Cleaned(filename)[k] == '.'
        && '.' !in Cleaned(filename)[k + 1..]
        && SanitizeFilename(filename)
           == Some(Prefix(Cleaned(filename)[..k], 250) + "." + Cleaned(filename)[k + 1..])
  {
    var cleaned := Cleaned(filename);
    if |cleaned| > 255 && '.' in cleaned {
      var k := LastIndexOf(cleaned, '.').value;
      assert cleaned[k] == '.';
    }
  }

  lemma {:induction false} RemoveSpecialKeepsSafe(s: string)
    requires forall i :: 0 <= i < |s| ==> Kept(s[i])
    ensures RemoveSpecial(s) == s
  {
    if s != [] {
      RemoveSpecialKeepsSafe(s[1..]);
    }
  }

  lemma CleanedFixesSafe(s: string)
    requires forall i :: 0 <= i < |s| ==> SafeChar(s[i])
    ensures Cleaned(s) == s
  {
    RemoveSpecialKeepsSafe(s);
  }

  /** The last `.` of a string is the one no other `.` follows. */
  lemma LastDotAt(r: string, k: nat)
    requires k < |r| && r[k] == '.' && '.' !in r[k + 1..]
    ensures LastIndexOf(r, '.') == Some(k)
  {
  }

  lemma RejoinAt(r: string, k: nat)
    requires k < |r| && r[k] == '.'
    ensures r[..k] + "." + r[k + 1..] == r
  {
  }

  /** Re-sanitising a cleaned name whose last `.` sits within the first 251 characters:
      the long case splits at that `.` and keeps a base that is already short enough. */
  lemma SanitizeOfDotted(r: string, k: nat)
    requires Cleaned(r) == r
    requires k <= 250 && k < |r| && r[k] == '.' && '.' !in r[k + 1..]
    ensures SanitizeFilename(r) == Some(r)
  {
    if |r| > 255 {
      LastDotAt(r, k);
      RejoinAt(r, k);
      assert Prefix(r[..k], 250) == r[..k];
    }
  }

  /** Sanitising a sanitised name changes nothing. */
  lemma SanitizeIdempotent(filename: string)
    requires SanitizeFilename(filename).Some?
    ensures SanitizeFilename(SanitizeFilename(filename).value) == SanitizeFilename(filename)
  {
    var cleaned := Cleaned(filename);
    var r := SanitizeFilename(filename).value;
    SanitizeSafeChars(filename);
    CleanedFixesSafe(r);
    if |cleaned| > 255 {
      var k := LastIndexOf(cleaned, '.').value;
      var name := Prefix(cleaned[..k], 250);
      var ext := cleaned[k + 1..];
      assert r == name + "." + ext;
      assert r[|name|] == '.' && r[|name| + 1..] == ext;
      SanitizeOfDotted(r, |name|);
    }
  }

  // ---------------------------------------------------------------------------
  // Query strings

  /** `sep.join(parts)` */
  function Join(sep: string, parts: seq<string>): string {
    if parts == [] then ""
    else if |parts| == 1 then parts[0]
    else parts[0] + sep + Join(sep, parts[1..])
  }

  /** The `f"{k}={v}"` items of the entries whose value is not None, in insertion order.
      A value is given as its `str()` text. */
  function Assignments(params: seq<(string, Option<string>)>): seq<string> {
    if params == [] then []
    else
      (if params[0].1.Some? then [params[0].0 + "=" + params[0].1.value] else [])
      + Assignments(params[1..])
  }

  /** `dict_to_query_params`, without any escaping. */
  function QueryParams(params: seq<(string, Option<string>)>): string {
    Join("&", Assignments(params))
  }

  /** The entries of a query string whose value is present. */
  function PresentEntries(params: seq<(string, Option<string>)>): seq<(string, string)> {
    if params == [] then []
    else
      (if params[0].1.Some? then [(params[0].0, params[0].1.value)] else [])
      + PresentEntries(params[1..])
  }

  function IndexOf(s: string, c: char): (r: Option<nat>)
    ensures r.Some? ==> r.value < |s| && s[r.value] == c && c !in s[..r.value]
    ensures r.None? <==> c !in s
  {
    if s == [] then None
    else if s[0] == c then Some(0)
    else match IndexOf(s[1..], c)
      case None => None
      case Some(i) => Some(i + 1)
  }

  /** `s.split(c)` */
  function Split(s: string, c: char): seq<string>
    decreases |s|
  {
    match IndexOf(s, c)
    case None => [s]
    case Some(i) => [s[..i]] + Split(s[i + 1..], c)
  }

  /** Reads one `k=v` item at its first `=`. */
  function ParseAssignment(item: string): (string, string) {
    match IndexOf(item, '=')
    case None => (item, "")
    case Some(i) => (item[..i], item[i + 1..])
  }

  function ParseAssignments(items: seq<string>): seq<(string, string)> {
    if items == [] then [] else [ParseAssignment(items[0])] + ParseAssignments(items[1..])
  }

  /** Reads a query string back into its entries. */
  function ParseQuery(q: string): seq<(string, string)> {
    if q == "" then [] else ParseAssignments(Split(q, '&'))
  }

  lemma {:induction false} SplitJoin(parts: seq<string>, c: char)
    requires parts != []
    requires forall i :: 0 <= i < |parts| ==> c !in parts[i]
    ensures Split(Join([c], parts), c) == parts
  {
    if |parts| > 1 {
      var s := Join([c], parts);
      var rest := Join([c], parts[1..]);
      assert s == parts[0] + [c] + rest;
      assert s[|parts[0]|] == c;
      assert s[..|parts[0]|] == parts[0];
      assert IndexOf(s, c) == Some(|parts[0]|);
      assert s[|parts[0]| + 1..] == rest;
      SplitJoin(parts[1..], c);
    }
  }

  /** An entry with a value that is not None gives a non-empty item. */
  predicate QuerySafe(params: seq<(string, Option<string>)>) {
    forall i :: 0 <= i < |params| ==>
      '&' !in params[i].0 && '=' !in params[i].0
      && (params[i].1.Some? ==> '&' !in params[i].1.value)
  }

  lemma {:induction false} AssignmentsShape(params: seq<(string, Option<string>)>)
    requires QuerySafe(params)
    ensures forall i :: 0 <= i < |Assignments(params)| ==> '&' !in Assignments(params)[i]
    ensures forall i :: 0 <= i < |Assignments(params)| ==> '=' in Assignments(params)[i]
    ensures ParseAssignments(Assignments(params)) == PresentEntries(params)
    ensures Assignments(params) == [] <==> PresentEntries(params) == []
  {
    if params != [] {
      assert QuerySafe(params[1..]) by {
        forall i | 0 <= i < |params[1..]| ensures
          '&' !in params[1..][i].0 && '=' !in params[1..][i].0
          && (params[1..][i].1.Some? ==> '&' !in params[1..][i].1.value)
        {
          assert params[1..][i] == params[i + 1];
        }
      }
      AssignmentsShape(params[1..]);
      var (k, v) := params[0];
      if v.Some? {
        var item := k + "=" + v.value;
        assert item[|k|] == '=' && item[..|k|] == k && item[|k| + 1..] == v.value;
        assert IndexOf(item, '=') == Some(|k|);
        assert '&' !in item;
        var tail := Assignments(params[1..]);
        assert Assignments(params) == [item] + tail;
        assert ParseAssignments([item] + tail) == [ParseAssignment(item)] + ParseAssignments(tail);
        assert ParseAssignment(item) == (k, v.value);
        assert PresentEntries(params) == [(k, v.value)] + PresentEntries(params[1..]);
      } else {
        assert Assignments(params) == Assignments(params[1..]);
        assert PresentEntries(params) == PresentEntries(params[1..]);
      }
    }
  }

  /** Reading the query string back gives exactly the entries whose value is not None, in
      order, when keys contain neither `&` nor `=` and values no `&`. */
  lemma QueryParamsRoundTrip(params: seq<(string, Option<string>)>)
    requires QuerySafe(params)
    ensures ParseQuery(QueryParams(params)) == PresentEntries(params)
  {
    AssignmentsShape(params);
    var items := Assignments(params);
    if items != [] {
      SplitJoin(items, '&');
      assert '=' in items[0];
      JoinNonEmpty(items);
    }
  }

  lemma JoinNonEmpty(items: seq<string>)
    requires items != [] && |items[0]| > 0
    ensures Join("&", items) != ""
  {
    if |items| > 1 {
      assert Join("&", items) == items[0] + "&" + Join("&", items[1..]);
    }
  }

  /** An empty dictionary, or one whose values are all None, gives "". */
  lemma {:induction false} QueryParamsAllNone(params: seq<(string, Option<string>)>)
    requires forall i :: 0 <= i < |params| ==> params[i].1.None?
    ensures QueryParams(params) == ""
  {
    if params != [] {
      QueryParamsAllNone(params[1..]);
    }
  }
}
