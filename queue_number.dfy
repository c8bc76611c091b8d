/**
 * Ticket numbers of the form "S5-NN": how the admin console derives the next
 * number from the last one stored in the queue meta document.
 */
module QueueNumber {
  import opened Wrappers
  import opened JsStrings

  const Prefix: string := "S5-"

  /** The number issued first on a new day, and the number a reset stores. */
  const First: string := "S5-01"

  /** `String(x)` of the JavaScript number `x`, for the integers and the NaN issuing can produce. */
  function NumberToString(x: Option<int>): string {
    match x
    case None => "NaN"
    case Some(k) => IntToString(k)
  }

  /**
   * The last issued count as the code reads it from the stored number:
   * `parseInt` of what follows "S5-", or 0 when no number is stored or it lacks
   * the prefix. `None` is NaN (a prefix followed by no digits).
   */
  function LastIssued(stored: Option<string>): Option<int> {
    if stored.Some? && stored.value != "" && StartsWith(stored.value, Prefix)
    then ParseInt(stored.value[|Prefix|..])
    else Some(0)
  }

  /** The number issued after `stored` on the same day: the last count plus one, padded to two digits. */
  function Next(stored: Option<string>): (r: string)
    ensures StartsWith(r, Prefix) && |r| >= |Prefix| + 2
  {
    var next := match LastIssued(stored) case None => None case Some(n) => Some(n + 1);
    Prefix + PadStart(NumberToString(next), 2, '0')
  }

  /** The number of the `k`-th ticket of a day: "S5-" and `k` left-padded with zeros to two digits. */
  function Numbered(k: nat): string {
    Prefix + PadStart(NatToString(k), 2, '0')
  }

  /** S5-01 is the first number of the sequence. */
  lemma FirstIsNumberedOne()
    ensures Numbered(1) == First
  {
    assert DigitChar(1) == '1';
    assert NatToString(1) == "1";
    assert Repeat('0', 1) == "0";
    assert PadStart("1", 2, '0') == "01";
  }

  /** The zero-padded count is a numeral whose value is the count. */
  lemma PaddedValue(k: nat)
    ensures var p := PadStart(NatToString(k), 2, '0');
            p != [] && AllDigits(p) && DigitsValue(p) == k
  {
    PadStartValue(NatToString(k), 2);
  }

  /** "S5-" followed by a numeral reads back as the numeral's value. */
  lemma PrefixedReadsBack(s: string, p: string)
    requires s == Prefix + p && p != [] && AllDigits(p)
    ensures StartsWith(s, Prefix) && LastIssued(Some(s)) == Some(DigitsValue(p))
  {
    assert s[..|Prefix|] == Prefix;
    assert s[|Prefix|..] == p + [];
    ParseIntOfNumeral(p, []);
  }

  /** After "S5-" and any numeral (padded or not, such as "S5-5" or "S5-007") comes the numeral's value plus one. */
  lemma NextAfterPrefixed(p: string)
    requires p != [] && AllDigits(p)
    ensures Next(Some(Prefix + p)) == Numbered(DigitsValue(p) + 1)
  {
    PrefixedReadsBack(Prefix + p, p);
    assert NumberToString(Some(DigitsValue(p) + 1)) == NatToString(DigitsValue(p) + 1);
  }

  /** The suffix of a well-formed number reads back as its count. */
  lemma NumberedReadsBack(k: nat)
    ensures StartsWith(Numbered(k), Prefix)
    ensures LastIssued(Some(Numbered(k))) == Some(k)
  {
    PaddedValue(k);
    PrefixedReadsBack(Numbered(k), PadStart(NatToString(k), 2, '0'));
  }

  /** Issuing after the `k`-th number gives the `k + 1`-th: the same-day sequence S5-01, S5-02, ... */
  lemma NextAfterNumbered(k: nat)
    ensures Next(Some(Numbered(k))) == Numbered(k + 1)
  {
    NumberedReadsBack(k);
    assert NumberToString(Some(k + 1)) == NatToString(k + 1);
  }

  /** Padding never truncates: the count appears in full at the end, after at least "S5-" and two characters. */
  lemma NumberedNeverTruncates(k: nat)
    ensures |Numbered(k)| == |Prefix| + (if |NatToString(k)| < 2 then 2 else |NatToString(k)|)
    ensures Numbered(k)[|Numbered(k)| - |NatToString(k)|..] == NatToString(k)
  {
    var s := Numbered(k);
    var ds := NatToString(k);
    assert s[|s| - |ds|..] == PadStart(ds, 2, '0')[|PadStart(ds, 2, '0')| - |ds|..];
  }

  lemma NumberedNinetyNine()
    ensures Numbered(99) == "S5-99"
  {
    assert DigitChar(9) == '9';
    assert NatToString(9) == "9";
    assert NatToString(99) == "99";
    assert PadStart("99", 2, '0') == "99";
  }

  lemma NumberedHundred()
    ensures Numbered(100) == "S5-100"
  {
    assert DigitChar(0) == '0' && DigitChar(1) == '1';
    assert NatToString(1) == "1";
    assert NatToString(10) == "10";
    assert NatToString(100) == "100";
    assert PadStart("100", 2, '0') == "100";
  }

  /** After S5-99 comes S5-100. */
  lemma NextAfterNinetyNine()
    ensures Next(Some("S5-99")) == "S5-100"
  {
    NumberedNinetyNine();
    NextAfterNumbered(99);
    NumberedHundred();
  }

  /** Two different counts never give the same number, so no two tickets of one day share a number. */
  lemma NumberedDistinct(j: nat, k: nat)
    requires j != k
    ensures Numbered(j) != Numbered(k)
  {
    NumberedReadsBack(j);
    NumberedReadsBack(k);
  }

  /** A stored number without the "S5-" prefix (or none at all) restarts the count: the next number is S5-01. */
  lemma NextWithoutPrefix(stored: Option<string>)
    requires stored.None? || !StartsWith(stored.value, Prefix)
    ensures Next(stored) == First
  {
    FirstIsNumberedOne();
    assert LastIssued(stored) == Some(0);
    assert NumberToString(Some(1)) == NatToString(1);
    assert Next(stored) == Numbered(1);
  }

  /**
   * A stored suffix with no leading digits reads as NaN, so the code issues
   * "S5-NaN" ...
   */
  lemma NextAfterMalformed()
    ensures Next(Some("S5-")) == "S5-NaN"
  {
    assert StartsWith("S5-", Prefix);
    assert "S5-"[3..] == [];
    assert TrimStart("") == "" && LeadingDigits("") == [];
    assert ParseInt("") == None;
    assert LastIssued(Some("S5-")) == None;
    assert NumberToString(None) == "NaN";
    assert PadStart("NaN", 2, '0') == "NaN";
  }

  /** ... and keeps issuing "S5-NaN" for the rest of the day. */
  lemma NextAfterNaN()
    ensures Next(Some("S5-NaN")) == "S5-NaN"
  {
    assert StartsWith("S5-NaN", Prefix);
    assert "S5-NaN"[3..] == "NaN";
    assert !IsWhiteSpace('N') && !IsDigit('N');
    assert TrimStart("NaN") == "NaN";
    assert LeadingDigits("NaN") == [];
    assert ParseInt("NaN") == None;
    assert LastIssued(Some("S5-NaN")) == None;
    assert PadStart("NaN", 2, '0') == "NaN";
  }
}
