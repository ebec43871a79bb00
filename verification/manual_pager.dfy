/**
 * The page controls of the manual viewer, `src/pages/Manual.jsx`: a page
 * counter bounded by the document's page count, Prev/Next buttons, and a
 * "go to page" box whose text is reduced to digits as it is typed.
 * Loading and drawing the PDF itself is outside the model; the page count
 * arrives through `OnDocumentLoaded`.
 */
module ManualPager {
  import opened Optional
  import opened Strings

  /**
   * The component's state: the current page, the page count (`None` until
   * the document has loaded, where the source holds `null`) and the text of
   * the go-to box.
   */
  datatype Pager = Pager(pageNumber: int, numPages: Option<int>, inputValue: string)

  function Initial(): (s: Pager)
    ensures s.pageNumber == 1 && s.numPages.None? && s.inputValue == ""
  {
    Pager(1, None, "")
  }

  /** The page count as `<` and `<=` see it: `null` converts to 0. */
  function ComparedPages(n: Option<int>): int {
    if n.Some? then n.value else 0
  }

  /** What every reachable state satisfies: the page lies in `[1, numPages]` once loaded, is 1 before, and the box holds digits only. */
  predicate Valid(s: Pager) {
    && (match s.numPages
        case None => s.pageNumber == 1
        case Some(n) => 1 <= s.pageNumber <= n)
    && AllDigits(s.inputValue)
  }

  /** The document finished loading with `n` pages, stored as reported. */
  function OnDocumentLoaded(s: Pager, n: int): (r: Pager)
    ensures r.numPages == Some(n) && r.pageNumber == s.pageNumber && r.inputValue == s.inputValue
  {
    s.(numPages := Some(n))
  }

  /** `handlePrev`: step back one page unless already on the first. */
  function HandlePrev(s: Pager): (r: Pager)
    ensures r.numPages == s.numPages && r.inputValue == s.inputValue
    ensures s.pageNumber >= 1 ==> r.pageNumber >= 1
    ensures s.pageNumber - 1 <= r.pageNumber <= s.pageNumber
    ensures r.pageNumber < s.pageNumber <==> s.pageNumber > 1
  {
    if s.pageNumber > 1 then s.(pageNumber := s.pageNumber - 1) else s
  }

  /** `handleNext`: step forward one page unless already on the last (or nothing is loaded). */
  function HandleNext(s: Pager): (r: Pager)
    ensures r.numPages == s.numPages && r.inputValue == s.inputValue
    ensures s.pageNumber <= r.pageNumber <= s.pageNumber + 1
    ensures r.pageNumber > s.pageNumber <==> s.pageNumber < ComparedPages(s.numPages)
    ensures s.numPages.None? && s.pageNumber >= 0 ==> r == s
  {
    if s.pageNumber < ComparedPages(s.numPages) then s.(pageNumber := s.pageNumber + 1) else s
  }

  /** `e.target.value.replace(/[^0-9]/g, "")`: the digits of `s`, in order. */
  function KeepDigits(s: string): (r: string)
    ensures AllDigits(r)
    ensures |r| <= |s|
  {
    if |s| == 0 then ""
    else if IsDigit(s[0]) then [s[0]] + KeepDigits(s[1..])
    else KeepDigits(s[1..])
  }

  /** `a` can be obtained from `b` by deleting characters. */
  predicate IsSubsequence(a: string, b: string)
    decreases |b|
  {
    |a| == 0 || (|b| > 0 && (IsSubsequence(a, b[1..]) || (a[0] == b[0] && IsSubsequence(a[1..], b[1..]))))
  }

  /** The sanitised text is a subsequence of what was typed. */
  lemma {:induction false} KeepDigitsIsSubsequence(s: string)
    ensures IsSubsequence(KeepDigits(s), s)
  {
    if |s| > 0 {
      KeepDigitsIsSubsequence(s[1..]);
      if IsDigit(s[0]) {
        assert KeepDigits(s)[1..] == KeepDigits(s[1..]);
      }
    }
  }

  /** The sanitised text keeps every digit occurrence of the input and nothing else. */
  lemma {:induction false} KeepDigitsCounts(s: string, c: char)
    ensures multiset(KeepDigits(s))[c] == if IsDigit(c) then multiset(s)[c] else 0
  {
    if |s| > 0 {
      KeepDigitsCounts(s[1..], c);
      assert s == [s[0]] + s[1..];
    }
  }

  /** Text that is already all digits passes through unchanged; so sanitising twice is sanitising once. */
  lemma {:induction false} KeepDigitsIdempotent(s: string)
    ensures AllDigits(s) ==> KeepDigits(s) == s
    ensures KeepDigits(KeepDigits(s)) == KeepDigits(s)
  {
    if |s| > 0 {
      KeepDigitsIdempotent(s[1..]);
      if AllDigits(s) {
        assert AllDigits(s[1..]);
      }
    }
    AllDigitsFixed(KeepDigits(s));
  }

  lemma {:induction false} AllDigitsFixed(s: string)
    requires AllDigits(s)
    ensures KeepDigits(s) == s
  {
    if |s| > 0 {
      assert AllDigits(s[1..]);
      AllDigitsFixed(s[1..]);
    }
  }

  /** `handleInputChange`: the box shows the digits of what was typed. */
  function HandleInputChange(s: Pager, typed: string): (r: Pager)
    ensures r.pageNumber == s.pageNumber && r.numPages == s.numPages
    ensures r.inputValue == KeepDigits(typed)
    ensures AllDigits(r.inputValue) && IsSubsequence(r.inputValue, typed)
  {
    KeepDigitsIsSubsequence(typed);
    s.(inputValue := KeepDigits(typed))
  }

  function DigitValue(c: char): nat
    requires IsDigit(c)
  {
    c as int - '0' as int
  }

  /** The longest prefix of `s` made of digits. */
  function LeadingDigits(s: string): (ds: string)
    ensures AllDigits(ds) && ds <= s
    ensures ds == s || !IsDigit(s[|ds|])
  {
    if |s| == 0 || !IsDigit(s[0]) then ""
    else [s[0]] + LeadingDigits(s[1..])
  }

  /** The value of a decimal numeral, most significant digit first. */
  function DecimalValue(ds: string): nat
    requires AllDigits(ds)
    decreases |ds|
  {
    if |ds| == 0 then 0
    else 10 * DecimalValue(ds[..|ds| - 1]) + DigitValue(ds[|ds| - 1])
  }

  /** `parseInt(s, 10)` on text without leading blanks or sign: `None` stands for `NaN`. */
  function ParseInt(s: string): (r: Option<nat>)
    ensures r.None? <==> |s| == 0 || !IsDigit(s[0])
  {
    var ds := LeadingDigits(s);
    if |ds| == 0 then None else Some(DecimalValue(ds))
  }

  /** Any non-empty digit string, leading zeros included, parses to its decimal value. */
  lemma ParseIntDigits(s: string)
    requires AllDigits(s) && |s| > 0
    ensures ParseInt(s) == Some(DecimalValue(s))
  {
    AllDigitsLead(s);
  }

  /** A leading zero does not change a numeral's value, so "05" parses as 5. */
  lemma {:induction false} LeadingZeroIgnored(s: string)
    requires AllDigits(s)
    ensures AllDigits("0" + s) && DecimalValue("0" + s) == DecimalValue(s)
    decreases |s|
  {
    var z := "0" + s;
    assert AllDigits(z) by {
      assert forall i :: 0 < i < |z| ==> z[i] == s[i - 1];
    }
    if |s| > 0 {
      assert z[..|z| - 1] == "0" + s[..|s| - 1];
      assert AllDigits(s[..|s| - 1]);
      LeadingZeroIgnored(s[..|s| - 1]);
    }
  }

  /** The box text "05" parses as 5: `parseInt` skips the leading zero. */
  lemma ParseLeadingZeroExample()
    ensures ParseInt("05") == Some(5)
  {
    ParseIntDigits("05");
    LeadingZeroIgnored("5");
    assert "0" + "5" == "05";
  }

  /** The shortest decimal numeral of `n`. */
  function ToDecimal(n: nat): (s: string)
    ensures AllDigits(s) && |s| >= 1
    decreases n
  {
    var d := ['0' + ((n % 10) as char)];
    if n < 10 then d else ToDecimal(n / 10) + d
  }

  /** Parsing the numeral of a page number gives that page number back. */
  lemma {:induction false} ParseIntRoundTrip(n: nat)
    ensures ParseInt(ToDecimal(n)) == Some(n)
  {
    var s := ToDecimal(n);
    AllDigitsLead(s);
    DecimalValueOfToDecimal(n);
  }

  lemma {:induction false} AllDigitsLead(s: string)
    requires AllDigits(s)
    ensures LeadingDigits(s) == s
  {
    if |s| > 0 {
      assert AllDigits(s[1..]);
      AllDigitsLead(s[1..]);
    }
  }

  lemma {:induction false} DecimalValueOfToDecimal(n: nat)
    ensures DecimalValue(ToDecimal(n)) == n
    decreases n
  {
    var s := ToDecimal(n);
    if n >= 10 {
      DecimalValueOfToDecimal(n / 10);
      assert s[..|s| - 1] == ToDecimal(n / 10);
    }
  }

  /** `handleInputGo`: jump to the typed page when it exists, and clear the box either way. */
  function HandleInputGo(s: Pager): (r: Pager)
    ensures r.inputValue == "" && r.numPages == s.numPages
    ensures r.pageNumber != s.pageNumber ==> 1 <= r.pageNumber <= ComparedPages(s.numPages)
    ensures ParseInt(s.inputValue).None? ==> r.pageNumber == s.pageNumber
    ensures var page := ParseInt(s.inputValue);
            page.Some? && 1 <= page.value <= ComparedPages(s.numPages) ==> r.pageNumber == page.value
    ensures var page := ParseInt(s.inputValue);
            !(page.Some? && 1 <= page.value <= ComparedPages(s.numPages)) ==> r.pageNumber == s.pageNumber
  {
    var page := ParseInt(s.inputValue);
    var s' := if page.Some? && page.value >= 1 && page.value <= ComparedPages(s.numPages)
              then s.(pageNumber := page.value) else s;
    s'.(inputValue := "")
  }

  /** The Prev button is disabled on the first page. */
  function PrevDisabled(s: Pager): (disabled: bool)
    ensures Valid(s) ==> (disabled <==> HandlePrev(s) == s)
  {
    s.pageNumber == 1
  }

  /** The Next button is disabled on the last page; the strict equality does not convert `null`. */
  function NextDisabled(s: Pager): (disabled: bool)
    ensures s.numPages.None? ==> !disabled
    ensures Valid(s) && s.numPages.Some? ==> (disabled <==> HandleNext(s) == s)
  {
    s.numPages == Some(s.pageNumber)
  }

  /** Every control keeps the state valid, from the initial state on. */
  lemma ControlsPreserveValid(s: Pager, typed: string, n: int)
    requires Valid(s)
    ensures Valid(Initial())
    ensures Valid(HandlePrev(s)) && Valid(HandleNext(s)) && Valid(HandleInputGo(s))
    ensures Valid(HandleInputChange(s, typed))
    ensures s.numPages.None? && n >= 1 ==> Valid(OnDocumentLoaded(s, n))
  {
  }

  /** Before the document loads, Next and Go leave the page where it is. */
  lemma UnloadedIsInert(s: Pager)
    requires Valid(s) && s.numPages.None?
    ensures HandleNext(s).pageNumber == s.pageNumber
    ensures HandleInputGo(s).pageNumber == s.pageNumber
    ensures !NextDisabled(s)
  {
  }
}
