/**
 * Character-level helpers the queries rely on: Django's `icontains` lookup
 * (case-insensitive substring match), Python's `str.lower()` restricted to
 * ASCII letters, and `str(n)` / `int(s)` for the decimal identifiers that
 * travel through the payment provider as `external_reference`.
 */
module Text {
  import opened Util

  /** ASCII lower-casing of one character. */
  function Lower(c: char): char
  {
    if 'A' <= c <= 'Z' then (c as int + 32) as char else c
  }

  function LowerAll(s: string): (r: string)
    ensures |r| == |s|
    ensures forall i :: 0 <= i < |s| ==> r[i] == Lower(s[i])
  {
    seq(|s|, i requires 0 <= i < |s| => Lower(s[i]))
  }

  /** `needle` occurs in `hay` starting at position `i`. */
  predicate OccursAt(hay: string, needle: string, i: nat)
  {
    i + |needle| <= |hay| && hay[i..i + |needle|] == needle
  }

  lemma OccursAtShift(hay: string, needle: string, i: nat)
    requires |hay| > 0
    ensures OccursAt(hay[1..], needle, i) <==> OccursAt(hay, needle, i + 1)
  {
    if i + 1 + |needle| <= |hay| {
      assert hay[1..][i..i + |needle|] == hay[i + 1..i + 1 + |needle|];
    }
  }

  /** Substring test (`needle in hay`, SQL `LIKE '%needle%'`), scanning from the left. */
  function Contains(hay: string, needle: string): (b: bool)
    ensures b <==> exists i: nat :: i <= |hay| && OccursAt(hay, needle, i)
    decreases |hay|
  {
    if |needle| > |hay| then
      assert forall i: nat :: !OccursAt(hay, needle, i);
      false
    else if hay[..|needle|] == needle then
      assert OccursAt(hay, needle, 0);
      true
    else
      assert hay[..0] == [];
      var rest := Contains(hay[1..], needle);
      assert forall i: nat :: OccursAt(hay[1..], needle, i) <==> OccursAt(hay, needle, i + 1) by {
        forall i: nat ensures OccursAt(hay[1..], needle, i) <==> OccursAt(hay, needle, i + 1) {
          OccursAtShift(hay, needle, i);
        }
      }
      assert !OccursAt(hay, needle, 0);
      assert rest ==> exists i: nat :: i <= |hay| && OccursAt(hay, needle, i) by {
        if rest {
          var i: nat :| i <= |hay| - 1 && OccursAt(hay[1..], needle, i);
          assert OccursAt(hay, needle, i + 1);
        }
      }
      assert (exists i: nat :: i <= |hay| && OccursAt(hay, needle, i)) ==> rest by {
        if exists i: nat :: i <= |hay| && OccursAt(hay, needle, i) {
          var i: nat :| i <= |hay| && OccursAt(hay, needle, i);
          assert i != 0;
          assert OccursAt(hay[1..], needle, i - 1);
        }
      }
      rest
  }

  /** `needle` occurs in `hay` at position `i` when letters are compared without regard to case. */
  predicate OccursAtIgnoringCase(hay: string, needle: string, i: nat)
  {
    i + |needle| <= |hay| && forall j :: 0 <= j < |needle| ==> Lower(hay[i + j]) == Lower(needle[j])
  }

  lemma OccursLowered(hay: string, needle: string, i: nat)
    ensures OccursAt(LowerAll(hay), LowerAll(needle), i) <==> OccursAtIgnoringCase(hay, needle, i)
  {
    var lh, ln := LowerAll(hay), LowerAll(needle);
    if i + |needle| <= |hay| {
      if OccursAt(lh, ln, i) {
        forall j | 0 <= j < |needle| ensures Lower(hay[i + j]) == Lower(needle[j]) {
          assert lh[i..i + |needle|][j] == lh[i + j];
        }
      }
      if OccursAtIgnoringCase(hay, needle, i) {
        assert lh[i..i + |needle|] == ln;
      }
    }
  }

  /**
   * Django's `field__icontains=needle`: the needle occurs somewhere in the text
   * once both sides are lower-cased.
   */
  function ContainsIgnoringCase(hay: string, needle: string): (b: bool)
    ensures b <==> exists i: nat :: i <= |hay| && OccursAtIgnoringCase(hay, needle, i)
  {
    var r := Contains(LowerAll(hay), LowerAll(needle));
    assert forall i: nat :: OccursAt(LowerAll(hay), LowerAll(needle), i) <==> OccursAtIgnoringCase(hay, needle, i) by {
      forall i: nat ensures OccursAt(LowerAll(hay), LowerAll(needle), i) <==> OccursAtIgnoringCase(hay, needle, i) {
        OccursLowered(hay, needle, i);
      }
    }
    r
  }

  /** A text that holds the needle verbatim matches it ignoring case; so does one that differs only in case. */
  lemma ExactMatchIgnoresCase(hay: string, needle: string)
    requires Contains(hay, needle) || Contains(hay, LowerAll(needle))
    ensures ContainsIgnoringCase(hay, needle)
  {
    if Contains(hay, needle) {
      var i: nat :| i <= |hay| && OccursAt(hay, needle, i);
      forall j | 0 <= j < |needle| ensures Lower(hay[i + j]) == Lower(needle[j]) {
        assert hay[i..i + |needle|][j] == hay[i + j];
      }
      assert OccursAtIgnoringCase(hay, needle, i);
    } else {
      var ln := LowerAll(needle);
      var i: nat :| i <= |hay| && OccursAt(hay, ln, i);
      forall j | 0 <= j < |needle| ensures Lower(hay[i + j]) == Lower(needle[j]) {
        assert hay[i..i + |needle|][j] == hay[i + j];
        assert hay[i + j] == Lower(needle[j]);
      }
      assert OccursAtIgnoringCase(hay, needle, i);
    }
  }

  predicate IsDigit(c: char)
  {
    '0' <= c <= '9'
  }

  function DigitChar(d: nat): (c: char)
    requires d < 10
    ensures IsDigit(c)
  {
    ('0' as int + d) as char
  }

  /** `str(n)` for a non-negative integer: its decimal digits, most significant first. */
  function DecimalString(n: nat): (s: string)
    ensures |s| >= 1
    ensures forall i :: 0 <= i < |s| ==> IsDigit(s[i])
  {
    if n < 10 then [DigitChar(n)] else DecimalString(n / 10) + [DigitChar(n % 10)]
  }

  /** The value of a string of decimal digits (the empty string reads as 0); `None` if a non-digit occurs. */
  function DigitsValue(s: string): (r: Option<nat>)
    ensures r.Some? <==> forall i :: 0 <= i < |s| ==> IsDigit(s[i])
  {
    if |s| == 0 then Some(0)
    else
      var last := s[|s| - 1];
      match DigitsValue(s[..|s| - 1])
      case None => None
      case Some(v) =>
        if IsDigit(last) then Some(v * 10 + (last as int - '0' as int)) else None
  }

  /** `int(s)` for an identifier made of decimal digits; empty and non-digit strings are not identifiers. */
  function ParseDecimal(s: string): (r: Option<nat>)
    ensures r.Some? <==> |s| > 0 && forall i :: 0 <= i < |s| ==> IsDigit(s[i])
  {
    if |s| == 0 then None else DigitsValue(s)
  }

  /** Reading back what `str` wrote gives the same identifier. */
  lemma {:induction false} DecimalRoundTrip(n: nat)
    ensures ParseDecimal(DecimalString(n)) == Some(n)
  {
    if n < 10 {
      var s := DecimalString(n);
      assert s[..|s| - 1] == [];
      assert DigitsValue(s[..|s| - 1]) == Some(0);
    } else {
      var s := DecimalString(n);
      DecimalRoundTrip(n / 10);
      assert s[..|s| - 1] == DecimalString(n / 10);
      assert s[|s| - 1] == DigitChar(n % 10);
    }
  }
}
