/** The field cleaners `clean_price`, `clean_surface` and `clean_rooms`:
    total functions from a scraped string to an optional number. */
module Cleaners {
  import opened Wrappers
  import opened Text

  // ---------------------------------------------------------------------
  // Decimal numerals

  /** `int(ds)` for a string of decimal digits (leading zeros allowed). */
  function DecimalValue(ds: string): (n: nat)
    requires AllDigits(ds)
    ensures n < Pow10(|ds|)
    decreases |ds|
  {
    if ds == [] then 0
    else
      var v, d := DecimalValue(ds[..|ds| - 1]), DigitValue(ds[|ds| - 1]);
      // v <= Pow10(k - 1) - 1 and d <= 9 give v * 10 + d <= 10 * Pow10(k - 1) - 1.
      assert v * 10 <= (Pow10(|ds| - 1) - 1) * 10;
      v * 10 + d
  }

  /** `str(n)`: the decimal rendering of `n`, without leading zeros. */
  function Decimal(n: nat): (ds: string)
    ensures |ds| > 0 && AllDigits(ds)
    ensures |ds| > 1 ==> ds[0] != '0'
    decreases n
  {
    if n < 10 then [DigitChar(n)] else Decimal(n / 10) + [DigitChar(n % 10)]
  }

  /** `int(str(n)) == n`. */
  lemma {:induction false} DecimalRoundTrip(n: nat)
    ensures DecimalValue(Decimal(n)) == n
    decreases n
  {
    if n >= 10 {
      var ds := Decimal(n);
      DecimalRoundTrip(n / 10);
      assert ds[..|ds| - 1] == Decimal(n / 10);
    }
  }

  function Pow10(k: nat): (p: nat)
    ensures p >= 1
  {
    if k == 0 then 1 else 10 * Pow10(k - 1)
  }

  /** Reading two digit strings one after the other. */
  lemma {:induction false} DecimalValueConcat(a: string, b: string)
    requires AllDigits(a) && AllDigits(b)
    ensures AllDigits(a + b)
    ensures DecimalValue(a + b) == Followed(DecimalValue(a), |b|, DecimalValue(b))
    decreases |b|
  {
    var ab := a + b;
    assert AllDigits(ab);
    if b == [] {
      assert ab == a;
    } else {
      var b' := b[..|b| - 1];
      assert ab[..|ab| - 1] == a + b';
      assert ab[|ab| - 1] == b[|b| - 1];
      DecimalValueConcat(a, b');
      assert Pow10(|b|) == 10 * Pow10(|b'|);
      ShiftDigit(DecimalValue(a), Pow10(|b'|), DecimalValue(b'), DigitValue(b[|b| - 1]));
    }
  }

  /** Appending one digit to `x` followed by `y` (read as `x * p + y`). */
  lemma ShiftDigit(x: nat, p: nat, y: nat, d: nat)
    ensures (x * p + y) * 10 + d == x * (10 * p) + (y * 10 + d)
  {
    calc {
      (x * p + y) * 10 + d;
      (x * p) * 10 + y * 10 + d;
      { assert (x * p) * 10 == x * (10 * p); }
      x * (10 * p) + (y * 10 + d);
    }
  }

  // ---------------------------------------------------------------------
  // clean_price

  /** `re.sub(r"[^\d]", "", text)`: the digits of `text`, in order. */
  function Digits(s: string): (ds: string)
    ensures AllDigits(ds)
    ensures ds == [] <==> forall i | 0 <= i < |s| :: !IsDigit(s[i])
    decreases |s|
  {
    if s == [] then []
    else
      var rest := Digits(s[1..]);
      assert forall i | 1 <= i < |s| :: s[1..][i - 1] == s[i];
      (if IsDigit(s[0]) then [s[0]] else []) + rest
  }

  lemma {:induction false} DigitsConcat(a: string, b: string)
    ensures Digits(a + b) == Digits(a) + Digits(b)
    decreases |a|
  {
    if a == [] {
      assert a + b == b;
    } else {
      assert (a + b)[1..] == a[1..] + b;
      DigitsConcat(a[1..], b);
    }
  }

  /** `clean_price`: nothing for an empty text or one without digits,
      otherwise the number all its digits spell, read left to right. */
  function CleanPrice(text: string): (r: Option<nat>)
    ensures r.None? <==> forall i | 0 <= i < |text| :: !IsDigit(text[i])
  {
    if text == [] then None
    else
      var ds := Digits(text);
      if ds == [] then None else Some(DecimalValue(ds))
  }

  /** A decimal numeral with digit-free separators (spaces, "DH", a
      non-breaking space) around and between its digits: `seps[0] ds[0]
      seps[1] ds[1] ... seps[|ds|]`. */
  function Spread(ds: string, seps: seq<string>): string
    requires |seps| == |ds| + 1
    decreases |ds|
  {
    if ds == [] then seps[0] else seps[0] + [ds[0]] + Spread(ds[1..], seps[1..])
  }

  predicate DigitFree(seps: seq<string>) {
    forall k | 0 <= k < |seps| :: Digits(seps[k]) == []
  }

  lemma {:induction false} DigitsOfSpread(ds: string, seps: seq<string>)
    requires |seps| == |ds| + 1 && AllDigits(ds) && DigitFree(seps)
    ensures Digits(Spread(ds, seps)) == ds
    decreases |ds|
  {
    if ds != [] {
      assert DigitFree(seps[1..]) by {
        forall k | 0 <= k < |seps[1..]| ensures Digits(seps[1..][k]) == [] {
          assert seps[1..][k] == seps[k + 1];
        }
      }
      assert AllDigits(ds[1..]) by {
        forall k | 0 <= k < |ds[1..]| ensures IsDigit(ds[1..][k]) {
          assert ds[1..][k] == ds[k + 1];
        }
      }
      DigitsOfSpread(ds[1..], seps[1..]);
      DigitsConcat(seps[0], [ds[0]]);
      DigitsConcat(seps[0] + [ds[0]], Spread(ds[1..], seps[1..]));
      assert Digits([ds[0]]) == [ds[0]] by {
        assert [ds[0]][1..] == [];
      }
      assert [ds[0]] + ds[1..] == ds;
    }
  }

  /** Whatever digit-free separators are put around and between the digits
      of `str(n)`, `clean_price` reads back `n`. */
  lemma CleanPriceIgnoresSeparators(n: nat, seps: seq<string>)
    requires |seps| == |Decimal(n)| + 1 && DigitFree(seps)
    ensures CleanPrice(Spread(Decimal(n), seps)) == Some(n)
  {
    DigitsOfSpread(Decimal(n), seps);
    DecimalRoundTrip(n);
  }

  /** The number whose decimal digits are those of `x` followed by the `n`
      digits that spell `y`. */
  function Followed(x: nat, n: nat, y: nat): nat {
    x * Pow10(n) + y
  }

  /** Two figures on one line are read as one number: the digits of the
      second are appended to those of the first. */
  lemma CleanPriceJoinsFigures(a: string, b: string)
    requires CleanPrice(a).Some? && CleanPrice(b).Some?
    ensures CleanPrice(a + b) == Some(Followed(CleanPrice(a).value, |Digits(b)|, CleanPrice(b).value))
  {
    var da, db := Digits(a), Digits(b);
    CleanPriceOfDigits(a);
    CleanPriceOfDigits(b);
    DigitsConcat(a, b);
    DecimalValueConcat(da, db);
    CleanPriceOfDigits(a + b);
  }

  lemma CleanPriceOfDigits(text: string)
    ensures Digits(text) == [] <==> CleanPrice(text).None?
    ensures Digits(text) != [] ==> CleanPrice(text) == Some(DecimalValue(Digits(text)))
  {
  }

  // ---------------------------------------------------------------------
  // clean_surface and clean_rooms: re.search(r"(\d+)\s*UNIT", text, re.IGNORECASE)

  /** The unit that ends the pattern: `m` for `clean_surface`, and
      `pi[eè]ces?|ch(?:ambres?)?\.?` for `clean_rooms`. */
  datatype Unit = Metre | Room

  /** `c` matches the pattern letter `l` (given in lower case) under
      `re.IGNORECASE`. */
  predicate Folds(c: char, l: char) {
    c == l || (IsLowerLetter(l) && c == UpperChar(l))
  }

  /** The unit pattern matches at position `k` of `s`. The optional tails
      (`s?`, `ambres?`, `\.?`) also match the empty string, so the match at
      `k` only needs "piece", "pièce" or "ch". */
  predicate UnitAt(u: Unit, s: string, k: int) {
    0 <= k < |s| &&
    match u
    case Metre => Folds(s[k], 'm')
    case Room =>
      || (k + 5 <= |s| && Folds(s[k], 'p') && Folds(s[k + 1], 'i')
          && (Folds(s[k + 2], 'e') || Folds(s[k + 2], '\U{E8}'))
          && Folds(s[k + 3], 'c') && Folds(s[k + 4], 'e'))
      || (k + 2 <= |s| && Folds(s[k], 'c') && Folds(s[k + 1], 'h'))
  }

  lemma UnitIsLetter(u: Unit, s: string, k: int)
    requires UnitAt(u, s, k)
    ensures !IsDigit(s[k]) && !IsSpace(s[k])
  {
  }

  /** The end of the run of digits that starts at `i`. */
  function DigitRunEnd(s: string, i: nat): (j: nat)
    requires i <= |s|
    ensures i <= j <= |s| && AllDigits(s[i..j])
    ensures j == |s| || !IsDigit(s[j])
    decreases |s| - i
  {
    if i < |s| && IsDigit(s[i]) then
      var j := DigitRunEnd(s, i + 1);
      assert s[i..j] == [s[i]] + s[i + 1..j];
      j
    else i
  }

  /** The end of the run of whitespace that starts at `i`. */
  function SpaceRunEnd(s: string, i: nat): (j: nat)
    requires i <= |s|
    ensures i <= j <= |s| && AllSpaces(s[i..j])
    ensures j == |s| || !IsSpace(s[j])
    decreases |s| - i
  {
    if i < |s| && IsSpace(s[i]) then
      var j := SpaceRunEnd(s, i + 1);
      assert s[i..j] == [s[i]] + s[i + 1..j];
      j
    else i
  }

  /** What the regular expression means at start position `i`: some
      non-empty run of digits `s[i..j]`, then whitespace `s[j..k]`, then the
      unit at `k`; the engine may take any such split by backtracking. */
  ghost predicate RegexMatchesAt(u: Unit, s: string, i: nat) {
    exists j: nat, k: nat | i < j <= k <= |s| ::
      AllDigits(s[i..j]) && AllSpaces(s[j..k]) && UnitAt(u, s, k)
  }

  /** The greedy reading: all the digits from `i`, all the whitespace after
      them, then the unit. */
  predicate MatchesAt(u: Unit, s: string, i: nat) {
    i < |s| && IsDigit(s[i]) && UnitAt(u, s, SpaceRunEnd(s, DigitRunEnd(s, i)))
  }

  /** Backtracking gains nothing: a match exists at `i` exactly when the
      greedy split is one, and then it is the only one, so the captured
      group is the whole digit run. */
  lemma GreedySplitIsOnlySplit(u: Unit, s: string, i: nat, j: nat, k: nat)
    requires i < j <= k <= |s| && AllDigits(s[i..j]) && AllSpaces(s[j..k]) && UnitAt(u, s, k)
    ensures j == DigitRunEnd(s, i) && k == SpaceRunEnd(s, j)
  {
    UnitIsLetter(u, s, k);
    // The digits stop at j: what follows is whitespace or the unit.
    forall m | i <= m < j ensures IsDigit(s[m]) {
      assert s[i..j][m - i] == s[m];
    }
    if j < k {
      assert s[j..k][0] == s[j];
    }
    DigitRunEndAt(s, i, j);
    // The whitespace stops at k, where the unit's first letter stands.
    forall m | j <= m < k ensures IsSpace(s[m]) {
      assert s[j..k][m - j] == s[m];
    }
    SpaceRunEndAt(s, j, k);
  }

  /** A run of digits from `i` to `j` that nothing extends ends at `j`. */
  lemma {:induction false} DigitRunEndAt(s: string, i: nat, j: nat)
    requires i <= j <= |s| && (forall m | i <= m < j :: IsDigit(s[m]))
    requires j == |s| || !IsDigit(s[j])
    ensures DigitRunEnd(s, i) == j
    decreases j - i
  {
    if i < j {
      DigitRunEndAt(s, i + 1, j);
    }
  }

  /** A run of whitespace from `i` to `j` that nothing extends ends at `j`. */
  lemma {:induction false} SpaceRunEndAt(s: string, i: nat, j: nat)
    requires i <= j <= |s| && (forall m | i <= m < j :: IsSpace(s[m]))
    requires j == |s| || !IsSpace(s[j])
    ensures SpaceRunEnd(s, i) == j
    decreases j - i
  {
    if i < j {
      SpaceRunEndAt(s, i + 1, j);
    }
  }

  lemma GreedyMatchesRegex(u: Unit, s: string, i: nat)
    ensures MatchesAt(u, s, i) <==> RegexMatchesAt(u, s, i)
  {
    if MatchesAt(u, s, i) {
      var j := DigitRunEnd(s, i);
      var k := SpaceRunEnd(s, j);
      assert i < j <= k <= |s| && AllDigits(s[i..j]) && AllSpaces(s[j..k]) && UnitAt(u, s, k);
    }
    if RegexMatchesAt(u, s, i) {
      var j: nat, k: nat :| i < j <= k <= |s| && AllDigits(s[i..j]) && AllSpaces(s[j..k]) && UnitAt(u, s, k);
      GreedySplitIsOnlySplit(u, s, i, j, k);
    }
  }

  /** `re.search`: the leftmost start position, from `i` on, at which the
      pattern matches. */
  function SearchFrom(u: Unit, s: string, i: nat): (r: Option<nat>)
    requires i <= |s|
    ensures r.None? ==> forall q | i <= q < |s| :: !MatchesAt(u, s, q)
    ensures r.Some? ==> i <= r.value < |s| && MatchesAt(u, s, r.value)
    ensures r.Some? ==> forall q | i <= q < r.value :: !MatchesAt(u, s, q)
    decreases |s| - i
  {
    if i == |s| then None
    else if MatchesAt(u, s, i) then Some(i)
    else SearchFrom(u, s, i + 1)
  }

  /** `int(m.group(1))` for a match starting at `p`. */
  function RunValue(s: string, p: nat): nat
    requires p <= |s|
  {
    DecimalValue(s[p..DigitRunEnd(s, p)])
  }

  /** The shared body of `clean_surface` and `clean_rooms`: nothing when
      the greedy scan matches nowhere, otherwise the value of the digits
      at some position where it matches. */
  function CleanNumberBefore(u: Unit, text: string): (r: Option<nat>)
    ensures r.None? <==> forall q | 0 <= q < |text| :: !MatchesAt(u, text, q)
    ensures r.Some? ==> exists p | 0 <= p < |text| :: MatchesAt(u, text, p) && r.value == RunValue(text, p)
  {
    if text == [] then None
    else match SearchFrom(u, text, 0)
      case None => None
      case Some(p) => Some(RunValue(text, p))
  }

  /** `clean_surface`: the number before the first "m" (or "M") that only
      whitespace separates from a run of digits; nothing when there is none. */
  function CleanSurface(text: string): (r: Option<nat>)
    ensures r.None? <==> forall q | 0 <= q < |text| :: !RegexMatchesAt(Metre, text, q)
    ensures r.Some? ==> exists p | 0 <= p < |text| ::
              && RunStart(text, p)
              && RegexMatchesAt(Metre, text, p)
              && (forall q | 0 <= q < p :: !RegexMatchesAt(Metre, text, q))
              && r.value == RunValue(text, p)
  {
    CleanNumberIsFirstRun(Metre, text);
    CleanNumberBefore(Metre, text)
  }

  /** `clean_rooms`: the number before the first "pièce(s)", "piece(s)" or
      "ch(ambre(s))". */
  function CleanRooms(text: string): (r: Option<nat>)
    ensures r.None? <==> forall q | 0 <= q < |text| :: !RegexMatchesAt(Room, text, q)
    ensures r.Some? ==> exists p | 0 <= p < |text| ::
              && RunStart(text, p)
              && RegexMatchesAt(Room, text, p)
              && (forall q | 0 <= q < p :: !RegexMatchesAt(Room, text, q))
              && r.value == RunValue(text, p)
  {
    CleanNumberIsFirstRun(Room, text);
    CleanNumberBefore(Room, text)
  }

  /** A maximal run of digits starts at `p`. */
  predicate RunStart(s: string, p: nat) {
    p < |s| && IsDigit(s[p]) && (p == 0 || !IsDigit(s[p - 1]))
  }

  /** The matched position is the start of a whole run of digits: starting
      one character earlier, inside the same run, would have matched too. */
  lemma {:induction false} MatchStartsRun(u: Unit, s: string, p: nat)
    requires SearchFrom(u, s, 0).Some? && SearchFrom(u, s, 0).value == p
    ensures RunStart(s, p)
  {
    // Otherwise p - 1 starts a match with the same run end, and the search
    // would have stopped there.
    if p > 0 && IsDigit(s[p - 1]) {
      EarlierDigitMatches(u, s, p);
      assert false;
    }
  }

  lemma EarlierDigitMatches(u: Unit, s: string, p: nat)
    requires 0 < p < |s| && IsDigit(s[p - 1]) && MatchesAt(u, s, p)
    ensures MatchesAt(u, s, p - 1)
  {
    assert DigitRunEnd(s, p - 1) == DigitRunEnd(s, p);
  }

  /** `clean_surface` / `clean_rooms` in the regular expression's terms: no
      value exactly when the pattern matches nowhere; otherwise the value of
      the first maximal digit run that the whitespace and the unit follow. */
  lemma {:induction false} CleanNumberIsFirstRun(u: Unit, text: string)
    ensures CleanNumberBefore(u, text).None? <==>
              forall q | 0 <= q < |text| :: !RegexMatchesAt(u, text, q)
    ensures CleanNumberBefore(u, text).Some? ==>
              exists p | 0 <= p < |text| ::
                && RunStart(text, p)
                && RegexMatchesAt(u, text, p)
                && (forall q | 0 <= q < p :: !RegexMatchesAt(u, text, q))
                && CleanNumberBefore(u, text).value == RunValue(text, p)
  {
    forall q | 0 <= q < |text| ensures MatchesAt(u, text, q) <==> RegexMatchesAt(u, text, q) {
      GreedyMatchesRegex(u, text, q);
    }
    if text != [] && SearchFrom(u, text, 0).Some? {
      MatchStartsRun(u, text, SearchFrom(u, text, 0).value);
    }
  }

  // ---------------------------------------------------------------------
  // Worked cases

  /** A stats line: the first number ("3") is not taken for the surface,
      because "ch" and not "m" follows it. */
  lemma SurfaceOfStatsLine()
    ensures CleanSurface("3 ch 87 m\U{B2}") == Some(87)
  {
    var s := "3 ch 87 m\U{B2}";
    assert DigitRunEnd(s, 0) == 1 && SpaceRunEnd(s, 1) == 2;
    assert !MatchesAt(Metre, s, 0);
    assert forall q | 1 <= q < 5 :: !IsDigit(s[q]);
    assert DigitRunEnd(s, 5) == 7 && SpaceRunEnd(s, 7) == 8;
    assert MatchesAt(Metre, s, 5);
    assert SearchFrom(Metre, s, 0) == Some(5);
    assert s[5..7] == "87" && "87"[..1] == "8" && "8"[..0] == [];
    assert DecimalValue("87") == 87;
    assert CleanNumberBefore(Metre, s) == Some(RunValue(s, 5));
  }

  /** The same line: the rooms are the number before "ch". */
  lemma RoomsOfStatsLine()
    ensures CleanRooms("3 ch 87 m\U{B2}") == Some(3)
  {
    var s := "3 ch 87 m\U{B2}";
    assert DigitRunEnd(s, 0) == 1 && SpaceRunEnd(s, 1) == 2;
    assert MatchesAt(Room, s, 0);
    assert SearchFrom(Room, s, 0) == Some(0);
    assert s[0..1] == "3" && "3"[..0] == [];
    assert RunValue(s, 0) == 3;
    assert CleanNumberBefore(Room, s) == Some(3);
  }
}
