/** The two text classifiers: `guess_quartier`, a longest-alias-first
    substring search over the alias table, and `guess_city_from_text`, a
    first-match search over a fixed list of city names. */
module Classifiers {
  import opened Wrappers
  import opened Text
  import opened Geography

  /** The first pattern, in list order, that occurs in `s`: the early-return
      `for ... if p in s: return` loop both classifiers run. */
  function FirstContained(pats: seq<string>, s: string): (r: Option<nat>)
    ensures r.None? <==> forall k | 0 <= k < |pats| :: !Contains(s, pats[k])
    ensures r.Some? ==> r.value < |pats| && Contains(s, pats[r.value])
    ensures r.Some? ==> forall k | 0 <= k < r.value :: !Contains(s, pats[k])
    decreases |pats|
  {
    if pats == [] then None
    else if Contains(s, pats[0]) then Some(0)
    else match FirstContained(pats[1..], s)
      case None => None
      case Some(k) => Some(k + 1)
  }

  // ---------------------------------------------------------------------
  // guess_quartier

  /** An alias-table entry tagged with its position in the dictionary. */
  datatype Ranked = Ranked(pos: nat, alias: string, canonical: string)

  function Enumerate(aliases: seq<(string, string)>): (r: seq<Ranked>)
    ensures |r| == |aliases|
    ensures forall i | 0 <= i < |aliases| :: r[i] == Ranked(i, aliases[i].0, aliases[i].1)
  {
    seq(|aliases|, i requires 0 <= i < |aliases| => Ranked(i, aliases[i].0, aliases[i].1))
  }

  /** `a` comes no later than `b` in `sorted(aliases, key=len, reverse=True)`:
      longer aliases first, and, the sort being stable, equal lengths in
      dictionary order. */
  predicate NoLater(a: Ranked, b: Ranked) {
    |a.alias| > |b.alias| || (|a.alias| == |b.alias| && a.pos <= b.pos)
  }

  predicate SortedByRank(s: seq<Ranked>) {
    forall i, j | 0 <= i < j < |s| :: NoLater(s[i], s[j])
  }

  /** One step of the insertion sort: `x` goes before the first entry it
      does not come after. */
  function Insert(x: Ranked, s: seq<Ranked>): (r: seq<Ranked>)
    ensures multiset(r) == multiset(s) + multiset{x}
    decreases |s|
  {
    if s == [] || NoLater(x, s[0]) then [x] + s
    else
      assert s == [s[0]] + s[1..];
      [s[0]] + Insert(x, s[1..])
  }

  lemma {:induction false} InsertSorted(x: Ranked, s: seq<Ranked>)
    requires SortedByRank(s)
    ensures SortedByRank(Insert(x, s))
    decreases |s|
  {
    if s == [] || NoLater(x, s[0]) {
      var r := Insert(x, s);
      forall i, j | 0 <= i < j < |r| ensures NoLater(r[i], r[j]) {
        if i > 0 {
          assert r[i] == s[i - 1] && r[j] == s[j - 1];
        } else {
          assert r[j] == s[j - 1];
          assert NoLater(s[0], s[j - 1]) || j == 1;
        }
      }
    } else {
      var rest := Insert(x, s[1..]);
      InsertSorted(x, s[1..]);
      var r := [s[0]] + rest;
      assert Insert(x, s) == r;
      forall j | 0 <= j < |rest| ensures NoLater(s[0], rest[j]) {
        assert rest[j] in multiset(rest);
        assert rest[j] in multiset(s[1..]) || rest[j] == x;
        if rest[j] != x {
          var k :| 0 <= k < |s[1..]| && s[1..][k] == rest[j];
          assert s[k + 1] == rest[j];
        }
      }
      forall i, j | 0 <= i < j < |r| ensures NoLater(r[i], r[j]) {
        if i > 0 {
          assert r[i] == rest[i - 1] && r[j] == rest[j - 1];
        } else {
          assert r[j] == rest[j - 1];
        }
      }
    }
  }

  /** `sorted(..., key=len, reverse=True)` on the tagged table, as an
      insertion sort. */
  function SortRanked(s: seq<Ranked>): (r: seq<Ranked>)
    ensures multiset(r) == multiset(s)
    ensures SortedByRank(r)
    decreases |s|
  {
    if s == [] then []
    else
      var rest := SortRanked(s[1..]);
      InsertSorted(s[0], rest);
      assert s == [s[0]] + s[1..];
      Insert(s[0], rest)
  }

  function AliasesOf(s: seq<Ranked>): (r: seq<string>)
    ensures |r| == |s|
    ensures forall k | 0 <= k < |s| :: r[k] == s[k].alias
  {
    seq(|s|, k requires 0 <= k < |s| => s[k].alias)
  }

  /** `guess_quartier` over a given alias table. */
  function GuessQuartierIn(aliases: seq<(string, string)>, text: string): Option<string> {
    var sorted := SortRanked(Enumerate(aliases));
    match FirstContained(AliasesOf(sorted), Lower(text))
    case None => None
    case Some(k) => Some(sorted[k].canonical)
  }

  /** `guess_quartier(text)` over `QUARTIER_ALIASES`. */
  function GuessQuartier(text: string): Option<string> {
    GuessQuartierIn(QuartierAliases, text)
  }

  /** Alias `i` occurs in `lower`, no occurring alias is longer, and no
      occurring alias of the same length comes earlier in the table. */
  ghost predicate IsBest(aliases: seq<(string, string)>, lower: string, i: int) {
    && 0 <= i < |aliases|
    && Contains(lower, aliases[i].0)
    && forall j | 0 <= j < |aliases| && Contains(lower, aliases[j].0) ::
         |aliases[j].0| < |aliases[i].0| || (|aliases[j].0| == |aliases[i].0| && i <= j)
  }

  /** At most one alias is the best one. */
  lemma BestIsUnique(aliases: seq<(string, string)>, lower: string, i: int, j: int)
    requires IsBest(aliases, lower, i) && IsBest(aliases, lower, j)
    ensures i == j
  {
  }

  /** `guess_quartier` finds nothing exactly when no alias occurs, and
      otherwise answers with the canonical name of the best alias. */
  lemma {:induction false} GuessQuartierInIsBest(aliases: seq<(string, string)>, text: string)
    ensures GuessQuartierIn(aliases, text).None? <==>
              forall j | 0 <= j < |aliases| :: !Contains(Lower(text), aliases[j].0)
    ensures GuessQuartierIn(aliases, text).Some? ==>
              exists i :: IsBest(aliases, Lower(text), i) &&
                          GuessQuartierIn(aliases, text).value == aliases[i].1
  {
    var lower := Lower(text);
    var e := Enumerate(aliases);
    var sorted := SortRanked(e);
    var names := AliasesOf(sorted);
    // Every table entry is somewhere in the sorted list, and the reverse.
    forall j | 0 <= j < |aliases| ensures exists m :: 0 <= m < |sorted| && sorted[m] == e[j] {
      assert e[j] in multiset(e);
      assert e[j] in multiset(sorted);
    }
    match FirstContained(names, lower)
    case None =>
      forall j | 0 <= j < |aliases| ensures !Contains(lower, aliases[j].0) {
        var m :| 0 <= m < |sorted| && sorted[m] == e[j];
        assert names[m] == aliases[j].0;
      }
    case Some(k) =>
      var x := sorted[k];
      assert x in multiset(sorted);
      assert x in multiset(e);
      var i :| 0 <= i < |e| && e[i] == x;
      assert Contains(lower, aliases[i].0);
      forall j | 0 <= j < |aliases| && Contains(lower, aliases[j].0)
        ensures |aliases[j].0| < |aliases[i].0| || (|aliases[j].0| == |aliases[i].0| && i <= j)
      {
        var m :| 0 <= m < |sorted| && sorted[m] == e[j];
        assert names[m] == aliases[j].0;
        assert k <= m;
        assert NoLater(sorted[k], sorted[m]) || k == m;
      }
      assert IsBest(aliases, lower, i);
  }

  /** If an occurring alias is longer than every alias of canonical name `c`,
      then `guess_quartier` does not answer `c`. */
  lemma LongerAliasWins(aliases: seq<(string, string)>, text: string, i: nat, c: string)
    requires i < |aliases| && Contains(Lower(text), aliases[i].0)
    requires forall j | 0 <= j < |aliases| && aliases[j].1 == c :: |aliases[j].0| < |aliases[i].0|
    ensures GuessQuartierIn(aliases, text) != Some(c)
  {
    GuessQuartierInIsBest(aliases, text);
  }

  /** Every answer of `guess_quartier` has a neighbourhood box. */
  lemma GuessQuartierHasBox(text: string)
    ensures GuessQuartier(text).Some? ==> GuessQuartier(text).value in QuartierBounds
  {
    GuessQuartierInIsBest(QuartierAliases, text);
    AliasTargetsHaveBoxes();
  }

  /** Every alias whose canonical name is `c` is shorter than `n`. */
  predicate ShorterFor(aliases: seq<(string, string)>, c: string, n: nat) {
    forall j | 0 <= j < |aliases| && aliases[j].1 == c :: |aliases[j].0| < n
  }

  lemma ShorterForConcat(a: seq<(string, string)>, b: seq<(string, string)>, c: string, n: nat)
    requires ShorterFor(a, c, n) && ShorterFor(b, c, n)
    ensures ShorterFor(a + b, c, n)
  {
    forall j | 0 <= j < |a + b| && (a + b)[j].1 == c ensures |(a + b)[j].0| < n {
      if j >= |a| {
        assert (a + b)[j] == b[j - |a|];
      }
    }
  }

  /** Only the short aliases "anfa" and "hassan" fold onto Anfa and Hassan. */
  lemma ShortCanonicals()
    ensures ShorterFor(QuartierAliases, "Anfa", 9)
    ensures ShorterFor(QuartierAliases, "Hassan", 11)
  {
    assert ShorterFor(CasablancaAliases, "Anfa", 9) && ShorterFor(CasablancaAliases, "Hassan", 11);
    assert ShorterFor(AgadirAliases, "Anfa", 9) && ShorterFor(AgadirAliases, "Hassan", 11);
    assert ShorterFor(MarrakechAliases, "Anfa", 9) && ShorterFor(MarrakechAliases, "Hassan", 11);
    assert ShorterFor(TangerAliases, "Anfa", 9) && ShorterFor(TangerAliases, "Hassan", 11);
    assert ShorterFor(RabatAliases, "Anfa", 9) && ShorterFor(RabatAliases, "Hassan", 11);
    assert ShorterFor(MohammediaAliases, "Anfa", 9) && ShorterFor(MohammediaAliases, "Hassan", 11);
    ShorterForConcat(CasablancaAliases,
                     AgadirAliases, "Anfa", 9);
    ShorterForConcat(CasablancaAliases,
                     AgadirAliases, "Hassan", 11);
    ShorterForConcat(CasablancaAliases + AgadirAliases,
                     MarrakechAliases, "Anfa", 9);
    ShorterForConcat(CasablancaAliases + AgadirAliases,
                     MarrakechAliases, "Hassan", 11);
    ShorterForConcat(CasablancaAliases + AgadirAliases + MarrakechAliases,
                     TangerAliases, "Anfa", 9);
    ShorterForConcat(CasablancaAliases + AgadirAliases + MarrakechAliases,
                     TangerAliases, "Hassan", 11);
    ShorterForConcat(CasablancaAliases + AgadirAliases + MarrakechAliases + TangerAliases,
                     RabatAliases, "Anfa", 9);
    ShorterForConcat(CasablancaAliases + AgadirAliases + MarrakechAliases + TangerAliases,
                     RabatAliases, "Hassan", 11);
    ShorterForConcat(CasablancaAliases + AgadirAliases + MarrakechAliases + TangerAliases + RabatAliases,
                     MohammediaAliases, "Anfa", 9);
    ShorterForConcat(CasablancaAliases + AgadirAliases + MarrakechAliases + TangerAliases + RabatAliases,
                     MohammediaAliases, "Hassan", 11);
  }

  /** The table starts with the Casablanca group. */
  lemma AliasesStartWithCasablanca(i: nat)
    requires i < |CasablancaAliases|
    ensures QuartierAliases[i] == CasablancaAliases[i]
  {
    var rest := AgadirAliases + MarrakechAliases + TangerAliases + RabatAliases + MohammediaAliases;
    assert QuartierAliases == CasablancaAliases + rest;
  }

  /** "casa anfa" contains "anfa", and the longer alias wins. */
  lemma CasaAnfaBeatsAnfa(text: string)
    requires Contains(Lower(text), "casa anfa")
    ensures GuessQuartier(text) != Some("Anfa")
  {
    ShortCanonicals();
    assert CasablancaAliases[18].0 == "casa anfa";
    AliasesStartWithCasablanca(18);
    LongerAliasWins(QuartierAliases, text, 18, "Anfa");
  }

  /** "hay hassani" contains "hassan", and the longer alias wins. */
  lemma HayHassaniBeatsHassan(text: string)
    requires Contains(Lower(text), "hay hassani")
    ensures GuessQuartier(text) != Some("Hassan")
  {
    ShortCanonicals();
    assert CasablancaAliases[9].0 == "hay hassani";
    AliasesStartWithCasablanca(9);
    LongerAliasWins(QuartierAliases, text, 9, "Hassan");
  }

  // ---------------------------------------------------------------------
  // guess_city_from_text

  /** The city names `guess_city_from_text` tries, in order. */
  const CityNames: seq<string> := ["casablanca", "agadir", "marrakech", "tanger", "rabat", "mohammedia"]

  function GuessCity(text: string): Option<string> {
    match FirstContained(CityNames, Lower(text))
    case None => None
    case Some(k) => Some(Capitalize(CityNames[k]))
  }

  /** `guess_city_from_text` answers the capitalised form of the first city
      name the lower-cased text contains, and nothing when it contains none. */
  lemma GuessCityIsFirst(text: string)
    ensures GuessCity(text).None? <==> forall k | 0 <= k < |CityNames| :: !Contains(Lower(text), CityNames[k])
    ensures GuessCity(text).Some? ==>
              exists k | 0 <= k < |CityNames| ::
                && Contains(Lower(text), CityNames[k])
                && (forall m | 0 <= m < k :: !Contains(Lower(text), CityNames[m]))
                && GuessCity(text).value == Capitalize(CityNames[k])
  {
  }

  /** Every answer of `guess_city_from_text` is a key of `CITY_BOUNDS`. */
  lemma GuessCityHasBox(text: string)
    ensures GuessCity(text).Some? ==> GuessCity(text).value in CityBounds
  {
    CapitalizedNamesHaveBoxes();
  }

  lemma CapitalizedNamesHaveBoxes()
    ensures forall k | 0 <= k < |CityNames| :: Capitalize(CityNames[k]) in CityBounds
  {
    CapitalizesTo(CityNames[0], "Casablanca");
    CapitalizesTo(CityNames[1], "Agadir");
    CapitalizesTo(CityNames[2], "Marrakech");
    CapitalizesTo(CityNames[3], "Tanger");
    CapitalizesTo(CityNames[4], "Rabat");
    CapitalizesTo(CityNames[5], "Mohammedia");
  }

  /** On an ASCII lower-case word, `capitalize` only upper-cases the first letter. */
  lemma CapitalizeLowerWord(w: string)
    requires |w| > 0 && forall i | 0 <= i < |w| :: 'a' <= w[i] <= 'z'
    ensures Capitalize(w) == [(w[0] as int - 0x20) as char] + w[1..]
  {
    assert Lower(w[1..]) == w[1..];
  }

  lemma CapitalizesTo(w: string, cap: string)
    requires |w| > 0 && forall i | 0 <= i < |w| :: 'a' <= w[i] <= 'z'
    requires |cap| == |w| && cap[0] == (w[0] as int - 0x20) as char && cap[1..] == w[1..]
    ensures Capitalize(w) == cap
  {
    CapitalizeLowerWord(w);
    assert cap == [cap[0]] + cap[1..];
  }
}
