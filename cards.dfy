/** Turning the strings scraped from one listing card into a record
    (`scrape_page`), keeping or dropping it, collecting a page's records,
    and numbering the merged collection (`main`). */
module Cards {
  import opened Wrappers
  import opened Text
  import opened Geography
  import opened Classifiers
  import opened Cleaners

  /** One output record. `coords` is the `lat`/`lng` pair, both present or
      both absent; `id` stays absent until the whole run is numbered. */
  datatype Listing = Listing(
    title: string,
    city: Option<string>,
    quartier: Option<string>,
    coords: Option<Point>,
    price: Option<nat>,
    surface: Option<nat>,
    rooms: Option<nat>,
    priceM2: Option<nat>,
    location: string,
    link: string,
    images: seq<string>,
    page: nat,
    id: Option<nat>)

  /** The strings read off one card by the browser, and the coordinate
      draws its record will use. */
  datatype Card = Card(
    title: string,
    priceText: string,
    locationText: string,
    allText: string,
    href: string,
    images: seq<string>,
    draw: Draw)

  const SiteRoot: string := "https://www.avito.ma"

  /** The link: a site-relative `href` gets the site root in front, any
      other `href` (absolute, or empty) is kept as it is. */
  function AbsoluteLink(href: string): (link: string)
    ensures OccursAt(href, "/", 0) ==> link == SiteRoot + href
    ensures !OccursAt(href, "/", 0) ==> link == href
  {
    if href != [] && href[0] == '/' then SiteRoot + href else href
  }

  /** `city or guess_city_from_text(text)`: the page's city when it has one
      (an empty name counts as none), otherwise a guess from the text. */
  function DetectCity(city: Option<string>, text: string): (r: Option<string>)
    ensures city.Some? && city.value != "" ==> r == city
    ensures !(city.Some? && city.value != "") ==> r == GuessCity(text)
  {
    if city.Some? && city.value != "" then city else GuessCity(text)
  }

  /** `round(p / s)` with Python's ties-to-even, on exact integers. */
  function RoundDiv(p: nat, s: nat): (q: nat)
    requires s > 0
    ensures q == p / s || q == p / s + 1
  {
    var q0, r := p / s, p % s;
    if 2 * r < s then q0
    else if 2 * r > s then q0 + 1
    else if q0 % 2 == 0 then q0 else q0 + 1
  }

  function Abs(x: int): nat {
    if x < 0 then -x else x
  }

  /** `round(p / s)` is a nearest quotient: no other `k` brings `k * s`
      closer to `p`, the error is at most half of `s`, and an exact half
      goes to the even quotient. */
  lemma RoundDivIsNearest(p: nat, s: nat, k: int)
    requires s > 0
    ensures 2 * Abs(RoundDiv(p, s) * s - p) <= s
    ensures Abs(RoundDiv(p, s) * s - p) <= Abs(k * s - p)
    ensures 2 * Abs(RoundDiv(p, s) * s - p) == s ==> RoundDiv(p, s) % 2 == 0
  {
    var q := RoundDiv(p, s);
    var q0, r := p / s, p % s;
    assert p == q0 * s + r;
    // Every multiple of s sits at distance (k - q0) * s - r from p; the two
    // closest are -r (at q0) and s - r (at q0 + 1).
    var d := k - q0;
    assert k * s - p == d * s - r;
    if d <= 0 {
      assert d * s <= 0;
    } else {
      assert d * s >= s;
    }
    if q == q0 {
      assert q * s - p == -r;
    } else {
      assert q * s - p == s - r;
    }
  }

  /** The `price_m2` field: `round(price / surface)` when both are present
      and non-zero, and absent otherwise, never zero for a missing input. */
  function PriceM2(price: Option<nat>, surface: Option<nat>): (r: Option<nat>)
    ensures r.Some? <==> price.Some? && price.value >= 1 && surface.Some? && surface.value >= 1
    ensures r.Some? ==> 2 * Abs(r.value * surface.value - price.value) <= surface.value
    ensures r.Some? ==> r.value >= 1 || 2 * price.value <= surface.value
  {
    if price.Some? && price.value != 0 && surface.Some? && surface.value != 0 then
      RoundDivIsNearest(price.value, surface.value, 0);
      Some(RoundDiv(price.value, surface.value))
    else None
  }

  /** 4000000 / 187 is 21390.37..., which rounds down. */
  lemma PriceM2OfTypicalListing()
    ensures PriceM2(Some(4000000), Some(187)) == Some(21390)
    ensures PriceM2(Some(4000000), None) == None
  {
  }

  /** The text the classifiers read: title, location and the card's whole text. */
  function SearchText(card: Card): string {
    card.title + " " + card.locationText + " " + card.allText
  }

  /** The record a card becomes, ahead of the drop rule: no id yet, the
      page it was read on, coordinates only inside the box chosen for its
      neighbourhood and city, and a price per m² exactly when both price and
      surface are non-zero. */
  function Record(card: Card, city: Option<string>, page: nat): (l: Listing)
    ensures l.id.None? && l.page == page
    ensures l.coords.Some? <==> BoxFor(l.quartier, l.city).Some?
    ensures l.coords.Some? ==> BoxFor(l.quartier, l.city).value.Holds(l.coords.value)
    ensures l.priceM2.Some? <==> l.price.Some? && l.price.value >= 1 && l.surface.Some? && l.surface.value >= 1
  {
    var price := CleanPrice(card.priceText);
    var surface := CleanSurface(card.allText);
    var quartier := GuessQuartier(SearchText(card));
    var detected := DetectCity(city, SearchText(card));
    Listing(card.title, detected, quartier, CoordsFor(quartier, detected, card.draw),
            price, surface, CleanRooms(card.allText), PriceM2(price, surface),
            card.locationText, AbsoluteLink(card.href), card.images, page, None)
  }

  /** `if not title and not price: continue`: a record is kept when it has
      a title or a non-zero price. */
  predicate Kept(l: Listing) {
    l.title != "" || (l.price.Some? && l.price.value != 0)
  }

  /** One card through the whole card body of `scrape_page`: the record is
      dropped exactly when the title is empty and the price is missing or
      zero; a kept record is the card's record, still without an id. */
  function Assemble(card: Card, city: Option<string>, page: nat): (r: Option<Listing>)
    ensures r.None? <==> card.title == "" && (CleanPrice(card.priceText) == None || CleanPrice(card.priceText) == Some(0))
    ensures r.Some? ==> r.value == Record(card, city, page) && r.value.page == page && r.value.id.None?
  {
    var l := Record(card, city, page);
    if Kept(l) then Some(l) else None
  }

  /** Where a record is placed: a recognised neighbourhood always has a box
      and the point lies in it; failing that, the city's box; a city that
      was guessed from the text always has a box too, so a card on a page
      without a city gets coordinates exactly when some neighbourhood alias
      or city name occurs in its text. */
  lemma RecordPlacement(card: Card, city: Option<string>, page: nat)
    ensures var l := Record(card, city, page);
      && (l.quartier.Some? ==> l.quartier.value in QuartierBounds && l.coords.Some? &&
                                QuartierBounds[l.quartier.value].Holds(l.coords.value))
      && (l.quartier.None? && l.city.Some? && l.city.value in CityBounds ==>
            l.coords.Some? && CityBounds[l.city.value].Holds(l.coords.value))
      && (city.None? ==> (l.coords.None? <==> l.quartier.None? && l.city.None?))
  {
    GuessQuartierHasBox(SearchText(card));
    GuessCityHasBox(SearchText(card));
  }

  /** The records a page's cards yield, in card order. */
  function PageListings(cards: seq<Card>, city: Option<string>, page: nat): (ls: seq<Listing>)
    ensures |ls| <= |cards|
    ensures forall k | 0 <= k < |ls| :: Kept(ls[k]) && ls[k].page == page && ls[k].id.None?
    decreases |cards|
  {
    if cards == [] then []
    else
      PageListings(cards[..|cards| - 1], city, page) + Emitted(cards[|cards| - 1], city, page)
  }

  /** What one card adds to its page: its record, or nothing. */
  function Emitted(card: Card, city: Option<string>, page: nat): seq<Listing> {
    var r := Assemble(card, city, page);
    if r.Some? then [r.value] else []
  }

  lemma PageListingsStep(cards: seq<Card>, i: nat, city: Option<string>, page: nat)
    requires i < |cards|
    ensures PageListings(cards[..i + 1], city, page) == PageListings(cards[..i], city, page) + Emitted(cards[i], city, page)
  {
    assert cards[..i + 1][..i] == cards[..i];
  }

  /** The kept records of a page are exactly the records of the cards that
      pass the drop rule. */
  lemma {:induction false} PageListingsAreKeptRecords(cards: seq<Card>, city: Option<string>, page: nat)
    ensures forall c | c in cards && Kept(Record(c, city, page)) :: Record(c, city, page) in PageListings(cards, city, page)
    ensures forall l | l in PageListings(cards, city, page) ::
              exists c | c in cards :: l == Record(c, city, page) && Kept(l)
    decreases |cards|
  {
    if cards != [] {
      var init := cards[..|cards| - 1];
      PageListingsAreKeptRecords(init, city, page);
      assert cards == init + [cards[|cards| - 1]];
    }
  }

  /** The card loop of `scrape_page`. */
  method CollectPage(cards: seq<Card>, city: Option<string>, page: nat) returns (listings: seq<Listing>)
    ensures listings == PageListings(cards, city, page)
  {
    listings := [];
    var i := 0;
    assert cards[..i] == [];
    while i < |cards|
      invariant 0 <= i <= |cards|
      invariant listings == PageListings(cards[..i], city, page)
    {
      PageListingsStep(cards, i, city, page);
      var r := Assemble(cards[i], city, page);
      if r.Some? {
        listings := listings + [r.value];
      }
      i := i + 1;
    }
    assert cards[..i] == cards;
  }

  /** `for i, l in enumerate(all_listings, 1): l["id"] = i`: every record
      gets its position, counted from 1, and nothing else changes. */
  method AssignIds(a: array<Listing>)
    modifies a
    ensures forall k | 0 <= k < a.Length :: a[k] == old(a[k]).(id := Some(k + 1))
  {
    var i := 0;
    while i < a.Length
      invariant 0 <= i <= a.Length
      invariant forall k | 0 <= k < i :: a[k] == old(a[k]).(id := Some(k + 1))
      invariant forall k | i <= k < a.Length :: a[k] == old(a[k])
    {
      a[i] := a[i].(id := Some(i + 1));
      i := i + 1;
    }
  }
}
