# Avito.ma apartment scraper: the listing-building core

`scraper_avito.py` walks the apartment-for-sale pages of avito.ma for six
Moroccan cities. It reads the strings on each listing card and turns them
into a JSON record. This project models that translation and proves its
properties:

- the static geography: neighbourhood ("quartier") and city bounding boxes,
  plus the alias table that folds spellings onto neighbourhood names;
- `coords_for`, which places a record at a random point of its
  neighbourhood's box, or else of its city's box;
- `guess_quartier` (the longest alias wins) and `guess_city_from_text`
  (the first city name wins);
- the field cleaners `clean_price`, `clean_surface` and `clean_rooms`;
- the gallery filter of `scrape_listing_images`;
- the card-level decisions of `scrape_page`: the absolute link, the city
  fallback, the price per m², and the rule that drops a card;
- the final numbering in `main`.

Modules, leaf first:

| file | module | models |
|---|---|---|
| `wrappers.dfy` | `Wrappers` | `Option`, standing in for Python's `None` |
| `text.dfy` | `Text` | `str.lower`, `str.capitalize`, the `in` substring test, `\d`, `\s` |
| `geography.dfy` | `Geography` | `QUARTIER_BOUNDS`, `CITY_BOUNDS`, `QUARTIER_ALIASES`, `coords_for` |
| `classifiers.dfy` | `Classifiers` | `guess_quartier`, `guess_city_from_text` |
| `cleaners.dfy` | `Cleaners` | `clean_price`, `clean_surface`, `clean_rooms` |
| `images.dfy` | `Images` | the selector and source loops of `scrape_listing_images` |
| `cards.dfy` | `Cards` | one card to one record in `scrape_page`, the page's card loop, id numbering in `main` |

Modelling choices:

- **Coordinates.** They are integer micro-degrees. The boxes' three-decimal
  literals times 10^6 are exact, and six decimals is the resolution
  `coords_for` rounds to.
- **Randomness.** The two `random.uniform` draws are caller-supplied
  natural numbers (`Geography.Draw`), reduced into the box. A lemma shows
  that every point of the box is reachable.
- **Alias order.** `QUARTIER_ALIASES` is an ordered sequence of pairs, so
  dict insertion order survives. That order breaks ties in the stable
  `sorted(..., key=len, reverse=True)`.
- **Stable sort.** The sort is an insertion sort, proved to be a
  permutation of the table. It orders by "longer first, then earlier in
  the table". `guess_quartier` is proved to answer the best alias in
  exactly that sense.
- **Regular expressions.** `re.search(r"(\d+)\s*m", …, re.IGNORECASE)` and
  the rooms pattern are modelled twice:
  - as the backtracking meaning of the pattern, which allows any split;
  - as the greedy scan that is computed.

  A lemma proves the two agree and that the captured group is the whole
  digit run.
- **Rounding.** `round(price / surface)` is exact division with Python's
  ties-to-even rule (`Cards.RoundDiv`).
- **Storage.** The merged collection that `main` numbers in place is an
  `array<Listing>`.

Two behaviours of the code that are easy to miss:

- **Two figures on one price line.** `clean_price` reads every digit on the
  line, so "4 000 000 DH22 233 DH / mois" gives 400000022233
  (`Cleaners.CleanPriceJoinsFigures`).
- **Zero price.** `not price` at line 281 is also true for a price of 0, so
  a card with an empty title and a price of 0 is dropped (`Cards.Assemble`).

## Data

The tables and the record are constants and a datatype rather than
functions, so they are listed here; the lemmas about them are rows of the
table below.

| entity | source | holds |
|---|---|---|
| Geography.QuartierBounds | scraper_avito.py:36-97 | the neighbourhood boxes, in micro-degrees, one map per city joined into one |
| Geography.CityBounds | scraper_avito.py:99-106 | the six city boxes, in micro-degrees |
| Geography.QuartierAliases | scraper_avito.py:108-132 | the alias table as a sequence of (alias, canonical name) pairs in source order |
| Classifiers.CityNames | scraper_avito.py:151 | the six lower-case city names in the order `guess_city_from_text` tries them |
| Cards.Listing | scraper_avito.py:282-288 | the fields of the appended dict, with `id` standing for the key `main` adds at line 361 and without `scraped_at` |

## Model

| member | source | states |
|---|---|---|
| Geography.QuartierBoxesWellFormed | scraper_avito.py:36-97 | every neighbourhood box has min < max on both axes |
| Geography.CityBoxesWellFormed | scraper_avito.py:99-106 | every city box has min < max on both axes |
| Geography.AliasTargetsHaveBoxes | scraper_avito.py:108-132 | every canonical name in the alias table is a key of the neighbourhood boxes |
| Geography.BoxFor | scraper_avito.py:136-138 | the neighbourhood's box when its name is known, else the city's box when its name is known, else none; a chosen box is well formed |
| Geography.Sample | scraper_avito.py:140 | a sampled coordinate lies in the closed interval |
| Geography.SampleCoversInterval | scraper_avito.py:140 | every micro-degree of the interval is the outcome of some draw |
| Geography.CoordsFor | scraper_avito.py:135-140 | coordinates are present exactly when a box is found, and then lie inside that box |
| Text.IsDigit | scraper_avito.py:158 | computes `\d`, as the ASCII digits |
| Text.IsSpace | scraper_avito.py:163 | computes `\s`, as the characters for which `str.isspace()` holds |
| Text.Lower | scraper_avito.py:143 | `str.lower` keeps the length and lowers each ASCII or Latin-1 capital |
| Text.Contains | scraper_avito.py:145 | computes `pat in s`: some window of `s` equals `pat` |
| Geography.CoordsCoverBox | scraper_avito.py:135-140 | every point of the chosen box is produced by some draw |
| Text.Capitalize | scraper_avito.py:153 | on ASCII and Latin-1 text whose first character is not ß, ÿ or µ, `str.capitalize` upper-cases the first character and lowers the rest |
| Classifiers.FirstContained | scraper_avito.py:145-147 | the loop's answer is the first pattern contained in the text; none when no pattern is contained |
| Classifiers.Insert | scraper_avito.py:144 | one insertion-sort step: the result holds the same entries plus the inserted one |
| Classifiers.InsertSorted | scraper_avito.py:144 | inserting into a list sorted longest-first, earlier-first keeps it sorted |
| Classifiers.SortRanked | scraper_avito.py:144 | the sorted alias list is a permutation of the table and is sorted longest-first, ties in table order |
| Classifiers.GuessQuartierIn | scraper_avito.py:142-147 | computes `guess_quartier` over a given table: lower-case the text, sort the aliases longest first, return the canonical name of the first alias contained |
| Classifiers.GuessQuartier | scraper_avito.py:142-147 | computes `guess_quartier` over `QUARTIER_ALIASES` |
| Classifiers.BestIsUnique | scraper_avito.py:144-146 | at most one alias is the longest, earliest occurring one |
| Classifiers.GuessQuartierInIsBest | scraper_avito.py:142-147 | none exactly when no alias occurs in the lower-cased text; otherwise the canonical name of the longest occurring alias, the earliest in the table among equals |
| Classifiers.LongerAliasWins | scraper_avito.py:144-146 | a name none of whose aliases is as long as some occurring alias is never the answer |
| Classifiers.ShortCanonicals | scraper_avito.py:108-132 | every alias of "Anfa" is shorter than 9 characters and every alias of "Hassan" shorter than 11 |
| Classifiers.AliasesStartWithCasablanca | scraper_avito.py:109-121 | the alias table begins with the Casablanca group in source order |
| Classifiers.CasaAnfaBeatsAnfa | scraper_avito.py:142-147 | a text containing "casa anfa" is never classified as "Anfa" |
| Classifiers.HayHassaniBeatsHassan | scraper_avito.py:142-147 | a text containing "hay hassani" is never classified as "Hassan" |
| Classifiers.GuessQuartierHasBox | scraper_avito.py:142-147 | every neighbourhood guessed has a box |
| Classifiers.GuessCity | scraper_avito.py:149-154 | computes `guess_city_from_text`: the capitalised first city name of the list that the lower-cased text contains |
| Classifiers.GuessCityIsFirst | scraper_avito.py:149-154 | none exactly when no city name occurs; otherwise the capitalised first city name, in list order, that does occur |
| Classifiers.CapitalizeLowerWord | scraper_avito.py:153 | capitalising an ASCII lower-case word only upper-cases its first letter |
| Classifiers.CapitalizedNamesHaveBoxes | scraper_avito.py:153 | the capitalised form of each of the six city names is a key of the city boxes |
| Classifiers.GuessCityHasBox | scraper_avito.py:149-154 | every city guessed is a key of the city boxes |
| Cleaners.DecimalValue | scraper_avito.py:159 | `int(ds)` of a digit string is below 10 to the power of its length |
| Cleaners.Decimal | scraper_avito.py:158 | the decimal rendering of a number is a non-empty digit string without a leading zero |
| Cleaners.DecimalRoundTrip | scraper_avito.py:158 | `int(str(n)) == n` |
| Cleaners.DecimalValueConcat | scraper_avito.py:158 | reading two digit strings in a row scales the first by a power of ten |
| Cleaners.Digits | scraper_avito.py:158 | `re.sub(r"[^\d]", "", text)` keeps only digits, and is empty exactly when the text has none |
| Cleaners.DigitsConcat | scraper_avito.py:158 | removing non-digits distributes over concatenation |
| Cleaners.CleanPrice | scraper_avito.py:156-159 | no price exactly when the text has no digit (the empty text included) |
| Cleaners.DigitsOfSpread | scraper_avito.py:158 | digit-free separators around and between digits are all removed |
| Cleaners.CleanPriceIgnoresSeparators | scraper_avito.py:156-159 | a number written with any digit-free separators (spaces, "DH") is read back exactly |
| Cleaners.CleanPriceJoinsFigures | scraper_avito.py:156-159 | two figures on one line are read as one number, the second's digits appended to the first's |
| Cleaners.CleanPriceOfDigits | scraper_avito.py:157-159 | no price exactly when no digit survives the deletion; otherwise the value of the surviving digits |
| Cleaners.Folds | scraper_avito.py:163 | computes `re.IGNORECASE` for one pattern letter: the character is the letter itself or its ASCII or Latin-1 upper case |
| Cleaners.UnitAt | scraper_avito.py:163-168 | computes whether the unit starts at a position: `m` for surface; "piece", "pièce" or "ch", in any case, for rooms (the optional tails also match nothing) |
| Cleaners.UnitIsLetter | scraper_avito.py:163 | the first character of a unit is neither a digit nor whitespace |
| Cleaners.DigitRunEnd | scraper_avito.py:163 | `\d+` taken greedily: the run is all digits and is followed by a non-digit or the end |
| Cleaners.SpaceRunEnd | scraper_avito.py:163 | `\s*` taken greedily: the run is all whitespace and is followed by a non-space or the end |
| Cleaners.RegexMatchesAt | scraper_avito.py:163-168 | computes what the pattern means at a start position: some non-empty digit run, then some whitespace run, then the unit, with any split backtracking can reach |
| Cleaners.MatchesAt | scraper_avito.py:163-168 | computes the greedy reading at a start position: a digit there, and the unit right after all the digits and all the whitespace that follow |
| Cleaners.GreedySplitIsOnlySplit | scraper_avito.py:163 | any split that matches `(\d+)\s*m` at a position is the greedy one |
| Cleaners.GreedyMatchesRegex | scraper_avito.py:163 | the greedy scan matches at a position exactly when the regular expression does |
| Cleaners.CleanNumberBefore | scraper_avito.py:161-169 | the shared body of `clean_surface` and `clean_rooms`: none exactly when the greedy scan matches nowhere, otherwise the digit value at a matching position |
| Cleaners.CleanSurface | scraper_avito.py:161-164 | none exactly when `(\d+)\s*m` matches nowhere; otherwise the value of the maximal digit run at the first position where it matches |
| Cleaners.CleanRooms | scraper_avito.py:166-169 | none exactly when the rooms pattern matches nowhere; otherwise the value of the maximal digit run at the first position where it matches |
| Cleaners.DigitRunEndAt | scraper_avito.py:163 | a digit run that nothing extends is where the greedy `\d+` stops |
| Cleaners.SpaceRunEndAt | scraper_avito.py:163 | a whitespace run that nothing extends is where the greedy `\s*` stops |
| Cleaners.SearchFrom | scraper_avito.py:163 | `re.search` returns the leftmost matching position, and none when there is no match |
| Cleaners.RunValue | scraper_avito.py:164 | computes `int(m.group(1))`: the decimal value of the whole digit run starting at the match |
| Cleaners.MatchStartsRun | scraper_avito.py:163 | the leftmost match starts at the beginning of a maximal digit run |
| Cleaners.EarlierDigitMatches | scraper_avito.py:163 | a digit just before a match is itself the start of a match |
| Cleaners.CleanNumberIsFirstRun | scraper_avito.py:161-169 | surface/rooms are absent exactly when the pattern matches nowhere; otherwise they are the value of the first maximal digit run that whitespace and the unit follow |
| Cleaners.SurfaceOfStatsLine | scraper_avito.py:161-164 | "3 ch 87 m²" gives surface 87: the "3" is followed by "ch", not "m" |
| Cleaners.RoomsOfStatsLine | scraper_avito.py:166-169 | "3 ch 87 m²" gives 3 rooms |
| Images.SourceOf | scraper_avito.py:184 | `src` when present and non-empty, else `data-src` when present, else "" |
| Images.Wanted | scraper_avito.py:185 | computes the filter: non-empty, contains "avito", does not contain "placeholder" |
| Images.Distinct | scraper_avito.py:182-186 | what the inner loop has collected: never more sources than it saw |
| Images.GalleryImages | scraper_avito.py:171-191 | the capped sources of the first selector that yields any: at most eight, all wanted, none for an empty url |
| Images.DistinctStep | scraper_avito.py:185-186 | one more source is appended when it is wanted and new, and ignored otherwise |
| Images.FirstIndex | scraper_avito.py:185 | the position of the first occurrence in the list |
| Images.FirstIndexOfPrefix | scraper_avito.py:185-186 | appending to the list does not move an earlier first occurrence |
| Images.DistinctIsFirstOccurrences | scraper_avito.py:182-186 | the kept sources are exactly the wanted ones (non-empty, "avito", no "placeholder"), each once, in order of first appearance |
| Images.AtMostEight | scraper_avito.py:188 | `srcs[:8]` is a prefix of at most eight sources, all of them when there are at most eight |
| Images.Sources | scraper_avito.py:183-184 | one source per element, in element order |
| Images.CollectSources | scraper_avito.py:182-186 | the inner loop builds exactly the filtered first-occurrence list |
| Images.ScrapeListingImages | scraper_avito.py:171-191 | the result is the capped list of the first selector yielding anything: at most eight distinct wanted sources; empty for an empty url |
| Cards.AbsoluteLink | scraper_avito.py:251 | a "/"-prefixed href gets the site root in front; any other href is kept |
| Cards.SearchText | scraper_avito.py:268-269 | computes the text both classifiers read: title, location text and the card's whole text, joined by single spaces |
| Cards.DetectCity | scraper_avito.py:270 | the page's city when non-empty; otherwise the city guessed from the text |
| Cards.RoundDiv | scraper_avito.py:272 | `round(p / s)` is the floor or the ceiling of the exact quotient |
| Cards.RoundDivIsNearest | scraper_avito.py:272 | `round(p / s)` is within half of `s`, no other quotient is nearer, and exact halves go to the even one |
| Cards.PriceM2 | scraper_avito.py:272 | present exactly when price and surface are both present and non-zero; then the nearest integer to price / surface |
| Cards.PriceM2OfTypicalListing | scraper_avito.py:272 | 4000000 DH over 187 m² gives 21390; no surface gives none |
| Cards.Record | scraper_avito.py:266-272 | the record a card becomes: no id, its page, coordinates exactly when a box is chosen and inside it, a price per m² exactly when price and surface are non-zero |
| Cards.Kept | scraper_avito.py:281 | computes the negation of `not title and not price`: a title, or a non-zero price |
| Cards.Assemble | scraper_avito.py:281 | a card is dropped exactly when its title is empty and its price is missing or zero; a kept record has the page number and no id |
| Cards.RecordPlacement | scraper_avito.py:266-271 | a guessed neighbourhood has a box and the point lies in it; failing that, a known city's box holds the point; on a page without a city, coordinates are missing exactly when neither neighbourhood nor city was recognised |
| Cards.PageListings | scraper_avito.py:227-288 | no more records than cards, each kept, on the page, without an id |
| Cards.PageListingsStep | scraper_avito.py:227-288 | one more card adds its own record, or nothing |
| Cards.PageListingsAreKeptRecords | scraper_avito.py:281-287 | the page's records are exactly the records of the cards that pass the drop rule |
| Cards.CollectPage | scraper_avito.py:227-288 | the card loop yields exactly the page's records, in card order |
| Cards.AssignIds | scraper_avito.py:360-361 | every record gets its 1-based position as its id, and nothing else changes |

## Left out

- **Browser work.** The browser, page navigation with its retries, waiting
  for selectors and finding cards (lines 193-226) are outside the model.
  A page is the sequence of `Cards.Card` values its cards yield. The same
  holds for the title, price-text and location selector chains (lines
  229-246, 253-256): their outputs are the card's fields.
- **Price-text choice.** The "DH" or three-digit check on the price
  element and the `[\d\s]{4,}\s*DH` fallback both happen before
  `clean_price` and are not modelled. The price text is an input.
- **Thumbnails and the gallery switch.** The thumbnail choice (lines
  259-265) and the choice between gallery and thumbnail images (lines
  274-279) are not modelled. A card's images are an input. The gallery
  filter is modelled separately in `Images`.
- **Gallery page load.** Loading the gallery page is outside the model.
  `Images.ScrapeListingImages` takes, for each of the five selectors, the
  elements it found.
- **Side effects.** Not modelled:
  - `time.sleep` delays;
  - the `scraped_at` timestamp;
  - argument parsing and the city/page loops of `main`;
  - the cookie banner;
  - writing `data.json`;
  - console output.
- **Exceptions.** The `except` at line 289 skips a card whose processing
  raised. The model has no failure path, so it does not capture three cases:
  - DOM access raising;
  - `int(...)` at lines 159, 164 and 169 raising `ValueError`. Python 3.11
    and later do this by default for a digit string longer than 4300
    characters. There `Cleaners.CleanPrice` and `Cleaners.CleanNumberBefore`
    return a number, and `Cards.Assemble` keeps the card, where the source
    would skip it.
  - `price / surface` at line 272 raising `OverflowError` when the exact
    quotient is beyond the largest float (about 1.8 × 10^308), for example
    a price of 310 digits over a surface of 1. There `Cards.PriceM2`
    returns the rounded quotient, and `Cards.Record` and `Cards.Assemble`
    keep the card, where the source would skip it.
- **Missing href.** `get_attribute("href")` may return `None`, and then the
  link is `None`. The model's href is always a string; an absent one is "".
- Geography.CoordsFor: promises only that the point lies in the box and
  that every point of the box is reachable. It does not model the uniform
  distribution of `random.uniform` or floating-point rounding.
- Cards.PriceM2: rounds the exact quotient. Python's `price / surface`
  rounds the exact quotient once to the nearest float, and `round` then
  rounds that float. Once the price reaches 2^52 (about 4.5 × 10^15), the
  float can land on or past a .5 point. For example, 6755399441055746 over
  3 is 2251799813685248.67; the float is 2251799813685248.5, so Python
  gives 2251799813685248 where the model gives 2251799813685249. Below
  2^52 the two agree. Python also raises `OverflowError` for a quotient
  beyond the float range (see Exceptions).
- Cards.Assemble: keeps a card whose price per m² overflows a float at
  line 272, which the source skips (see Exceptions).
- Text.Capitalize: Python title-cases the first character since 3.8, so a
  leading "ß", "ÿ" or "µ" becomes "Ss", "Ÿ" or "Μ"; the model leaves these
  unchanged. At line 153 only the six ASCII city names are capitalised, so
  this does not affect `guess_city_from_text`.
- Text.Lower: covers ASCII and Latin-1 letters only. Some capitals beyond
  Latin-1 lower-case into letters the aliases use, and the model leaves
  them unchanged. "İ" becomes "i̇", so Python finds "bernoussi" in
  "BERNOUSSİ" and answers "Sidi Bernoussi" where the model answers
  nothing. The Kelvin sign (U+212A) becomes "k", the letter in "ain chock" and
  "achakar". Other scripts are not modelled either.
- Cleaners.Folds: matches a pattern letter only as itself or its ASCII or
  Latin-1 upper case. The special folds of `re.IGNORECASE` are not
  modelled: "İ" and "ı" matching `i`, "ſ" matching `s`, and the Kelvin sign
  matching `k`.
- Text.IsDigit: `\d` is restricted to ASCII digits. Python's `\d` on `str`
  also matches other Unicode decimal digits.
