/** The static geography of the scraper: neighbourhood ("quartier") and city
    bounding boxes, the alias table that folds spellings onto neighbourhood
    names, and the coordinate fallback `coords_for`.

    Degrees are written as integer micro-degrees (33.582 is 33_582_000), the
    resolution of the six-decimal rounding the scraper applies to its draws. */
module Geography {
  import opened Wrappers

  /** A closed box: latMin..latMax by lngMin..lngMax, in micro-degrees. */
  datatype Box = Box(latMin: int, latMax: int, lngMin: int, lngMax: int) {
    predicate WellFormed() {
      latMin < latMax && lngMin < lngMax
    }

    predicate Holds(p: Point) {
      latMin <= p.lat <= latMax && lngMin <= p.lng <= lngMax
    }
  }

  datatype Point = Point(lat: int, lng: int)

  /** The two uniform draws `random.uniform` would make, supplied by the
      caller: any natural numbers, reduced into the box's range. */
  datatype Draw = Draw(lat: nat, lng: nat)

  /** `QUARTIER_BOUNDS`, written as the union, in order, of the per-city
      groups its comments mark (a later key wins in both forms). */
  const QuartierBounds: map<string, Box> :=
    CasablancaQuartiers + AgadirQuartiers + MarrakechQuartiers + TangerQuartiers + RabatQuartiers + MohammediaQuartiers

  const CasablancaQuartiers: map<string, Box> :=
    map[
      "Ain Diab" := Box(33_582_000, 33_596_000, -7_705_000, -7_665_000),
      "Anfa" := Box(33_583_000, 33_598_000, -7_668_000, -7_640_000),
      "Casa Anfa" := Box(33_568_000, 33_580_000, -7_665_000, -7_643_000),
      "Racine" := Box(33_583_000, 33_597_000, -7_651_000, -7_628_000),
      "Gauthier" := Box(33_582_000, 33_595_000, -7_636_000, -7_611_000),
      "Maarif" := Box(33_572_000, 33_593_000, -7_648_000, -7_622_000),
      "Californie" := Box(33_562_000, 33_581_000, -7_650_000, -7_622_000),
      "Triangle d'Or" := Box(33_585_000, 33_598_000, -7_638_000, -7_618_000),
      "Centre Ville" := Box(33_585_000, 33_603_000, -7_626_000, -7_598_000),
      "Bourgogne" := Box(33_573_000, 33_591_000, -7_626_000, -7_600_000),
      "Val Fleuri" := Box(33_570_000, 33_589_000, -7_640_000, -7_612_000),
      "Palmier" := Box(33_564_000, 33_582_000, -7_618_000, -7_590_000),
      "Belvedere" := Box(33_578_000, 33_596_000, -7_617_000, -7_589_000),
      "Derb Sultan" := Box(33_574_000, 33_593_000, -7_612_000, -7_583_000),
      "CIL" := Box(33_557_000, 33_575_000, -7_618_000, -7_589_000),
      "Sidi Belyout" := Box(33_591_000, 33_606_000, -7_628_000, -7_603_000),
      "Hay Mohammadi" := Box(33_585_000, 33_603_000, -7_602_000, -7_572_000),
      "Roches Noires" := Box(33_587_000, 33_607_000, -7_587_000, -7_556_000),
      "Ain Sebaa" := Box(33_603_000, 33_625_000, -7_590_000, -7_548_000),
      "Sidi Bernoussi" := Box(33_594_000, 33_612_000, -7_577_000, -7_545_000),
      "Oasis" := Box(33_548_000, 33_572_000, -7_650_000, -7_618_000),
      "Hay Hassani" := Box(33_536_000, 33_563_000, -7_682_000, -7_644_000),
      "Ain Chock" := Box(33_556_000, 33_573_000, -7_636_000, -7_606_000),
      "Oulfa" := Box(33_527_000, 33_553_000, -7_670_000, -7_633_000),
      "Sidi Maarouf" := Box(33_521_000, 33_551_000, -7_648_000, -7_613_000),
      "Hay Riad" := Box(33_548_000, 33_565_000, -7_642_000, -7_614_000),
      "Moulay Rachid" := Box(33_548_000, 33_566_000, -7_612_000, -7_582_000),
      "Ben M'Sick" := Box(33_561_000, 33_577_000, -7_616_000, -7_590_000),
      "Sbata" := Box(33_570_000, 33_585_000, -7_607_000, -7_582_000)
    ]

  const AgadirQuartiers: map<string, Box> :=
    map[
      "Founty" := Box(30_388_000, 30_406_000, -9_625_000, -9_595_000),
      "Talborjt" := Box(30_414_000, 30_430_000, -9_600_000, -9_575_000),
      "Hay Almassira" := Box(30_395_000, 30_415_000, -9_575_000, -9_545_000),
      "Centre Agadir" := Box(30_418_000, 30_432_000, -9_592_000, -9_568_000),
      "Dakhla" := Box(30_402_000, 30_418_000, -9_605_000, -9_580_000),
      "Anza" := Box(30_440_000, 30_465_000, -9_610_000, -9_580_000)
    ]

  const MarrakechQuartiers: map<string, Box> :=
    map[
      "Gueliz" := Box(31_630_000, 31_648_000, -8_022_000, -7_992_000),
      "Hivernage" := Box(31_614_000, 31_632_000, -8_010_000, -7_985_000),
      "Medina" := Box(31_618_000, 31_636_000, -7_998_000, -7_975_000),
      "Palmeraie" := Box(31_638_000, 31_665_000, -7_960_000, -7_925_000),
      "Majorelle" := Box(31_636_000, 31_650_000, -8_002_000, -7_978_000),
      "Targa" := Box(31_596_000, 31_616_000, -8_020_000, -7_995_000),
      "Massira" := Box(31_598_000, 31_618_000, -7_998_000, -7_970_000)
    ]

  const TangerQuartiers: map<string, Box> :=
    map[
      "Malabata" := Box(35_778_000, 35_796_000, -5_778_000, -5_745_000),
      "Centre Tanger" := Box(35_765_000, 35_782_000, -5_820_000, -5_790_000),
      "Marshan" := Box(35_778_000, 35_795_000, -5_825_000, -5_798_000),
      "Iberia" := Box(35_756_000, 35_775_000, -5_812_000, -5_785_000),
      "Achakar" := Box(35_740_000, 35_760_000, -5_870_000, -5_840_000)
    ]

  const RabatQuartiers: map<string, Box> :=
    map[
      "Agdal" := Box(33_990_000, 34_010_000, -6_860_000, -6_830_000),
      "Hassan" := Box(34_010_000, 34_030_000, -6_850_000, -6_820_000),
      "Souissi" := Box(33_990_000, 34_015_000, -6_825_000, -6_795_000),
      "Les Orangers" := Box(34_005_000, 34_025_000, -6_870_000, -6_840_000),
      "Yacoub El Mansour" := Box(33_975_000, 33_998_000, -6_875_000, -6_845_000)
    ]

  const MohammediaQuartiers: map<string, Box> :=
    map[
      "Centre Mohammedia" := Box(33_688_000, 33_706_000, -7_402_000, -7_372_000),
      "Ain Harrouda" := Box(33_660_000, 33_682_000, -7_428_000, -7_398_000)
    ]

  /** `CITY_BOUNDS`. */
  const CityBounds: map<string, Box> :=
    map[
      "Casablanca" := Box(33_520_000, 33_630_000, -7_710_000, -7_540_000),
      "Agadir" := Box(30_380_000, 30_470_000, -9_640_000, -9_540_000),
      "Marrakech" := Box(31_580_000, 31_680_000, -8_060_000, -7_920_000),
      "Tanger" := Box(35_720_000, 35_810_000, -5_870_000, -5_740_000),
      "Rabat" := Box(33_930_000, 34_060_000, -6_900_000, -6_790_000),
      "Mohammedia" := Box(33_660_000, 33_720_000, -7_430_000, -7_360_000)
    ]

  /** `QUARTIER_ALIASES`, in the order of the dictionary literal:
      (lower-case alias, canonical neighbourhood name). The literal lists the
      aliases city by city, so it is the concatenation of per-city groups. */
  const QuartierAliases: seq<(string, string)> :=
    CasablancaAliases + AgadirAliases + MarrakechAliases + TangerAliases + RabatAliases + MohammediaAliases

  const CasablancaAliases: seq<(string, string)> := [
    ("belvedere", "Belvedere"),
    ("belvédère", "Belvedere"),
    ("triangle d'or", "Triangle d'Or"),
    ("triangle dor", "Triangle d'Or"),
    ("sidi bernoussi", "Sidi Bernoussi"),
    ("bernoussi", "Sidi Bernoussi"),
    ("ain diab", "Ain Diab"),
    ("ain sebaa", "Ain Sebaa"),
    ("aïn sebaâ", "Ain Sebaa"),
    ("hay hassani", "Hay Hassani"),
    ("hay mohammadi", "Hay Mohammadi"),
    ("hay riad", "Hay Riad"),
    ("sidi maarouf", "Sidi Maarouf"),
    ("moulay rachid", "Moulay Rachid"),
    ("sidi belyout", "Sidi Belyout"),
    ("roches noires", "Roches Noires"),
    ("val fleuri", "Val Fleuri"),
    ("centre ville", "Centre Ville"),
    ("casa anfa", "Casa Anfa"),
    ("ain chock", "Ain Chock"),
    ("ben m'sick", "Ben M'Sick"),
    ("ben msick", "Ben M'Sick"),
    ("californie", "Californie"),
    ("bourgogne", "Bourgogne"),
    ("palmier", "Palmier"),
    ("gauthier", "Gauthier"),
    ("maarif", "Maarif"),
    ("racine", "Racine"),
    ("anfa", "Anfa"),
    ("oasis", "Oasis"),
    ("oulfa", "Oulfa"),
    ("sbata", "Sbata"),
    ("cil", "CIL")
  ]

  const AgadirAliases: seq<(string, string)> := [
    ("talborjt", "Talborjt"),
    ("founty", "Founty"),
    ("hay almassira", "Hay Almassira"),
    ("anza", "Anza"),
    ("dakhla", "Dakhla")
  ]

  const MarrakechAliases: seq<(string, string)> := [
    ("gueliz", "Gueliz"),
    ("guéliz", "Gueliz"),
    ("hivernage", "Hivernage"),
    ("médina", "Medina"),
    ("medina", "Medina"),
    ("palmeraie", "Palmeraie"),
    ("majorelle", "Majorelle"),
    ("targa", "Targa"),
    ("massira", "Massira")
  ]

  const TangerAliases: seq<(string, string)> := [
    ("malabata", "Malabata"),
    ("marshan", "Marshan"),
    ("iberia", "Iberia"),
    ("achakar", "Achakar"),
    ("centre tanger", "Centre Tanger")
  ]

  const RabatAliases: seq<(string, string)> := [
    ("agdal", "Agdal"),
    ("hassan", "Hassan"),
    ("souissi", "Souissi"),
    ("les orangers", "Les Orangers"),
    ("yacoub el mansour", "Yacoub El Mansour")
  ]

  const MohammediaAliases: seq<(string, string)> := [
    ("centre mohammedia", "Centre Mohammedia"),
    ("ain harrouda", "Ain Harrouda")
  ]

  predicate AllWellFormed(m: map<string, Box>) {
    forall q | q in m :: m[q].WellFormed()
  }

  lemma UnionWellFormed(a: map<string, Box>, b: map<string, Box>)
    requires AllWellFormed(a) && AllWellFormed(b)
    ensures AllWellFormed(a + b)
  {
  }

  lemma CasablancaWellFormed()
    ensures AllWellFormed(CasablancaQuartiers)
  {
  }

  lemma AgadirWellFormed()
    ensures AllWellFormed(AgadirQuartiers)
  {
  }

  lemma MarrakechWellFormed()
    ensures AllWellFormed(MarrakechQuartiers)
  {
  }

  lemma TangerWellFormed()
    ensures AllWellFormed(TangerQuartiers)
  {
  }

  lemma RabatWellFormed()
    ensures AllWellFormed(RabatQuartiers)
  {
  }

  lemma MohammediaWellFormed()
    ensures AllWellFormed(MohammediaQuartiers)
  {
  }

  /** Every city box is a proper rectangle. */
  lemma CityBoxesWellFormed()
    ensures AllWellFormed(CityBounds)
  {
  }

  /** Every neighbourhood box is a proper rectangle. */
  lemma QuartierBoxesWellFormed()
    ensures AllWellFormed(QuartierBounds)
  {
    CasablancaWellFormed();
    AgadirWellFormed();
    MarrakechWellFormed();
    TangerWellFormed();
    RabatWellFormed();
    MohammediaWellFormed();
    UnionWellFormed(CasablancaQuartiers, AgadirQuartiers);
    UnionWellFormed(CasablancaQuartiers + AgadirQuartiers, MarrakechQuartiers);
    UnionWellFormed(CasablancaQuartiers + AgadirQuartiers + MarrakechQuartiers, TangerQuartiers);
    UnionWellFormed(CasablancaQuartiers + AgadirQuartiers + MarrakechQuartiers + TangerQuartiers, RabatQuartiers);
    UnionWellFormed(CasablancaQuartiers + AgadirQuartiers + MarrakechQuartiers + TangerQuartiers + RabatQuartiers,
                    MohammediaQuartiers);
  }

  predicate TargetsIn(aliases: seq<(string, string)>, m: map<string, Box>) {
    forall i | 0 <= i < |aliases| :: aliases[i].1 in m
  }

  lemma UnionTargets(a: seq<(string, string)>, m: map<string, Box>,
                     b: seq<(string, string)>, n: map<string, Box>)
    requires TargetsIn(a, m) && TargetsIn(b, n)
    ensures TargetsIn(a + b, m + n)
  {
  }

  lemma CasablancaTargets()
    ensures TargetsIn(CasablancaAliases, CasablancaQuartiers)
  {
  }

  lemma AgadirTargets()
    ensures TargetsIn(AgadirAliases, AgadirQuartiers)
  {
  }

  lemma MarrakechTargets()
    ensures TargetsIn(MarrakechAliases, MarrakechQuartiers)
  {
  }

  lemma TangerTargets()
    ensures TargetsIn(TangerAliases, TangerQuartiers)
  {
  }

  lemma RabatTargets()
    ensures TargetsIn(RabatAliases, RabatQuartiers)
  {
  }

  lemma MohammediaTargets()
    ensures TargetsIn(MohammediaAliases, MohammediaQuartiers)
  {
  }

  /** Every alias folds onto a neighbourhood that has a box. */
  lemma AliasTargetsHaveBoxes()
    ensures TargetsIn(QuartierAliases, QuartierBounds)
  {
    CasablancaTargets();
    AgadirTargets();
    MarrakechTargets();
    TangerTargets();
    RabatTargets();
    MohammediaTargets();
    UnionTargets(CasablancaAliases, CasablancaQuartiers, AgadirAliases, AgadirQuartiers);
    UnionTargets(CasablancaAliases + AgadirAliases, CasablancaQuartiers + AgadirQuartiers,
                 MarrakechAliases, MarrakechQuartiers);
    UnionTargets(CasablancaAliases + AgadirAliases + MarrakechAliases,
                 CasablancaQuartiers + AgadirQuartiers + MarrakechQuartiers,
                 TangerAliases, TangerQuartiers);
    UnionTargets(CasablancaAliases + AgadirAliases + MarrakechAliases + TangerAliases,
                 CasablancaQuartiers + AgadirQuartiers + MarrakechQuartiers + TangerQuartiers,
                 RabatAliases, RabatQuartiers);
    UnionTargets(CasablancaAliases + AgadirAliases + MarrakechAliases + TangerAliases + RabatAliases,
                 CasablancaQuartiers + AgadirQuartiers + MarrakechQuartiers + TangerQuartiers + RabatQuartiers,
                 MohammediaAliases, MohammediaQuartiers);
  }

  /** The box `coords_for` samples from: `QUARTIER_BOUNDS.get(quartier) or
      CITY_BOUNDS.get(city)`; the neighbourhood wins over the city, and a
      name that is absent or unknown falls through. */
  function BoxFor(quartier: Option<string>, city: Option<string>): (b: Option<Box>)
    ensures quartier.Some? && quartier.value in QuartierBounds ==>
              b == Some(QuartierBounds[quartier.value])
    ensures !(quartier.Some? && quartier.value in QuartierBounds) &&
            city.Some? && city.value in CityBounds ==>
              b == Some(CityBounds[city.value])
    ensures !(quartier.Some? && quartier.value in QuartierBounds) &&
            !(city.Some? && city.value in CityBounds) ==>
              b == None
    ensures b.Some? ==> b.value.WellFormed()
  {
    QuartierBoxesWellFormed();
    CityBoxesWellFormed();
    if quartier.Some? && quartier.value in QuartierBounds then Some(QuartierBounds[quartier.value])
    else if city.Some? && city.value in CityBounds then Some(CityBounds[city.value])
    else None
  }

  /** `round(random.uniform(lo, hi), 6)` in micro-degrees, the draw being
      supplied by the caller. */
  function Sample(lo: int, hi: int, draw: nat): (v: int)
    requires lo <= hi
    ensures lo <= v <= hi
  {
    lo + draw % (hi - lo + 1)
  }

  /** Every micro-degree of the interval is some draw's outcome. */
  lemma SampleCoversInterval(lo: int, hi: int, v: int)
    requires lo <= v <= hi
    ensures Sample(lo, hi, (v - lo) as nat) == v
  {
    assert (v - lo) % (hi - lo + 1) == v - lo;
  }

  /** `coords_for`: a point of the chosen box, or no coordinates at all. */
  function CoordsFor(quartier: Option<string>, city: Option<string>, draw: Draw): (p: Option<Point>)
    ensures p.Some? <==> BoxFor(quartier, city).Some?
    ensures p.Some? ==> BoxFor(quartier, city).value.Holds(p.value)
  {
    match BoxFor(quartier, city)
    case None => None
    case Some(b) =>
      Some(Point(Sample(b.latMin, b.latMax, draw.lat), Sample(b.lngMin, b.lngMax, draw.lng)))
  }

  /** Every point of the chosen box is the outcome of some draw. */
  lemma CoordsCoverBox(quartier: Option<string>, city: Option<string>, p: Point)
    requires BoxFor(quartier, city).Some? && BoxFor(quartier, city).value.Holds(p)
    ensures exists d: Draw :: CoordsFor(quartier, city, d) == Some(p)
  {
    var b := BoxFor(quartier, city).value;
    var d := Draw((p.lat - b.latMin) as nat, (p.lng - b.lngMin) as nat);
    SampleCoversInterval(b.latMin, b.latMax, p.lat);
    SampleCoversInterval(b.lngMin, b.lngMax, p.lng);
    assert CoordsFor(quartier, city, d) == Some(p);
  }
}
