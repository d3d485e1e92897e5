/** The preset catalog (`PRESET_DATASETS`): groups of named dataset entries,
    kept in insertion order, and the `needs_validation` lookup that lets a
    trusted preset skip source inspection. The current plugin reads the
    catalog from a presets file, so there it is an input; the legacy
    top-level module hard-codes it as `LegacyPresets`. */
module Catalog {
  import opened Common
  import opened Text

  /** One catalog entry. A key missing from the JSON object is `None`. */
  datatype Preset = Preset(
    key: string,
    url: Option<string>,
    urlTemplate: Option<string>,
    needsValidation: Option<bool>,
    displayName: Option<string>,
    subtypes: seq<string>)

  /** A top-level catalog key (`overture`, `source_cooperative`, `other`). */
  datatype Group = Group(name: string, presets: seq<Preset>)

  type Presets = seq<Group>

  /** Every entry, group by group, in insertion order: the order of
      `for source in presets.values(): for dataset in source.values()`. */
  function Flatten(c: Presets): (r: seq<Preset>)
    ensures forall g, p :: g in c && p in g.presets ==> p in r
    ensures forall p :: p in r ==> exists g :: g in c && p in g.presets
  {
    if |c| == 0 then [] else c[0].presets + Flatten(c[1..])
  }

  /** A single group is walked as its own entries. */
  lemma FlattenOne(g: Group)
    ensures Flatten([g]) == g.presets
  {
    assert [g][1..] == [];
  }

  /** The walk over two catalogs one after the other is the walk over the
      first followed by the walk over the second: groups are visited in
      order, and each group's entries stay together. */
  lemma {:induction false} FlattenAppend(c1: Presets, c2: Presets)
    ensures Flatten(c1 + c2) == Flatten(c1) + Flatten(c2)
    decreases |c1|
  {
    if |c1| == 0 {
      assert c1 + c2 == c2;
    } else {
      assert (c1 + c2)[0] == c1[0];
      assert (c1 + c2)[1..] == c1[1..] + c2;
      FlattenAppend(c1[1..], c2);
    }
  }

  /** The text by which an entry recognises a URL: the `url` field, or the
      part of `url_template` before the first `{`. */
  predicate Matches(p: Preset, url: string) {
    (p.url.Some? && Contains(url, p.url.value))
    || (p.urlTemplate.Some? && Contains(url, UpTo(p.urlTemplate.value, "{")))
  }

  /** `dataset.get("needs_validation", True)`. */
  function Flag(p: Preset): bool {
    p.needsValidation.GetOr(true)
  }

  /** `needs_validation` over a flat list of entries. */
  function NeedsValidationIn(ps: seq<Preset>, url: string): bool {
    if |ps| == 0 then true
    else if Matches(ps[0], url) then Flag(ps[0])
    else NeedsValidationIn(ps[1..], url)
  }

  /** `ValidationWorker.needs_validation` for a dataset URL. */
  function NeedsValidation(c: Presets, url: string): bool {
    NeedsValidationIn(Flatten(c), url)
  }

  /** The first entry that recognises the URL decides, whatever later
      entries say. */
  lemma {:induction false} FirstMatchDecides(ps: seq<Preset>, url: string, i: nat)
    requires i < |ps| && Matches(ps[i], url)
    requires forall j :: 0 <= j < i ==> !Matches(ps[j], url)
    ensures NeedsValidationIn(ps, url) == Flag(ps[i])
  {
    if i > 0 {
      assert !Matches(ps[0], url);
      FirstMatchDecides(ps[1..], url, i - 1);
    }
  }

  /** A URL no entry recognises needs validation. */
  lemma {:induction false} UnmatchedNeedsValidation(ps: seq<Preset>, url: string)
    requires forall j :: 0 <= j < |ps| ==> !Matches(ps[j], url)
    ensures NeedsValidationIn(ps, url)
  {
    if |ps| > 0 {
      assert !Matches(ps[0], url);
      UnmatchedNeedsValidation(ps[1..], url);
    }
  }

  /** The answer is always the flag of some recognising entry, or `true`. */
  lemma {:induction false} AnswerComesFromAMatch(ps: seq<Preset>, url: string)
    ensures !NeedsValidationIn(ps, url) ==>
      exists i :: 0 <= i < |ps| && Matches(ps[i], url) && !Flag(ps[i])
  {
    if |ps| > 0 && !Matches(ps[0], url) {
      AnswerComesFromAMatch(ps[1..], url);
      if !NeedsValidationIn(ps, url) {
        var i :| 0 <= i < |ps[1..]| && Matches(ps[1..][i], url) && !Flag(ps[1..][i]);
        assert ps[i + 1] == ps[1..][i];
      }
    }
  }

  /** When a URL is recognised by entry `i` and no entry up to `i` asks for
      validation, the URL skips validation. */
  lemma SkipsWhenTrustedUpToMatch(ps: seq<Preset>, url: string, i: nat)
    requires i < |ps| && Matches(ps[i], url)
    requires forall j :: 0 <= j <= i ==> !Flag(ps[j])
    ensures !NeedsValidationIn(ps, url)
  {
    var k: nat := 0;
    while k < i && !Matches(ps[k], url)
      invariant k <= i
      invariant forall j :: 0 <= j < k ==> !Matches(ps[j], url)
    {
      k := k + 1;
    }
    FirstMatchDecides(ps, url, k);
  }

  /** `presets[name]`, the first group with that key. */
  function GroupNamed(c: Presets, name: string): (r: Option<Group>)
    ensures r.Some? ==> r.value in c && r.value.name == name
    ensures r.None? ==> forall g :: g in c ==> g.name != name
  {
    if |c| == 0 then None
    else if c[0].name == name then Some(c[0])
    else GroupNamed(c[1..], name)
  }

  /** `group[key]`, the first entry with that key. */
  function EntryNamed(ps: seq<Preset>, key: string): (r: Option<Preset>)
    ensures r.Some? ==> r.value in ps && r.value.key == key
    ensures r.None? ==> forall p :: p in ps ==> p.key != key
  {
    if |ps| == 0 then None
    else if ps[0].key == key then Some(ps[0])
    else EntryNamed(ps[1..], key)
  }

  // The catalog hard-coded in the legacy top-level module.

  const Release: string := "s3://overturemaps-us-west-2/release/2025-01-22.0/"

  function OvertureEntry(theme: string, typePart: string, subtypes: seq<string>): Preset {
    Preset(theme, None, Some(Release + "theme=" + theme + "/type=" + typePart + "/*"),
           Some(false), None, subtypes)
  }

  const BaseSubtypes: seq<string> :=
    ["infrastructure", "land", "land_cover", "land_use", "water", "bathymetry"]

  const LegacyOverture: seq<Preset> := [
    OvertureEntry("buildings", "building", []),
    OvertureEntry("places", "place", []),
    OvertureEntry("transportation", "segment", []),
    OvertureEntry("addresses", "*", []),
    OvertureEntry("base", "{subtype}", BaseSubtypes),
    OvertureEntry("divisions", "division_area", [])
  ]

  const NhdUrl: string := "https://data.source.coop/cholmes/nhd/NHDFlowline.parquet"

  const LegacySourceCoop: seq<Preset> := [
    Preset("planet_eu_boundaries",
      Some("https://data.source.coop/planet/eu-field-boundaries/field_boundaries.parquet"),
      None, Some(false), Some("Planet EU Field Boundaries (2022)"), []),
    Preset("usda_crop",
      Some("https://data.source.coop/fiboa/us-usda-cropland/us_usda_cropland.parquet"),
      None, Some(false), Some("USDA Crop Sequence Boundaries"), []),
    Preset("ca_crop",
      Some("https://data.source.coop/fiboa/us-ca-scm/us_ca_scm.parquet"),
      None, Some(false), Some("California Crop Mapping"), []),
    Preset("vida_buildings",
      Some("s3://us-west-2.opendata.source.coop/vida/google-microsoft-osm-open-buildings/geoparquet/by_country/*/*.parquet"),
      None, Some(false), Some("VIDA Google/Microsoft/OSM Buildings"), []),
    Preset("us_structures",
      Some("s3://us-west-2.opendata.source.coop/wherobots/usa-structures/geoparquet/*.parquet"),
      None, Some(false), Some("US Structures from ORNL by Wherobots"), []),
    Preset("fsq_places_fused",
      Some("s3://us-west-2.opendata.source.coop/fused/fsq-os-places/2025-01-10/places/*.parquet"),
      None, Some(false), Some("Foursquare Open Source Places - Fused-partitioned"), []),
    Preset("nhd_flowlines", Some(NhdUrl),
      None, Some(true), Some("NHD Flowlines (experimental)"), [])
  ]

  const LegacyOther: seq<Preset> := [
    Preset("foursquare_places",
      Some("hf://datasets/foursquare/fsq-os-places/release/dt=2025-02-06/places/parquet/*.parquet"),
      None, Some(false), Some("Foursquare Places"), [])
  ]

  const LegacyPresets: Presets := [
    Group("overture", LegacyOverture),
    Group("source_cooperative", LegacySourceCoop),
    Group("other", LegacyOther)
  ]

  /** Every hard-coded entry states its flag, and only `nhd_flowlines`
      asks for validation. */
  lemma LegacyFlags()
    ensures |Flatten(LegacyPresets)| == 14
    ensures forall p :: p in Flatten(LegacyPresets) ==>
      p.needsValidation == Some(p.key == "nhd_flowlines")
  {
    FlattenLegacy();
    OvertureFlags();
    SourceCoopFlags();
    OtherFlags();
    var all := LegacyOverture + LegacySourceCoop + LegacyOther;
    forall p | p in all ensures p.needsValidation == Some(p.key == "nhd_flowlines") {
      if p in LegacyOverture {
      } else if p in LegacySourceCoop {
      } else {
        assert p in LegacyOther;
      }
    }
  }

  lemma FlattenLegacy()
    ensures Flatten(LegacyPresets) == LegacyOverture + LegacySourceCoop + LegacyOther
  {
    assert Flatten(LegacyPresets[2..]) == LegacyOther;
  }

  lemma OvertureFlags()
    ensures |LegacyOverture| == 6
    ensures forall p | p in LegacyOverture :: p.needsValidation == Some(false) && p.key != "nhd_flowlines"
  {
  }

  lemma SourceCoopFlags()
    ensures |LegacySourceCoop| == 7
    ensures forall p | p in LegacySourceCoop :: p.needsValidation == Some(p.key == "nhd_flowlines")
  {
  }

  lemma OtherFlags()
    ensures |LegacyOther| == 1
    ensures forall p | p in LegacyOther :: p.needsValidation == Some(false) && p.key != "nhd_flowlines"
  {
  }
}
