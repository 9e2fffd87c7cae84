/**
 * The room feature registry: the closed set of feature names and the
 * checkbox id each one is bound to on the admin room forms.
 */
module Features {
  import opened Wrappers

  /** `FeatureName`: the keys of the registry. */
  datatype FeatureName = WiFi | TV | Radio | Refreshments | Safe | Views

  /** The registry key of a feature, as a string. */
  function Key(f: FeatureName): string
  {
    match f
    case WiFi => "WiFi"
    case TV => "TV"
    case Radio => "Radio"
    case Refreshments => "Refreshments"
    case Safe => "Safe"
    case Views => "Views"
  }

  /** `FEATURE_CHECKBOX_IDS[f]`. */
  function CheckboxId(f: FeatureName): string
  {
    match f
    case WiFi => "wifiCheckbox"
    case TV => "tvCheckbox"
    case Radio => "radioCheckbox"
    case Refreshments => "refreshmentsCheckbox"
    case Safe => "safeCheckbox"
    case Views => "viewsCheckbox"
  }

  /** `ALL_FEATURES`: the registry's keys in declaration order. */
  const AllFeatures: seq<FeatureName> := [WiFi, TV, Radio, Refreshments, Safe, Views]

  /** The feature a string names, if it is one of the registry's keys. */
  function FromKey(s: string): (f: Option<FeatureName>)
    ensures f.Some? ==> Key(f.value) == s
  {
    if s == "WiFi" then Some(WiFi)
    else if s == "TV" then Some(TV)
    else if s == "Radio" then Some(Radio)
    else if s == "Refreshments" then Some(Refreshments)
    else if s == "Safe" then Some(Safe)
    else if s == "Views" then Some(Views)
    else None
  }

  /** Every key reads back as its feature, so the key set is exactly the six names. */
  lemma KeyRoundTrip(f: FeatureName)
    ensures FromKey(Key(f)) == Some(f)
  {
  }

  /** `ALL_FEATURES` lists every feature exactly once. */
  lemma AllFeaturesComplete()
    ensures |AllFeatures| == 6
    ensures forall f: FeatureName :: f in AllFeatures
    ensures forall i, j :: 0 <= i < j < |AllFeatures| ==> AllFeatures[i] != AllFeatures[j]
  {
    forall f: FeatureName ensures f in AllFeatures {
      match f
      case WiFi => assert AllFeatures[0] == f;
      case TV => assert AllFeatures[1] == f;
      case Radio => assert AllFeatures[2] == f;
      case Refreshments => assert AllFeatures[3] == f;
      case Safe => assert AllFeatures[4] == f;
      case Views => assert AllFeatures[5] == f;
    }
  }

  /** No two features share a checkbox id. */
  lemma CheckboxIdInjective(f: FeatureName, g: FeatureName)
    ensures CheckboxId(f) == CheckboxId(g) ==> f == g
  {
  }

  /** Distinct features have distinct keys. */
  lemma KeyInjective(f: FeatureName, g: FeatureName)
    ensures Key(f) == Key(g) ==> f == g
  {
    KeyRoundTrip(f);
    KeyRoundTrip(g);
  }
}
