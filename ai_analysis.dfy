/** The self-contained part of the AI analysis service: turning the measurement
    records returned by the inference endpoint into metric records. */
module AiAnalysis {
  import opened Wrappers
  import opened Text
  import Sequences

  // ---------------------------------------------------------------- endpoint configuration

  /** A configured URL is set and non-empty (`!API_URL` is false). */
  predicate Configured(url: Option<string>) {
    url.Some? && url.value != ""
  }

  /** The audio endpoint is the image endpoint with its first `/analizeimage`
      replaced by `/analizeaudio`; unset stays unset. */
  function AudioApiUrl(apiUrl: Option<string>): (r: Option<string>)
    ensures r.None? <==> apiUrl.None?
    ensures apiUrl.Some? && !Contains(apiUrl.value, "/analizeimage") ==> r == apiUrl
    ensures apiUrl.Some? && Contains(apiUrl.value, "/analizeimage") ==> Contains(r.value, "/analizeaudio")
    ensures apiUrl.Some? && Contains(apiUrl.value, "/analizeimage") ==>
      var u := apiUrl.value;
      var j := FindFirst(u, "/analizeimage").value;
      && OccursAt(u, "/analizeimage", j)
      && (forall k :: 0 <= k < j ==> !OccursAt(u, "/analizeimage", k))
      && r.value == u[..j] + "/analizeaudio" + u[j + |"/analizeimage"|..]
  {
    match apiUrl
    case None => None
    case Some(u) =>
      if Contains(u, "/analizeimage") then
        ContainsItself("/analizeaudio");
        ReplacementIsContained(u, "/analizeimage", "/analizeaudio", "/analizeaudio");
        Some(ReplaceFirst(u, "/analizeimage", "/analizeaudio"))
      else Some(ReplaceFirst(u, "/analizeimage", "/analizeaudio"))
  }

  /** Audio analysis is available exactly when image analysis is. */
  lemma AudioConfiguredIff(apiUrl: Option<string>)
    ensures Configured(AudioApiUrl(apiUrl)) <==> Configured(apiUrl)
  {
    if apiUrl.Some? && Contains(apiUrl.value, "/analizeimage") {
      var u := apiUrl.value;
      var j := FindFirst(u, "/analizeimage").value;
      assert |ReplaceFirst(u, "/analizeimage", "/analizeaudio")| == |u| - 13 + 13;
    }
  }

  // ---------------------------------------------------------------- metric types

  /** The key the type classification looks at: lower-cased, all white space removed. */
  function NormalizedType(measurementType: string): string {
    StripSpaces(Lower(measurementType))
  }

  /** The normalized texts that map to one of the six canonical metric types. */
  predicate Recognized(n: string) {
    || Contains(n, "systolic") || Contains(n, "diastolic") || n == "bloodpressure"
    || Contains(n, "pulse") || Contains(n, "heartrate")
    || n == "weight" || Contains(n, "mass") || n == "temperature" || n == "temp"
  }

  predicate IsCanonicalType(t: string) {
    || t == "systolicPressure" || t == "diastolicPressure" || t == "bloodPressure"
    || t == "pulse" || t == "weight" || t == "temperature"
  }

  /** `word.charAt(0).toUpperCase() + word.slice(1).toLowerCase()`. */
  function Capitalize(word: string): string {
    if word == [] then [] else [UpperChar(word[0])] + Lower(word[1..])
  }

  function CapitalizeAll(words: seq<string>): (r: seq<string>)
    ensures |r| == |words|
    ensures forall k :: 0 <= k < |words| ==> r[k] == Capitalize(words[k])
  {
    if words == [] then [] else [Capitalize(words[0])] + CapitalizeAll(words[1..])
  }

  /** camelCase of the white-space separated words: the first lower-cased, the
      others capitalised, joined without separator. */
  function CamelCase(measurementType: string): string {
    var words := SplitOnSpaces(measurementType);
    Concat([Lower(words[0])] + CapitalizeAll(words[1..]))
  }

  /** The canonical type a normalized text denotes, the tests taken in the
      order of the source: "systolic" before "diastolic", and so on. */
  function Classify(n: string): Option<string> {
    if Contains(n, "systolic") then Some("systolicPressure")
    else if Contains(n, "diastolic") then Some("diastolicPressure")
    else if n == "bloodpressure" then Some("bloodPressure")
    else if Contains(n, "pulse") || Contains(n, "heartrate") then Some("pulse")
    else if n == "weight" || Contains(n, "mass") then Some("weight")
    else if n == "temperature" || n == "temp" then Some("temperature")
    else None
  }

  /** Classification succeeds exactly on the recognised texts and yields a canonical type. */
  lemma ClassifyRecognized(n: string)
    ensures Classify(n).Some? <==> Recognized(n)
    ensures Classify(n).Some? ==> IsCanonicalType(Classify(n).value)
  {
  }

  /** The metric type stored for a detected measurement: a canonical type when the
      normalized text is recognised, otherwise the camelCase form of the text. */
  function MapMeasurementToMetricType(measurementType: string): string {
    match Classify(NormalizedType(measurementType))
    case Some(canonical) => canonical
    case None => CamelCase(measurementType)
  }

  // ---------------------------------------------------------------- properties of the mapping

  lemma {:induction false} ConcatNoSpace(words: seq<string>)
    requires forall k :: 0 <= k < |words| ==> NoSpace(words[k])
    ensures NoSpace(Concat(words))
    decreases |words|
  {
    if words != [] {
      ConcatNoSpace(words[1..]);
    }
  }

  lemma {:induction false} LowerConcatCapitalized(words: seq<string>)
    ensures Lower(Concat(CapitalizeAll(words))) == Lower(Concat(words))
    decreases |words|
  {
    if words != [] {
      var w := words[0];
      LowerConcatCapitalized(words[1..]);
      assert CapitalizeAll(words)[1..] == CapitalizeAll(words[1..]);
      LowerAppend(Capitalize(w), Concat(CapitalizeAll(words[1..])));
      LowerAppend(w, Concat(words[1..]));
      if w != [] {
        LowerAppend([UpperChar(w[0])], Lower(w[1..]));
        LowerAppend([w[0]], w[1..]);
        assert w == [w[0]] + w[1..];
      }
    }
  }

  lemma CapitalizeKeepsNoSpace(word: string)
    requires NoSpace(word)
    ensures NoSpace(Capitalize(word))
  {
    if word != [] {
      LowerKeepsNoSpace(word[1..]);
      var c := Capitalize(word);
      forall i | 0 <= i < |c|
        ensures !IsSpace(c[i])
      {
        if i == 0 {
          assert c[0] == UpperChar(word[0]);
        } else {
          assert c[i] == Lower(word[1..])[i - 1];
        }
      }
    }
  }

  /** The camelCase form never contains white space. */
  lemma CamelCaseHasNoSpace(measurementType: string)
    ensures NoSpace(CamelCase(measurementType))
  {
    var words := SplitOnSpaces(measurementType);
    var rest := CapitalizeAll(words[1..]);
    var parts := [Lower(words[0])] + rest;
    LowerKeepsNoSpace(words[0]);
    forall k | 1 <= k < |parts|
      ensures NoSpace(parts[k])
    {
      assert parts[k] == rest[k - 1] == Capitalize(words[1..][k - 1]);
      CapitalizeKeepsNoSpace(words[1..][k - 1]);
    }
    ConcatNoSpace(parts);
  }

  /** Lower-casing the camelCase form gives back the normalized type: the
      words are kept in order, only their case changes. */
  lemma CamelCaseLowered(measurementType: string)
    ensures Lower(CamelCase(measurementType)) == NormalizedType(measurementType)
  {
    var words := SplitOnSpaces(measurementType);
    assert words == [words[0]] + words[1..];
    var rest := CapitalizeAll(words[1..]);
    assert ([Lower(words[0])] + rest)[1..] == rest;
    LowerAppend(Lower(words[0]), Concat(rest));
    LowerIdempotent(words[0]);
    LowerConcatCapitalized(words[1..]);
    LowerAppend(words[0], Concat(words[1..]));
    ConcatOfSplit(measurementType);
    LowerStripCommute(measurementType);
  }

  lemma {:induction false} NextSpaceOfNoSpace(s: string, i: nat)
    requires i <= |s| && NoSpace(s)
    ensures NextSpace(s, i) == |s|
    decreases |s| - i
  {
    if i < |s| {
      NextSpaceOfNoSpace(s, i + 1);
    }
  }

  /** A type without white space is simply lower-cased. */
  lemma CamelCaseOfOneWord(measurementType: string)
    requires NoSpace(measurementType)
    ensures CamelCase(measurementType) == Lower(measurementType)
  {
    NextSpaceOfNoSpace(measurementType, 0);
    var words := SplitOnSpaces(measurementType);
    assert words == [measurementType];
    assert CapitalizeAll(words[1..]) == [];
    var parts := [Lower(measurementType)];
    assert Concat(parts) == Lower(measurementType) + Concat(parts[1..]);
    assert Lower(measurementType) + [] == Lower(measurementType);
  }

  lemma CanonicalHasNoSpace(t: string)
    requires IsCanonicalType(t)
    ensures NoSpace(t)
  {
    if t == "systolicPressure" || t == "diastolicPressure" || t == "bloodPressure" {
      VisibleAsciiHasNoSpace(t);
    } else {
      VisibleAsciiHasNoSpace(t);
    }
  }

  /** The mapped type never contains white space. */
  lemma MappedTypeHasNoSpace(measurementType: string)
    ensures NoSpace(MapMeasurementToMetricType(measurementType))
  {
    var c := Classify(NormalizedType(measurementType));
    if c.Some? {
      CanonicalHasNoSpace(c.value);
    } else {
      CamelCaseHasNoSpace(measurementType);
    }
  }

  /** "systolic" is tested first, so a type mentioning both pressures is systolic. */
  lemma SystolicBeforeDiastolic(measurementType: string)
    requires Contains(NormalizedType(measurementType), "systolic")
    ensures MapMeasurementToMetricType(measurementType) == "systolicPressure"
  {
  }

  lemma SystolicNormalForm()
    ensures NormalizedType("systolicPressure") == "systolicpressure"
  {
    assert Lower("systolicPressure") == "systolicpressure";
    StripSpacesOfNoSpace("systolicpressure");
  }

  lemma DiastolicNormalForm()
    ensures NormalizedType("diastolicPressure") == "diastolicpressure"
  {
    assert Lower("diastolicPressure") == "diastolicpressure";
    StripSpacesOfNoSpace("diastolicpressure");
  }

  lemma BloodPressureNormalForm()
    ensures NormalizedType("bloodPressure") == "bloodpressure"
  {
    assert Lower("bloodPressure") == "bloodpressure";
    StripSpacesOfNoSpace("bloodpressure");
  }

  lemma PulseNormalForm()
    ensures NormalizedType("pulse") == "pulse"
  {
    assert Lower("pulse") == "pulse";
    StripSpacesOfNoSpace("pulse");
  }

  lemma WeightNormalForm()
    ensures NormalizedType("weight") == "weight"
  {
    assert Lower("weight") == "weight";
    StripSpacesOfNoSpace("weight");
  }

  lemma TemperatureNormalForm()
    ensures NormalizedType("temperature") == "temperature"
  {
    assert Lower("temperature") == "temperature";
    StripSpacesOfNoSpace("temperature");
  }

  lemma SystolicIsFixed(n: string)
    requires n == "systolicpressure"
    ensures Classify(n) == Some("systolicPressure")
  {
    assert n[0..8] == "systolic";
    ContainsAt(n, "systolic", 0);
  }

  lemma DiastolicIsFixed(n: string)
    requires n == "diastolicpressure"
    ensures Classify(n) == Some("diastolicPressure")
  {
    assert 'y' !in n;
    MissingCharNotContained(n, "systolic", 'y');
    assert n[0..9] == "diastolic";
    ContainsAt(n, "diastolic", 0);
  }

  lemma BloodPressureIsFixed(n: string)
    requires n == "bloodpressure"
    ensures Classify(n) == Some("bloodPressure")
  {
    assert 'y' !in n && 'a' !in n;
    MissingCharNotContained(n, "systolic", 'y');
    MissingCharNotContained(n, "diastolic", 'a');
  }

  lemma PulseIsFixed(n: string)
    requires n == "pulse"
    ensures Classify(n) == Some("pulse")
  {
    assert 'y' !in n && 'a' !in n;
    MissingCharNotContained(n, "systolic", 'y');
    MissingCharNotContained(n, "diastolic", 'a');
    ContainsItself(n);
  }

  lemma WeightIsFixed(n: string)
    requires n == "weight"
    ensures Classify(n) == Some("weight")
  {
    assert 'y' !in n && 'a' !in n && 'u' !in n;
    MissingCharNotContained(n, "systolic", 'y');
    MissingCharNotContained(n, "diastolic", 'a');
    MissingCharNotContained(n, "pulse", 'u');
    MissingCharNotContained(n, "heartrate", 'a');
  }

  lemma TemperatureIsFixed(n: string)
    requires n == "temperature"
    ensures Classify(n) == Some("temperature")
  {
    assert 'y' !in n && 'i' !in n && 'l' !in n && 'h' !in n && 's' !in n;
    MissingCharNotContained(n, "systolic", 'y');
    MissingCharNotContained(n, "diastolic", 'i');
    MissingCharNotContained(n, "pulse", 'l');
    MissingCharNotContained(n, "heartrate", 'h');
    MissingCharNotContained(n, "mass", 's');
  }

  /** The six canonical types are recognised and are fixed points of the mapping. */
  lemma CanonicalTypesAreFixedPoints(t: string)
    requires IsCanonicalType(t)
    ensures Recognized(NormalizedType(t))
    ensures MapMeasurementToMetricType(t) == t
  {
    if t == "systolicPressure" { SystolicNormalForm(); SystolicIsFixed(NormalizedType(t)); }
    else if t == "diastolicPressure" { DiastolicNormalForm(); DiastolicIsFixed(NormalizedType(t)); }
    else if t == "bloodPressure" { BloodPressureNormalForm(); BloodPressureIsFixed(NormalizedType(t)); }
    else if t == "pulse" { PulseNormalForm(); PulseIsFixed(NormalizedType(t)); }
    else if t == "weight" { WeightNormalForm(); WeightIsFixed(NormalizedType(t)); }
    else { TemperatureNormalForm(); TemperatureIsFixed(NormalizedType(t)); }
    ClassifyRecognized(NormalizedType(t));
  }

  /** The output is canonical exactly when the normalized type is recognised;
      any other type becomes its camelCase form. */
  lemma MappedTypeIsCanonicalIff(measurementType: string)
    ensures IsCanonicalType(MapMeasurementToMetricType(measurementType))
        <==> Recognized(NormalizedType(measurementType))
    ensures !Recognized(NormalizedType(measurementType)) ==>
      MapMeasurementToMetricType(measurementType) == CamelCase(measurementType)
  {
    var n := NormalizedType(measurementType);
    if !Recognized(n) {
      var r := CamelCase(measurementType);
      if IsCanonicalType(r) {
        CamelCaseLowered(measurementType);
        CamelCaseHasNoSpace(measurementType);
        LowerKeepsNoSpace(r);
        StripSpacesOfNoSpace(Lower(r));
        assert NormalizedType(r) == n;
        CanonicalTypesAreFixedPoints(r);
        assert false;
      }
    }
  }

  /** Case and white space do not matter for a recognised type; for any other type
      they change only the case of the result. */
  lemma MappingIgnoresCaseAndSpacing(t1: string, t2: string)
    requires NormalizedType(t1) == NormalizedType(t2)
    ensures Recognized(NormalizedType(t1)) ==>
      MapMeasurementToMetricType(t1) == MapMeasurementToMetricType(t2)
    ensures Lower(MapMeasurementToMetricType(t1)) == Lower(MapMeasurementToMetricType(t2))
  {
    if !Recognized(NormalizedType(t1)) {
      CamelCaseLowered(t1);
      CamelCaseLowered(t2);
    }
  }

  /** Two words separated by white space normalize to the two lower-cased words joined. */
  lemma NormalizedTwoWords(first: string, gap: string, second: string)
    requires NoSpace(first) && AllSpace(gap) && NoSpace(second)
    ensures NormalizedType(first + gap + second) == Lower(first) + Lower(second)
  {
    LowerAppend(first + gap, second);
    LowerAppend(first, gap);
    LowerKeepsNoSpace(first);
    LowerKeepsNoSpace(second);
    assert AllSpace(Lower(gap));
    StripSpacesAroundGap(Lower(first), Lower(gap), Lower(second));
  }

  lemma BloodPressureWords()
    ensures NoSpace("Blood") && NoSpace("Pressure") && NoSpace("blood") && NoSpace("pressure")
    ensures AllSpace(" ") && AllSpace("  ")
    ensures Lower("Blood") + Lower("Pressure") == "bloodpressure"
    ensures Lower("blood") + Lower("pressure") == "bloodpressure"
  {
    assert Lower("Blood") == "blood" && Lower("blood") == "blood";
    assert Lower("Pressure") == "pressure" && Lower("pressure") == "pressure";
  }

  lemma SpacedNormalForm()
    ensures NormalizedType("Blood Pressure") == "bloodpressure"
  {
    BloodPressureWords();
    assert "Blood Pressure" == "Blood" + " " + "Pressure";
    NormalizedTwoWords("Blood", " ", "Pressure");
  }

  lemma UpperNormalForm()
    ensures NormalizedType("BLOODPRESSURE") == "bloodpressure"
  {
    assert Lower("BLOODPRESSURE") == "bloodpressure";
    StripSpacesOfNoSpace("bloodpressure");
  }

  lemma DoubleSpacedNormalForm()
    ensures NormalizedType("blood  pressure") == "bloodpressure"
  {
    BloodPressureWords();
    assert "blood  pressure" == "blood" + "  " + "pressure";
    NormalizedTwoWords("blood", "  ", "pressure");
  }

  /** The spellings of "blood pressure" the mapping treats alike. */
  lemma BloodPressureSpellings()
    ensures MapMeasurementToMetricType("Blood Pressure") == "bloodPressure"
    ensures MapMeasurementToMetricType("BLOODPRESSURE") == "bloodPressure"
    ensures MapMeasurementToMetricType("blood  pressure") == "bloodPressure"
  {
    SpacedNormalForm();
    UpperNormalForm();
    DoubleSpacedNormalForm();
    BloodPressureIsFixed("bloodpressure");
  }

  /** Mapping an already camelCased free-text type again lower-cases it, so only
      the canonical types are fixed points. */
  lemma RemappingLowercasesFreeText(measurementType: string)
    requires !Recognized(NormalizedType(measurementType))
    ensures MapMeasurementToMetricType(MapMeasurementToMetricType(measurementType))
         == Lower(MapMeasurementToMetricType(measurementType))
  {
    MappedTypeIsCanonicalIff(measurementType);
    var r := CamelCase(measurementType);
    CamelCaseLowered(measurementType);
    CamelCaseHasNoSpace(measurementType);
    LowerKeepsNoSpace(r);
    StripSpacesOfNoSpace(Lower(r));
    assert NormalizedType(r) == NormalizedType(measurementType);
    CamelCaseOfOneWord(r);
  }

  // ---------------------------------------------------------------- units

  /** The key the unit rules look at: lower-cased, then trimmed. */
  function UnitKey(unit: string): string {
    Trim(Lower(unit))
  }

  predicate IsPressureType(metricType: string) {
    metricType == "bloodPressure" || metricType == "systolicPressure" || metricType == "diastolicPressure"
  }

  /** The unit stored for a measurement of the given (already mapped) metric type. */
  function NormalizeUnit(unit: string, metricType: string): string {
    var n := UnitKey(unit);
    if IsPressureType(metricType) then "mmHg"
    else if metricType == "pulse" then "bpm"
    else if metricType == "weight" then WeightUnit(n)
    else if metricType == "temperature" then TemperatureUnit(n)
    else unit
  }

  /** The weight rule on the unit key: "kg" is tested before "lb". */
  function WeightUnit(n: string): string {
    if Contains(n, "kg") then "kg"
    else if Contains(n, "lb") then "lbs"
    else n
  }

  /** The temperature rule on the unit key. */
  function TemperatureUnit(n: string): string {
    if n == "c" || n == "celsius" then "°C"
    else if n == "f" || n == "fahrenheit" then "°F"
    else n
  }

  /** The unit key is already lower-case and trimmed. */
  lemma UnitKeyIdempotent(unit: string)
    ensures UnitKey(UnitKey(unit)) == UnitKey(unit)
  {
    LowerTrimCommute(Lower(unit));
    LowerIdempotent(unit);
    TrimOfTrimmed(Trim(Lower(unit)));
  }

  /** Pressure and pulse units are fixed, whatever the detected unit. */
  lemma FixedUnits(unit: string, metricType: string)
    ensures IsPressureType(metricType) ==> NormalizeUnit(unit, metricType) == "mmHg"
    ensures metricType == "pulse" ==> NormalizeUnit(unit, metricType) == "bpm"
  {
  }

  /** For the six canonical types only the lower-cased, trimmed unit matters; any
      other type keeps the unit exactly as detected. */
  lemma UnitIgnoresCaseAndPadding(u1: string, u2: string, metricType: string)
    requires UnitKey(u1) == UnitKey(u2)
    ensures IsCanonicalType(metricType) ==> NormalizeUnit(u1, metricType) == NormalizeUnit(u2, metricType)
    ensures !IsCanonicalType(metricType) ==> NormalizeUnit(u1, metricType) == u1
  {
  }

  lemma KgKey(unit: string)
    requires unit == "kg"
    ensures UnitKey(unit) == unit
  {
    assert Lower("kg") == "kg";
    TrimOfTrimmed("kg");
  }

  lemma LbsKey(unit: string)
    requires unit == "lbs"
    ensures UnitKey(unit) == unit
  {
    assert Lower("lbs") == "lbs";
    TrimOfTrimmed("lbs");
  }

  lemma KgUnitStable(n: string)
    requires n == "kg"
    ensures WeightUnit(n) == "kg"
  {
    ContainsAt(n, "kg", 0);
  }

  lemma LbsUnitStable(n: string)
    requires n == "lbs"
    ensures WeightUnit(n) == "lbs"
  {
    assert 'k' !in n;
    MissingCharNotContained(n, "kg", 'k');
    assert n[0..2] == "lb";
    ContainsAt(n, "lb", 0);
  }

  /** Weight units: "kg" wins over "lb", and normalizing again changes nothing. */
  lemma WeightUnitIdempotent(unit: string)
    ensures Contains(UnitKey(unit), "kg") ==> NormalizeUnit(unit, "weight") == "kg"
    ensures !Contains(UnitKey(unit), "kg") && Contains(UnitKey(unit), "lb") ==>
      NormalizeUnit(unit, "weight") == "lbs"
    ensures NormalizeUnit(NormalizeUnit(unit, "weight"), "weight") == NormalizeUnit(unit, "weight")
  {
    var n := UnitKey(unit);
    var r := NormalizeUnit(unit, "weight");
    if Contains(n, "kg") {
      KgKey(r);
      KgUnitStable(UnitKey(r));
    } else if Contains(n, "lb") {
      LbsKey(r);
      LbsUnitStable(UnitKey(r));
    } else {
      UnitKeyIdempotent(unit);
    }
  }

  lemma CelsiusSymbolKey(unit: string)
    requires unit == "°C"
    ensures UnitKey(unit) == "°c"
  {
    assert Lower("°C") == "°c";
    TrimOfTrimmed("°c");
  }

  /** Temperature units: a spelled-out or one-letter scale becomes its symbol. */
  lemma TemperatureScales(unit: string)
    ensures UnitKey(unit) == "c" || UnitKey(unit) == "celsius" ==>
      NormalizeUnit(unit, "temperature") == "°C"
    ensures UnitKey(unit) == "f" || UnitKey(unit) == "fahrenheit" ==>
      NormalizeUnit(unit, "temperature") == "°F"
  {
  }

  /** Any other temperature unit is kept in its normalized form, and normalizing
      that again changes nothing. */
  lemma TemperatureOtherUnitIdempotent(unit: string)
    requires UnitKey(unit) != "c" && UnitKey(unit) != "celsius"
    requires UnitKey(unit) != "f" && UnitKey(unit) != "fahrenheit"
    ensures NormalizeUnit(unit, "temperature") == UnitKey(unit)
    ensures NormalizeUnit(NormalizeUnit(unit, "temperature"), "temperature")
         == NormalizeUnit(unit, "temperature")
  {
    UnitKeyIdempotent(unit);
  }

  /** The symbols themselves are not recognised: "°C" comes back as "°c", so the
      temperature rule is not idempotent on its own output. */
  lemma CelsiusSymbolIsLowered(unit: string)
    requires unit == "°C"
    ensures NormalizeUnit(unit, "temperature") == "°c"
  {
    CelsiusSymbolKey(unit);
  }

  // ---------------------------------------------------------------- conversion to metrics

  /** A measurement as returned by the inference endpoint; `value` is still text. */
  datatype DetectedMeasurement = DetectedMeasurement(measurementType: string, value: string, unit: string)

  datatype SourceType = Photo | Audio

  function SourceName(source: SourceType): string {
    match source
    case Photo => "photo"
    case Audio => "audio"
  }

  /** The fields of a metric row to be inserted. */
  datatype MetricDraft = MetricDraft(
    profileId: string, metricType: string, value: real, unit: string,
    timestamp: int, mediaId: string, notes: string)

  function AutoNotes(source: SourceType, measurementType: string): string {
    "Auto-detected from " + SourceName(source) + ": " + measurementType
  }

  /** The draft for one measurement whose value parsed as `value`. */
  function DraftOf(m: DetectedMeasurement, value: real, profileId: string, mediaId: string,
                   timestamp: int, source: SourceType): MetricDraft
  {
    var metricType := MapMeasurementToMetricType(m.measurementType);
    MetricDraft(profileId, metricType, value, NormalizeUnit(m.unit, metricType),
                timestamp, mediaId, AutoNotes(source, m.measurementType))
  }

  /** A measurement is kept when its value text parses as a number. */
  predicate Parsable(m: DetectedMeasurement, parseFloat: string -> Option<real>) {
    parseFloat(m.value).Some?
  }

  /** One draft per measurement whose value parses, in input order; `parseFloat`
      returns `None` where JavaScript's `parseFloat` returns NaN. */
  function ConvertMeasurementsToMetrics(
    measurements: seq<DetectedMeasurement>, profileId: string, mediaId: string, timestamp: int,
    parseFloat: string -> Option<real>, source: SourceType := Photo): (r: seq<MetricDraft>)
    ensures |r| <= |measurements|
    ensures forall k :: 0 <= k < |r| ==>
      r[k].profileId == profileId && r[k].mediaId == mediaId && r[k].timestamp == timestamp
    decreases |measurements|
  {
    if measurements == [] then []
    else
      Converted(measurements[0], profileId, mediaId, timestamp, parseFloat, source)
        + ConvertMeasurementsToMetrics(measurements[1..], profileId, mediaId, timestamp, parseFloat, source)
  }

  /** What one measurement contributes: its draft when its value parses, nothing otherwise. */
  function Converted(m: DetectedMeasurement, profileId: string, mediaId: string, timestamp: int,
                     parseFloat: string -> Option<real>, source: SourceType): (r: seq<MetricDraft>)
    ensures |r| <= 1
    ensures forall k :: 0 <= k < |r| ==>
      r[k].profileId == profileId && r[k].mediaId == mediaId && r[k].timestamp == timestamp
  {
    if Parsable(m, parseFloat) then [DraftOf(m, parseFloat(m.value).value, profileId, mediaId, timestamp, source)]
    else []
  }

  /** `d` is the draft of some parsable measurement of the list. */
  predicate DraftOfSome(d: MetricDraft, measurements: seq<DetectedMeasurement>, profileId: string,
                        mediaId: string, timestamp: int, parseFloat: string -> Option<real>,
                        source: SourceType)
  {
    exists i :: 0 <= i < |measurements| && Parsable(measurements[i], parseFloat) &&
      d == DraftOf(measurements[i], parseFloat(measurements[i].value).value, profileId, mediaId,
                   timestamp, source)
  }

  /** Every draft is the draft of a parsable input measurement. */
  lemma {:induction false} ConvertDraftsComeFromInput(
    measurements: seq<DetectedMeasurement>, profileId: string, mediaId: string, timestamp: int,
    parseFloat: string -> Option<real>, source: SourceType)
    ensures forall d ::
      d in ConvertMeasurementsToMetrics(measurements, profileId, mediaId, timestamp, parseFloat, source) ==>
        DraftOfSome(d, measurements, profileId, mediaId, timestamp, parseFloat, source)
    decreases |measurements|
  {
    if measurements != [] {
      var m := measurements[0];
      var tail := measurements[1..];
      ConvertDraftsComeFromInput(tail, profileId, mediaId, timestamp, parseFloat, source);
      var rest := ConvertMeasurementsToMetrics(tail, profileId, mediaId, timestamp, parseFloat, source);
      var r := ConvertMeasurementsToMetrics(measurements, profileId, mediaId, timestamp, parseFloat, source);
      forall d | d in r
        ensures DraftOfSome(d, measurements, profileId, mediaId, timestamp, parseFloat, source)
      {
        if d in rest {
          assert DraftOfSome(d, tail, profileId, mediaId, timestamp, parseFloat, source);
          var i :| 0 <= i < |tail| && Parsable(tail[i], parseFloat) &&
            d == DraftOf(tail[i], parseFloat(tail[i].value).value, profileId, mediaId, timestamp, source);
          assert tail[i] == measurements[i + 1];
        } else {
          assert Parsable(measurements[0], parseFloat);
        }
      }
    }
  }

  /** Conversely, every parsable measurement contributes its draft. */
  lemma {:induction false} ConvertKeepsEveryParsable(
    measurements: seq<DetectedMeasurement>, profileId: string, mediaId: string, timestamp: int,
    parseFloat: string -> Option<real>, source: SourceType, i: nat)
    requires i < |measurements| && Parsable(measurements[i], parseFloat)
    ensures DraftOf(measurements[i], parseFloat(measurements[i].value).value, profileId, mediaId, timestamp, source)
         in ConvertMeasurementsToMetrics(measurements, profileId, mediaId, timestamp, parseFloat, source)
    decreases i
  {
    if i > 0 {
      ConvertKeepsEveryParsable(measurements[1..], profileId, mediaId, timestamp, parseFloat, source, i - 1);
      assert measurements[1..][i - 1] == measurements[i];
    }
  }

  /** Conversion works element by element, so it preserves the input order. */
  lemma {:induction false} ConvertAppend(
    a: seq<DetectedMeasurement>, b: seq<DetectedMeasurement>, profileId: string, mediaId: string,
    timestamp: int, parseFloat: string -> Option<real>, source: SourceType)
    ensures ConvertMeasurementsToMetrics(a + b, profileId, mediaId, timestamp, parseFloat, source)
         == ConvertMeasurementsToMetrics(a, profileId, mediaId, timestamp, parseFloat, source)
          + ConvertMeasurementsToMetrics(b, profileId, mediaId, timestamp, parseFloat, source)
    decreases |a|
  {
    if a == [] {
      assert a + b == b;
    } else {
      var head := Converted(a[0], profileId, mediaId, timestamp, parseFloat, source);
      assert (a + b)[0] == a[0];
      assert (a + b)[1..] == a[1..] + b;
      ConvertAppend(a[1..], b, profileId, mediaId, timestamp, parseFloat, source);
      assert head + ConvertMeasurementsToMetrics(a[1..], profileId, mediaId, timestamp, parseFloat, source)
                  + ConvertMeasurementsToMetrics(b, profileId, mediaId, timestamp, parseFloat, source)
          == head + (ConvertMeasurementsToMetrics(a[1..], profileId, mediaId, timestamp, parseFloat, source)
                  + ConvertMeasurementsToMetrics(b, profileId, mediaId, timestamp, parseFloat, source));
    }
  }

  /** A single measurement yields its draft when its value parses and nothing otherwise. */
  lemma ConvertSingle(
    m: DetectedMeasurement, profileId: string, mediaId: string, timestamp: int,
    parseFloat: string -> Option<real>, source: SourceType)
    ensures var r := ConvertMeasurementsToMetrics([m], profileId, mediaId, timestamp, parseFloat, source);
      && (Parsable(m, parseFloat) ==>
           r == [DraftOf(m, parseFloat(m.value).value, profileId, mediaId, timestamp, source)])
      && (!Parsable(m, parseFloat) ==> r == [])
  {
    assert [m][1..] == [];
  }

  /** Exactly the parsable measurements are kept: one draft for each of them. */
  lemma {:induction false} ConvertKeepsParsable(
    measurements: seq<DetectedMeasurement>, profileId: string, mediaId: string, timestamp: int,
    parseFloat: string -> Option<real>, source: SourceType)
    ensures |ConvertMeasurementsToMetrics(measurements, profileId, mediaId, timestamp, parseFloat, source)|
         == |Sequences.Filter(measurements, m => Parsable(m, parseFloat))|
    decreases |measurements|
  {
    if measurements != [] {
      ConvertKeepsParsable(measurements[1..], profileId, mediaId, timestamp, parseFloat, source);
    }
  }

  /** The note names the source, "photo" unless the caller says otherwise, and the raw type. */
  lemma NotesNameTheSource(
    m: DetectedMeasurement, profileId: string, mediaId: string, timestamp: int,
    parseFloat: string -> Option<real>)
    requires Parsable(m, parseFloat)
    ensures ConvertMeasurementsToMetrics([m], profileId, mediaId, timestamp, parseFloat)[0].notes
         == "Auto-detected from photo: " + m.measurementType
  {
    ConvertSingle(m, profileId, mediaId, timestamp, parseFloat, Photo);
  }
}
