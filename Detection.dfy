/** The clothing-detection stage: the object detector's raw predictions are filtered
    to clothing classes and normalised into detected-item records. */
module Detection {
  import opened Wrappers
  import Seqs

  /** A bounding box as the detector reports it: [x, y, width, height]. */
  datatype BBox = BBox(x: real, y: real, width: real, height: real)

  /** One raw prediction of the object detector: a free-text class label, a score, a box. */
  datatype Prediction = Prediction(className: string, score: real, bbox: BBox)

  /** The normalised record returned for each kept prediction. */
  datatype DetectedItem = DetectedItem(itemType: string, confidence: real, bbox: BBox)

  /** The eight detector labels accepted as clothing, compared after lower-casing. */
  const ClothingClasses: set<string> :=
    {"shirt", "pants", "shoe", "boot", "hat", "jacket", "dress", "coat"}

  /** The label-to-type table; it is looked up with the label exactly as the detector wrote it. */
  const ClothingMap: map<string, string> :=
    map["person" := "person", "shirt" := "shirt", "pants" := "pants",
        "shoe" := "shoes", "boot" := "shoes", "hat" := "accessories"]

  /** Every type the table can produce, together with the fallback. */
  const MappedTypes: set<string> :=
    {"person", "shirt", "pants", "shoes", "accessories", "unknown"}

  /** The types that can appear in the detection stage's output. */
  const DetectedTypes: set<string> :=
    {"shirt", "pants", "shoes", "accessories", "unknown"}

  /** String.prototype.toLowerCase on one character, restricted to what can matter here:
      the only characters whose lower case is an ASCII letter are 'A'..'Z' and the
      Kelvin sign U+212A (lower case 'k'); every other character lower-cases to a
      non-ASCII character (or sequence) and is kept as it is. */
  function LowerChar(c: char): (l: char)
    ensures IsLowerChar(l)
    ensures SameCharUpToCase(c, l)
  {
    if 'A' <= c <= 'Z' then (c as int + 32) as char
    else if c == '\U{212A}' then 'k'
    else c
  }

  /** A character that lower-casing leaves as it is. */
  predicate IsLowerChar(c: char)
  {
    !('A' <= c <= 'Z') && c != '\U{212A}'
  }

  /** `c` is the lower-case character `l` written in some case: `l` itself, the ASCII
      upper-case letter 32 code points below it, or the Kelvin sign for 'k'. */
  predicate SameCharUpToCase(c: char, l: char)
  {
    || c == l
    || ('a' <= l <= 'z' && c as int == l as int - 32)
    || (l == 'k' && c == '\U{212A}')
  }

  /** `s` spells the lower-case string `t` character by character, in any case. */
  predicate SameUpToCase(s: string, t: string)
  {
    |s| == |t| && forall i :: 0 <= i < |s| ==> SameCharUpToCase(s[i], t[i])
  }

  function ToLower(s: string): (t: string)
    ensures IsLowerCase(t)
    ensures SameUpToCase(s, t)
  {
    seq(|s|, i requires 0 <= i < |s| => LowerChar(s[i]))
  }

  /** A string with no character that lower-casing changes. */
  predicate IsLowerCase(s: string)
  {
    forall i :: 0 <= i < |s| ==> IsLowerChar(s[i])
  }

  lemma LowerCaseFixed(s: string)
    requires IsLowerCase(s)
    ensures ToLower(s) == s
  {
  }

  /** Lower-casing a second time changes nothing. */
  lemma ToLowerIdempotent(s: string)
    ensures ToLower(ToLower(s)) == ToLower(s)
  {
  }

  /** A character lower-cases to a lower-case `l` exactly when it is `l` in some case. */
  lemma LowerCharMatches(c: char, l: char)
    requires IsLowerChar(l)
    ensures LowerChar(c) == l <==> SameCharUpToCase(c, l)
  {
  }

  /** Lower-casing gives the lower-case string `t` exactly when the input spells `t` in
      some case. */
  lemma {:induction false} ToLowerMatches(s: string, t: string)
    requires IsLowerCase(t)
    ensures ToLower(s) == t <==> SameUpToCase(s, t)
  {
    if SameUpToCase(s, t) {
      forall i | 0 <= i < |s| ensures ToLower(s)[i] == t[i] {
        LowerCharMatches(s[i], t[i]);
      }
    }
    if ToLower(s) == t {
      forall i | 0 <= i < |s| ensures SameCharUpToCase(s[i], t[i]) {
        LowerCharMatches(s[i], t[i]);
      }
    }
  }

  lemma ClothingClassesLowerCase()
    ensures forall c :: c in ClothingClasses ==> IsLowerCase(c)
  {
  }

  /** isClothingItem: the label is one of the eight clothing labels written in any case.
      The test lower-cases the label and looks it up. */
  function IsClothingItem(className: string): (accepted: bool)
    ensures accepted <==> exists c :: c in ClothingClasses && SameUpToCase(className, c)
  {
    ClothingClassesLowerCase();
    var lower := ToLower(className);
    if lower in ClothingClasses then
      ToLowerMatches(className, lower);
      true
    else
      assert forall c :: c in ClothingClasses ==> !SameUpToCase(className, c) by {
        forall c | c in ClothingClasses ensures !SameUpToCase(className, c) {
          ToLowerMatches(className, c);
        }
      }
      false
  }

  /** A label in title case passes the filter, but the table lookup, which is
      case-sensitive, types it 'unknown'. */
  lemma TitleCaseShirt()
    ensures IsClothingItem("Shirt") && MapClothingType("Shirt") == "unknown"
  {
    assert ToLower("Shirt") == "shirt";
  }

  /** "JACKET" written with the Kelvin sign for its K is accepted. */
  lemma KelvinSignJacket()
    ensures IsClothingItem("JAC\U{212A}ET")
  {
    assert ToLower("JAC\U{212A}ET") == "jacket";
  }

  /** mapClothingType: a case-sensitive table lookup; a label with no entry becomes 'unknown'. */
  function MapClothingType(detectedClass: string): (t: string)
    ensures t in MappedTypes
    ensures t != "unknown" <==> detectedClass in ClothingMap
    ensures t == "person" <==> detectedClass == "person"
  {
    if detectedClass in ClothingMap then ClothingMap[detectedClass] else "unknown"
  }

  /** Acceptance ignores case: a label is accepted exactly when its lower case is, and
      each of the eight labels as written is accepted. */
  lemma {:induction false} AcceptanceIgnoresCase(className: string)
    ensures IsClothingItem(className) <==> IsClothingItem(ToLower(className))
    ensures className in ClothingClasses ==> IsClothingItem(className)
  {
    ToLowerIdempotent(className);
    if className in ClothingClasses {
      assert SameUpToCase(className, className);
    }
  }

  /** 'person' has an entry in the table but is never accepted as clothing, so the
      'person' type never reaches the detection output. */
  lemma {:induction false} PersonIsNotClothing()
    ensures !IsClothingItem("person")
  {
    LowerCaseFixed("person");
  }

  /** How accepted labels are typed: the lower-case labels shoe and boot give 'shoes',
      hat gives 'accessories', shirt and pants keep their name, and every other accepted
      label (jacket, dress, coat, and any label not written in lower case) gives 'unknown'. */
  lemma {:induction false} AcceptedLabelType(className: string)
    requires IsClothingItem(className)
    ensures className == "shoe" || className == "boot" ==> MapClothingType(className) == "shoes"
    ensures className == "hat" ==> MapClothingType(className) == "accessories"
    ensures className == "shirt" || className == "pants" ==> MapClothingType(className) == className
    ensures className !in {"shirt", "pants", "shoe", "boot", "hat"} ==> MapClothingType(className) == "unknown"
    ensures MapClothingType(className) in DetectedTypes
  {
    PersonIsNotClothing();
  }

  predicate IsClothingPrediction(p: Prediction)
  {
    IsClothingItem(p.className)
  }

  /** The filter step of detectClothing: the clothing predictions, in detector order. */
  function KeepClothing(predictions: seq<Prediction>): (kept: seq<Prediction>)
    ensures |kept| <= |predictions|
    ensures forall p :: p in kept <==> p in predictions && IsClothingItem(p.className)
  {
    Seqs.Filter(predictions, IsClothingPrediction)
  }

  /** The map step of detectClothing: the type from the table, score and box copied.
      An accepted label always gets one of the five detected types. */
  function Normalize(p: Prediction): (item: DetectedItem)
    ensures item.confidence == p.score && item.bbox == p.bbox
    ensures IsClothingItem(p.className) ==> item.itemType in DetectedTypes
    ensures item.itemType == "unknown" <==> p.className !in ClothingMap
  {
    PersonIsNotClothing();
    DetectedItem(MapClothingType(p.className), p.score, p.bbox)
  }

  /** detectClothing after inference. `inference` is the detector's result, or None when
      loading the model or running it threw; the stage then returns no items. */
  function DetectClothing(inference: Option<seq<Prediction>>): (items: seq<DetectedItem>)
    ensures inference.None? ==> items == []
    ensures inference.Some? ==> |items| == |KeepClothing(inference.value)| <= |inference.value|
    ensures forall i :: 0 <= i < |items| ==> items[i].itemType in DetectedTypes
    ensures inference.Some? ==> forall i :: 0 <= i < |items| ==>
      var p := KeepClothing(inference.value)[i];
      && IsClothingItem(p.className)
      && items[i].itemType == MapClothingType(p.className)
      && items[i].confidence == p.score
      && items[i].bbox == p.bbox
  {
    match inference
    case None => []
    case Some(predictions) =>
      var kept := KeepClothing(predictions);
      seq(|kept|, i requires 0 <= i < |kept| => Normalize(kept[i]))
  }

  /** Detection keeps the detector's order: the output for a concatenation of predictions
      is the output for the first part followed by the output for the second. */
  lemma {:induction false} DetectClothingAppend(ps: seq<Prediction>, qs: seq<Prediction>)
    ensures DetectClothing(Some(ps + qs)) == DetectClothing(Some(ps)) + DetectClothing(Some(qs))
  {
    Seqs.FilterAppend(ps, qs, IsClothingPrediction);
  }

  /** A single prediction yields one record exactly when its label is clothing. */
  lemma {:induction false} DetectClothingSingle(p: Prediction)
    ensures DetectClothing(Some([p])) == if IsClothingItem(p.className) then [Normalize(p)] else []
  {
    Seqs.FilterSingleton(p, IsClothingPrediction);
  }
}
