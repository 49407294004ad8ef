/**
 * The production window of main.py: every frame it describes the FIRST
 * fruit-flagged detection (its loop stops with `break`), so it can describe a
 * different fruit than the data-creation window, which keeps the last one.
 */
module Recognition {
  import opened Wrappers
  import opened Text
  import opened FruitDetector
  import opened NutritionText
  import DataCreation

  /** The three texts of the side panel. */
  datatype Display = Display(nameText: string, condText: string, nutritionText: string)

  const SearchingDisplay: Display := Display("Fruit: Searching...", "Condition: -", "")
  const NotInDbDisplay: Display := Display("Fruit: Unknown (Not in DB)", "Condition: -", "Please train this fruit first")

  /** The first fruit-flagged detection in engine order. */
  function FirstFruit(dets: seq<Detection>): (r: Option<Detection>)
    ensures r.None? <==> (forall i :: 0 <= i < |dets| ==> !dets[i].isFruit)
    ensures r.Some? ==> exists i :: 0 <= i < |dets| && dets[i] == r.value && r.value.isFruit
                                     && forall j :: 0 <= j < i ==> !dets[j].isFruit
  {
    if dets == [] then None
    else if dets[0].isFruit then Some(dets[0])
    else
      var r := FirstFruit(dets[1..]);
      assert forall i :: 0 <= i < |dets| - 1 ==> dets[1..][i] == dets[i + 1];
      r
  }

  /** The search loop of `update_video`, leaving at the first fruit. */
  method SelectFirstFruit(dets: seq<Detection>) returns (found: Option<Detection>)
    ensures found == FirstFruit(dets)
  {
    found := None;
    var i := 0;
    while i < |dets|
      invariant 0 <= i <= |dets|
      invariant forall j :: 0 <= j < i ==> !dets[j].isFruit
      invariant found.None?
    {
      if dets[i].isFruit {
        found := Some(dets[i]);
        FirstFruitAt(dets, i);
        break;
      }
      i := i + 1;
    }
    if found.None? {
      NoFruitMeansNone(dets);
    }
  }

  lemma {:induction false} FirstFruitAt(dets: seq<Detection>, i: nat)
    requires i < |dets| && dets[i].isFruit
    requires forall j :: 0 <= j < i ==> !dets[j].isFruit
    ensures FirstFruit(dets) == Some(dets[i])
  {
    if i > 0 {
      FirstFruitAt(dets[1..], i - 1);
    }
  }

  lemma NoFruitMeansNone(dets: seq<Detection>)
    requires forall j :: 0 <= j < |dets| ==> !dets[j].isFruit
    ensures FirstFruit(dets) == None
  {
  }

  /** The nutrition label for an entry: the three base lines, or "No data available" for none or an empty one. */
  function NutritionLabel(nutri: Option<NutritionRecord>): (t: string)
    ensures nutri.Some? && nutri.value != map[] ==> t == Join(BaseLines(nutri.value), "\n")
    ensures nutri.None? || nutri.value == map[] ==> t == "No data available"
  {
    if nutri.Some? && nutri.value != map[] then Join(BaseLines(nutri.value), "\n") else "No data available"
  }

  /** The panel for the chosen fruit. */
  function DisplayFor(found: Option<Detection>, db: Registry, nutrition: NutritionTable): (d: Display)
    ensures found.None? ==> d == SearchingDisplay
    ensures found.Some? && Lower(found.value.name) !in db ==> d == NotInDbDisplay
    ensures found.Some? && Lower(found.value.name) in db ==>
      && d.nameText == "Fruit: " + Capitalize(found.value.name)
      && d.condText == "Condition: " + db[Lower(found.value.name)].condition
      && d.nutritionText == NutritionLabel(LookupNutrition(nutrition, found.value.name))
  {
    match found
    case None => SearchingDisplay
    case Some(f) =>
      if Lower(f.name) in db then
        Display("Fruit: " + Capitalize(f.name), "Condition: " + db[Lower(f.name)].condition,
                NutritionLabel(LookupNutrition(nutrition, f.name)))
      else NotInDbDisplay
  }

  /**
   * For a registered fruit with a nutrition entry the panel lists Calories,
   * Carbs and Fiber, "N/A" standing for a missing field.
   */
  lemma NutritionLabelSpelledOut(n: NutritionRecord)
    requires n != map[]
    ensures NutritionLabel(Some(n))
      == "Calories: " + FieldOr(n, "calories") + "\n" + "Carbs: " + FieldOr(n, "carbs") + "\n"
         + "Fiber: " + FieldOr(n, "fiber")
  {
    BaseTextSpelledOut(n);
  }

  /** What the panel shows after a frame whose detections are `dets`. */
  function DecideDisplay(dets: seq<Detection>, db: Registry, nutrition: NutritionTable): (d: Display)
    ensures (forall i :: 0 <= i < |dets| ==> !dets[i].isFruit) ==> d == SearchingDisplay
    ensures FirstFruit(dets).Some? && Lower(FirstFruit(dets).value.name) !in db ==> d == NotInDbDisplay
    ensures FirstFruit(dets).Some? && Lower(FirstFruit(dets).value.name) in db ==>
      && d.nameText == "Fruit: " + Capitalize(FirstFruit(dets).value.name)
      && d.condText == "Condition: " + db[Lower(FirstFruit(dets).value.name)].condition
  {
    DisplayFor(FirstFruit(dets), db, nutrition)
  }

  /** Detections after the first fruit never change what the panel shows. */
  lemma {:induction false} LaterDetectionsIgnored(a: seq<Detection>, b: seq<Detection>, db: Registry, nutrition: NutritionTable)
    requires FirstFruit(a).Some?
    ensures DecideDisplay(a + b, db, nutrition) == DecideDisplay(a, db, nutrition)
  {
    FirstFruitOfPrefix(a, b);
  }

  lemma {:induction false} FirstFruitOfPrefix(a: seq<Detection>, b: seq<Detection>)
    requires FirstFruit(a).Some?
    ensures FirstFruit(a + b) == FirstFruit(a)
  {
    if !a[0].isFruit {
      assert (a + b)[1..] == a[1..] + b;
      FirstFruitOfPrefix(a[1..], b);
    }
  }

  /** Both windows find a fruit in exactly the same frames. */
  lemma FirstAndLastFindFruitTogether(dets: seq<Detection>)
    ensures FirstFruit(dets).None? <==> DataCreation.LastFruit(dets).None?
  {
  }

  /** With a single fruit-flagged detection both windows describe the same fruit. */
  lemma FirstAndLastAgreeOnOneFruit(dets: seq<Detection>, k: nat)
    requires k < |dets| && dets[k].isFruit
    requires forall j :: 0 <= j < |dets| && j != k ==> !dets[j].isFruit
    ensures FirstFruit(dets) == DataCreation.LastFruit(dets) == Some(dets[k])
  {
    FirstFruitAt(dets, k);
  }

  /** With two fruits in a frame, this window describes the first and the data-creation window the second. */
  lemma WindowsDisagreeOnTwoFruits(a: Detection, b: Detection)
    requires a.isFruit && b.isFruit && a != b
    ensures FirstFruit([a, b]) == Some(a)
    ensures DataCreation.LastFruit([a, b]) == Some(b)
  {
  }

  /** An "apple" registered as ripe is shown as "Apple", condition "ripe". */
  lemma RegisteredAppleScenario(box: Box, rec: FruitRecord)
    requires box.className == "apple" && rec.condition == "ripe"
    ensures var db := map["apple" := rec];
            var d := DecideDisplay(Detections([box], db), db, map[]);
            d.nameText == "Fruit: Apple" && d.condText == "Condition: ripe" && d.nutritionText == "No data available"
  {
    var db := map["apple" := rec];
    assert Detections([box], db)[0].isFruit;
    assert Lower("apple") == "apple";
    assert Capitalize("apple") == "Apple";
  }

  /** A built-in fruit nobody registered is "Unknown (Not in DB)". */
  lemma UnregisteredBuiltinScenario(box: Box, db: Registry)
    requires box.className in BuiltinFruits && Lower(box.className) !in db
    ensures DecideDisplay(Detections([box], db), db, map[]) == NotInDbDisplay
  {
    assert Detections([box], db)[0].isFruit;
  }

  /** A frame without detections shows "Searching...". */
  lemma NoDetectionsScenario(db: Registry, nutrition: NutritionTable)
    ensures DecideDisplay(Detections([], db), db, nutrition) == SearchingDisplay
  {
  }

  /**
   * A fruit saved as "Mango" gets the key "mango", but the engine's label
   * "Mango" is not flagged as a fruit, so the panel keeps searching.
   */
  lemma SavedCapitalisedFruitIsNeverShown(box: Box, db: Registry, condition: string, count: nat, now: string)
    requires box.className == "Mango" && KeysLowercase(db)
    ensures var db' := WithFruit(db, "Mango", condition, count, now);
            DecideDisplay(Detections([box], db'), db', map[]) == SearchingDisplay
  {
    var db' := WithFruit(db, "Mango", condition, count, now);
    assert IsUpperAscii("Mango"[0]);
    CapitalisedLabelMissesRegistry("Mango", db', 0);
    assert "Mango" !in BuiltinFruits by {
      forall k | 0 <= k < |BuiltinFruits| ensures BuiltinFruits[k] != "Mango" {
        assert BuiltinFruits[k][0] != 'M';
      }
    }
    assert !Detections([box], db')[0].isFruit;
  }

  class MainApp {
    const detector: Detector
    var nameText: string
    var condText: string
    var nutritionText: string

    /** `MainApp()`: a fresh detector and a panel that starts out searching. */
    constructor (bestExists: bool, dbFile: Option<Registry>, nutritionFile: Option<NutritionTable>,
                 images: map<string, Imaging.Crop>)
      ensures fresh(detector)
      ensures detector.model == ChooseModel(bestExists, DefaultModelPath)
      ensures detector.db == LoadStore(dbFile) && detector.nutrition == LoadStore(nutritionFile)
      ensures Display(nameText, condText, nutritionText) == SearchingDisplay
    {
      detector := new Detector(bestExists, DefaultModelPath, dbFile, nutritionFile, images);
      nameText, condText, nutritionText := "Fruit: Searching...", "Condition: -", "";
    }

    /** One tick of `update_video`: a failed read changes nothing, otherwise the panel describes the first fruit. */
    method UpdateVideo(frameRead: bool, boxes: seq<Box>)
      modifies this`nameText, this`condText, this`nutritionText
      ensures !frameRead ==>
        nameText == old(nameText) && condText == old(condText) && nutritionText == old(nutritionText)
      ensures frameRead ==>
        Display(nameText, condText, nutritionText)
          == DecideDisplay(Detections(boxes, detector.db), detector.db, detector.nutrition)
    {
      if frameRead {
        var dets := detector.DetectAndTrack(boxes);
        var found := SelectFirstFruit(dets);
        var d := DisplayFor(found, detector.db, detector.nutrition);
        nameText, condText, nutritionText := d.nameText, d.condText, d.nutritionText;
      }
    }
  }
}
