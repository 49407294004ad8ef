/**
 * The `Detector` of utils.py: the model choice, the fruit registry
 * (database.json) and the read-only nutrition table (nutrition_data.json),
 * the post-processing of the engine's boxes into detections, the registry
 * update with its sample files, and the nutrition lookup.
 *
 * The detection engine, the clock and the disk are inputs: the engine's
 * boxes arrive with their class name resolved, `time.time()` is a function
 * from loop iteration to milliseconds, the existence of `best.pt` is a flag,
 * and the two JSON files and the `data/` tree are fields of the detector.
 */
module FruitDetector {
  import opened Wrappers
  import opened Text
  import opened Imaging

  /** A registry entry: `{condition, samples_count, last_updated}`. */
  datatype FruitRecord = FruitRecord(condition: string, samplesCount: nat, lastUpdated: string)

  /** The fruit registry, keyed by fruit name. */
  type Registry = map<string, FruitRecord>

  /** A nutrition entry: field name (`calories`, `carbs`, ...) to its value as displayed. */
  type NutritionRecord = map<string, string>

  type NutritionTable = map<string, NutritionRecord>

  /** The weight file the detection engine was loaded from. */
  datatype Model = Weights(path: string)

  const CustomModelPath: string := "best.pt"
  const DefaultModelPath: string := "yolov8n.pt"

  /** One box of the engine's output, its class id already resolved to `model.names[cls_id]`. */
  datatype Box = Box(bbox: BBox, className: string, conf: real)

  /** `{'bbox', 'name', 'conf', 'is_fruit'}` as `detect_and_track` emits it. */
  datatype Detection = Detection(bbox: BBox, name: string, conf: real, isFruit: bool)

  /** The COCO classes `detect_and_track` treats as fruit without consulting the registry. */
  const BuiltinFruits: seq<string> := ["apple", "orange", "banana", "broccoli", "carrot"]

  /**
   * `name in fruits or name in self.db`: the label is tested against the
   * registry exactly as given, without lowering it.
   */
  predicate IsFruit(name: string, db: Registry) {
    name in BuiltinFruits || name in db
  }

  /** All keys are in lower case, as every key `save_fruit_data` writes is. */
  ghost predicate KeysLowercase(db: Registry) {
    forall k :: k in db ==> Lower(k) == k
  }

  /**
   * A label with an upper-case letter is never a fruit by way of a registry
   * whose keys are lower case; only the built-in list can flag it.
   */
  lemma CapitalisedLabelMissesRegistry(name: string, db: Registry, i: nat)
    requires KeysLowercase(db)
    requires i < |name| && IsUpperAscii(name[i])
    ensures IsFruit(name, db) <==> name in BuiltinFruits
  {
    assert !IsUpperAscii(Lower(name)[i]);
  }

  /** The registered fruit "mango" is found under its own key, but the label "Mango" is not a fruit. */
  lemma RegisteredMangoLabelIsNotFruit(rec: FruitRecord)
    ensures IsFruit("mango", map["mango" := rec])
    ensures !IsFruit("Mango", map["mango" := rec])
  {
    assert "Mango" != "mango" by { assert "Mango"[0] != "mango"[0]; }
  }

  /**
   * Saving a fruit makes its lowered name a fruit label, keeps every earlier
   * fruit label, and adds no label other than the lowered name.
   */
  lemma SavingAddsLoweredLabel(db: Registry, name: string, condition: string, count: nat, now: string, tag: string)
    ensures IsFruit(Lower(name), WithFruit(db, name, condition, count, now))
    ensures IsFruit(tag, db) ==> IsFruit(tag, WithFruit(db, name, condition, count, now))
    ensures IsFruit(tag, WithFruit(db, name, condition, count, now)) <==> IsFruit(tag, db) || tag == Lower(name)
  {
  }

  /** The constructor's rule: `best.pt` whenever it exists, the requested base model otherwise. */
  function ChooseModel(bestExists: bool, modelPath: string): (m: Model)
    ensures bestExists ==> m == Weights(CustomModelPath)
    ensures !bestExists ==> m == Weights(modelPath)
  {
    if bestExists then Weights(CustomModelPath) else Weights(modelPath)
  }

  /** `load_db` / `load_nutrition`: the file's table, or an empty one when the file is missing. */
  function LoadStore<V>(file: Option<map<string, V>>): (m: map<string, V>)
    ensures file.None? ==> m == map[]
    ensures file.Some? ==> m == file.value
  {
    match file
    case None => map[]
    case Some(t) => t
  }

  /** The registry after `save_fruit_data`: the lowered name's entry replaced, nothing else touched. */
  function WithFruit(db: Registry, name: string, condition: string, count: nat, now: string): (r: Registry)
    ensures Lower(name) in r && r[Lower(name)] == FruitRecord(condition, count, now)
    ensures r.Keys == db.Keys + {Lower(name)}
    ensures forall k :: k in db && k != Lower(name) ==> r[k] == db[k]
    ensures KeysLowercase(db) ==> KeysLowercase(r)
  {
    LowerIdempotent(name);
    db[Lower(name) := FruitRecord(condition, count, now)]
  }

  /** One engine box turned into a detection. */
  function ToDetection(b: Box, db: Registry): Detection {
    Detection(b.bbox, b.className, b.conf, IsFruit(b.className, db))
  }

  /** What `detect_and_track` returns for the engine's boxes, in the engine's order. */
  function Detections(boxes: seq<Box>, db: Registry): (ds: seq<Detection>)
    ensures |ds| == |boxes|
  {
    seq(|boxes|, i requires 0 <= i < |boxes| => ToDetection(boxes[i], db))
  }

  lemma DetectionsAppend(a: seq<Box>, b: seq<Box>, db: Registry)
    ensures Detections(a + b, db) == Detections(a, db) + Detections(b, db)
  {
  }

  /** `nutrition.get(name.lower(), None)`. */
  function LookupNutrition(table: NutritionTable, fruitName: string): (r: Option<NutritionRecord>)
    ensures r.Some? <==> Lower(fruitName) in table
    ensures r.Some? ==> r.value == table[Lower(fruitName)]
  {
    if Lower(fruitName) in table then Some(table[Lower(fruitName)]) else None
  }

  /** Looking up a name and its lowered form gives the same entry. */
  lemma {:induction false} LookupIgnoresCase(table: NutritionTable, fruitName: string)
    ensures LookupNutrition(table, fruitName) == LookupNutrition(table, Lower(fruitName))
  {
    LowerIdempotent(fruitName);
  }

  /** `data/<name>/sample_<ts>_<i>.jpg`, the directory under the name as typed. */
  function SamplePath(fruitName: string, millis: nat, i: nat): string {
    "data/" + fruitName + "/sample_" + NatToString(millis) + "_" + NatToString(i) + ".jpg"
  }

  /**
   * Two samples of one save never share a file, whatever the clock reads:
   * the index after the timestamp tells them apart.
   */
  lemma SamplePathsDistinct(fruitName: string, t1: nat, i: nat, t2: nat, j: nat)
    requires i != j
    ensures SamplePath(fruitName, t1, i) != SamplePath(fruitName, t2, j)
  {
    var prefix := "data/" + fruitName + "/sample_";
    var x1 := NatToString(t1) + "_" + NatToString(i);
    var x2 := NatToString(t2) + "_" + NatToString(j);
    if SamplePath(fruitName, t1, i) == SamplePath(fruitName, t2, j) {
      assert SamplePath(fruitName, t1, i) == prefix + x1 + ".jpg";
      assert SamplePath(fruitName, t2, j) == prefix + x2 + ".jpg";
      SameMiddle(prefix, x1, x2, ".jpg");
      assert '_' !in NatToString(t1) && '_' !in NatToString(t2);
      SplitAtSeparator(NatToString(t1), NatToString(i), NatToString(t2), NatToString(j), '_');
      NatToStringInjective(i, j);
    }
  }

  /** Two strings with the same prefix and suffix around them are equal when the wholes are. */
  lemma SameMiddle(prefix: string, x: string, y: string, suffix: string)
    requires prefix + x + suffix == prefix + y + suffix
    ensures x == y
  {
    assert x == (prefix + x + suffix)[|prefix|..|prefix| + |x|];
    assert y == (prefix + y + suffix)[|prefix|..|prefix| + |y|];
  }

  /** Sample files go under the name as typed, while the registry key is the lowered name. */
  lemma SampleDirectoryKeepsCase(fruitName: string, millis: nat, i: nat)
    ensures StartsWith(SamplePath(fruitName, millis, i), "data/" + fruitName + "/sample_")
    ensures EndsWith(SamplePath(fruitName, millis, i), "_" + NatToString(i) + ".jpg")
  {
    var pre := "data/" + fruitName + "/sample_";
    var suf := "_" + NatToString(i) + ".jpg";
    var p := pre + NatToString(millis) + suf;
    assert SamplePath(fruitName, millis, i) == p;
    assert p[..|pre|] == pre;
    assert p[|p| - |suf|..] == suf;
  }

  class Detector {
    var model: Model
    var db: Registry
    var nutrition: NutritionTable
    /** The contents of database.json, or None when it does not exist. */
    var dbFile: Option<Registry>
    /** The contents of nutrition_data.json, which the application never writes. */
    const nutritionFile: Option<NutritionTable>
    /** The image files under data/, by path. */
    var images: map<string, Crop>

    /** `Detector(model_path)`: pick the weights, then load both tables. */
    constructor (bestExists: bool, modelPath: string, dbFile: Option<Registry>,
                 nutritionFile: Option<NutritionTable>, images: map<string, Crop>)
      ensures model == ChooseModel(bestExists, modelPath)
      ensures this.dbFile == dbFile && this.nutritionFile == nutritionFile && this.images == images
      ensures db == LoadStore(dbFile) && nutrition == LoadStore(nutritionFile)
    {
      if bestExists {
        model := Weights(CustomModelPath);
      } else {
        model := Weights(modelPath);
      }
      this.dbFile := dbFile;
      this.nutritionFile := nutritionFile;
      this.images := images;
      new;
      LoadDb();
      LoadNutrition();
    }

    method LoadDb()
      modifies this`db
      ensures db == LoadStore(dbFile)
    {
      if dbFile.Some? {
        db := dbFile.value;
      } else {
        db := map[];
      }
    }

    method LoadNutrition()
      modifies this`nutrition
      ensures nutrition == LoadStore(nutritionFile)
    {
      if nutritionFile.Some? {
        nutrition := nutritionFile.value;
      } else {
        nutrition := map[];
      }
    }

    /** `save_db`: database.json is rewritten with the whole registry. */
    method SaveDb()
      modifies this`dbFile
      ensures dbFile == Some(db)
    {
      dbFile := Some(db);
    }

    /** `detect_and_track`: one detection per engine box, in engine order, each classified by `IsFruit`. */
    method DetectAndTrack(boxes: seq<Box>) returns (dets: seq<Detection>)
      ensures |dets| == |boxes|
      ensures forall i :: 0 <= i < |dets| ==>
        && dets[i].bbox == boxes[i].bbox && dets[i].name == boxes[i].className
        && dets[i].conf == boxes[i].conf && (dets[i].isFruit <==> IsFruit(boxes[i].className, db))
      ensures dets == Detections(boxes, db)
    {
      dets := [];
      if boxes != [] {
        var fruits := BuiltinFruits;
        for i := 0 to |boxes|
          invariant dets == Detections(boxes[..i], db)
        {
          var box := boxes[i];
          var isFruit := box.className in fruits || box.className in db;
          dets := dets + [Detection(box.bbox, box.className, box.conf, isFruit)];
        }
        assert boxes[..|boxes|] == boxes;
      }
    }

    /** `get_nutrition`: the entry under the lowered name, or None. */
    function GetNutrition(fruitName: string): (r: Option<NutritionRecord>)
      reads this
      ensures r == LookupNutrition(nutrition, fruitName)
    {
      LookupNutrition(nutrition, fruitName)
    }

    /**
     * `save_fruit_data`: record the entry under the lowered name, rewrite
     * database.json, then write sample `i` to `SamplePath(name, millis(i), i)`.
     */
    method SaveFruitData(fruitName: string, condition: string, samples: seq<Crop>,
                         now: string, millis: nat -> nat) returns (paths: seq<string>)
      modifies this`db, this`dbFile, this`images
      ensures db == WithFruit(old(db), fruitName, condition, |samples|, now)
      ensures dbFile == Some(db)
      ensures |paths| == |samples|
      ensures forall i :: 0 <= i < |paths| ==> paths[i] == SamplePath(fruitName, millis(i), i)
      ensures forall i :: 0 <= i < |paths| ==> paths[i] in images && images[paths[i]] == samples[i]
      ensures forall p :: p !in paths ==> (p in images <==> p in old(images))
      ensures forall p :: p !in paths && p in images ==> images[p] == old(images)[p]
    {
      db := db[Lower(fruitName) := FruitRecord(condition, |samples|, now)];
      SaveDb();
      var pathOf := (k: nat) => SamplePath(fruitName, millis(k), k);
      forall k: nat, j: nat | k < j
        ensures pathOf(k) != pathOf(j)
      {
        SamplePathsDistinct(fruitName, millis(k), k, millis(j), j);
      }
      paths := WriteSamples(samples, pathOf);
    }

    /** The loop of `save_fruit_data`: sample `i` is written to `pathOf(i)`, a path no other sample gets. */
    method WriteSamples(samples: seq<Crop>, pathOf: nat -> string) returns (paths: seq<string>)
      requires forall k: nat, j: nat :: k < j ==> pathOf(k) != pathOf(j)
      modifies this`images
      ensures |paths| == |samples|
      ensures forall i :: 0 <= i < |paths| ==> paths[i] == pathOf(i)
      ensures forall i :: 0 <= i < |paths| ==> paths[i] in images && images[paths[i]] == samples[i]
      ensures forall p :: p !in paths ==> (p in images <==> p in old(images))
      ensures forall p :: p !in paths && p in images ==> images[p] == old(images)[p]
    {
      var written := images;
      paths := [];
      var i := 0;
      while i < |samples|
        invariant 0 <= i <= |samples|
        invariant |paths| == i
        invariant forall k :: 0 <= k < i ==> paths[k] == pathOf(k)
        invariant forall k :: 0 <= k < i ==> paths[k] in written && written[paths[k]] == samples[k]
        invariant forall p :: p !in paths ==> (p in written <==> p in images)
        invariant forall p :: p !in paths && p in written ==> written[p] == images[p]
      {
        var path := pathOf(i);
        written := written[path := samples[i]];
        paths := paths + [path];
        i := i + 1;
      }
      images := written;
    }

    /** `reload_model`: switch to `best.pt` when it exists, otherwise keep the current model. */
    method ReloadModel(bestExists: bool) returns (reloaded: bool)
      modifies this`model
      ensures reloaded == bestExists
      ensures bestExists ==> model == ChooseModel(true, DefaultModelPath)
      ensures !bestExists ==> model == old(model)
    {
      if bestExists {
        model := Weights(CustomModelPath);
        reloaded := true;
      } else {
        reloaded := false;
      }
    }
  }

  /** After a save, loading database.json again gives back the condition and the sample count. */
  lemma SaveThenReload(db: Registry, fruitName: string, condition: string, count: nat, now: string)
    ensures var file := Some(WithFruit(db, fruitName, condition, count, now));
            && Lower(fruitName) in LoadStore(file)
            && LoadStore(file)[Lower(fruitName)].condition == condition
            && LoadStore(file)[Lower(fruitName)].samplesCount == count
  {
  }
}
