/**
 * The data-creation window of main_data_creation.py: a session with a mode
 * (add data / recognize), a capture flag and a buffer of cropped samples;
 * the per-frame step that buffers crops and picks the fruit to describe;
 * saving the buffer into the registry, which starts a training run; and the
 * outcome of that run. Widgets are reduced to the text they show.
 */
module DataCreation {
  import opened Wrappers
  import opened Text
  import opened Imaging
  import opened FruitDetector
  import opened NutritionText

  datatype Mode = AddData | Recognize

  /** The "Train Model" button: as built, disabled while training, or showing how the last run ended. */
  datatype TrainButton = TrainIdle | TrainRunning | TrainDone | TrainFailed | TrainError

  /** How the training subprocess ended: with an exit code, or with an exception starting it. */
  datatype TrainOutcome = Exited(code: int) | Raised

  /** What `save_data` did: refused for a missing field, refused for no samples, or saved these files. */
  datatype SaveResult = MissingNameOrCondition | NoSamples | Saved(paths: seq<string>)

  /** The texts one frame writes into the recognition panel; `nutritionText == None` leaves the panel as it was. */
  datatype PanelUpdate = PanelUpdate(nameText: string, condText: string, nutritionText: Option<string>)

  const WaitingText: string := "Fruit: Waiting..."
  const SearchingText: string := "Fruit: Searching..."
  const NoConditionText: string := "Condition: -"
  const SelectFruitText: string := "Nutritional Info:\nSelect a fruit..."

  /**
   * The fruit a frame describes: `found_fruit` is reassigned on every
   * fruit-flagged detection and the loop has no `break`, so the last one wins.
   */
  function LastFruit(dets: seq<Detection>): (r: Option<Detection>)
    ensures r.None? <==> (forall i :: 0 <= i < |dets| ==> !dets[i].isFruit)
    ensures r.Some? ==> exists i :: 0 <= i < |dets| && dets[i] == r.value && r.value.isFruit
                                     && forall j :: i < j < |dets| ==> !dets[j].isFruit
  {
    if dets == [] then None
    else if dets[|dets| - 1].isFruit then Some(dets[|dets| - 1])
    else
      var prefix := dets[..|dets| - 1];
      var r := LastFruit(prefix);
      assert forall i :: 0 <= i < |prefix| ==> prefix[i] == dets[i];
      r
  }

  /** Fruits seen earlier in the frame do not matter once a later part of it holds a fruit. */
  lemma {:induction false} LastFruitOfSuffix(a: seq<Detection>, b: seq<Detection>)
    requires LastFruit(b).Some?
    ensures LastFruit(a + b) == LastFruit(b)
  {
    if !b[|b| - 1].isFruit {
      assert (a + b)[..|a + b| - 1] == a + b[..|b| - 1];
      LastFruitOfSuffix(a, b[..|b| - 1]);
    }
  }

  /** The crops one frame adds to the buffer while capturing: one per fruit-flagged detection with a non-empty crop. */
  function CapturedCrops(dets: seq<Detection>, cropAt: BBox -> Crop): (r: seq<Crop>)
    ensures |r| <= |dets|
    ensures forall k :: 0 <= k < |r| ==> r[k].Size() > 0
    ensures (forall i :: 0 <= i < |dets| ==> !dets[i].isFruit) ==> r == []
  {
    if dets == [] then []
    else
      var d := dets[|dets| - 1];
      CapturedCrops(dets[..|dets| - 1], cropAt)
      + (if d.isFruit && cropAt(d.bbox).Size() > 0 then [cropAt(d.bbox)] else [])
  }

  /** Capturing distributes over the detections of a frame, in engine order. */
  lemma {:induction false} CapturedCropsAppend(a: seq<Detection>, b: seq<Detection>, cropAt: BBox -> Crop)
    ensures CapturedCrops(a + b, cropAt) == CapturedCrops(a, cropAt) + CapturedCrops(b, cropAt)
  {
    if b == [] {
      assert a + b == a;
    } else {
      assert (a + b)[..|a + b| - 1] == a + b[..|b| - 1];
      CapturedCropsAppend(a, b[..|b| - 1], cropAt);
    }
  }

  /** One detection adds its own crop exactly when it is a fruit and the crop is not empty. */
  lemma CapturedCropsOne(d: Detection, cropAt: BBox -> Crop)
    ensures CapturedCrops([d], cropAt) == if d.isFruit && cropAt(d.bbox).Size() > 0 then [cropAt(d.bbox)] else []
  {
    assert [d][..0] == [];
  }

  /** The crops a frame adds to the buffer: none unless capturing. */
  function FrameCrops(dets: seq<Detection>, capturing: bool, cropAt: BBox -> Crop): (r: seq<Crop>)
    ensures !capturing ==> r == []
    ensures |r| <= |dets|
  {
    if capturing then CapturedCrops(dets, cropAt) else []
  }

  /**
   * The loop of `update_video`: remember the last fruit-flagged detection and,
   * while capturing, collect the crop of every fruit-flagged detection that is not empty.
   */
  method ScanFrame(dets: seq<Detection>, capturing: bool, cropAt: BBox -> Crop)
    returns (found: Option<Detection>, taken: seq<Crop>)
    ensures found == LastFruit(dets)
    ensures taken == FrameCrops(dets, capturing, cropAt)
  {
    found := None;
    taken := [];
    for i := 0 to |dets|
      invariant found == LastFruit(dets[..i])
      invariant taken == FrameCrops(dets[..i], capturing, cropAt)
    {
      assert dets[..i + 1][..i] == dets[..i];
      var d := dets[i];
      if d.isFruit {
        found := Some(d);
        if capturing {
          var crop := cropAt(d.bbox);
          if crop.Size() > 0 {
            taken := taken + [crop];
          }
        }
      }
    }
    assert dets[..|dets|] == dets;
  }

  /** The nutrition panel of this window for a nutrition entry (an empty entry counts as none). */
  function NutritionPanelText(nutri: Option<NutritionRecord>): (t: string)
    ensures nutri.Some? && nutri.value != map[] ==> t == "Nutritional Info:\n" + Terminated(DetailedLines(nutri.value))
    ensures nutri.None? || nutri.value == map[] ==> t == "Nutritional Info:\nNo data available"
  {
    if nutri.Some? && nutri.value != map[] then "Nutritional Info:\n" + Terminated(DetailedLines(nutri.value))
    else "Nutritional Info:\nNo data available"
  }

  /** What a recognize-mode frame writes into the panel for the fruit it picked. */
  function RecognizePanel(found: Option<Detection>, db: Registry, nutrition: NutritionTable): (u: PanelUpdate)
    ensures found.None? <==> u.nutritionText.None?
    ensures found.None? ==> u == PanelUpdate(SearchingText, NoConditionText, None)
    ensures found.Some? && Lower(found.value.name) in db ==>
      && u.nameText == "Fruit: " + Capitalize(found.value.name)
      && Lower(u.nameText[|"Fruit: "|..]) == Lower(found.value.name)
      && u.condText == "Condition: " + db[Lower(found.value.name)].condition
      && u.nutritionText == Some(NutritionPanelText(LookupNutrition(nutrition, found.value.name)))
    ensures found.Some? && Lower(found.value.name) !in db ==>
      u == PanelUpdate("Fruit: Unknown (Not in DB)", NoConditionText, Some("Nutritional Info:\nPlease train this fruit first"))
  {
    match found
    case None => PanelUpdate(SearchingText, NoConditionText, None)
    case Some(d) =>
      var key := Lower(d.name);
      if key in db then
        LowerOfCapitalize(d.name);
        assert ("Fruit: " + Capitalize(d.name))[|"Fruit: "|..] == Capitalize(d.name);
        PanelUpdate("Fruit: " + Capitalize(d.name), "Condition: " + db[key].condition,
                    Some(NutritionPanelText(LookupNutrition(nutrition, d.name))))
      else
        PanelUpdate("Fruit: Unknown (Not in DB)", NoConditionText, Some("Nutritional Info:\nPlease train this fruit first"))
  }

  class App {
    const detector: Detector
    var mode: Mode
    var isCapturing: bool
    /** The sample buffer. */
    var samples: seq<Crop>
    /** "Samples taken: N" under the capture buttons. */
    var samplesText: string
    /** The recognition panel: fruit label, condition label and nutrition box. */
    var nameText: string
    var condText: string
    var nutritionText: string
    var trainButton: TrainButton
    /** How many training threads have been started. */
    var trainingRuns: nat

    /** `App()`: a fresh detector, add-data mode, not capturing, an empty buffer. */
    constructor (bestExists: bool, dbFile: Option<Registry>, nutritionFile: Option<NutritionTable>,
                 images: map<string, Crop>)
      ensures fresh(detector)
      ensures detector.model == ChooseModel(bestExists, DefaultModelPath)
      ensures detector.db == LoadStore(dbFile) && detector.nutrition == LoadStore(nutritionFile)
      ensures detector.dbFile == dbFile && detector.images == images
      ensures mode == AddData && !isCapturing && samples == []
      ensures samplesText == "Samples taken: 0" && trainButton == TrainIdle && trainingRuns == 0
    {
      detector := new Detector(bestExists, DefaultModelPath, dbFile, nutritionFile, images);
      mode := AddData;
      isCapturing := false;
      samples := [];
      samplesText := "Samples taken: 0";
      nameText, condText, nutritionText := WaitingText, NoConditionText, SelectFruitText;
      trainButton := TrainIdle;
      trainingRuns := 0;
    }

    /** `show_add_data`: the add-data controls are rebuilt with a zero sample count. */
    method ShowAddData()
      modifies this`mode, this`samplesText, this`trainButton
      ensures mode == AddData && samplesText == "Samples taken: 0" && trainButton == TrainIdle
    {
      mode := AddData;
      samplesText := "Samples taken: 0";
      trainButton := TrainIdle;
    }

    /** `show_recognize`: the panel is rebuilt showing "Waiting...". */
    method ShowRecognize()
      modifies this`mode, this`nameText, this`condText, this`nutritionText
      ensures mode == Recognize
      ensures nameText == WaitingText && condText == NoConditionText && nutritionText == SelectFruitText
    {
      mode := Recognize;
      nameText, condText, nutritionText := WaitingText, NoConditionText, SelectFruitText;
    }

    /** `start_capture`: capture on, buffer emptied (the counter text is left as it was). */
    method StartCapture()
      modifies this`isCapturing, this`samples
      ensures isCapturing && samples == []
    {
      isCapturing := true;
      samples := [];
    }

    /** `stop_capture`: capture off, the buffer kept for saving. */
    method StopCapture()
      modifies this`isCapturing
      ensures !isCapturing && samples == old(samples)
    {
      isCapturing := false;
    }

    /** `start_training`: the button is disabled and one training thread is started. */
    method StartTraining()
      modifies this`trainButton, this`trainingRuns
      ensures trainButton == TrainRunning && trainingRuns == old(trainingRuns) + 1
    {
      trainButton := TrainRunning;
      trainingRuns := trainingRuns + 1;
    }

    /**
     * `save_data(name, cond)`: refuse when a field is empty or nothing was
     * captured; otherwise record the fruit and its samples, empty the buffer
     * and start training.
     */
    method SaveData(fruitName: string, condition: string, now: string, millis: nat -> nat)
      returns (result: SaveResult)
      modifies this`samples, this`samplesText, this`trainButton, this`trainingRuns
      modifies detector`db, detector`dbFile, detector`images
      ensures fruitName == [] || condition == [] ==> result == MissingNameOrCondition
      ensures fruitName != [] && condition != [] && old(samples) == [] ==> result == NoSamples
      ensures result.Saved? <==> fruitName != [] && condition != [] && old(samples) != []
      ensures !result.Saved? ==>
        && samples == old(samples) && samplesText == old(samplesText)
        && trainButton == old(trainButton) && trainingRuns == old(trainingRuns)
        && detector.db == old(detector.db) && detector.dbFile == old(detector.dbFile)
        && detector.images == old(detector.images)
      ensures result.Saved? ==>
        && fruitName != [] && condition != [] && old(samples) != []
        && detector.db == WithFruit(old(detector.db), fruitName, condition, |old(samples)|, now)
        && detector.dbFile == Some(detector.db)
        && |result.paths| == |old(samples)|
        && (forall i :: 0 <= i < |result.paths| ==>
              && result.paths[i] == SamplePath(fruitName, millis(i), i)
              && result.paths[i] in detector.images && detector.images[result.paths[i]] == old(samples)[i])
        && (forall p :: p !in result.paths ==> (p in detector.images <==> p in old(detector.images)))
        && (forall p :: p !in result.paths && p in detector.images ==> detector.images[p] == old(detector.images)[p])
        && samples == [] && samplesText == "Samples taken: 0"
        && trainButton == TrainRunning && trainingRuns == old(trainingRuns) + 1
    {
      if fruitName == [] || condition == [] {
        return MissingNameOrCondition;
      }
      if samples == [] {
        return NoSamples;
      }
      var paths := RecordAndTrain(fruitName, condition, now, millis);
      result := Saved(paths);
    }

    /** The accepting branch of `save_data`: save the buffer, empty it and start training. */
    method RecordAndTrain(fruitName: string, condition: string, now: string, millis: nat -> nat)
      returns (paths: seq<string>)
      modifies this`samples, this`samplesText, this`trainButton, this`trainingRuns
      modifies detector`db, detector`dbFile, detector`images
      ensures detector.db == WithFruit(old(detector.db), fruitName, condition, |old(samples)|, now)
      ensures detector.dbFile == Some(detector.db)
      ensures |paths| == |old(samples)|
      ensures forall i :: 0 <= i < |paths| ==>
                && paths[i] == SamplePath(fruitName, millis(i), i)
                && paths[i] in detector.images && detector.images[paths[i]] == old(samples)[i]
      ensures forall p :: p !in paths ==> (p in detector.images <==> p in old(detector.images))
      ensures forall p :: p !in paths && p in detector.images ==> detector.images[p] == old(detector.images)[p]
      ensures samples == [] && samplesText == "Samples taken: 0"
      ensures trainButton == TrainRunning && trainingRuns == old(trainingRuns) + 1
    {
      var taken := samples;
      paths := detector.SaveFruitData(fruitName, condition, taken, now, millis);
      assert |paths| == |taken|;
      samples := [];
      samplesText := "Samples taken: 0";
      StartTraining();
    }

    /**
     * The end of `run_train_script`: on exit code 0 the detector reloads,
     * otherwise the model stays and the button reports the failure.
     */
    method FinishTraining(outcome: TrainOutcome, bestExists: bool)
      modifies this`trainButton, detector`model
      ensures outcome == Exited(0) ==> trainButton == TrainDone
      ensures outcome == Exited(0) && bestExists ==> detector.model == Weights(CustomModelPath)
      ensures outcome != Exited(0) || !bestExists ==> detector.model == old(detector.model)
      ensures outcome.Exited? && outcome.code != 0 ==> trainButton == TrainFailed
      ensures outcome.Raised? ==> trainButton == TrainError
    {
      match outcome
      case Raised =>
        trainButton := TrainError;
      case Exited(code) =>
        if code == 0 {
          var _ := detector.ReloadModel(bestExists);
          trainButton := TrainDone;
        } else {
          trainButton := TrainFailed;
        }
    }

    /**
     * One tick of `update_video`. `frameRead` is the camera's `ret`, `boxes`
     * the engine's output for the frame and `cropAt` the frame's crop for a box.
     */
    method UpdateVideo(frameRead: bool, boxes: seq<Box>, cropAt: BBox -> Crop)
      modifies this`samples, this`samplesText, this`nameText, this`condText, this`nutritionText
      ensures !frameRead ==>
        && samples == old(samples) && samplesText == old(samplesText)
        && nameText == old(nameText) && condText == old(condText) && nutritionText == old(nutritionText)
      ensures frameRead ==>
        samples == old(samples) + FrameCrops(Detections(boxes, detector.db), isCapturing, cropAt)
      ensures frameRead ==>
        samplesText == if samples == old(samples) then old(samplesText)
                       else "Samples taken: " + NatToString(|samples|)
      ensures frameRead && mode == AddData ==>
        nameText == old(nameText) && condText == old(condText) && nutritionText == old(nutritionText)
      ensures frameRead && mode == Recognize ==>
        var u := RecognizePanel(LastFruit(Detections(boxes, detector.db)), detector.db, detector.nutrition);
        nameText == u.nameText && condText == u.condText && nutritionText == u.nutritionText.GetOr(old(nutritionText))
    {
      if !frameRead {
        return;
      }
      var dets := detector.DetectAndTrack(boxes);
      ProcessFrame(dets, cropAt);
    }

    /** The part of a tick that follows detection. */
    method ProcessFrame(dets: seq<Detection>, cropAt: BBox -> Crop)
      modifies this`samples, this`samplesText, this`nameText, this`condText, this`nutritionText
      ensures samples == old(samples) + FrameCrops(dets, isCapturing, cropAt)
      ensures samplesText == if samples == old(samples) then old(samplesText)
                             else "Samples taken: " + NatToString(|samples|)
      ensures mode == AddData ==>
        nameText == old(nameText) && condText == old(condText) && nutritionText == old(nutritionText)
      ensures mode == Recognize ==>
        var u := RecognizePanel(LastFruit(dets), detector.db, detector.nutrition);
        nameText == u.nameText && condText == u.condText && nutritionText == u.nutritionText.GetOr(old(nutritionText))
    {
      var found, taken := ScanFrame(dets, isCapturing, cropAt);
      BufferCrops(taken);
      if mode == Recognize {
        ShowPanel(RecognizePanel(found, detector.db, detector.nutrition));
      }
    }

    /** The buffer side of a frame: the crops are appended and the counter shows the new size. */
    method BufferCrops(taken: seq<Crop>)
      modifies this`samples, this`samplesText
      ensures samples == old(samples) + taken
      ensures samplesText == if samples == old(samples) then old(samplesText) else "Samples taken: " + NatToString(|samples|)
    {
      assert old(samples) + taken == old(samples) <==> taken == [] by {
        assert |old(samples) + taken| == |old(samples)| + |taken|;
      }
      samples := samples + taken;
      if taken != [] {
        samplesText := "Samples taken: " + NatToString(|samples|);
      }
    }

    /** The panel side of a recognize-mode frame. */
    method ShowPanel(u: PanelUpdate)
      modifies this`nameText, this`condText, this`nutritionText
      ensures nameText == u.nameText && condText == u.condText
      ensures nutritionText == u.nutritionText.GetOr(old(nutritionText))
    {
      nameText, condText := u.nameText, u.condText;
      if u.nutritionText.Some? {
        nutritionText := u.nutritionText.value;
      }
    }
  }
}
