# Fruit detection and data creation — a verified model

The system is a webcam fruit recogniser. A YOLO engine detects objects in each
frame. A `Detector` (utils.py) decides which detections count as fruit. It
keeps a registry of fruits the user has taught it (database.json) and a
read-only nutrition table (nutrition_data.json), and it grades ripeness from
HSV colour shares. Two windows drive it:

- The data-creation window (main_data_creation.py) captures crops of the
  tracked fruit. It saves them with a name and a condition, then starts a
  training run.
- The production window (main.py) describes one detected fruit in a side
  panel.

train.py turns the saved samples into a YOLO dataset and trains a model. Its
`best.pt` is picked up by the detector.

The model is split into these modules:

- `Text`: the ASCII `lower`/`capitalize`, prefix and suffix tests,
  `rsplit(".", 1)[0]` and `str(n)`.
- `Imaging`: HSV pixels, crops (with numpy's `size` = pixels × channels) and boxes.
- `Ripeness`: `get_ripeness_color` with exact rational thresholds.
- `FruitDetector`: the registry, `is_fruit`, model choice and the class
  `Detector`, whose methods update its fields in place.
- `NutritionText`: the nutrition lines both windows print.
- `DataCreation`: the class `App`, a session state machine with a sample
  buffer, plus the per-frame rule.
- `Recognition`: the class `MainApp` and the pure display decision of main.py.
- `Dataset`: `prepare_yolo_dataset` and `train_model`, producing a sequence of
  file operations.

The engine's boxes (with class names resolved), the clock, the camera read,
the crop of a box, the directory listings and the train/val split are
parameters. Files the program reads or writes are fields, or are returned as
operations.

The two windows pick different fruits from the same frame. main.py stops at
the first fruit-flagged detection (`break`). main_data_creation.py keeps
reassigning, so it describes the last one. `Recognition.WindowsDisagreeOnTwoFruits`
proves that they disagree on two fruits. `FirstAndLastAgreeOnOneFruit` proves
that they agree when the frame holds a single fruit.

`is_fruit` tests the engine's label against the registry exactly as given
(utils.py:68), while `save_fruit_data` stores keys lower-cased (utils.py:124).
One might expect the label to be lower-cased before this test; the model
follows the code. `FruitDetector.CapitalisedLabelMissesRegistry` and
`Recognition.SavedCapitalisedFruitIsNeverShown` state the consequence: a fruit
saved as "Mango" is never flagged when the engine says "Mango". The panel then
keeps searching. The stock COCO labels are lower case. After training, though,
the custom model's labels are the `data/` directory names, which keep the case
the user typed.

train.py returns without an error when preparation fails and when
`fruit_runs/custom_fruit/weights/best.pt` is missing after training
(train.py:65-66, 93-94), so the script exits
with code 0 in both cases. `DataCreation.App.FinishTraining` shows the
consequence: exit code 0 without `best.pt` reports "Training Done!" while the
model stays as it was.

## Model

| member | source | states |
|---|---|---|
| FruitDetector.ChooseModel | utils.py:10-16 | `best.pt` whenever it exists, the requested base weights otherwise |
| FruitDetector.Detector.constructor | utils.py:9-21 | the model follows the prefer-`best.pt` rule; registry and nutrition table are loaded from their files |
| FruitDetector.LoadStore | utils.py:23-35 | a missing JSON file gives the empty map, an existing one its contents |
| FruitDetector.Detector.LoadDb | utils.py:23-28 | the registry becomes the file's table, or empty when database.json is missing |
| FruitDetector.Detector.LoadNutrition | utils.py:30-35 | the nutrition table becomes the file's table, or empty when the file is missing |
| FruitDetector.Detector.SaveDb | utils.py:37-39 | database.json afterwards holds exactly the current registry |
| FruitDetector.Detections | utils.py:53-77 | one detection per engine box, so an empty list for no boxes |
| FruitDetector.DetectionsAppend | utils.py:53-77 | detection is per box and order-preserving: the boxes of a concatenation give the concatenated detections |
| FruitDetector.Detector.DetectAndTrack | utils.py:53-77 | one detection per box in engine order, with the box, name and confidence carried over and `is_fruit` ⇔ built-in fruit or a registry key as given |
| FruitDetector.CapitalisedLabelMissesRegistry | utils.py:66-68 | with lower-case keys, a label with an upper-case letter is a fruit iff it is one of the five built-in names |
| FruitDetector.SavingAddsLoweredLabel | utils.py:66-68 | `is_fruit` after a save: the lowered name becomes a fruit label, earlier fruit labels stay, and no other label is added |
| FruitDetector.RegisteredMangoLabelIsNotFruit | utils.py:66-68 | "mango" is a fruit via a registry holding "mango"; "Mango" is not |
| Ripeness.CountInRange | utils.py:93-97 | the in-range pixel count never exceeds the pixel count |
| Ripeness.RatioAboveIsDivision | utils.py:96-118 | the integer cross-multiplication test is the source's share comparison `count / size > threshold` over the rationals |
| Ripeness.GetRipenessColor | utils.py:79-120 | an empty crop or an unsupported type gives "Unknown"; the result is one of the type's labels; a non-empty supported crop never gives "Unknown" |
| Ripeness.AppleRedTakesPrecedence | utils.py:86-101 | an apple is "Ripe (Red)" iff its red share exceeds 5%, and "Underripe (Green)" iff it is not red and its green share exceeds 5% |
| Ripeness.BananaAndOrangeThresholds | utils.py:103-118 | a banana is ripe iff its yellow share exceeds 5% of `size`, an orange iff its orange share exceeds 10% |
| Ripeness.AllGreenAppleIsUnderripe | utils.py:86-101 | a non-empty all-green 3-channel apple crop is "Underripe (Green)" |
| Ripeness.ShareCountsChannels | utils.py:96-101 | the share is over `size`, which counts channels: one red pixel in ten on a 3-channel apple is "Perfectly Ripe" |
| Ripeness.CountAllInRange | utils.py:93-97 | when every pixel is in range, the count is the pixel count |
| Ripeness.CountNoneInRange | utils.py:93-97 | when no pixel is in range, the count is zero |
| Ripeness.CountSplit | utils.py:93-97 | counting distributes over a split of the pixels |
| Text.Lower | utils.py:124 | same length, no upper-case letter left, each upper-case letter replaced by its lower-case letter (32 code points up), every other character unchanged |
| Text.LowerIdempotent | utils.py:124 | lowering a lowered name changes nothing |
| FruitDetector.WithFruit | utils.py:122-128 | the lowered name maps to {condition, sample count, time}; the keys are the old keys plus that one; every other entry is unchanged; lower-case keys stay lower-case |
| FruitDetector.Detector.SaveFruitData | utils.py:122-136 | the registry becomes `WithFruit` of the old one and is written back; sample `i` is stored at `data/<name>/sample_<ts>_<i>.jpg`; no other file changes |
| FruitDetector.Detector.WriteSamples | utils.py:133-136 | the image loop: sample `i` is written at its own path, all paths distinct, and every other file keeps its presence and contents |
| FruitDetector.SamplePathsDistinct | utils.py:133-136 | two samples with different indices never share a path, whatever the clock reads |
| Text.NatToString | utils.py:136 | `str(n)`: decimal digits only, no leading zero, one digit exactly below 10, and the digits read back as `n` (`DecimalValue`) |
| Text.NatToStringInjective | utils.py:136 | distinct numbers render as distinct strings |
| FruitDetector.SampleDirectoryKeepsCase | utils.py:132-136 | `SamplePath` starts with `data/<name as typed>/sample_` (not the lowered key) and ends with `_<i>.jpg` |
| FruitDetector.SaveThenReload | utils.py:122-129 | loading the saved database.json again gives back the condition and the sample count under the lowered name |
| FruitDetector.Detector.ReloadModel | utils.py:138-143 | switches to `best.pt` when it exists, otherwise leaves the model as it was |
| FruitDetector.LookupNutrition | utils.py:145-146 | found iff the lowered name is a key, and then that key's entry |
| FruitDetector.Detector.GetNutrition | utils.py:145-146 | the lookup of the lowered name in the detector's nutrition table |
| FruitDetector.LookupIgnoresCase | utils.py:145-146 | looking up a name or its lowered form gives the same answer |
| DataCreation.App.constructor | main_data_creation.py:15-59 | a fresh detector with the base model rule; add-data mode, not capturing, empty buffer, "Samples taken: 0" |
| DataCreation.App.ShowAddData | main_data_creation.py:110-112 | add-data mode with a zero sample counter and the idle train button |
| DataCreation.App.ShowRecognize | main_data_creation.py:114-116 | recognize mode with the panel reset to "Waiting..." |
| DataCreation.App.StartCapture | main_data_creation.py:118-120 | capture on and the buffer emptied |
| DataCreation.App.StopCapture | main_data_creation.py:122-123 | capture off, the buffer kept |
| DataCreation.App.SaveData | main_data_creation.py:125-142 | an empty name or condition, then an empty buffer, refuses with nothing changed; a save happens iff name, condition and buffer are all non-empty, and it records `WithFruit` with the buffer length, writes the samples, empties the buffer and starts exactly one training run |
| DataCreation.App.RecordAndTrain | main_data_creation.py:136-142 | the accepting branch: the registry gets `WithFruit`, sample `i` lands at its `SamplePath`, no other image changes, the buffer and counter reset and one training run starts |
| DataCreation.App.StartTraining | main_data_creation.py:144-146 | the button shows training and one more run is started |
| DataCreation.App.FinishTraining | main_data_creation.py:148-162 | only exit code 0 reloads the model (to `best.pt` if present); a non-zero exit or an exception leaves it and reports failure |
| DataCreation.LastFruit | main_data_creation.py:172-186 | none iff no detection is a fruit; otherwise a fruit-flagged detection after which no detection is a fruit |
| DataCreation.LastFruitOfSuffix | main_data_creation.py:172-186 | fruits earlier in the frame do not matter once a later part holds one |
| DataCreation.CapturedCrops | main_data_creation.py:188-192 | at most one crop per detection, every crop non-empty, none for a frame without fruit |
| DataCreation.CapturedCropsAppend | main_data_creation.py:174-192 | capturing is per detection and keeps engine order: the crops of concatenated detections are the concatenated crops |
| DataCreation.CapturedCropsOne | main_data_creation.py:186-191 | one detection gives its crop exactly when it is fruit-flagged and the crop is non-empty, nothing otherwise |
| DataCreation.FrameCrops | main_data_creation.py:188 | no crops unless capturing, and at most one per detection |
| DataCreation.ScanFrame | main_data_creation.py:172-192 | the loop yields the last fruit and, only while capturing, the non-empty crops of fruit detections in order |
| DataCreation.App.BufferCrops | main_data_creation.py:188-192 | the crops are appended and the counter shows the new buffer size, or stays when the buffer did not grow |
| NutritionText.BaseLines | main_data_creation.py:207-209 | exactly three lines, "Calories: ", "Carbs: " and "Fiber: " each followed by the field's value, or "N/A" when the field is missing |
| NutritionText.DetailedLines | main_data_creation.py:207-211 | the three base lines first, plus one line per present optional field |
| NutritionText.DetailedLinesOptionalFields | main_data_creation.py:210-211 | a Vit C line appears iff `vitamin_c` is present, a Potassium line iff `potassium` is |
| NutritionText.DetailedTextSpelledOut | main_data_creation.py:207-211 | the newline-terminated details are exactly the Calories, Carbs and Fiber lines, then a Vit C line iff `vitamin_c` is present, then a Potassium line iff `potassium` is |
| Text.TerminatedAppend | main_data_creation.py:207-211 | terminating each line with a newline distributes over concatenation of line lists |
| DataCreation.NutritionPanelText | main_data_creation.py:205-216 | a present non-empty entry gives "Nutritional Info:\n" followed by the newline-terminated detailed lines; a missing or empty entry gives "Nutritional Info:\nNo data available" |
| Text.Capitalize | main_data_creation.py:201 | same length, first character not lower-case, the rest lower-case |
| Text.LowerOfCapitalize | main_data_creation.py:197-201 | the capitalized display name lowers to the registry key it was found under |
| DataCreation.RecognizePanel | main_data_creation.py:194-225 | no fruit: "Searching...", "-" and the nutrition panel untouched; hit: "Fruit: " with the capitalized name, which lowers back to the key, "Condition: " with the stored condition, and `NutritionPanelText` of the entry looked up by the name; miss: "Unknown (Not in DB)", "-", "Please train this fruit first" |
| DataCreation.App.ShowPanel | main_data_creation.py:194-225 | the panel update is applied; a missing nutrition text leaves that panel as it was |
| DataCreation.App.UpdateVideo | main_data_creation.py:164-225 | a failed read changes nothing; otherwise the buffer grows by the frame's crops, add-data mode leaves the labels, recognize mode shows `RecognizePanel` of the last fruit |
| DataCreation.App.ProcessFrame | main_data_creation.py:172-225 | for given detections: the buffer grows by `FrameCrops`, the counter follows the buffer, and the panel follows the mode as in `UpdateVideo` |
| Recognition.FirstFruit | main.py:58-68 | none iff no detection is a fruit; otherwise a fruit-flagged detection with no fruit before it |
| Recognition.SelectFirstFruit | main.py:58-68 | the loop with `break` returns exactly the first fruit |
| Recognition.FirstFruitOfPrefix | main.py:60-68 | once a prefix holds a fruit, appending detections does not change the choice |
| Recognition.LaterDetectionsIgnored | main.py:60-68 | detections after the first fruit never change the panel |
| Recognition.FirstAndLastFindFruitTogether | main.py:60-68 | both windows find a fruit in exactly the same frames |
| Recognition.FirstAndLastAgreeOnOneFruit | main.py:60-68 | with a single fruit in the frame both windows describe it |
| Recognition.WindowsDisagreeOnTwoFruits | main.py:60-68 | with two fruits this window picks the first, the data-creation window the second |
| Recognition.NutritionLabel | main.py:81-88 | a present non-empty entry gives its three base lines joined by newlines (no trailing newline); a missing or empty entry gives "No data available" |
| Recognition.NutritionLabelSpelledOut | main.py:82-86 | the label is exactly "Calories: …\nCarbs: …\nFiber: …" with "N/A" for a missing field |
| NutritionText.BaseTextSpelledOut | main.py:83-85 | the three base lines joined by newlines, written out character for character |
| Recognition.DisplayFor | main.py:70-96 | no fruit: "Searching...", "-", empty nutrition; miss: "Unknown (Not in DB)", "-", "Please train this fruit first"; hit: "Fruit: " with the capitalized name, "Condition: " with the stored condition, and `NutritionLabel` of the entry looked up by the name |
| Recognition.DecideDisplay | main.py:58-96 | a frame without fruit shows the searching panel; a first fruit missing from the registry shows the not-in-DB panel; a registered first fruit shows "Fruit: " with its capitalized name and "Condition: " with its stored condition |
| Recognition.RegisteredAppleScenario | main.py:70-88 | an "apple" registered as ripe shows "Fruit: Apple", "Condition: ripe" and "No data available" |
| Recognition.UnregisteredBuiltinScenario | main.py:89-92 | a built-in fruit missing from the registry shows the not-in-DB panel |
| Recognition.NoDetectionsScenario | main.py:93-96 | a frame without detections shows the searching panel |
| Recognition.SavedCapitalisedFruitIsNeverShown | main.py:60-68 | a fruit saved as "Mango" and labelled "Mango" by the engine leaves the panel searching |
| Recognition.MainApp.constructor | main.py:11-49 | a fresh detector with the base model rule and a searching panel |
| Recognition.MainApp.UpdateVideo | main.py:51-96 | a failed read changes no text; otherwise the panel equals the decision for the first fruit |
| Dataset.Classes | train.py:16 | no more classes than listing entries |
| Dataset.ClassesAppend | train.py:16 | the comprehension keeps listing order: the classes of a concatenated listing are the concatenated classes |
| Dataset.ClassesAreTheDirectories | train.py:16 | the classes are exactly the directory entries |
| Dataset.Images | train.py:30 | no more images than files |
| Dataset.ImagesAppend | train.py:30 | the comprehension keeps listing order: the images of concatenated files are the concatenated images |
| Dataset.ImagesAreTheImageNames | train.py:30 | the images are exactly the files ending in `.jpg`, `.png` or `.jpeg` |
| Dataset.ExtensionTestIsCaseSensitive | train.py:30 | "a.JPG" and "a.txt" are skipped, "a.jpeg" is taken |
| Dataset.ClassMap | train.py:26 | defined exactly on the classes, each mapped to a position holding it |
| Dataset.Names | train.py:55 | defined exactly on 0..n-1, each id mapped to the class at that position |
| Dataset.ClassMapInverse | train.py:26-55 | for distinct classes, ids are the listing positions and `names` inverts the class map |
| Dataset.TrainImages | train.py:34 | the training split is no larger than the images |
| Dataset.ValImages | train.py:34 | the validation split is no larger than the images |
| Dataset.SplitsPartition | train.py:34 | each image is in exactly the split chosen for it |
| Text.StripLastExt | train.py:45 | `rsplit(".", 1)[0]`: the whole name without a dot; otherwise the prefix before the last dot, with no dot after it |
| Dataset.DestinationsAndLabelLine | train.py:39-48 | an image goes to `<out>/<split>/images/<cls>_…` ending in its name; its label to `<out>/<split>/labels/<cls>_…` ending in ".txt"; the label line starts with the class id, reads back as that id and ends with " 0.5 0.5 1.0 1.0\n" |
| Dataset.LayoutDirs | train.py:22-24 | the layout step creates exactly four directories |
| Dataset.LayoutMakesSplitDirs | train.py:22-24 | for the train and the val split, the layout creates `<out>/<split>/images` and `<out>/<split>/labels` |
| Dataset.DestinationsInSplitDirs | train.py:39-45 | every copied image lands directly in `<out>/<split>/images/` and every label in `<out>/<split>/labels/`, directories the layout creates |
| Dataset.ImageNameLosesItsExtension | train.py:30-45 | every name the image filter accepts has a dot, and `rsplit(".", 1)[0]` removes exactly its ".jpg", ".png" or ".jpeg" |
| Dataset.LabelNameDropsLastExtension | train.py:45 | the label file name keeps the image name up to its last dot and adds ".txt" |
| Dataset.SplitLabelsCarryClassId | train.py:46-48 | every label written for a split is `"<id> 0.5 0.5 1.0 1.0\n"` |
| Dataset.SplitCopies | train.py:36-48 | a split's copies are exactly its images, each into `<out>/<split>/images/<cls>_<img>`, and each image of the split gets its label file holding the class id line |
| Dataset.SplitDirsDiffer | train.py:39 | a training image path never equals a validation image path |
| Dataset.ImageGoesToItsSplit | train.py:34-48 | each image is copied into its chosen split and never into the other, its label file is written in the chosen split; every label of the class carries its id |
| Dataset.EmptyClassKeepsItsId | train.py:26-32 | a class without images writes nothing but keeps its id and its `names` entry |
| Dataset.CopySplit | train.py:37-48 | the inner loop emits exactly the split's copy and label operations |
| Dataset.CopyClass | train.py:29-48 | a class's operations, with every copy under the output directory |
| Dataset.CopyClasses | train.py:28-48 | the class loop emits every class's operations in listing order, all copies under the output directory |
| Dataset.ClassOpsStayUnder | train.py:36-40 | a class copies only into the output directory |
| Dataset.SplitOpsStayUnder | train.py:36-40 | a split copies only into the output directory |
| Dataset.PrepareYoloDataset | train.py:7-61 | false with no effect iff the data directory is missing or has no subdirectory; otherwise layout, class files and data.yaml, all copies inside the output directory |
| Dataset.NoWeightsCopyUnderDataset | train.py:88-91 | operations that copy only into the dataset directory never copy into `best.pt` |
| Dataset.TrainModel | train.py:63-94 | training happens iff preparation succeeds; a run writes exactly the dataset preparation's operations, then copies `fruit_runs/custom_fruit/weights/best.pt` to `best.pt` iff that file exists |

## Left out

- Widgets, layout and `after` scheduling are reduced to the texts they show. Each constructor runs the first `update_video` tick directly (main.py:49, main_data_creation.py:59); that tick is not part of the constructor, and a caller runs `UpdateVideo` after it.
- Camera capture, `cv2.flip`, drawing boxes and labels, and the PhotoImage conversion are left out; a frame read is the flag `frameRead`.
- The YOLO engine (tracking, ByteTrack, confidence/IoU/NMS thresholds, training and its hyperparameters) is left out. Its boxes, with class names resolved, are inputs; a training run is its outcome.
- The float-to-int truncation of box coordinates is not modelled: boxes arrive as integers.
- Slicing a frame with a box is not modelled: `cropAt` gives the crop.
- `cvtColor` and `inRange` are not modelled: crops arrive as HSV pixels plus a channel count.
- Ratios are compared exactly as rationals, without floating-point rounding.
- `threading` and `subprocess` are not modelled: `FinishTraining` takes the run's outcome, and the output it prints is left out.
- Dataset.PrepareYoloDataset: `train_test_split(images, test_size=0.2)` raises ValueError for a class with exactly one image, because the training split would be empty; the script then exits with a non-zero code. The model's `inVal` is unconstrained, so preparation succeeds there; a single one-crop save reaches this case.
- Dataset.TrainModel: whether `fruit_runs/custom_fruit/weights/best.pt` exists after training is the input `bestWeightsFileExists`. The model does not say which run wrote the file: when a later run writes to another directory (such as `custom_fruit2`), the copy takes the older weights.
- `train_test_split` is the input predicate `inVal`. Its 80/20 sizes, its shuffle and the order of images within a split are not modelled: the model keeps listing order.
- `os.listdir`, `os.path.isdir` and `os.path.exists` are inputs.
- Copies, label files, directories and data.yaml are file operations. `os.makedirs` of `data/<name>` is not modelled.
- data.yaml's `path` is the output directory, not its absolute path. The file is written in the working directory.
- JSON and YAML serialisation are left out. Nutrition values are held as the strings they display as.
- `time.ctime()` and `time.time()` are inputs (`now` and `millis`).
- Case mapping covers ASCII letters only. Python's Unicode `lower`/`capitalize` are not modelled.
- DataCreation.App.UpdateVideo: in recognize mode, main_data_creation.py still writes the sample counter while capturing after its widget was destroyed. The resulting Tk error is not modelled: the counter text just changes. In the program the exception also skips the panel update and the `self.after` call, so the frame loop stops.
- The Tk error raised by reading the name and condition entries while in recognize mode is not modelled. `SaveData` takes the two strings.
- Printed messages are left out.
