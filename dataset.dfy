/**
 * train.py: turning the `data/<class>/` sample tree into a YOLO dataset
 * (one copied image and one whole-image label per sample, split into train
 * and val) and the control flow of `train_model` around it.
 *
 * The disk is given: `dataExists` says whether `data_dir` exists, `listing`
 * is `os.listdir(data_dir)` with a directory flag per entry, `listDir` gives
 * the listing of a class directory, and `inVal(cls, img)` is the split that
 * `train_test_split` chose. What the preparation writes comes back as a
 * sequence of file operations.
 */
module Dataset {
  import opened Text

  /** One entry of `os.listdir(data_dir)`, with `os.path.isdir` of its path. */
  datatype Entry = Entry(name: string, isDir: bool)

  /** A file-system effect of the preparation. */
  datatype FileOp =
    | MakeDir(path: string)
    | CopyFile(src: string, dst: string)
    | WriteFile(path: string, content: string)
    | WriteDataYaml(root: string, train: string, val: string, names: map<nat, string>)

  /** `[d for d in os.listdir(data_dir) if os.path.isdir(...)]`, in listing order. */
  function Classes(listing: seq<Entry>): (cs: seq<string>)
    ensures |cs| <= |listing|
  {
    if listing == [] then []
    else
      var e := listing[|listing| - 1];
      Classes(listing[..|listing| - 1]) + (if e.isDir then [e.name] else [])
  }

  /** `f.endswith(('.jpg', '.png', '.jpeg'))`, case-sensitive. */
  predicate IsImageName(f: string) {
    EndsWith(f, ".jpg") || EndsWith(f, ".png") || EndsWith(f, ".jpeg")
  }

  /** Upper-case extensions are not taken: "a.JPG" is skipped, "a.jpeg" is an image. */
  lemma ExtensionTestIsCaseSensitive()
    ensures !IsImageName("a.JPG") && IsImageName("a.jpeg") && !IsImageName("a.txt")
  {
    assert "a.JPG"[1..] == ".JPG" && "a.JPG"[2..] == "JPG";
    assert "a.jpeg"[2..] == "jpeg";
  }

  /** The image names of a class directory, in listing order. */
  function Images(files: seq<string>): (r: seq<string>)
    ensures |r| <= |files|
  {
    if files == [] then []
    else
      var f := files[|files| - 1];
      Images(files[..|files| - 1]) + (if IsImageName(f) then [f] else [])
  }

  /** The classes are exactly the directory entries of the listing. */
  lemma {:induction false} ClassesAreTheDirectories(listing: seq<Entry>)
    ensures forall c :: c in Classes(listing) <==> Entry(c, true) in listing
  {
    if listing != [] {
      ClassesAreTheDirectories(listing[..|listing| - 1]);
      assert listing == listing[..|listing| - 1] + [listing[|listing| - 1]];
    }
  }

  /** The classes keep the listing's order, which fixes their ids. */
  lemma {:induction false} ClassesAppend(a: seq<Entry>, b: seq<Entry>)
    ensures Classes(a + b) == Classes(a) + Classes(b)
  {
    if b == [] {
      assert a + b == a;
    } else {
      assert (a + b)[..|a + b| - 1] == a + b[..|b| - 1];
      ClassesAppend(a, b[..|b| - 1]);
    }
  }

  /** The images keep the listing's order. */
  lemma {:induction false} ImagesAppend(a: seq<string>, b: seq<string>)
    ensures Images(a + b) == Images(a) + Images(b)
  {
    if b == [] {
      assert a + b == a;
    } else {
      assert (a + b)[..|a + b| - 1] == a + b[..|b| - 1];
      ImagesAppend(a, b[..|b| - 1]);
    }
  }

  /** The images are exactly the listed names with an image extension. */
  lemma {:induction false} ImagesAreTheImageNames(files: seq<string>)
    ensures forall f :: f in Images(files) <==> f in files && IsImageName(f)
  {
    if files != [] {
      ImagesAreTheImageNames(files[..|files| - 1]);
      assert files == files[..|files| - 1] + [files[|files| - 1]];
    }
  }

  /** `{cls: i for i, cls in enumerate(classes)}` (a repeated name keeps its last index). */
  function ClassMap(classes: seq<string>): (m: map<string, nat>)
    ensures forall c :: c in m <==> c in classes
    ensures forall c :: c in m ==> m[c] < |classes| && classes[m[c]] == c
  {
    if classes == [] then map[]
    else ClassMap(classes[..|classes| - 1])[classes[|classes| - 1] := |classes| - 1]
  }

  /** The `names` map of data.yaml: `{i: cls for i, cls in enumerate(classes)}`. */
  function Names(classes: seq<string>): (m: map<nat, string>)
    ensures forall i :: i in m ==> i < |classes| && m[i] == classes[i]
    ensures forall i: nat :: i < |classes| ==> i in m
  {
    map i: nat | i < |classes| :: classes[i]
  }

  predicate Distinct(s: seq<string>) {
    forall i, j :: 0 <= i < j < |s| ==> s[i] != s[j]
  }

  /**
   * For a listing without repeated names, class ids are the positions 0..n-1
   * and data.yaml's `names` is the inverse of the class map.
   */
  lemma {:induction false} ClassMapInverse(classes: seq<string>)
    requires Distinct(classes)
    ensures forall i :: 0 <= i < |classes| ==> classes[i] in ClassMap(classes) && ClassMap(classes)[classes[i]] == i
    ensures forall c :: c in ClassMap(classes) ==> Names(classes)[ClassMap(classes)[c]] == c
    ensures forall i :: i in Names(classes) ==> ClassMap(classes)[Names(classes)[i]] == i
  {
    var m := ClassMap(classes);
    forall i | 0 <= i < |classes|
      ensures classes[i] in m && m[classes[i]] == i
    {
      assert classes[i] in m;
      var k := m[classes[i]];
      assert classes[k] == classes[i];
    }
  }

  const TrainSplit: string := "train"
  const ValSplit: string := "val"

  /** `os.path.join(data_dir, cls)`. */
  function ClassDir(dataDir: string, cls: string): string {
    dataDir + "/" + cls
  }

  /** `f'{output_dir}/{split}/images/{cls}_{img_name}'`. */
  function ImageDst(outputDir: string, split: string, cls: string, img: string): string {
    outputDir + "/" + split + "/images/" + cls + "_" + img
  }

  /** `f'{output_dir}/{split}/labels/{cls}_{img_name.rsplit(".", 1)[0]}.txt'`. */
  function LabelDst(outputDir: string, split: string, cls: string, img: string): string {
    outputDir + "/" + split + "/labels/" + cls + "_" + StripLastExt(img) + ".txt"
  }

  /** The label of a sample: its class id and a box covering the whole image. */
  function LabelLine(classId: nat): string {
    NatToString(classId) + " 0.5 0.5 1.0 1.0\n"
  }

  /**
   * The copied image sits in the split's images directory under `<cls>_<img>`,
   * its label in the labels directory with a ".txt" name, and the label line
   * starts with the class id, which reads back as that id.
   */
  lemma DestinationsAndLabelLine(outputDir: string, split: string, cls: string, img: string, classId: nat)
    ensures StartsWith(ImageDst(outputDir, split, cls, img), outputDir + "/" + split + "/images/" + cls + "_")
    ensures EndsWith(ImageDst(outputDir, split, cls, img), img)
    ensures StartsWith(LabelDst(outputDir, split, cls, img), outputDir + "/" + split + "/labels/" + cls + "_")
    ensures EndsWith(LabelDst(outputDir, split, cls, img), ".txt")
    ensures StartsWith(LabelLine(classId), NatToString(classId))
    ensures DecimalValue(LabelLine(classId)[..|NatToString(classId)|]) == classId
    ensures EndsWith(LabelLine(classId), " 0.5 0.5 1.0 1.0\n")
  {
  }

  /** A label file name keeps the image name up to its last dot: "x.v1.jpg" gives "x.v1.txt". */
  lemma LabelNameDropsLastExtension(outputDir: string, split: string, cls: string, img: string)
    requires '.' in img
    ensures exists ext :: && '.' !in ext
                          && img == StripLastExt(img) + "." + ext
                          && LabelDst(outputDir, split, cls, img)
                             == outputDir + "/" + split + "/labels/" + cls + "_" + StripLastExt(img) + ".txt"
  {
    var stem := StripLastExt(img);
    var ext := img[|stem| + 1..];
    assert img == stem + "." + ext;
  }

  /**
   * An image name always has a dot, and its label name drops exactly the
   * image extension: the last dot is the one that starts ".jpg", ".png" or ".jpeg".
   */
  lemma ImageNameLosesItsExtension(img: string)
    requires IsImageName(img)
    ensures '.' in img
    ensures var stem := StripLastExt(img);
            img == stem + ".jpg" || img == stem + ".png" || img == stem + ".jpeg"
  {
    if EndsWith(img, ".jpg") {
      ExtensionIsStripped(img, ".jpg");
    } else if EndsWith(img, ".png") {
      ExtensionIsStripped(img, ".png");
    } else {
      ExtensionIsStripped(img, ".jpeg");
    }
  }

  /** A name ending in a one-dot extension loses exactly that extension. */
  lemma ExtensionIsStripped(s: string, ext: string)
    requires EndsWith(s, ext) && |ext| > 0 && ext[0] == '.' && '.' !in ext[1..]
    ensures '.' in s && s == StripLastExt(s) + ext
  {
    var d := |s| - |ext|;
    assert s[d..] == ext;
    assert s[d] == ext[0];
    forall k | d < k < |s|
      ensures s[k] != '.'
    {
      assert s[k] == s[d..][k - d] == ext[1..][k - d - 1];
    }
    LastDotIsStripped(s, d);
    assert s == s[..d] + s[d..];
  }

  /** When the dot at `d` is the last one, `rsplit(".", 1)[0]` is everything before it. */
  lemma LastDotIsStripped(s: string, d: nat)
    requires d < |s| && s[d] == '.'
    requires forall k :: d < k < |s| ==> s[k] != '.'
    ensures '.' in s && |StripLastExt(s)| == d
  {
    var stem := StripLastExt(s);
    forall k | |stem| < k < |s|
      ensures s[k] != '.'
    {
      assert s[k] == s[|stem| + 1..][k - |stem| - 1];
    }
  }

  /** The images `train_test_split` put in the training split, in listing order. */
  function TrainImages(cls: string, images: seq<string>, inVal: (string, string) -> bool): (r: seq<string>)
    ensures |r| <= |images|
  {
    if images == [] then []
    else
      var f := images[|images| - 1];
      TrainImages(cls, images[..|images| - 1], inVal) + (if inVal(cls, f) then [] else [f])
  }

  /** The images `train_test_split` put in the validation split, in listing order. */
  function ValImages(cls: string, images: seq<string>, inVal: (string, string) -> bool): (r: seq<string>)
    ensures |r| <= |images|
  {
    if images == [] then []
    else
      var f := images[|images| - 1];
      ValImages(cls, images[..|images| - 1], inVal) + (if inVal(cls, f) then [f] else [])
  }

  /** The two splits partition the images: each goes to exactly the split chosen for it. */
  lemma {:induction false} SplitsPartition(cls: string, images: seq<string>, inVal: (string, string) -> bool)
    ensures forall f :: f in TrainImages(cls, images, inVal) <==> f in images && !inVal(cls, f)
    ensures forall f :: f in ValImages(cls, images, inVal) <==> f in images && inVal(cls, f)
  {
    if images != [] {
      SplitsPartition(cls, images[..|images| - 1], inVal);
      assert images == images[..|images| - 1] + [images[|images| - 1]];
    }
  }

  /** The copies and labels written for the images of one split of one class. */
  function SplitOps(dataDir: string, outputDir: string, split: string, cls: string, classId: nat,
                    imgs: seq<string>): seq<FileOp>
  {
    if imgs == [] then []
    else
      var img := imgs[|imgs| - 1];
      SplitOps(dataDir, outputDir, split, cls, classId, imgs[..|imgs| - 1])
      + [CopyFile(ClassDir(dataDir, cls) + "/" + img, ImageDst(outputDir, split, cls, img)),
         WriteFile(LabelDst(outputDir, split, cls, img), LabelLine(classId))]
  }

  /** Everything written for one class: nothing when it has no images, else its train then its val split. */
  function ClassOps(dataDir: string, outputDir: string, cls: string, classId: nat, files: seq<string>,
                    inVal: (string, string) -> bool): seq<FileOp>
  {
    var images := Images(files);
    if images == [] then []
    else SplitOps(dataDir, outputDir, TrainSplit, cls, classId, TrainImages(cls, images, inVal))
         + SplitOps(dataDir, outputDir, ValSplit, cls, classId, ValImages(cls, images, inVal))
  }

  /** Everything written for the first `k` classes. */
  function ClassesOps(dataDir: string, outputDir: string, classes: seq<string>, k: nat,
                      listDir: string -> seq<string>, inVal: (string, string) -> bool): seq<FileOp>
    requires k <= |classes|
  {
    if k == 0 then []
    else
      var cls := classes[k - 1];
      ClassesOps(dataDir, outputDir, classes, k - 1, listDir, inVal)
      + ClassOps(dataDir, outputDir, cls, ClassMap(classes)[cls], listDir(ClassDir(dataDir, cls)), inVal)
  }

  /** The four directories of the YOLO layout. */
  function LayoutDirs(outputDir: string): (ops: seq<FileOp>)
    ensures |ops| == 4 && forall i :: 0 <= i < |ops| ==> ops[i].MakeDir?
  {
    [MakeDir(outputDir + "/train/images"), MakeDir(outputDir + "/train/labels"),
     MakeDir(outputDir + "/val/images"), MakeDir(outputDir + "/val/labels")]
  }

  /** The layout creates the images and labels directories of both splits. */
  lemma LayoutMakesSplitDirs(outputDir: string, split: string)
    requires split == TrainSplit || split == ValSplit
    ensures MakeDir(outputDir + "/" + split + "/images") in LayoutDirs(outputDir)
    ensures MakeDir(outputDir + "/" + split + "/labels") in LayoutDirs(outputDir)
  {
    if split == TrainSplit {
      assert outputDir + "/" + split + "/images" == outputDir + "/train/images";
      assert outputDir + "/" + split + "/labels" == outputDir + "/train/labels";
    } else {
      assert outputDir + "/" + split + "/images" == outputDir + "/val/images";
      assert outputDir + "/" + split + "/labels" == outputDir + "/val/labels";
    }
  }

  /** Every copy and label of a split lands directly inside a directory the layout creates. */
  lemma DestinationsInSplitDirs(outputDir: string, split: string, cls: string, img: string)
    ensures StartsWith(ImageDst(outputDir, split, cls, img), outputDir + "/" + split + "/images" + "/")
    ensures StartsWith(LabelDst(outputDir, split, cls, img), outputDir + "/" + split + "/labels" + "/")
  {
    var images := outputDir + "/" + split + "/images" + "/";
    var labels := outputDir + "/" + split + "/labels" + "/";
    assert ImageDst(outputDir, split, cls, img) == images + (cls + "_" + img);
    assert LabelDst(outputDir, split, cls, img) == labels + (cls + "_" + StripLastExt(img) + ".txt");
  }

  /** Every label written for a split carries the class id given for it. */
  lemma {:induction false} SplitLabelsCarryClassId(dataDir: string, outputDir: string, split: string, cls: string,
                                                  classId: nat, imgs: seq<string>)
    ensures forall op :: op in SplitOps(dataDir, outputDir, split, cls, classId, imgs) && op.WriteFile? ==>
              op.content == LabelLine(classId)
  {
    if imgs != [] {
      SplitLabelsCarryClassId(dataDir, outputDir, split, cls, classId, imgs[..|imgs| - 1]);
    }
  }

  /**
   * A split's copies are exactly its images, each into that split's image
   * directory, and every image gets its label file with the class id.
   */
  lemma {:induction false} SplitCopies(dataDir: string, outputDir: string, split: string, cls: string,
                                      classId: nat, imgs: seq<string>)
    ensures forall img :: img in imgs ==>
              CopyFile(ClassDir(dataDir, cls) + "/" + img, ImageDst(outputDir, split, cls, img))
                in SplitOps(dataDir, outputDir, split, cls, classId, imgs)
    ensures forall img :: img in imgs ==>
              WriteFile(LabelDst(outputDir, split, cls, img), LabelLine(classId))
                in SplitOps(dataDir, outputDir, split, cls, classId, imgs)
    ensures forall op :: op in SplitOps(dataDir, outputDir, split, cls, classId, imgs) && op.CopyFile? ==>
              exists img :: img in imgs && op.dst == ImageDst(outputDir, split, cls, img)
  {
    if imgs != [] {
      SplitCopies(dataDir, outputDir, split, cls, classId, imgs[..|imgs| - 1]);
    }
  }

  lemma AppendCancelsLeft(p: string, x: string, y: string)
    ensures x != y ==> p + x != p + y
  {
    if p + x == p + y {
      assert x == (p + x)[|p|..] && y == (p + y)[|p|..];
    }
  }

  /** The training and validation image directories never coincide. */
  lemma SplitDirsDiffer(outputDir: string, cls: string, img: string, cls': string, img': string)
    ensures ImageDst(outputDir, TrainSplit, cls, img) != ImageDst(outputDir, ValSplit, cls', img')
  {
    var t := ImageDst(outputDir, TrainSplit, cls, img);
    var v := ImageDst(outputDir, ValSplit, cls', img');
    assert t[|outputDir| + 1] == 't' && v[|outputDir| + 1] == 'v';
  }

  /**
   * Every image of a class is copied into the split chosen for it and never
   * into the other one, and gets its label there; every label of the class carries its id.
   */
  lemma ImageGoesToItsSplit(dataDir: string, outputDir: string, cls: string, classId: nat, files: seq<string>,
                            inVal: (string, string) -> bool, img: string)
    requires img in files && IsImageName(img)
    ensures var ops := ClassOps(dataDir, outputDir, cls, classId, files, inVal);
            var chosen := if inVal(cls, img) then ValSplit else TrainSplit;
            var other := if inVal(cls, img) then TrainSplit else ValSplit;
            && CopyFile(ClassDir(dataDir, cls) + "/" + img, ImageDst(outputDir, chosen, cls, img)) in ops
            && WriteFile(LabelDst(outputDir, chosen, cls, img), LabelLine(classId)) in ops
            && (forall op :: op in ops && op.CopyFile? ==> op.dst != ImageDst(outputDir, other, cls, img))
            && (forall op :: op in ops && op.WriteFile? ==> op.content == LabelLine(classId))
  {
    var images := Images(files);
    ImagesAreTheImageNames(files);
    SplitsPartition(cls, images, inVal);
    var tr := TrainImages(cls, images, inVal);
    var va := ValImages(cls, images, inVal);
    SplitCopies(dataDir, outputDir, TrainSplit, cls, classId, tr);
    SplitCopies(dataDir, outputDir, ValSplit, cls, classId, va);
    SplitLabelsCarryClassId(dataDir, outputDir, TrainSplit, cls, classId, tr);
    SplitLabelsCarryClassId(dataDir, outputDir, ValSplit, cls, classId, va);
    var ops := ClassOps(dataDir, outputDir, cls, classId, files, inVal);
    forall op | op in ops && op.CopyFile?
      ensures op.dst != ImageDst(outputDir, if inVal(cls, img) then TrainSplit else ValSplit, cls, img)
    {
      if op in SplitOps(dataDir, outputDir, TrainSplit, cls, classId, tr) {
        var x :| x in tr && op.dst == ImageDst(outputDir, TrainSplit, cls, x);
        if !inVal(cls, img) {
          SplitDirsDiffer(outputDir, cls, x, cls, img);
        } else {
          assert x != img;
          var p := outputDir + "/" + TrainSplit + "/images/" + cls + "_";
          assert ImageDst(outputDir, TrainSplit, cls, x) == p + x;
          assert ImageDst(outputDir, TrainSplit, cls, img) == p + img;
          AppendCancelsLeft(p, x, img);
        }
      } else {
        assert op in SplitOps(dataDir, outputDir, ValSplit, cls, classId, va);
        var x :| x in va && op.dst == ImageDst(outputDir, ValSplit, cls, x);
        if inVal(cls, img) {
          SplitDirsDiffer(outputDir, cls, img, cls, x);
        } else {
          assert x != img;
          var p := outputDir + "/" + ValSplit + "/images/" + cls + "_";
          assert ImageDst(outputDir, ValSplit, cls, x) == p + x;
          assert ImageDst(outputDir, ValSplit, cls, img) == p + img;
          AppendCancelsLeft(p, x, img);
        }
      }
    }
  }

  /** A class directory without images writes nothing, yet keeps its id and its `names` entry. */
  lemma EmptyClassKeepsItsId(dataDir: string, outputDir: string, classes: seq<string>, k: nat, files: seq<string>,
                             inVal: (string, string) -> bool)
    requires k < |classes| && Distinct(classes)
    requires forall f :: f in files ==> !IsImageName(f)
    ensures ClassOps(dataDir, outputDir, classes[k], k, files, inVal) == []
    ensures ClassMap(classes)[classes[k]] == k && Names(classes)[k] == classes[k]
  {
    ClassMapInverse(classes);
    ImagesAreTheImageNames(files);
    if Images(files) != [] {
      assert Images(files)[0] in Images(files);
    }
  }

  /** The loop over one split: copy each image and write its label. */
  method CopySplit(dataDir: string, outputDir: string, split: string, cls: string, classId: nat,
                   imgs: seq<string>) returns (ops: seq<FileOp>)
    ensures ops == SplitOps(dataDir, outputDir, split, cls, classId, imgs)
  {
    ops := [];
    for i := 0 to |imgs|
      invariant ops == SplitOps(dataDir, outputDir, split, cls, classId, imgs[..i])
    {
      assert imgs[..i + 1][..i] == imgs[..i];
      var img := imgs[i];
      var src := ClassDir(dataDir, cls) + "/" + img;
      var dstImg := ImageDst(outputDir, split, cls, img);
      ops := ops + [CopyFile(src, dstImg)];
      var dstLabel := LabelDst(outputDir, split, cls, img);
      ops := ops + [WriteFile(dstLabel, LabelLine(classId))];
    }
    assert imgs[..|imgs|] == imgs;
  }

  /** The body of the class loop: skip a class without images, else split it and copy both splits. */
  method CopyClass(dataDir: string, outputDir: string, cls: string, classId: nat, files: seq<string>,
                   inVal: (string, string) -> bool) returns (ops: seq<FileOp>)
    ensures ops == ClassOps(dataDir, outputDir, cls, classId, files, inVal)
    ensures CopiesUnder(ops, outputDir)
  {
    ClassOpsStayUnder(dataDir, outputDir, cls, classId, files, inVal);
    var images := Images(files);
    if images == [] {
      return [];
    }
    var trainImgs := TrainImages(cls, images, inVal);
    var valImgs := ValImages(cls, images, inVal);
    var trainOps := CopySplit(dataDir, outputDir, TrainSplit, cls, classId, trainImgs);
    var valOps := CopySplit(dataDir, outputDir, ValSplit, cls, classId, valImgs);
    ops := trainOps + valOps;
  }

  /** The loop over the classes, each with the id the class map gives it. */
  method CopyClasses(dataDir: string, outputDir: string, classes: seq<string>,
                     listDir: string -> seq<string>, inVal: (string, string) -> bool) returns (ops: seq<FileOp>)
    ensures ops == ClassesOps(dataDir, outputDir, classes, |classes|, listDir, inVal)
    ensures CopiesUnder(ops, outputDir)
  {
    var classMap := ClassMap(classes);
    ops := [];
    for k := 0 to |classes|
      invariant ops == ClassesOps(dataDir, outputDir, classes, k, listDir, inVal)
      invariant CopiesUnder(ops, outputDir)
    {
      var cls := classes[k];
      assert cls in classMap;
      var classOps := CopyClass(dataDir, outputDir, cls, classMap[cls], listDir(ClassDir(dataDir, cls)), inVal);
      ClassesOpsStep(dataDir, outputDir, classes, k, listDir, inVal, classOps);
      ConcatCopiesUnder(ops, classOps, outputDir);
      ops := ops + classOps;
    }
  }

  lemma ClassesOpsStep(dataDir: string, outputDir: string, classes: seq<string>, k: nat,
                       listDir: string -> seq<string>, inVal: (string, string) -> bool, classOps: seq<FileOp>)
    requires k < |classes|
    requires classOps == ClassOps(dataDir, outputDir, classes[k], ClassMap(classes)[classes[k]],
                                  listDir(ClassDir(dataDir, classes[k])), inVal)
    ensures ClassesOps(dataDir, outputDir, classes, k + 1, listDir, inVal)
            == ClassesOps(dataDir, outputDir, classes, k, listDir, inVal) + classOps
  {
  }

  /**
   * `prepare_yolo_dataset(data_dir, output_dir)`: false and no effect when the
   * data directory is missing or holds no class directory; otherwise the
   * layout, every class's files and data.yaml.
   */
  method PrepareYoloDataset(dataDir: string, outputDir: string, dataExists: bool, listing: seq<Entry>,
                            listDir: string -> seq<string>, inVal: (string, string) -> bool)
    returns (ok: bool, ops: seq<FileOp>)
    ensures ok <==> dataExists && Classes(listing) != []
    ensures !ok ==> ops == []
    ensures ok ==>
      var classes := Classes(listing);
      ops == LayoutDirs(outputDir) + ClassesOps(dataDir, outputDir, classes, |classes|, listDir, inVal)
             + [WriteDataYaml(outputDir, "train/images", "val/images", Names(classes))]
    ensures CopiesUnder(ops, outputDir)
  {
    if !dataExists {
      return false, [];
    }
    var classes := Classes(listing);
    if classes == [] {
      return false, [];
    }
    ops := LayoutDirs(outputDir);
    NoCopiesUnder(ops, outputDir);
    var classesOps := CopyClasses(dataDir, outputDir, classes, listDir, inVal);
    ConcatCopiesUnder(ops, classesOps, outputDir);
    ops := ops + classesOps;
    var yaml := [WriteDataYaml(outputDir, "train/images", "val/images", Names(classes))];
    NoCopiesUnder(yaml, outputDir);
    ConcatCopiesUnder(ops, yaml, outputDir);
    ops := ops + yaml;
    ok := true;
  }

  const BestRunWeights: string := "fruit_runs/custom_fruit/weights/best.pt"

  /**
   * `train_model()`: stop before training when preparation fails; otherwise
   * prepare the dataset, train, and copy `fruit_runs/custom_fruit/weights/best.pt`
   * to the working directory whenever that file exists, whichever run wrote it.
   */
  method TrainModel(dataExists: bool, listing: seq<Entry>, listDir: string -> seq<string>,
                    inVal: (string, string) -> bool, bestWeightsFileExists: bool)
    returns (trained: bool, ops: seq<FileOp>)
    ensures trained <==> dataExists && Classes(listing) != []
    ensures !trained ==> ops == []
    ensures trained ==>
      var classes := Classes(listing);
      ops == LayoutDirs("yolo_dataset") + ClassesOps("data", "yolo_dataset", classes, |classes|, listDir, inVal)
             + [WriteDataYaml("yolo_dataset", "train/images", "val/images", Names(classes))]
             + (if bestWeightsFileExists then [CopyFile(BestRunWeights, "best.pt")] else [])
    ensures CopyFile(BestRunWeights, "best.pt") in ops <==> trained && bestWeightsFileExists
  {
    var prepared, prepOps := PrepareYoloDataset("data", "yolo_dataset", dataExists, listing, listDir, inVal);
    if !prepared {
      return false, [];
    }
    trained := true;
    ops := prepOps;
    NoWeightsCopyUnderDataset(prepOps);
    if bestWeightsFileExists {
      ops := ops + [CopyFile(BestRunWeights, "best.pt")];
    } else {
      assert ops == prepOps + [];
    }
  }

  /** A copy lands under the directory `root`; other operations copy nothing. */
  predicate CopyUnder(op: FileOp, root: string) {
    op.CopyFile? ==> StartsWith(op.dst, root + "/")
  }

  /** Every copy among `ops` lands under the directory `root`. */
  predicate CopiesUnder(ops: seq<FileOp>, root: string) {
    if ops == [] then true
    else CopiesUnder(ops[..|ops| - 1], root) && CopyUnder(ops[|ops| - 1], root)
  }

  lemma {:induction false} CopiesUnderAt(ops: seq<FileOp>, root: string, i: nat)
    requires CopiesUnder(ops, root) && i < |ops|
    ensures CopyUnder(ops[i], root)
  {
    if i < |ops| - 1 {
      CopiesUnderAt(ops[..|ops| - 1], root, i);
    }
  }

  /** Operations without copies copy nowhere else. */
  lemma {:induction false} NoCopiesUnder(ops: seq<FileOp>, root: string)
    requires forall i :: 0 <= i < |ops| ==> !ops[i].CopyFile?
    ensures CopiesUnder(ops, root)
  {
    if ops != [] {
      NoCopiesUnder(ops[..|ops| - 1], root);
    }
  }

  /** A copy into "best.pt" never lands under the dataset directory, so the preparation never makes one. */
  lemma NoWeightsCopyUnderDataset(ops: seq<FileOp>)
    requires CopiesUnder(ops, "yolo_dataset")
    ensures CopyFile(BestRunWeights, "best.pt") !in ops
  {
    forall i | 0 <= i < |ops|
      ensures ops[i] != CopyFile(BestRunWeights, "best.pt")
    {
      CopiesUnderAt(ops, "yolo_dataset", i);
      assert !StartsWith("best.pt", "yolo_dataset/");
    }
  }

  lemma {:induction false} ConcatCopiesUnder(a: seq<FileOp>, b: seq<FileOp>, root: string)
    requires CopiesUnder(a, root) && CopiesUnder(b, root)
    ensures CopiesUnder(a + b, root)
  {
    if b == [] {
      assert a + b == a;
    } else {
      ConcatCopiesUnder(a, b[..|b| - 1], root);
      assert (a + b)[..|a + b| - 1] == a + b[..|b| - 1];
    }
  }

  lemma ClassOpsStayUnder(dataDir: string, outputDir: string, cls: string, classId: nat, files: seq<string>,
                          inVal: (string, string) -> bool)
    ensures CopiesUnder(ClassOps(dataDir, outputDir, cls, classId, files, inVal), outputDir)
  {
    var images := Images(files);
    if images != [] {
      var tr := TrainImages(cls, images, inVal);
      var va := ValImages(cls, images, inVal);
      SplitOpsStayUnder(dataDir, outputDir, TrainSplit, cls, classId, tr);
      SplitOpsStayUnder(dataDir, outputDir, ValSplit, cls, classId, va);
      ConcatCopiesUnder(SplitOps(dataDir, outputDir, TrainSplit, cls, classId, tr),
                        SplitOps(dataDir, outputDir, ValSplit, cls, classId, va), outputDir);
    }
  }

  lemma {:induction false} SplitOpsStayUnder(dataDir: string, outputDir: string, split: string, cls: string,
                                            classId: nat, imgs: seq<string>)
    ensures CopiesUnder(SplitOps(dataDir, outputDir, split, cls, classId, imgs), outputDir)
  {
    if imgs != [] {
      var rest := imgs[..|imgs| - 1];
      var img := imgs[|imgs| - 1];
      SplitOpsStayUnder(dataDir, outputDir, split, cls, classId, rest);
      var dst := ImageDst(outputDir, split, cls, img);
      var root := outputDir + "/";
      assert dst == root + (split + "/images/" + cls + "_" + img);
      assert dst[..|root|] == root;
      var pair := [CopyFile(ClassDir(dataDir, cls) + "/" + img, dst),
                   WriteFile(LabelDst(outputDir, split, cls, img), LabelLine(classId))];
      assert pair[..1][..0] == [];
      assert CopiesUnder(pair[..1], outputDir);
      ConcatCopiesUnder(SplitOps(dataDir, outputDir, split, cls, classId, rest), pair, outputDir);
    }
  }
}
