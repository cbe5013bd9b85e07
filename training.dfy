/** The label parsing of the classifier-training endpoint. The dataset
    directory listing is a parameter (None when the directory does not
    exist); the pixels are not modelled, and which files fail to load as
    images is a parameter too. The classifier itself is not modelled: what
    is modelled is which files are used and the labels taken from their
    names (`<person>.<image>.jpg`). */
module Training {
  import opened Common

  /** `[f for f in os.listdir(dataset_dir) if f.endswith('.jpg')]`. */
  function JpgFiles(listing: seq<string>): (r: seq<string>)
    ensures forall f :: f in r <==> f in listing && EndsWith(f, ".jpg")
    ensures forall f :: multiset(r)[f] == if EndsWith(f, ".jpg") then multiset(listing)[f] else 0
    ensures |r| <= |listing|
    decreases |listing|
  {
    if |listing| == 0 then []
    else
      var last := listing[|listing| - 1];
      var init := JpgFiles(listing[..|listing| - 1]);
      assert listing == listing[..|listing| - 1] + [last];
      assert forall f :: f in listing <==> f in listing[..|listing| - 1] || f == last;
      if EndsWith(last, ".jpg") then init + [last] else init
  }

  /** Selecting from a concatenation selects from each part and keeps them
      in order; with `JpgFilesSingle` this says the `.jpg` names are kept in
      listing order. */
  lemma {:induction false} JpgFilesAppend(a: seq<string>, b: seq<string>)
    ensures JpgFiles(a + b) == JpgFiles(a) + JpgFiles(b)
    decreases |b|
  {
    if |b| == 0 {
      assert a + b == a;
    } else {
      var init := b[..|b| - 1];
      assert (a + b)[..|a + b| - 1] == a + init;
      assert (a + b)[|a + b| - 1] == b[|b| - 1];
      JpgFilesAppend(a, init);
    }
  }

  lemma JpgFilesSingle(f: string)
    ensures JpgFiles([f]) == if EndsWith(f, ".jpg") then [f] else []
  {
    assert [f][..0] == [];
  }

  /** The label a file name gives: the integer before the first dot, when the
      name has at least three dot-separated parts. */
  function Label(name: string): (r: Option<int>)
    ensures r.Some? ==> |Split(name, '.')| >= 3 && ParseInt(Split(name, '.')[0]) == r
    ensures |Split(name, '.')| >= 3 ==> r == ParseInt(Split(name, '.')[0])
    ensures |Split(name, '.')| < 3 ==> r.None?
  {
    var parts := Split(name, '.');
    if |parts| >= 3 then ParseInt(parts[0]) else None
  }

  /** The labels collected, in order, from the listed `.jpg` files; a file
      whose name gives no label, or that does not load as an image, is
      skipped. */
  function Labels(files: seq<string>, unreadable: set<string>): (r: seq<int>)
    ensures |r| == |set i | 0 <= i < |files| && Usable(files[i], unreadable)|
    decreases |files|
  {
    if |files| == 0 then []
    else
      var f := files[|files| - 1];
      var prefix := files[..|files| - 1];
      var init := Labels(prefix, unreadable);
      var before := set i | 0 <= i < |prefix| && Usable(prefix[i], unreadable);
      var now := set i | 0 <= i < |files| && Usable(files[i], unreadable);
      assert now == before + (if Usable(f, unreadable) then {|files| - 1} else {});
      if Usable(f, unreadable) then init + [Label(f).value] else init
  }

  /** A file gives a label and loads as an image. */
  predicate Usable(f: string, unreadable: set<string>)
  {
    Label(f).Some? && f !in unreadable
  }

  /** Collecting over a concatenation collects over each part in order; with
      `LabelsSingle` this says there is one label per usable file, in file
      order. */
  lemma {:induction false} LabelsAppend(a: seq<string>, b: seq<string>, unreadable: set<string>)
    ensures Labels(a + b, unreadable) == Labels(a, unreadable) + Labels(b, unreadable)
    decreases |b|
  {
    if |b| == 0 {
      assert a + b == a;
    } else {
      var init := b[..|b| - 1];
      assert (a + b)[..|a + b| - 1] == a + init;
      assert (a + b)[|a + b| - 1] == b[|b| - 1];
      LabelsAppend(a, init, unreadable);
    }
  }

  lemma LabelsSingle(f: string, unreadable: set<string>)
    ensures Labels([f], unreadable) == if Usable(f, unreadable) then [Label(f).value] else []
  {
    assert [f][..0] == [];
  }

  /** Every collected label comes from a usable file, and every usable file
      gives its label. */
  lemma {:induction false} LabelsSound(files: seq<string>, unreadable: set<string>)
    ensures |Labels(files, unreadable)| <= |files|
    ensures forall l :: l in Labels(files, unreadable) <==>
              exists f :: f in files && f !in unreadable && Label(f) == Some(l)
    decreases |files|
  {
    if |files| > 0 {
      var init := files[..|files| - 1];
      var f := files[|files| - 1];
      LabelsSound(init, unreadable);
      assert forall g :: g in files <==> g in init || g == f;
    }
  }

  /** Distinct labels are never more than labels. */
  lemma {:induction false} DistinctCount(labels: seq<int>)
    ensures |set l | l in labels| <= |labels|
    decreases |labels|
  {
    if |labels| > 0 {
      var init := labels[..|labels| - 1];
      DistinctCount(init);
      assert (set l | l in labels) == (set l | l in init) + {labels[|labels| - 1]} by {
        assert forall l :: l in labels <==> l in init || l == labels[|labels| - 1];
      }
    }
  }

  /** The file the dataset generator writes for image `img` of person `nbr`
      is used, and is labelled with `nbr`. */
  lemma DatasetFileLabel(nbr: nat, img: nat)
    ensures EndsWith(NatToString(nbr) + "." + NatToString(img) + ".jpg", ".jpg")
    ensures Label(NatToString(nbr) + "." + NatToString(img) + ".jpg") == Some(nbr as int)
  {
    var a := NatToString(nbr);
    var b := NatToString(img);
    var name := a + "." + b + ".jpg";
    assert '.' !in a by { assert forall i :: 0 <= i < |a| ==> IsDigit(a[i]); }
    assert '.' !in b by { assert forall i :: 0 <= i < |b| ==> IsDigit(b[i]); }
    assert name == a + ['.'] + (b + ['.'] + "jpg");
    SplitAfterPiece(a, b + ['.'] + "jpg", '.');
    SplitAfterPiece(b, "jpg", '.');
    SplitWithoutSeparator("jpg", '.');
    assert Split(name, '.') == [a, b, "jpg"];
    ParseIntOfNat(nbr);
  }

  /** Two usable files with the same label count as two images of one
      person: every usable file adds its own label, duplicates included. */
  lemma SamePersonTwice(f1: string, f2: string, unreadable: set<string>)
    requires Usable(f1, unreadable) && Usable(f2, unreadable) && Label(f1) == Label(f2)
    ensures Labels([f1, f2], unreadable) == [Label(f1).value, Label(f1).value]
    ensures |set l | l in Labels([f1, f2], unreadable)| == 1
  {
    assert [f1, f2] == [f1] + [f2];
    LabelsSingle(f1, unreadable);
    LabelsSingle(f2, unreadable);
    LabelsAppend([f1], [f2], unreadable);
    var labels := Labels([f1, f2], unreadable);
    assert (set l | l in labels) == {Label(f1).value};
  }

  /** What the training endpoint answers. */
  datatype TrainResult =
    | DatasetMissing
    | NoImages
    | NoValidFaces
    | Trained(totalImages: nat, uniquePersons: nat)

  function StatusCode(r: TrainResult): int
  {
    match r
    case DatasetMissing => 404
    case NoImages => 404
    case NoValidFaces => 400
    case Trained(_, _) => 200
  }

  function Message(r: TrainResult): string
  {
    match r
    case DatasetMissing => "Dataset directory not found"
    case NoImages => "No images found in dataset"
    case NoValidFaces => "No valid faces found"
    case Trained(_, _) => "Classifier trained successfully"
  }

  /** `api_train_classifier`: the loop over the `.jpg` files collecting one
      label per usable file; `labels` is what the classifier is trained on. */
  method TrainClassifier(listing: Option<seq<string>>, unreadable: set<string>) returns (r: TrainResult, labels: seq<int>)
    ensures listing.None? ==> r == DatasetMissing && labels == []
    ensures listing.Some? && JpgFiles(listing.value) == [] ==> r == NoImages && labels == []
    ensures listing.Some? && JpgFiles(listing.value) != [] ==>
              && labels == Labels(JpgFiles(listing.value), unreadable)
              && (r == NoValidFaces <==> labels == [])
              && (r.Trained? <==> labels != [])
    ensures r.Trained? ==> r.totalImages == |labels| && r.uniquePersons == |set l | l in labels|
    ensures r.Trained? ==> 1 <= r.uniquePersons <= r.totalImages
    ensures r.Trained? ==> listing.Some?
    ensures listing.Some? && r.Trained? ==>
              var files := JpgFiles(listing.value);
              r.totalImages == |set i | 0 <= i < |files| && Usable(files[i], unreadable)|
  {
    labels := [];
    if listing.None? {
      return DatasetMissing, labels;
    }
    var files := JpgFiles(listing.value);
    if |files| == 0 {
      return NoImages, labels;
    }
    var i := 0;
    while i < |files|
      invariant 0 <= i <= |files|
      invariant labels == Labels(files[..i], unreadable)
    {
      var f := files[i];
      assert files[..i + 1][..i] == files[..i];
      var parts := Split(f, '.');
      if |parts| >= 3 {
        var personId := ParseInt(parts[0]);
        if personId.Some? && f !in unreadable {
          labels := labels + [personId.value];
        }
      }
      i := i + 1;
    }
    assert files[..i] == files;
    if |labels| == 0 {
      return NoValidFaces, labels;
    }
    DistinctCount(labels);
    var persons := set l | l in labels;
    assert persons == {labels[0]} + (persons - {labels[0]});
    r := Trained(|labels|, |persons|);
  }
}
