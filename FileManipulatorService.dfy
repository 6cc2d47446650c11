/** `SmartData.Lib.Services.FileManipulatorService`: renumbering a dataset
    folder, sorting images by size, listing and filtering images, reading a
    caption. Each operation is a method over the `FileSystem` model, proved
    against a function that states its effect; the lemmas about those
    functions follow each group. An exception is an `IoError` result, and
    the work done before it stays done, as on disk. */
module FileManipulatorService {
  import opened Outcomes
  import opened Text
  import opened PathNames
  import opened Numbers
  import opened Ordering
  import opened Utilities
  import opened FileSystem

  /** The extensions the service treats as images. */
  const ImageSearchPattern: string := "*.jpg,*.jpeg,*.png,*.gif,*.webp,"

  /** The image scan of a folder whose listing is `listing`. */
  function ImageFiles(inputPath: string, listing: seq<string>): seq<string> {
    GetFilesByMultipleExtensions(inputPath, listing, ImageSearchPattern)
  }

  /** After every '.' of the pattern comes one of 'j', 'p', 'g', 'w'. */
  lemma ImagePatternDots()
    ensures forall i :: 0 <= i < |ImageSearchPattern| && ImageSearchPattern[i] == '.' ==>
      i + 1 < |ImageSearchPattern| && ImageSearchPattern[i + 1] in "jpgw"
  {
  }

  /** An extension whose first letter is not one the pattern has after a dot
      is never an image extension: the `.txt` and `.caption` sidecars are
      not images. */
  lemma {:induction false} SidecarIsNoImage(e: string)
    requires |e| >= 2 && e[0] == '.' && e[1] !in "jpgw"
    ensures !Contains(ImageSearchPattern, e)
  {
    ImagePatternDots();
  }

  /** The scan lower-cases the extension: upper-case image extensions
      count. */
  lemma {:induction false} UpperCaseExtensionIsImage()
    ensures Contains(ImageSearchPattern, ToLower(Ext("a.PNG")))
  {
    assert "a.PNG" == "a" + ".PNG";
    assert ToLower(".PNG") == ".png";
    LoweredExt("a", ".PNG", ".png");
    PngListed();
  }

  /** The scan sees the lower-cased extension of `s + e`, whatever `s` is. */
  lemma {:induction false} LoweredExt(s: string, e: string, lowered: string)
    requires ProperExt(e) && ToLower(e) == lowered
    ensures ToLower(Ext(s + e)) == lowered
  {
    StemExtOf(s, e);
  }

  lemma {:induction false} PngListed()
    ensures OccursAt(".png", ImageSearchPattern, 14)
  {
    assert ImageSearchPattern[14] == '.' && ImageSearchPattern[15] == 'p';
    assert ImageSearchPattern[16] == 'n' && ImageSearchPattern[17] == 'g';
  }

  /** The scan tests substrings of the pattern: a fragment of a listed
      extension counts as an image extension. */
  lemma {:induction false} ExtensionFragmentIsImage()
    ensures Contains(ImageSearchPattern, ToLower(Ext("a.jp")))
  {
    assert "a.jp" == "a" + ".jp";
    assert ToLower(".jp") == ".jp";
    LoweredExt("a", ".jp", ".jp");
    FragmentListed();
  }

  lemma {:induction false} FragmentListed()
    ensures OccursAt(".jp", ImageSearchPattern, 1)
  {
    assert ImageSearchPattern[1] == '.' && ImageSearchPattern[2] == 'j' && ImageSearchPattern[3] == 'p';
  }

  /** A lower-case extension without an image letter after its dot never
      passes the scan, whatever the stem before it. */
  lemma {:induction false} SidecarExtIsNoImage(stem: string, e: string)
    requires ProperExt(e) && e[1] !in "jpgw" && ToLower(e) == e
    ensures !Contains(ImageSearchPattern, ToLower(Ext(stem + e)))
  {
    StemExtOf(stem, e);
    SidecarIsNoImage(e);
  }

  /** Text sidecars never pass the image scan. */
  lemma {:induction false} SidecarsAreNoImages(folderPath: string, stem: string)
    ensures !Keeps(folderPath, stem + ".txt", ImageSearchPattern)
    ensures !Keeps(folderPath, stem + ".caption", ImageSearchPattern)
  {
    assert ToLower(".txt") == ".txt";
    SidecarExtIsNoImage(stem, ".txt");
    assert ToLower(".caption") == ".caption";
    SidecarExtIsNoImage(stem, ".caption");
  }

  // ---------------------------------------------------------------------
  // Renumbering: RenameAllToCrescentAsync and its two per-file steps.

  /** The moves of `RenameFileToTemporaryName`: the image, then its `.txt`
      and its `.caption` sidecar if present, get "_temp" before their
      extension. */
  function TempMoves(file: string): seq<Move> {
    var fileName := Stem(file);
    [ Move(file, fileName + "_temp" + Ext(file), false),
      Move(fileName + ".txt", fileName + "_temp" + ".txt", true),
      Move(fileName + ".caption", fileName + "_temp" + ".caption", true) ]
  }

  /** The moves of `RenameFileToCrescentName` for the image at index `i`:
      its `.txt` and `.caption` sidecars if present, then the image itself,
      take the name `i + 1` with their own extension. */
  function CrescentMoves(image: string, i: nat): seq<Move> {
    var imageFileName := Stem(image);
    var number := DecimalString(i + 1);
    [ Move(imageFileName + ".txt", number + ".txt", true),
      Move(imageFileName + ".caption", number + ".caption", true),
      Move(image, number + Ext(image), false) ]
  }

  /** The steps of the first loop of `RenameAllToCrescentAsync`: step `i`
      gives the image at index `i` and its sidecars temporary names. */
  function TempSteps(images: seq<string>): nat -> seq<Move> {
    (i: nat) => if i < |images| then TempMoves(images[i]) else []
  }

  /** The steps of the second loop of `RenameAllToCrescentAsync`: step `i`
      numbers the image at index `i` and its sidecars. */
  function CrescentSteps(imageFiles: seq<string>): nat -> seq<Move> {
    (i: nat) => if i < |imageFiles| then CrescentMoves(imageFiles[i], i) else []
  }

  /** The first `k` steps of the first loop of `RenameAllToCrescentAsync`. */
  function TempPhase(f: Folder, images: seq<string>, k: nat): Batch {
    Steps(f, TempSteps(images), k)
  }

  /** The first `k` steps of the second loop of `RenameAllToCrescentAsync`. */
  function CrescentPhase(f: Folder, imageFiles: seq<string>, k: nat): Batch {
    Steps(f, CrescentSteps(imageFiles), k)
  }

  /** The two sidecar extensions are proper extensions. */
  lemma {:induction false} SidecarExtsProper()
    ensures ProperExt(".txt") && ProperExt(".caption")
  {
    assert ".txt"[1..] == "txt";
    assert ".caption"[1..] == "caption";
  }

  /** `RenameFileToTemporaryName`. */
  method RenameFileToTemporaryName(fs: FileSystem, inputPath: string, file: string) returns (err: Option<IoError>)
    requires inputPath in fs.folders
    modifies fs
    ensures Replaced(fs.folders, old(fs.folders), inputPath, ApplyMoves(old(fs.folders)[inputPath], TempMoves(file)).folder)
    ensures err == ApplyMoves(old(fs.folders)[inputPath], TempMoves(file)).error
  {
    var fileName := Stem(file);
    var fileExtension := Ext(file);
    ghost var m0 := Move(file, fileName + "_temp" + fileExtension, false);
    ghost var m1 := Move(fileName + ".txt", fileName + "_temp" + ".txt", true);
    ghost var m2 := Move(fileName + ".caption", fileName + "_temp" + ".caption", true);
    assert TempMoves(file) == [m0, m1, m2];
    ApplyThree(fs.folders[inputPath], m0, m1, m2);
    SidecarExtsProper();
    err := fs.Move(inputPath, file, fileName + "_temp" + fileExtension);
    if err.Some? {
      return;
    }
    var txtFile := fileName + ".txt";
    StemExtOf(fileName, ".txt");
    err := fs.MoveIfExists(inputPath, txtFile, fileName + "_temp" + Ext(txtFile));
    if err.Some? {
      return;
    }
    var captionFile := fileName + ".caption";
    StemExtOf(fileName, ".caption");
    err := fs.MoveIfExists(inputPath, captionFile, fileName + "_temp" + Ext(captionFile));
  }

  /** `RenameFileToCrescentName`. */
  method RenameFileToCrescentName(fs: FileSystem, inputPath: string, imageFiles: seq<string>, i: nat)
    returns (err: Option<IoError>)
    requires inputPath in fs.folders && i < |imageFiles|
    modifies fs
    ensures Replaced(fs.folders, old(fs.folders), inputPath, ApplyMoves(old(fs.folders)[inputPath], CrescentMoves(imageFiles[i], i)).folder)
    ensures err == ApplyMoves(old(fs.folders)[inputPath], CrescentMoves(imageFiles[i], i)).error
  {
    var imageFileName := Stem(imageFiles[i]);
    var number := DecimalString(i + 1);
    ghost var m0 := Move(imageFileName + ".txt", number + ".txt", true);
    ghost var m1 := Move(imageFileName + ".caption", number + ".caption", true);
    ghost var m2 := Move(imageFiles[i], number + Ext(imageFiles[i]), false);
    assert CrescentMoves(imageFiles[i], i) == [m0, m1, m2];
    ApplyThree(fs.folders[inputPath], m0, m1, m2);
    SidecarExtsProper();
    var txtFile := imageFileName + ".txt";
    StemExtOf(imageFileName, ".txt");
    err := fs.MoveIfExists(inputPath, txtFile, number + Ext(txtFile));
    if err.Some? {
      return;
    }
    var captionFile := imageFileName + ".caption";
    StemExtOf(imageFileName, ".caption");
    err := fs.MoveIfExists(inputPath, captionFile, number + Ext(captionFile));
    if err.Some? {
      return;
    }
    err := fs.Move(inputPath, imageFiles[i], number + Ext(imageFiles[i]));
  }

  /** One turn of the first loop of `RenameAllToCrescentAsync`: the image at
      index `i` and its sidecars get temporary names, after the turns before
      it all completed, starting from the folder `f0`. */
  method RenameToTemporaryAt(fs: FileSystem, inputPath: string, imageFiles: seq<string>, i: nat,
                             ghost orig: map<string, Folder>, ghost f0: Folder) returns (err: Option<IoError>)
    requires i < |imageFiles|
    requires TempPhase(f0, imageFiles, i).error == None
    requires Replaced(fs.folders, orig, inputPath, TempPhase(f0, imageFiles, i).folder)
    modifies fs
    ensures err == None ==>
      && TempPhase(f0, imageFiles, i + 1).error == None
      && Replaced(fs.folders, orig, inputPath, TempPhase(f0, imageFiles, i + 1).folder)
    ensures err != None ==>
      && err == TempPhase(f0, imageFiles, |imageFiles|).error && TempPhase(f0, imageFiles, |imageFiles|).done == i
      && Replaced(fs.folders, orig, inputPath, TempPhase(f0, imageFiles, |imageFiles|).folder)
  {
    ghost var before := fs.folders;
    err := RenameFileToTemporaryName(fs, inputPath, imageFiles[i]);
    StepsOnDisk(orig, before, fs.folders, inputPath, f0, TempSteps(imageFiles), i, |imageFiles|,
                TempMoves(imageFiles[i]), err);
  }

  /** One turn of the second loop of `RenameAllToCrescentAsync`: the image at
      index `i` and its sidecars take the number `i + 1`, after the turns
      before it all completed, starting from the folder `f0`. */
  method RenameToNumberAt(fs: FileSystem, inputPath: string, imageFiles: seq<string>, i: nat,
                          ghost orig: map<string, Folder>, ghost f0: Folder) returns (err: Option<IoError>)
    requires i < |imageFiles|
    requires CrescentPhase(f0, imageFiles, i).error == None
    requires Replaced(fs.folders, orig, inputPath, CrescentPhase(f0, imageFiles, i).folder)
    modifies fs
    ensures err == None ==>
      && CrescentPhase(f0, imageFiles, i + 1).error == None
      && Replaced(fs.folders, orig, inputPath, CrescentPhase(f0, imageFiles, i + 1).folder)
    ensures err != None ==>
      && err == CrescentPhase(f0, imageFiles, |imageFiles|).error && CrescentPhase(f0, imageFiles, |imageFiles|).done == i
      && Replaced(fs.folders, orig, inputPath, CrescentPhase(f0, imageFiles, |imageFiles|).folder)
  {
    ghost var before := fs.folders;
    err := RenameFileToCrescentName(fs, inputPath, imageFiles, i);
    StepsOnDisk(orig, before, fs.folders, inputPath, f0, CrescentSteps(imageFiles), i, |imageFiles|,
                CrescentMoves(imageFiles[i], i), err);
  }

  /** The first loop of `RenameAllToCrescentAsync`, as awaited in order:
      it stops at the first exception. */
  method RenameAllToTemporary(fs: FileSystem, inputPath: string, imageFiles: seq<string>) returns (err: Option<IoError>)
    requires inputPath in fs.folders
    modifies fs
    ensures Replaced(fs.folders, old(fs.folders), inputPath, TempPhase(old(fs.folders)[inputPath], imageFiles, |imageFiles|).folder)
    ensures err == TempPhase(old(fs.folders)[inputPath], imageFiles, |imageFiles|).error
  {
    ghost var f0 := old(fs.folders)[inputPath];
    err := None;
    for i := 0 to |imageFiles|
      invariant inputPath in fs.folders && err == None
      invariant TempPhase(f0, imageFiles, i).error == None
      invariant Replaced(fs.folders, old(fs.folders), inputPath, TempPhase(f0, imageFiles, i).folder)
    {
      err := RenameToTemporaryAt(fs, inputPath, imageFiles, i, old(fs.folders), f0);
      if err.Some? {
        return;
      }
    }
  }

  /** The first loop of `RenameAllToCrescentAsync(inputPath, progress)`. */
  method RenameAllToTemporaryWithProgress(fs: FileSystem, inputPath: string, imageFiles: seq<string>, progress: Progress)
    returns (err: Option<IoError>)
    requires inputPath in fs.folders
    modifies fs, progress
    ensures Replaced(fs.folders, old(fs.folders), inputPath, TempPhase(old(fs.folders)[inputPath], imageFiles, |imageFiles|).folder)
    ensures err == TempPhase(old(fs.folders)[inputPath], imageFiles, |imageFiles|).error
    ensures progress.calls == old(progress.calls) + Updates(TempPhase(old(fs.folders)[inputPath], imageFiles, |imageFiles|).done)
  {
    ghost var f0 := old(fs.folders)[inputPath];
    err := None;
    for i := 0 to |imageFiles|
      invariant inputPath in fs.folders && err == None
      invariant TempPhase(f0, imageFiles, i).error == None
      invariant Replaced(fs.folders, old(fs.folders), inputPath, TempPhase(f0, imageFiles, i).folder)
      invariant progress.calls == old(progress.calls) + Updates(i)
    {
      err := RenameToTemporaryAt(fs, inputPath, imageFiles, i, old(fs.folders), f0);
      if err.Some? {
        return;
      }
      progress.Update();
      UpdatesNext(old(progress.calls), i);
    }
  }

  /** The second loop of `RenameAllToCrescentAsync`. */
  method RenameAllToNumbers(fs: FileSystem, inputPath: string, imageFiles: seq<string>) returns (err: Option<IoError>)
    requires inputPath in fs.folders
    modifies fs
    ensures Replaced(fs.folders, old(fs.folders), inputPath, CrescentPhase(old(fs.folders)[inputPath], imageFiles, |imageFiles|).folder)
    ensures err == CrescentPhase(old(fs.folders)[inputPath], imageFiles, |imageFiles|).error
  {
    ghost var f0 := old(fs.folders)[inputPath];
    err := None;
    for i := 0 to |imageFiles|
      invariant inputPath in fs.folders && err == None
      invariant CrescentPhase(f0, imageFiles, i).error == None
      invariant Replaced(fs.folders, old(fs.folders), inputPath, CrescentPhase(f0, imageFiles, i).folder)
    {
      err := RenameToNumberAt(fs, inputPath, imageFiles, i, old(fs.folders), f0);
      if err.Some? {
        return;
      }
    }
  }

  /** The second loop of `RenameAllToCrescentAsync(inputPath, progress)`. */
  method RenameAllToNumbersWithProgress(fs: FileSystem, inputPath: string, imageFiles: seq<string>, progress: Progress)
    returns (err: Option<IoError>)
    requires inputPath in fs.folders
    modifies fs, progress
    ensures Replaced(fs.folders, old(fs.folders), inputPath, CrescentPhase(old(fs.folders)[inputPath], imageFiles, |imageFiles|).folder)
    ensures err == CrescentPhase(old(fs.folders)[inputPath], imageFiles, |imageFiles|).error
    ensures progress.calls == old(progress.calls) + Updates(CrescentPhase(old(fs.folders)[inputPath], imageFiles, |imageFiles|).done)
  {
    ghost var f0 := old(fs.folders)[inputPath];
    err := None;
    for i := 0 to |imageFiles|
      invariant inputPath in fs.folders && err == None
      invariant CrescentPhase(f0, imageFiles, i).error == None
      invariant Replaced(fs.folders, old(fs.folders), inputPath, CrescentPhase(f0, imageFiles, i).folder)
      invariant progress.calls == old(progress.calls) + Updates(i)
    {
      err := RenameToNumberAt(fs, inputPath, imageFiles, i, old(fs.folders), f0);
      if err.Some? {
        return;
      }
      progress.Update();
      UpdatesNext(old(progress.calls), i);
    }
  }

  /** `RenameAllToCrescentAsync(inputPath)`. `listed` is what the first scan
      saw and `relisted` what the second scan saw once the first loop had
      completed. */
  method RenameAllToCrescent(fs: FileSystem, inputPath: string)
    returns (err: Option<IoError>, ghost listed: seq<string>, ghost relisted: seq<string>)
    modifies fs
    ensures inputPath !in old(fs.folders) ==>
      err == Some(DirectoryNotFound(inputPath)) && fs.folders == old(fs.folders)
    ensures inputPath in old(fs.folders) ==> IsListingOf(listed, old(fs.folders)[inputPath])
    ensures inputPath in old(fs.folders) && ImageFiles(inputPath, listed) == [] ==>
      err == None && fs.folders == old(fs.folders)
    ensures inputPath in old(fs.folders) && ImageFiles(inputPath, listed) != [] ==>
      var temp := TempPhase(old(fs.folders)[inputPath], ImageFiles(inputPath, listed), |ImageFiles(inputPath, listed)|);
      if temp.error.Some? then
        err == temp.error && Replaced(fs.folders, old(fs.folders), inputPath, temp.folder)
      else
        && IsListingOf(relisted, temp.folder)
        && var crescent := CrescentPhase(temp.folder, ImageFiles(inputPath, relisted), |ImageFiles(inputPath, relisted)|);
        && err == crescent.error
        && Replaced(fs.folders, old(fs.folders), inputPath, crescent.folder)
  {
    listed, relisted := [], [];
    var scan := fs.GetFiles(inputPath);
    if scan.Err? {
      return Some(scan.error), listed, relisted;
    }
    listed := scan.value;
    var imageFiles := ImageFiles(inputPath, scan.value);
    err := None;
    if |imageFiles| > 0 {
      err := RenameAllToTemporary(fs, inputPath, imageFiles);
      if err.Some? {
        return;
      }
      var rescan := fs.GetFiles(inputPath);
      relisted := rescan.value;
      imageFiles := ImageFiles(inputPath, rescan.value);
      err := RenameAllToNumbers(fs, inputPath, imageFiles);
    }
  }

  /** `RenameAllToCrescentAsync(inputPath, progress)`: the same renaming,
      announcing the image count, one update per renamed image in each
      loop, and a reset between the loops. */
  method RenameAllToCrescentWithProgress(fs: FileSystem, inputPath: string, progress: Progress)
    returns (err: Option<IoError>, ghost listed: seq<string>, ghost relisted: seq<string>)
    modifies fs, progress
    ensures inputPath !in old(fs.folders) ==>
      && err == Some(DirectoryNotFound(inputPath)) && fs.folders == old(fs.folders)
      && progress.calls == old(progress.calls)
    ensures inputPath in old(fs.folders) ==> IsListingOf(listed, old(fs.folders)[inputPath])
    ensures inputPath in old(fs.folders) && ImageFiles(inputPath, listed) == [] ==>
      err == None && fs.folders == old(fs.folders) && progress.calls == old(progress.calls)
    ensures inputPath in old(fs.folders) && ImageFiles(inputPath, listed) != [] ==>
      var total := |ImageFiles(inputPath, listed)|;
      var temp := TempPhase(old(fs.folders)[inputPath], ImageFiles(inputPath, listed), |ImageFiles(inputPath, listed)|);
      if temp.error.Some? then
        && err == temp.error && Replaced(fs.folders, old(fs.folders), inputPath, temp.folder)
        && progress.calls == old(progress.calls) + [SetTotalFiles(total)] + Updates(temp.done)
      else
        && IsListingOf(relisted, temp.folder)
        && var crescent := CrescentPhase(temp.folder, ImageFiles(inputPath, relisted), |ImageFiles(inputPath, relisted)|);
        && err == crescent.error
        && Replaced(fs.folders, old(fs.folders), inputPath, crescent.folder)
        && progress.calls == old(progress.calls) + [SetTotalFiles(total)] + Updates(total) + [Reset] + Updates(crescent.done)
  {
    listed, relisted := [], [];
    var scan := fs.GetFiles(inputPath);
    if scan.Err? {
      return Some(scan.error), listed, relisted;
    }
    listed := scan.value;
    var imageFiles := ImageFiles(inputPath, scan.value);
    err := None;
    if |imageFiles| > 0 {
      progress.SetTotal(|imageFiles|);
      err := RenameAllToTemporaryWithProgress(fs, inputPath, imageFiles, progress);
      if err.Some? {
        return;
      }
      progress.ResetProgress();
      var rescan := fs.GetFiles(inputPath);
      relisted := rescan.value;
      imageFiles := ImageFiles(inputPath, rescan.value);
      err := RenameAllToNumbersWithProgress(fs, inputPath, imageFiles, progress);
    }
  }

  // ---------------------------------------------------------------------
  // Sorting by size: SortImagesAsync and SortImageAsync.

  /** The bounds of a decoded image. */
  datatype Size = Size(width: int, height: int)

  /** `SortImageAsync` discards an image when both its sides are below the
      dimension; every other image is selected. */
  predicate IsDiscarded(size: Size, dimension: int) {
    size.width < dimension && size.height < dimension
  }

  /** `SortImageAsync(discarded, selected, dimension, file)` for the image
      `file` of `inputPath`. `decode` stands for `Image.Load`: it gives the
      bounds of the bytes, or nothing when they are not an image. The image
      is copied, under its own name, into a new file of the folder its size
      chooses. */
  function SortImage(folders: map<string, Folder>, inputPath: string, discardedOutputPath: string,
                     selectedOutputPath: string, dimension: int, decode: Content -> Option<Size>, file: string): (r: Effect)
    ensures r.error == None <==>
      && inputPath in folders && file in folders[inputPath] && decode(folders[inputPath][file]).Some?
      && var target := if IsDiscarded(decode(folders[inputPath][file]).value, dimension)
                       then discardedOutputPath else selectedOutputPath;
         target in folders && file !in folders[target]
    ensures r.error != None ==> r.folders == folders
    ensures r.error == None ==>
      var target := if IsDiscarded(decode(folders[inputPath][file]).value, dimension)
                    then discardedOutputPath else selectedOutputPath;
      r.folders == folders[target := folders[target][file := folders[inputPath][file]]]
  {
    if inputPath !in folders then Effect(folders, Some(DirectoryNotFound(inputPath)))
    else if file !in folders[inputPath] then Effect(folders, Some(FileNotFound(file)))
    else match decode(folders[inputPath][file])
      case None => Effect(folders, Some(UnreadableImage(file)))
      case Some(size) =>
        CopyNew(folders, inputPath, file, if IsDiscarded(size, dimension) then discardedOutputPath else selectedOutputPath)
  }

  /** The steps of the loop of `SortImagesAsync`: step `i` sorts the image
      at index `i`. */
  function SortSteps(inputPath: string, discardedOutputPath: string, selectedOutputPath: string,
                     dimension: int, decode: Content -> Option<Size>, files: seq<string>)
    : (nat, map<string, Folder>) -> Effect
  {
    (i: nat, folders: map<string, Folder>) =>
      if i < |files| then SortImage(folders, inputPath, discardedOutputPath, selectedOutputPath, dimension, decode, files[i])
      else Effect(folders, None)
  }

  /** The file system after the first `k` images of the loop of
      `SortImagesAsync`, the exception that ended it, and how many images
      were copied. */
  function SortPhase(folders: map<string, Folder>, inputPath: string, discardedOutputPath: string,
                     selectedOutputPath: string, dimension: int, decode: Content -> Option<Size>,
                     files: seq<string>, k: nat): Sweep
  {
    Effects(folders, SortSteps(inputPath, discardedOutputPath, selectedOutputPath, dimension, decode, files), k)
  }

  /** `SortImageAsync`. */
  method SortImageAsync(fs: FileSystem, inputPath: string, discardedOutputPath: string, selectedOutputPath: string,
                        dimension: int, decode: Content -> Option<Size>, file: string) returns (err: Option<IoError>)
    modifies fs
    ensures fs.folders == SortImage(old(fs.folders), inputPath, discardedOutputPath, selectedOutputPath, dimension, decode, file).folders
    ensures err == SortImage(old(fs.folders), inputPath, discardedOutputPath, selectedOutputPath, dimension, decode, file).error
  {
    var fileName := file;
    var bytes := fs.ReadAllText(inputPath, file);
    if bytes.Err? {
      return Some(bytes.error);
    }
    var image := decode(bytes.value);
    if image.None? {
      return Some(UnreadableImage(file));
    }
    if IsDiscarded(image.value, dimension) {
      err := fs.CopyToNew(inputPath, fileName, discardedOutputPath);
    } else {
      err := fs.CopyToNew(inputPath, fileName, selectedOutputPath);
    }
  }

  /** One turn of the loop of `SortImagesAsync`: the image at index `i` is
      sorted, after the turns before it all completed, starting from the
      file system `folders0`. */
  method SortImageAt(fs: FileSystem, inputPath: string, discardedOutputPath: string, selectedOutputPath: string,
                     dimension: int, decode: Content -> Option<Size>, files: seq<string>, i: nat,
                     ghost folders0: map<string, Folder>) returns (err: Option<IoError>)
    requires i < |files|
    requires SortPhase(folders0, inputPath, discardedOutputPath, selectedOutputPath, dimension, decode, files, i).error == None
    requires fs.folders == SortPhase(folders0, inputPath, discardedOutputPath, selectedOutputPath, dimension, decode, files, i).folders
    modifies fs
    ensures err == None ==>
      && SortPhase(folders0, inputPath, discardedOutputPath, selectedOutputPath, dimension, decode, files, i + 1).error == None
      && fs.folders == SortPhase(folders0, inputPath, discardedOutputPath, selectedOutputPath, dimension, decode, files, i + 1).folders
    ensures err != None ==>
      var run := SortPhase(folders0, inputPath, discardedOutputPath, selectedOutputPath, dimension, decode, files, |files|);
      err == run.error && run.done == i && fs.folders == run.folders
  {
    ghost var before := fs.folders;
    err := SortImageAsync(fs, inputPath, discardedOutputPath, selectedOutputPath, dimension, decode, files[i]);
    assert fs.folders == SortSteps(inputPath, discardedOutputPath, selectedOutputPath, dimension, decode, files)(i, before).folders
        && err == SortSteps(inputPath, discardedOutputPath, selectedOutputPath, dimension, decode, files)(i, before).error by {
      assert SortSteps(inputPath, discardedOutputPath, selectedOutputPath, dimension, decode, files)(i, before)
          == SortImage(before, inputPath, discardedOutputPath, selectedOutputPath, dimension, decode, files[i]);
    }
    EffectsAfter(folders0, SortSteps(inputPath, discardedOutputPath, selectedOutputPath, dimension, decode, files),
                 i, |files|, fs.folders, err);
  }

  /** `SortImagesAsync(inputPath, discarded, selected, dimension)`: every
      image of the scan in turn, awaited in order. */
  method SortImages(fs: FileSystem, inputPath: string, discardedOutputPath: string, selectedOutputPath: string,
                    dimension: int, decode: Content -> Option<Size>) returns (err: Option<IoError>, ghost listed: seq<string>)
    modifies fs
    ensures inputPath !in old(fs.folders) ==>
      err == Some(DirectoryNotFound(inputPath)) && fs.folders == old(fs.folders)
    ensures inputPath in old(fs.folders) ==>
      && IsListingOf(listed, old(fs.folders)[inputPath])
      && var files := ImageFiles(inputPath, listed);
         var run := SortPhase(old(fs.folders), inputPath, discardedOutputPath, selectedOutputPath, dimension, decode, files, |files|);
         fs.folders == run.folders && err == run.error
  {
    listed := [];
    var scan := fs.GetFiles(inputPath);
    if scan.Err? {
      return Some(scan.error), listed;
    }
    listed := scan.value;
    var files := ImageFiles(inputPath, scan.value);
    ghost var folders0 := fs.folders;
    err := None;
    for i := 0 to |files|
      invariant err == None
      invariant SortPhase(folders0, inputPath, discardedOutputPath, selectedOutputPath, dimension, decode, files, i).error == None
      invariant fs.folders == SortPhase(folders0, inputPath, discardedOutputPath, selectedOutputPath, dimension, decode, files, i).folders
    {
      err := SortImageAt(fs, inputPath, discardedOutputPath, selectedOutputPath, dimension, decode, files, i, folders0);
      if err.Some? {
        return;
      }
    }
  }

  /** The loop of `SortImagesAsync(inputPath, discarded, selected, progress,
      dimension)`: one progress update after each copied image. */
  method SortEachWithProgress(fs: FileSystem, inputPath: string, discardedOutputPath: string, selectedOutputPath: string,
                              progress: Progress, dimension: int, decode: Content -> Option<Size>, files: seq<string>)
    returns (err: Option<IoError>)
    modifies fs, progress
    ensures fs.folders == SortPhase(old(fs.folders), inputPath, discardedOutputPath, selectedOutputPath, dimension, decode, files, |files|).folders
    ensures err == SortPhase(old(fs.folders), inputPath, discardedOutputPath, selectedOutputPath, dimension, decode, files, |files|).error
    ensures progress.calls == old(progress.calls)
      + Updates(SortPhase(old(fs.folders), inputPath, discardedOutputPath, selectedOutputPath, dimension, decode, files, |files|).done)
  {
    ghost var folders0 := fs.folders;
    ghost var calls0 := progress.calls;
    err := None;
    for i := 0 to |files|
      invariant err == None
      invariant SortPhase(folders0, inputPath, discardedOutputPath, selectedOutputPath, dimension, decode, files, i).error == None
      invariant fs.folders == SortPhase(folders0, inputPath, discardedOutputPath, selectedOutputPath, dimension, decode, files, i).folders
      invariant progress.calls == calls0 + Updates(i)
    {
      err := SortImageAt(fs, inputPath, discardedOutputPath, selectedOutputPath, dimension, decode, files, i, folders0);
      if err.Some? {
        return;
      }
      progress.Update();
      UpdatesNext(calls0, i);
    }
  }

  /** `SortImagesAsync(inputPath, discarded, selected, progress, dimension)`:
      the same loop, announcing the number of images first and updating the
      progress after each copied image. */
  method SortImagesWithProgress(fs: FileSystem, inputPath: string, discardedOutputPath: string, selectedOutputPath: string,
                                progress: Progress, dimension: int, decode: Content -> Option<Size>)
    returns (err: Option<IoError>, ghost listed: seq<string>)
    modifies fs, progress
    ensures inputPath !in old(fs.folders) ==>
      && err == Some(DirectoryNotFound(inputPath)) && fs.folders == old(fs.folders)
      && progress.calls == old(progress.calls)
    ensures inputPath in old(fs.folders) ==>
      && IsListingOf(listed, old(fs.folders)[inputPath])
      && var files := ImageFiles(inputPath, listed);
         var run := SortPhase(old(fs.folders), inputPath, discardedOutputPath, selectedOutputPath, dimension, decode, files, |files|);
         && fs.folders == run.folders && err == run.error
         && progress.calls == old(progress.calls) + [SetTotalFiles(|files|)] + Updates(run.done)
  {
    listed := [];
    var scan := fs.GetFiles(inputPath);
    if scan.Err? {
      return Some(scan.error), listed;
    }
    listed := scan.value;
    var files := ImageFiles(inputPath, scan.value);
    progress.SetTotal(|files|);
    err := SortEachWithProgress(fs, inputPath, discardedOutputPath, selectedOutputPath, progress, dimension, decode, files);
  }

  // ---------------------------------------------------------------------
  // What sorting achieves.

  /** The image `n` of `inputPath` decodes. */
  ghost predicate Decodes(folders: map<string, Folder>, inputPath: string, decode: Content -> Option<Size>, n: string) {
    inputPath in folders && n in folders[inputPath] && decode(folders[inputPath][n]).Some?
  }

  /** The decoded bounds of an image that decodes. */
  ghost function SizeOf(folders: map<string, Folder>, inputPath: string, decode: Content -> Option<Size>, n: string): Size
    requires Decodes(folders, inputPath, decode, n)
  {
    decode(folders[inputPath][n]).value
  }

  /** The images of `done` that decode and that the size test discards
      (`small`) or selects (`!small`). */
  ghost function Chosen(folders: map<string, Folder>, inputPath: string, dimension: int,
                        decode: Content -> Option<Size>, done: seq<string>, small: bool): set<string>
  {
    set n | n in done && Decodes(folders, inputPath, decode, n)
                      && IsDiscarded(SizeOf(folders, inputPath, decode, n), dimension) == small
  }

  /** The folder `after` is `before` plus a copy of each file of `src`
      named in `added`. */
  ghost predicate Gained(after: Folder, before: Folder, src: Folder, added: set<string>) {
    && (forall n :: n in after <==> n in before || n in added)
    && (forall n :: n in before ==> after[n] == before[n])
    && (forall n :: n in added && n !in before ==> n in src && after[n] == src[n])
  }

  /** Copying one more file of `src` under a free name. */
  lemma GainedStep(after: Folder, before: Folder, src: Folder, added: set<string>, n: string)
    requires Gained(after, before, src, added)
    requires n in src && n !in after
    ensures Gained(after[n := src[n]], before, src, added + {n})
  {
  }

  /** `after` is `before` with each image of `done` copied, with its content,
      into the discarded folder when it is small and into the selected
      folder otherwise; nothing else changed. */
  ghost predicate SortedInto(after: map<string, Folder>, before: map<string, Folder>, inputPath: string,
                             discardedOutputPath: string, selectedOutputPath: string, dimension: int,
                             decode: Content -> Option<Size>, done: seq<string>)
  {
    && after.Keys == before.Keys
    && (forall p :: p in before && p != discardedOutputPath && p != selectedOutputPath ==> after[p] == before[p])
    && inputPath in before && discardedOutputPath in before && selectedOutputPath in before
    && Gained(after[discardedOutputPath], before[discardedOutputPath], before[inputPath],
              Chosen(before, inputPath, dimension, decode, done, true))
    && Gained(after[selectedOutputPath], before[selectedOutputPath], before[inputPath],
              Chosen(before, inputPath, dimension, decode, done, false))
  }

  /** The conditions under which sorting cannot fail: three different
      folders that exist, every listed image decodes, and no image's name is
      taken yet in either output folder. */
  ghost predicate CanSort(folders: map<string, Folder>, inputPath: string, discardedOutputPath: string,
                          selectedOutputPath: string, decode: Content -> Option<Size>, files: seq<string>) {
    && inputPath in folders && discardedOutputPath in folders && selectedOutputPath in folders
    && inputPath != discardedOutputPath && inputPath != selectedOutputPath
    && discardedOutputPath != selectedOutputPath
    && Distinct(files)
    && forall n :: n in files ==>
         && Decodes(folders, inputPath, decode, n)
         && n !in folders[discardedOutputPath] && n !in folders[selectedOutputPath]
  }

  /** One more image adds that image to the set its size chooses. */
  lemma ChosenStep(folders: map<string, Folder>, inputPath: string, dimension: int,
                   decode: Content -> Option<Size>, done: seq<string>, n: string, small: bool)
    requires Decodes(folders, inputPath, decode, n)
    ensures Chosen(folders, inputPath, dimension, decode, done + [n], small)
         == Chosen(folders, inputPath, dimension, decode, done, small)
            + (if IsDiscarded(SizeOf(folders, inputPath, decode, n), dimension) == small then {n} else {})
  {
  }

  /** Copying image `n` into the folder its size chooses keeps the picture
      of `SortedInto`, with `n` done. */
  lemma SortedIntoAdd(after: map<string, Folder>, before: map<string, Folder>, inputPath: string,
                      discardedOutputPath: string, selectedOutputPath: string, dimension: int,
                      decode: Content -> Option<Size>, done: seq<string>, n: string)
    requires SortedInto(after, before, inputPath, discardedOutputPath, selectedOutputPath, dimension, decode, done)
    requires Decodes(before, inputPath, decode, n)
    requires discardedOutputPath != selectedOutputPath
    requires n !in after[if IsDiscarded(SizeOf(before, inputPath, decode, n), dimension)
                         then discardedOutputPath else selectedOutputPath]
    ensures
      var target := if IsDiscarded(SizeOf(before, inputPath, decode, n), dimension)
                    then discardedOutputPath else selectedOutputPath;
      SortedInto(after[target := after[target][n := before[inputPath][n]]], before, inputPath,
                 discardedOutputPath, selectedOutputPath, dimension, decode, done + [n])
  {
    var small := IsDiscarded(SizeOf(before, inputPath, decode, n), dimension);
    var target := if small then discardedOutputPath else selectedOutputPath;
    var other := if small then selectedOutputPath else discardedOutputPath;
    var next := after[target := after[target][n := before[inputPath][n]]];
    var chosen := Chosen(before, inputPath, dimension, decode, done, small);
    assert Chosen(before, inputPath, dimension, decode, done + [n], small) == chosen + {n} by {
      ChosenStep(before, inputPath, dimension, decode, done, n, small);
    }
    assert Chosen(before, inputPath, dimension, decode, done + [n], !small)
        == Chosen(before, inputPath, dimension, decode, done, !small) by {
      ChosenStep(before, inputPath, dimension, decode, done, n, !small);
    }
    assert Gained(next[target], before[target], before[inputPath], chosen + {n}) by {
      GainedStep(after[target], before[target], before[inputPath], chosen, n);
    }
    assert next[other] == after[other];
  }

  /** An image not yet reached, and not in an output folder before the
      loop, is not in it after the images before it were copied. */
  lemma NotYetCopied(after: map<string, Folder>, before: map<string, Folder>, inputPath: string,
                     discardedOutputPath: string, selectedOutputPath: string, dimension: int,
                     decode: Content -> Option<Size>, files: seq<string>, k: nat, target: string)
    requires k < |files| && Distinct(files)
    requires target == discardedOutputPath || target == selectedOutputPath
    requires SortedInto(after, before, inputPath, discardedOutputPath, selectedOutputPath, dimension, decode, files[..k])
    requires files[k] !in before[target]
    ensures files[k] !in after[target]
  {
    assert files[k] !in files[..k] by {
      forall j | 0 <= j < k ensures files[j] != files[k] {
      }
    }
  }

  /** One more image keeps the picture of `SortedInto`. */
  lemma SortedIntoStep(after: map<string, Folder>, before: map<string, Folder>, inputPath: string,
                       discardedOutputPath: string, selectedOutputPath: string, dimension: int,
                       decode: Content -> Option<Size>, files: seq<string>, k: nat)
    requires k < |files|
    requires CanSort(before, inputPath, discardedOutputPath, selectedOutputPath, decode, files)
    requires SortedInto(after, before, inputPath, discardedOutputPath, selectedOutputPath, dimension, decode, files[..k])
    ensures
      var e := SortImage(after, inputPath, discardedOutputPath, selectedOutputPath, dimension, decode, files[k]);
      && e.error == None
      && SortedInto(e.folders, before, inputPath, discardedOutputPath, selectedOutputPath, dimension, decode, files[..k + 1])
  {
    var n := files[k];
    assert files[..k + 1] == files[..k] + [n];
    assert n in files;
    var target := if IsDiscarded(SizeOf(before, inputPath, decode, n), dimension)
                  then discardedOutputPath else selectedOutputPath;
    NotYetCopied(after, before, inputPath, discardedOutputPath, selectedOutputPath, dimension, decode, files, k, target);
    SortedIntoAdd(after, before, inputPath, discardedOutputPath, selectedOutputPath, dimension, decode, files[..k], n);
  }

  /** Before the loop, nothing has been copied. */
  lemma SortedIntoStart(folders: map<string, Folder>, inputPath: string, discardedOutputPath: string,
                        selectedOutputPath: string, dimension: int, decode: Content -> Option<Size>)
    requires inputPath in folders && discardedOutputPath in folders && selectedOutputPath in folders
    ensures SortedInto(folders, folders, inputPath, discardedOutputPath, selectedOutputPath, dimension, decode, [])
  {
    assert Chosen(folders, inputPath, dimension, decode, [], true) == {};
    assert Chosen(folders, inputPath, dimension, decode, [], false) == {};
  }

  /** Under `CanSort`, the loop copies every image it reaches into exactly
      the folder its size calls for. */
  lemma SortPhaseSorts(folders: map<string, Folder>, inputPath: string, discardedOutputPath: string,
                       selectedOutputPath: string, dimension: int, decode: Content -> Option<Size>,
                       files: seq<string>, k: nat)
    requires k <= |files|
    requires CanSort(folders, inputPath, discardedOutputPath, selectedOutputPath, decode, files)
    ensures SortPhase(folders, inputPath, discardedOutputPath, selectedOutputPath, dimension, decode, files, k).error == None
    ensures SortedInto(SortPhase(folders, inputPath, discardedOutputPath, selectedOutputPath, dimension, decode, files, k).folders,
                       folders, inputPath, discardedOutputPath, selectedOutputPath, dimension, decode, files[..k])
  {
    var step := SortSteps(inputPath, discardedOutputPath, selectedOutputPath, dimension, decode, files);
    assert files[..0] == [];
    SortedIntoStart(folders, inputPath, discardedOutputPath, selectedOutputPath, dimension, decode);
    forall j: nat, r: map<string, Folder> |
      j < |files| && SortedInto(r, folders, inputPath, discardedOutputPath, selectedOutputPath, dimension, decode, files[..j])
      ensures step(j, r).error == None
      ensures SortedInto(step(j, r).folders, folders, inputPath, discardedOutputPath, selectedOutputPath, dimension, decode, files[..j + 1])
    {
      SortedIntoStep(r, folders, inputPath, discardedOutputPath, selectedOutputPath, dimension, decode, files, j);
    }
    EffectsKeep(folders, step,
                (j: nat, r: map<string, Folder>) =>
                  j <= |files| && SortedInto(r, folders, inputPath, discardedOutputPath, selectedOutputPath, dimension, decode, files[..j]),
                |files|, k);
  }

  /** The images of the scan end up split between the two output folders:
      each in exactly one of them, chosen by its size, with its content; the
      input folder and every other folder are as they were. */
  lemma {:induction false} SortImagesPartitions(folders: map<string, Folder>, inputPath: string, discardedOutputPath: string,
                                                selectedOutputPath: string, dimension: int, decode: Content -> Option<Size>,
                                                files: seq<string>)
    requires CanSort(folders, inputPath, discardedOutputPath, selectedOutputPath, decode, files)
    ensures
      var r := SortPhase(folders, inputPath, discardedOutputPath, selectedOutputPath, dimension, decode, files, |files|);
      && r.error == None && r.done == |files|
      && r.folders.Keys == folders.Keys
      && r.folders[inputPath] == folders[inputPath]
      && (forall p :: p in folders && p != discardedOutputPath && p != selectedOutputPath ==> r.folders[p] == folders[p])
      && forall n :: n in files ==>
           if IsDiscarded(SizeOf(folders, inputPath, decode, n), dimension) then
             && n in r.folders[discardedOutputPath] && n !in r.folders[selectedOutputPath]
             && r.folders[discardedOutputPath][n] == folders[inputPath][n]
           else
             && n in r.folders[selectedOutputPath] && n !in r.folders[discardedOutputPath]
             && r.folders[selectedOutputPath][n] == folders[inputPath][n]
  {
    SortPhaseSorts(folders, inputPath, discardedOutputPath, selectedOutputPath, dimension, decode, files, |files|);
    assert files[..|files|] == files;
    var r := SortPhase(folders, inputPath, discardedOutputPath, selectedOutputPath, dimension, decode, files, |files|);
    forall n | n in files
      ensures if IsDiscarded(SizeOf(folders, inputPath, decode, n), dimension) then
                && n in r.folders[discardedOutputPath] && n !in r.folders[selectedOutputPath]
                && r.folders[discardedOutputPath][n] == folders[inputPath][n]
              else
                && n in r.folders[selectedOutputPath] && n !in r.folders[discardedOutputPath]
                && r.folders[selectedOutputPath][n] == folders[inputPath][n]
    {
      assert n in Chosen(folders, inputPath, dimension, decode, files, IsDiscarded(SizeOf(folders, inputPath, decode, n), dimension));
    }
  }

  /** The boundary of the size test: a square image of the dimension is
      selected, and so is an image with one side below the dimension and
      the other above it; only an image with both sides below is
      discarded. */
  lemma SortBoundary(d: int)
    ensures !IsDiscarded(Size(d, d), d)
    ensures !IsDiscarded(Size(d - 1, d + 1), d) && !IsDiscarded(Size(d + 1, d - 1), d)
    ensures IsDiscarded(Size(d - 1, d - 1), d)
  {
  }

  // ---------------------------------------------------------------------
  // Listing, filtering and reading: GetImageFiles, GetFilteredImageFiles
  // and GetTextFromFile.

  /** The text next to `image`: the file of the same stem with extension
      `ext`, or the exception reading it raises. */
  function TextFor(f: Folder, image: string, ext: string): (r: Result<Content, IoError>)
    ensures r.Ok? <==> ChangeExtension(image, ext) in f
    ensures r.Err? ==> r.error == FileNotFound(ChangeExtension(image, ext))
  {
    var textFile := ChangeExtension(image, ext);
    if textFile in f then Ok(f[textFile]) else Err(FileNotFound(textFile))
  }

  /** `GetTextFromFile(image, ext)` for an image of `inputPath`. */
  method GetTextFromFile(fs: FileSystem, inputPath: string, image: string, ext: string) returns (r: Result<Content, IoError>)
    ensures inputPath !in fs.folders ==> r == Err(DirectoryNotFound(inputPath))
    ensures inputPath in fs.folders ==> r == TextFor(fs.folders[inputPath], image, ext)
  {
    var txtFilePath := ChangeExtension(image, ext);
    r := fs.ReadAllText(inputPath, txtFilePath);
  }

  /** The filter terms: ", " collapsed to "," and then split at each ','. */
  function FilterTerms(wordsToFilter: string): (r: seq<string>)
    ensures |r| >= 1 && forall k :: 0 <= k < |r| ==> ',' !in r[k]
  {
    Split(Replace(wordsToFilter, ", ", ","), ',')
  }

  /** A caption passes the filter when it contains one of the terms. */
  predicate MatchesAny(caption: string, terms: seq<string>) {
    exists k :: 0 <= k < |terms| && Contains(caption, terms[k])
  }

  /** The text file of the image at index `i` is missing, every earlier
      image has one, and `e` is the exception that names it. */
  predicate FirstMissingAt(f: Folder, images: seq<string>, ext: string, i: int, e: IoError) {
    && 0 <= i < |images| && ChangeExtension(images[i], ext) !in f
    && (forall j :: 0 <= j < i ==> ChangeExtension(images[j], ext) in f)
    && e == FileNotFound(ChangeExtension(images[i], ext))
  }

  /** A missing text file before the last image stays the first missing one. */
  lemma FirstMissingCarries(f: Folder, images: seq<string>, init: seq<string>, ext: string, e: IoError)
    requires |images| > 0 && init == images[..|images| - 1]
    requires exists i :: FirstMissingAt(f, init, ext, i, e)
    ensures exists i :: FirstMissingAt(f, images, ext, i, e)
  {
    var i :| FirstMissingAt(f, init, ext, i, e);
    assert FirstMissingAt(f, images, ext, i, e);
  }

  /** The last image is the first whose text file is missing. */
  lemma FirstMissingLast(f: Folder, images: seq<string>, ext: string)
    requires |images| > 0 && ChangeExtension(images[|images| - 1], ext) !in f
    requires forall x :: x in images[..|images| - 1] ==> ChangeExtension(x, ext) in f
    ensures FirstMissingAt(f, images, ext, |images| - 1, FileNotFound(ChangeExtension(images[|images| - 1], ext)))
  {
    forall j | 0 <= j < |images| - 1 ensures ChangeExtension(images[j], ext) in f {
      assert images[j] in images[..|images| - 1];
    }
  }

  /** The images of `images` whose text passes the filter, in their order,
      or the exception of the first image whose text file is missing. */
  function FilterMatches(f: Folder, images: seq<string>, ext: string, terms: seq<string>): (r: Result<seq<string>, IoError>)
    ensures r.Ok? <==> forall x :: x in images ==> ChangeExtension(x, ext) in f
    ensures r.Ok? ==> forall x :: x in r.value <==>
      x in images && ChangeExtension(x, ext) in f && MatchesAny(f[ChangeExtension(x, ext)], terms)
    ensures r.Err? ==> exists i :: FirstMissingAt(f, images, ext, i, r.error)
    decreases |images|
  {
    if images == [] then Ok([])
    else
      var init, image := images[..|images| - 1], images[|images| - 1];
      assert images == init + [image];
      var prev := FilterMatches(f, init, ext, terms);
      if prev.Err? then
        FirstMissingCarries(f, images, init, ext, prev.error);
        prev
      else
        match TextFor(f, image, ext)
        case Err(e) =>
          FirstMissingLast(f, images, ext);
          Err(e)
        case Ok(caption) => if MatchesAny(caption, terms) then Ok(prev.value + [image]) else prev
  }

  /** The filter keeps the scan order. */
  lemma {:induction false} FilterKeepsOrder(f: Folder, images: seq<string>, ext: string, terms: seq<string>)
    requires FilterMatches(f, images, ext, terms).Ok?
    ensures Subsequence(FilterMatches(f, images, ext, terms).value, images)
    decreases |images|
  {
    if images != [] {
      var init, image := images[..|images| - 1], images[|images| - 1];
      var prev := FilterMatches(f, init, ext, terms);
      FilterKeepsOrder(f, init, ext, terms);
      var r := FilterMatches(f, images, ext, terms).value;
      if r == prev.value + [image] {
        assert r[..|r| - 1] == prev.value;
      }
    }
  }

  /** An empty filter is the single term "", which every caption contains:
      it keeps every image. */
  lemma {:induction false} EmptyFilterKeepsAll(f: Folder, images: seq<string>, ext: string)
    requires forall x :: x in images ==> ChangeExtension(x, ext) in f
    ensures FilterMatches(f, images, ext, FilterTerms("")) == Ok(images)
    decreases |images|
  {
    assert FilterTerms("") == [""];
    if images != [] {
      var init, image := images[..|images| - 1], images[|images| - 1];
      assert images == init + [image];
      EmptyFilterKeepsAll(f, init, ext);
      ContainsEmpty(f[ChangeExtension(image, ext)]);
      assert Contains(f[ChangeExtension(image, ext)], [""][0]);
    }
  }

  /** `GetImageFiles`: the scan, in comparer order. */
  method GetImageFiles(fs: FileSystem, inputPath: string, le: (string, string) -> bool)
    returns (r: Result<seq<string>, IoError>, ghost listed: seq<string>)
    requires TotalPreorder(le)
    ensures inputPath !in fs.folders ==> r == Err(DirectoryNotFound(inputPath))
    ensures inputPath in fs.folders ==>
      && IsListingOf(listed, fs.folders[inputPath])
      && r.Ok? && SortedBy(r.value, le)
      && multiset(r.value) == multiset(ImageFiles(inputPath, listed))
      && Distinct(r.value)
      && forall x :: x in r.value <==> x in fs.folders[inputPath] && Keeps(inputPath, x, ImageSearchPattern)
  {
    listed := [];
    var scan := fs.GetFiles(inputPath);
    if scan.Err? {
      return Err(scan.error), listed;
    }
    listed := scan.value;
    var imageFiles := ImageFiles(inputPath, scan.value);
    var sorted := Sort(imageFiles, le);
    ScanKeepsOrder(inputPath, scan.value, ImageSearchPattern);
    DistinctCounts(imageFiles);
    DistinctCounts(sorted);
    forall x ensures x in sorted <==> x in imageFiles {
      assert x in sorted <==> x in multiset(sorted);
      assert x in imageFiles <==> x in multiset(imageFiles);
    }
    return Ok(sorted), listed;
  }

  /** `GetFilteredImageFiles(inputPath, ext, wordsToFilter)`: the images of
      the scan whose `.txt` or `.caption` text contains one of the filter
      terms, in comparer order. Any other extension is an argument error. */
  method GetFilteredImageFiles(fs: FileSystem, inputPath: string, textFileExtension: string, wordsToFilter: string,
                               le: (string, string) -> bool)
    returns (r: Result<seq<string>, IoError>, ghost listed: seq<string>)
    requires TotalPreorder(le)
    ensures textFileExtension != ".txt" && textFileExtension != ".caption" ==> r == Err(InvalidArgument)
    ensures (textFileExtension == ".txt" || textFileExtension == ".caption") && inputPath !in fs.folders ==>
      r == Err(DirectoryNotFound(inputPath))
    ensures (textFileExtension == ".txt" || textFileExtension == ".caption") && inputPath in fs.folders ==>
      && IsListingOf(listed, fs.folders[inputPath])
      && var m := FilterMatches(fs.folders[inputPath], ImageFiles(inputPath, listed), textFileExtension, FilterTerms(wordsToFilter));
         && (m.Err? ==> r == Err(m.error))
         && (m.Ok? ==> r.Ok? && SortedBy(r.value, le) && multiset(r.value) == multiset(m.value) && Distinct(r.value))
  {
    listed := [];
    if textFileExtension != ".txt" && textFileExtension != ".caption" {
      return Err(InvalidArgument), listed;
    }
    var scan := fs.GetFiles(inputPath);
    if scan.Err? {
      return Err(scan.error), listed;
    }
    listed := scan.value;
    var imageFiles := ImageFiles(inputPath, scan.value);
    var wordsSplit := Split(Replace(wordsToFilter, ", ", ","), ',');
    var filtered := FilterImages(fs, inputPath, imageFiles, textFileExtension, wordsSplit);
    if filtered.Err? {
      return Err(filtered.error), listed;
    }
    var sorted := Sort(filtered.value, le);
    ScanKeepsOrder(inputPath, scan.value, ImageSearchPattern);
    FilterKeepsOrder(fs.folders[inputPath], imageFiles, textFileExtension, wordsSplit);
    DrawnDistinct(sorted, filtered.value, imageFiles);
    return Ok(sorted), listed;
  }

  /** The loop of `GetFilteredImageFiles`: read each image's text, and keep
      the image at the first term its text contains. */
  method FilterImages(fs: FileSystem, inputPath: string, imageFiles: seq<string>, textFileExtension: string,
                      wordsSplit: seq<string>) returns (r: Result<seq<string>, IoError>)
    requires inputPath in fs.folders
    ensures r == FilterMatches(fs.folders[inputPath], imageFiles, textFileExtension, wordsSplit)
  {
    ghost var f := fs.folders[inputPath];
    var filteredImageFiles: seq<string> := [];
    for i := 0 to |imageFiles|
      invariant FilterMatches(f, imageFiles[..i], textFileExtension, wordsSplit) == Ok(filteredImageFiles)
    {
      assert imageFiles[..i + 1][..i] == imageFiles[..i];
      var caption := GetTextFromFile(fs, inputPath, imageFiles[i], textFileExtension);
      if caption.Err? {
        FilterMatchesStops(f, imageFiles, textFileExtension, wordsSplit, i + 1);
        return Err(caption.error);
      }
      var j := 0;
      while j < |wordsSplit|
        invariant 0 <= j <= |wordsSplit|
        invariant forall k :: 0 <= k < j ==> !Contains(caption.value, wordsSplit[k])
      {
        if Contains(caption.value, wordsSplit[j]) {
          filteredImageFiles := filteredImageFiles + [imageFiles[i]];
          break;
        }
        j := j + 1;
      }
    }
    assert imageFiles[..|imageFiles|] == imageFiles;
    return Ok(filteredImageFiles);
  }

  /** Once a text file is missing, the filter fails with that file. */
  lemma {:induction false} FilterMatchesStops(f: Folder, images: seq<string>, ext: string, terms: seq<string>, k: nat)
    requires k <= |images|
    requires FilterMatches(f, images[..k], ext, terms).Err?
    ensures FilterMatches(f, images, ext, terms) == FilterMatches(f, images[..k], ext, terms)
    decreases |images| - k
  {
    if k < |images| {
      var init := images[..|images| - 1];
      assert init[..k] == images[..k];
      FilterMatchesStops(f, init, ext, terms, k);
    } else {
      assert images[..k] == images;
    }
  }
}
