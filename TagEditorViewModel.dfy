/** `DatasetProcessor.ViewModels.TagEditorViewModel`: the navigation state of
    the tag editor. The image list, the selected index, the kind of text
    being edited and the state of the buttons are fields that the commands
    and the change handlers update; bitmaps, text loading and saving, and
    logging are outside the model. */
module TagEditorViewModel {
  import opened Outcomes
  import opened Numbers
  import opened Ordering
  import opened PathNames
  import opened FileSystem
  import opened FileManipulatorService
  import opened Utilities

  /** The two brushes of the token counter. */
  datatype TokenColor = LightGreen | PaleVioletRed

  /** The CLIP limit that the token counter is compared against. */
  const TokenLimit: int := 75

  /** `CountTokensForCurrentImage` colours the count green below the
      limit and red from the limit on. */
  function TokenColorFor(count: int): (c: TokenColor)
    ensures c == LightGreen <==> count < TokenLimit
    ensures c == PaleVioletRed <==> count >= TokenLimit
  {
    if count < TokenLimit then LightGreen else PaleVioletRed
  }

  /** The sort key of the list: the integer value of the file name without
      its extension (only used where every name parses). */
  function NameKey(file: string): int {
    match ParseInt32(Stem(file))
    case Some(v) => v
    case None => 0
  }

  /** `files.OrderBy(x => int.Parse(Path.GetFileNameWithoutExtension(x))).ToList()`:
      nothing when some name is not a 32-bit integer, since `ToList`
      then throws before the list is assigned. */
  function NumericOrder(files: seq<string>): (r: Option<seq<string>>)
    ensures r.Some? <==> forall x :: x in files ==> ParseInt32(Stem(x)).Some?
    ensures r.Some? ==> multiset(r.value) == multiset(files) && SortedByKey(r.value, NameKey)
    ensures r.Some? ==> forall k :: WithKey(r.value, NameKey, k) == WithKey(files, NameKey, k)
  {
    if forall x :: x in files ==> ParseInt32(Stem(x)).Some? then
      OrderBySorted(files, NameKey);
      OrderByStableAll(files);
      Some(OrderBy(files, NameKey))
    else None
  }

  lemma OrderByStableAll(files: seq<string>)
    ensures forall k :: WithKey(OrderBy(files, NameKey), NameKey, k) == WithKey(files, NameKey, k)
  {
    forall k ensures WithKey(OrderBy(files, NameKey), NameKey, k) == WithKey(files, NameKey, k) {
      OrderByStable(files, NameKey, k);
    }
  }

  /** An exception that escapes a `finally` block: the count of a null
      list, or an index outside the list. */
  datatype Escaped = NullReference | IndexOutOfRange

  class TagEditorViewModel {
    /** `ImageFiles`; `None` is the null list of a view model that has not
        loaded a folder yet. */
    var imageFiles: Option<seq<string>>
    var selectedItemIndex: int
    var editingTxt: bool
    var buttonEnabled: bool
    var tokenTextColor: TokenColor
    var inputFolderPath: string

    /** The number of images, with a null list counted as none. */
    function Count(): nat
      reads this`imageFiles
    {
      if imageFiles.Some? then |imageFiles.value| else 0
    }

    /** The index selects an image whenever there is one. */
    ghost predicate Valid()
      reads this`imageFiles, this`selectedItemIndex
    {
      Count() > 0 ==> 0 <= selectedItemIndex < Count()
    }

    /** Where the change handler puts an index: clamped into the list, or
        0 when the list is null or empty. */
    function Normalized(value: int): (r: int)
      reads this`imageFiles
      ensures Count() > 0 ==> 0 <= r < Count()
      ensures Count() == 0 ==> r == 0
      ensures Count() > 0 && 0 <= value < Count() ==> r == value
    {
      if Count() > 0 then Clamp(value, 0, Count() - 1) else 0
    }

    /** The constructor's assignments that the model keeps. */
    constructor (inputFolderPath: string)
      ensures imageFiles == None && selectedItemIndex == 0
      ensures editingTxt && buttonEnabled && tokenTextColor == LightGreen
      ensures this.inputFolderPath == inputFolderPath
      ensures Valid()
    {
      imageFiles := None;
      selectedItemIndex := 0;
      editingTxt := true;
      buttonEnabled := true;
      tokenTextColor := LightGreen;
      this.inputFolderPath := inputFolderPath;
    }

    /** `CurrentType`: the extension of the text being edited. */
    function CurrentType(): (r: string)
      reads this`editingTxt
      ensures r == ".txt" <==> editingTxt
      ensures r == ".caption" <==> !editingTxt
    {
      if editingTxt then ".txt" else ".caption"
    }

    /** The `SelectedItemIndex` setter: a new value is stored and the change
        handler runs; the same value does nothing. */
    method SetSelectedItemIndex(value: int)
      modifies this
      ensures selectedItemIndex == if value == old(selectedItemIndex) then value else old(Normalized(value))
      ensures imageFiles == old(imageFiles) && editingTxt == old(editingTxt) && buttonEnabled == old(buttonEnabled)
      ensures tokenTextColor == old(tokenTextColor) && inputFolderPath == old(inputFolderPath)
      decreases if value == selectedItemIndex then 0 else if Normalized(value) == value then 1 else 2, 1
    {
      if value != selectedItemIndex {
        selectedItemIndex := value;
        OnSelectedItemIndexChanged(value);
      }
    }

    /** `OnSelectedItemIndexChanged`: the handler assigns the normalized
        index back through the setter, which runs the handler once more
        when that changed the value. */
    method OnSelectedItemIndexChanged(value: int)
      requires selectedItemIndex == value
      modifies this
      ensures selectedItemIndex == old(Normalized(value))
      ensures imageFiles == old(imageFiles) && editingTxt == old(editingTxt) && buttonEnabled == old(buttonEnabled)
      ensures tokenTextColor == old(tokenTextColor) && inputFolderPath == old(inputFolderPath)
      decreases if Normalized(value) == value then 1 else 2, 0
    {
      if Count() > 0 {
        SetSelectedItemIndex(Clamp(value, 0, Count() - 1));
      } else {
        SetSelectedItemIndex(0);
      }
    }

    /** `GoToItem(parameter)`: move by the parsed offset (0 when it does not
        parse) with unchecked 32-bit addition, unless the list is empty. */
    method GoToItem(parameter: string)
      requires IsInt32(selectedItemIndex)
      modifies this
      ensures old(Valid()) ==> Valid()
      ensures old(Count()) > 0 ==>
        selectedItemIndex == if TryParseInt32(parameter) == 0 then old(selectedItemIndex)
                             else Clamp(AddInt32(old(selectedItemIndex), TryParseInt32(parameter)), 0, old(Count()) - 1)
      ensures old(imageFiles) == Some([]) ==> selectedItemIndex == old(selectedItemIndex)
      ensures old(imageFiles) == None ==>
        selectedItemIndex == if TryParseInt32(parameter) == 0 then old(selectedItemIndex) else 0
      ensures imageFiles == old(imageFiles) && editingTxt == old(editingTxt) && buttonEnabled == old(buttonEnabled)
      ensures tokenTextColor == old(tokenTextColor) && inputFolderPath == old(inputFolderPath)
    {
      var parameterInt := TryParseInt32(parameter);
      if imageFiles.None? || |imageFiles.value| != 0 {
        AddInt32Unchanged(selectedItemIndex, parameterInt);
        SetSelectedItemIndex(AddInt32(selectedItemIndex, parameterInt));
      }
    }

    /** `GoToRandomItem`, with `next` the value `Random.Next(0, Count)`
        returned, which lies in [0, Count). */
    method GoToRandomItem(next: int)
      requires Count() > 0 ==> 0 <= next < Count()
      modifies this
      ensures Count() > 0 ==> selectedItemIndex == next
      ensures Count() == 0 ==> selectedItemIndex == old(selectedItemIndex)
      ensures imageFiles == old(imageFiles) && editingTxt == old(editingTxt) && buttonEnabled == old(buttonEnabled)
      ensures tokenTextColor == old(tokenTextColor) && inputFolderPath == old(inputFolderPath)
    {
      if imageFiles.Some? && |imageFiles.value| != 0 {
        SetSelectedItemIndex(next);
      }
    }

    /** `SwitchEditorType`: toggle between `.txt` and `.caption`. */
    method SwitchEditorType()
      modifies this
      ensures editingTxt == !old(editingTxt)
      ensures CurrentType() != old(CurrentType())
      ensures imageFiles == old(imageFiles) && selectedItemIndex == old(selectedItemIndex)
      ensures buttonEnabled == old(buttonEnabled) && tokenTextColor == old(tokenTextColor)
      ensures inputFolderPath == old(inputFolderPath)
    {
      editingTxt := !editingTxt;
    }

    /** Two switches restore the kind of text being edited. */
    method SwitchEditorTypeTwice()
      modifies this
      ensures editingTxt == old(editingTxt) && CurrentType() == old(CurrentType())
    {
      SwitchEditorType();
      SwitchEditorType();
    }

    /** `CountTokensForCurrentImage` after the tokenizer counted `count`
        tokens. */
    method CountTokensForCurrentImage(count: int)
      modifies this
      ensures tokenTextColor == TokenColorFor(count)
      ensures imageFiles == old(imageFiles) && selectedItemIndex == old(selectedItemIndex)
      ensures editingTxt == old(editingTxt) && buttonEnabled == old(buttonEnabled)
      ensures inputFolderPath == old(inputFolderPath)
    {
      if count < TokenLimit {
        tokenTextColor := LightGreen;
      } else {
        tokenTextColor := PaleVioletRed;
      }
    }

    /** `FilterFilesAsync`, given what the filtering service returned. A
        non-empty result resets the index and becomes the list, sorted by
        the numbers of the names when they all parse; an empty result or an
        exception leaves the list alone. The `finally` block then shows
        the selected image; when that throws, the button stays disabled. */
    method FilterFilesAsync(searchResult: Result<seq<string>, IoError>) returns (escaped: Option<Escaped>)
      modifies this
      ensures searchResult.Ok? && |searchResult.value| > 0 ==>
        && selectedItemIndex == 0
        && imageFiles == Some(Arranged(searchResult.value))
      ensures !(searchResult.Ok? && |searchResult.value| > 0) ==>
        imageFiles == old(imageFiles) && selectedItemIndex == old(selectedItemIndex)
      ensures escaped == Some(NullReference) <==> imageFiles.None?
      ensures escaped == Some(IndexOutOfRange) <==> imageFiles.Some? && !Valid()
      ensures buttonEnabled <==> escaped == None
      ensures old(Valid()) ==> Valid()
      ensures editingTxt == old(editingTxt) && tokenTextColor == old(tokenTextColor)
      ensures inputFolderPath == old(inputFolderPath)
    {
      buttonEnabled := false;
      TakeSearchResult(searchResult);
      escaped := ShowSelectedImage();
      ghost var shown := Valid();
      if escaped.None? {
        buttonEnabled := true;
      }
      assert Valid() == shown;
    }

    /** The `try` block of `FilterFilesAsync`: a non-empty result resets
        the index and becomes the list, numerically sorted when every name
        parses. */
    method TakeSearchResult(searchResult: Result<seq<string>, IoError>)
      modifies this
      ensures searchResult.Ok? && |searchResult.value| > 0 ==>
        && selectedItemIndex == 0
        && imageFiles == Some(Arranged(searchResult.value))
        && Valid()
      ensures !(searchResult.Ok? && |searchResult.value| > 0) ==>
        imageFiles == old(imageFiles) && selectedItemIndex == old(selectedItemIndex)
      ensures buttonEnabled == old(buttonEnabled)
      ensures editingTxt == old(editingTxt) && tokenTextColor == old(tokenTextColor)
      ensures inputFolderPath == old(inputFolderPath)
    {
      if searchResult.Ok? && |searchResult.value| > 0 {
        SetSelectedItemIndex(0);
        imageFiles := Some(searchResult.value);
        var ordered := NumericOrder(searchResult.value);
        if ordered.Some? {
          assert |ordered.value| == |searchResult.value| by {
            assert |multiset(ordered.value)| == |multiset(searchResult.value)|;
          }
          imageFiles := Some(ordered.value);
        }
      }
    }

    /** `LoadImagesFromInputFolder`: the images of the input folder from
        `GetImageFiles` (`loaded`), sorted by number when every name parses,
        with the index reset; `listed` is the folder listing it scanned. A
        parse failure is caught after the list was assigned and before the
        index is reset; a listing failure leaves the list alone. The
        `finally` block then shows the selected image. */
    method LoadImagesFromInputFolder(fs: FileSystem, le: (string, string) -> bool)
      returns (escaped: Option<Escaped>, ghost loaded: seq<string>, ghost listed: seq<string>)
      requires TotalPreorder(le)
      modifies this
      ensures inputFolderPath !in fs.folders ==>
        imageFiles == old(imageFiles) && selectedItemIndex == old(selectedItemIndex)
      ensures inputFolderPath in fs.folders ==>
        && IsListingOf(listed, fs.folders[inputFolderPath])
        && SortedBy(loaded, le) && Distinct(loaded)
        && multiset(loaded) == multiset(ImageFiles(inputFolderPath, listed))
        && (forall x :: x in loaded <==> x in fs.folders[inputFolderPath] && Keeps(inputFolderPath, x, ImageSearchPattern))
        && imageFiles == Some(Arranged(loaded))
        && (|loaded| > 0 && NumericOrder(loaded).Some? ==> selectedItemIndex == 0)
        && (|loaded| == 0 || NumericOrder(loaded).None? ==> selectedItemIndex == old(selectedItemIndex))
      ensures escaped == Some(NullReference) <==> imageFiles.None?
      ensures escaped == Some(IndexOutOfRange) <==> imageFiles.Some? && !Valid()
      ensures escaped == None <==> imageFiles.Some? && Valid()
      ensures editingTxt == old(editingTxt) && buttonEnabled == old(buttonEnabled)
      ensures tokenTextColor == old(tokenTextColor) && inputFolderPath == old(inputFolderPath)
    {
      loaded := [];
      var files;
      files, listed := GetImageFiles(fs, inputFolderPath, le);
      if files.Ok? {
        loaded := files.value;
        imageFiles := Some(files.value);
        if |files.value| != 0 {
          var ordered := NumericOrder(files.value);
          if ordered.Some? {
            imageFiles := Some(ordered.value);
            SetSelectedItemIndex(0);
          }
        }
      }
      escaped := ShowSelectedImage();
    }

    /** The `finally` block of loading and filtering: counting a null list
        throws, and a non-empty list is indexed at the selected index to
        show that image. */
    method ShowSelectedImage() returns (escaped: Option<Escaped>)
      ensures escaped == Some(NullReference) <==> imageFiles.None?
      ensures escaped == Some(IndexOutOfRange) <==> imageFiles.Some? && !Valid()
      ensures escaped == None <==> imageFiles.Some? && Valid()
    {
      if imageFiles.None? {
        return Some(NullReference);
      }
      if |imageFiles.value| != 0 && !(0 <= selectedItemIndex < |imageFiles.value|) {
        return Some(IndexOutOfRange);
      }
      return None;
    }
  }

  /** Moving by a 32-bit offset lands on the same index only for the offset 0. */
  lemma AddInt32Unchanged(a: int, b: int)
    requires IsInt32(a) && IsInt32(b)
    ensures AddInt32(a, b) == a <==> b == 0
  {
    if AddInt32(a, b) == a {
      assert (a - (a + b)) % 0x1_0000_0000 == 0;
    }
  }

  /** The list as the view model keeps it after loading or filtering:
      numerically sorted when every name parses, as given otherwise. */
  function Arranged(files: seq<string>): (r: seq<string>)
    ensures multiset(r) == multiset(files)
    ensures forall x :: x in r <==> x in files
    ensures NumericOrder(files).Some? ==> SortedByKey(r, NameKey)
    ensures NumericOrder(files).None? ==> r == files
  {
    match NumericOrder(files)
    case Some(ordered) =>
      assert forall x :: x in ordered <==> x in multiset(ordered);
      ordered
    case None => files
  }

  // ---------------------------------------------------------------------
  // Properties of the pure parts.

  /** A list whose names are the numbers 1..n in any order comes out in
      numeric order: the numbering that renaming produces is displayed in
      that order. */
  lemma {:induction false} NumericOrderOfNumbers(files: seq<string>)
    requires forall x :: x in files ==> exists n: nat :: n <= Int32Max && Stem(x) == DecimalString(n)
    ensures NumericOrder(files).Some?
  {
    forall x | x in files ensures ParseInt32(Stem(x)).Some? {
      var n: nat :| n <= Int32Max && Stem(x) == DecimalString(n);
      ParsePrinted(n);
    }
  }

  /** A name without any digit stops the numeric ordering. */
  lemma {:induction false} NonNumericNameKeepsOrder(files: seq<string>, i: int)
    requires 0 <= i < |files|
    requires forall j :: 0 <= j < |Stem(files[i])| ==> !IsDigit(Stem(files[i])[j])
    ensures NumericOrder(files) == None
  {
    ParseNeedsDigits(Stem(files[i]));
    assert files[i] in files;
  }
}
