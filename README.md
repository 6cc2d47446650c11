# DatasetHelpers: dataset reorganisation, modelled in Dafny

This project models the dataset reorganisation core of DatasetHelpers:

- `FileManipulatorService` renumbers a folder of images in two passes. It also sorts images into two folders by size, lists images, filters them by the text of their `.txt`/`.caption` sidecar, and reads a sidecar.
- `Utilities` scans a folder by extension and splits tag strings.
- `ResizeImagesConfigs` clamps its integer settings.
- `TagEditorViewModel` is modelled only for its navigation state: the selected index, the `.txt`/`.caption` toggle, how the image list is replaced and numerically ordered, and the token-count colour.

The disk is a `FileSystem` object whose `folders` field maps a folder path to a `Folder`, a map from file name to content. `File.Move`, the `FileMode.CreateNew` copy and `File.ReadAllText` update or read that map. Each one raises `FileNotFound`, `FileAlreadyExists` or `DirectoryNotFound` where .NET would.

Each service operation is a method. The loops are proved against a function that states the whole effect of the loop:

- `TempPhase` and `CrescentPhase` for the two renaming loops;
- `SortPhase` for the sorting loop;
- `FilterMatches` for the filter.

An exception stops a loop, and the work done before it stays on disk. The lemmas then state what those functions achieve. For example, on a folder where the renames cannot clash, both renaming loops complete, and the images end up numbered 1..N with their sidecars. This holds whatever order the two directory scans return.

`Directory.GetFiles` returns the files in an order the operating system chooses. It is modelled by `FileSystem.GetFiles`, which promises only that every file is listed exactly once. Methods that scan return what they saw as a ghost value, so their contracts can name it. `Image.Load` is a parameter `decode` that gives the width and height, or nothing. `Random.Next` is the parameter `next` of `GoToRandomItem`. A comparer is a parameter `le` that is assumed to be a total preorder.

Where the code and its doc comments disagree, the model follows the code:

- `SortImageAsync` discards an image only when **both** sides are strictly below the dimension (`FileManipulatorService.cs:229`). The doc comments say "width or height less than or equal".
- It **copies** the image and never moves it.
- A missing sidecar makes `GetTextFromFile` throw; it is not read as empty text.
- The scan is not sorted, so the renumbering follows the order of the second scan.
- After `LoadImagesFromInputFolder` fails to parse a name, or loads an empty list, `SelectedItemIndex` keeps its old value, and that value may be outside the new list. `TagEditorViewModel.LoadImagesFromInputFolder` states exactly this and does not promise `Valid()`. On a non-empty list such an index makes the `finally` block throw when `SelectBitmapInterpolation` indexes the list (`TagEditorViewModel.cs:334-336`, `:417`), and the model reports that escape as `IndexOutOfRange`. `FilterFilesAsync` reaches the same escape when an empty search result leaves a stale index; the buttons then stay disabled.

## Model

| member | source | states |
|---|---|---|
| Utilities.GetFilesByMultipleExtensions | SmartData.Lib/Helpers/Utilities.cs:16-22 | a listed file is returned iff its lower-cased extension occurs in the pattern and its path does not contain `sample_prompt_custom.txt`; the result is no longer than the listing |
| Utilities.ScanKeepsOrder | SmartData.Lib/Helpers/Utilities.cs:18-21 | the scan result is a subsequence of the listing, so the listing order is kept, and it has no duplicate when the listing has none |
| Utilities.NoExtensionAlwaysMatches | SmartData.Lib/Helpers/Utilities.cs:19 | a file without a '.' passes the extension test of any pattern, because its extension is empty |
| FileManipulatorService.UpperCaseExtensionIsImage | SmartData.Lib/Helpers/Utilities.cs:19 | `a.PNG` passes the image test, since the extension is lower-cased first |
| FileManipulatorService.ExtensionFragmentIsImage | SmartData.Lib/Helpers/Utilities.cs:19 | the truncated extension `.jp` passes the image test, since the test is a substring test |
| FileManipulatorService.SidecarIsNoImage | SmartData.Lib/Services/FileManipulatorService.cs:9 | no extension whose letter after the dot is outside j, p, g, w occurs in the image pattern |
| FileManipulatorService.SidecarsAreNoImages | SmartData.Lib/Services/FileManipulatorService.cs:9 | a `.txt` or `.caption` file never passes the image scan |
| Utilities.ParseAndCleanTags | SmartData.Lib/Helpers/Utilities.cs:30-33 | the result has at least one piece and no piece contains ',' |
| Utilities.ParseAndCleanTagsJoin | SmartData.Lib/Helpers/Utilities.cs:32 | joining the pieces with ',' gives the input after the `", "`→`","` and `"  "`→`" "` replacements |
| Utilities.ParseAndCleanTagsOfCleanTags | SmartData.Lib/Helpers/Utilities.cs:32 | comma-free tags without ", " or "  " come back exactly as they were joined |
| Text.Split | SmartData.Lib/Helpers/Utilities.cs:32 | `String.Split(',')` returns at least one piece and no piece contains the separator |
| Text.JoinSplit | SmartData.Lib/Helpers/Utilities.cs:32 | joining the pieces of a split with the separator gives back the string |
| Text.SplitJoin | SmartData.Lib/Helpers/Utilities.cs:32 | splitting the join of separator-free pieces gives back the pieces |
| Text.ToLower | SmartData.Lib/Helpers/Utilities.cs:19 | lower-casing keeps the length and maps each character on its own; only A-Z change (the culture-specific mappings are under "Left out") |
| Text.ReplaceAbsent | SmartData.Lib/Helpers/Utilities.cs:32 | `Replace` of a pattern that does not occur changes nothing |
| Text.ContainsEmpty | SmartData.Lib/Services/FileManipulatorService.cs:177 | every string contains the empty string |
| PathNames.StemExtOf | SmartData.Lib/Services/FileManipulatorService.cs:259-260 | a stem followed by a proper extension splits back into that stem and that extension |
| PathNames.LastDotIsLast | SmartData.Lib/Services/FileManipulatorService.cs:260 | the extension starts at the last '.' of the name |
| PathNames.ChangeExtensionParts | SmartData.Lib/Services/FileManipulatorService.cs:196 | `Path.ChangeExtension` keeps the stem and sets the extension |
| Numbers.Clamp | SmartData.Lib/Models/Configurations/ResizeImagesConfigs.cs:25 | `Math.Clamp` lands in [lo, hi] and is the point of [lo, hi] nearest the value |
| Numbers.ClampKeepsInRange | SmartData.Lib/Models/Configurations/ResizeImagesConfigs.cs:25 | clamping leaves a value unchanged iff it is in range, and clamping twice equals clamping once |
| Numbers.AddInt32 | DatasetProcessor/ViewModels/TagEditorViewModel.cs:147 | unchecked `+=` on `int` stays a 32-bit integer, is congruent to the sum modulo 2^32, and equals the sum when the sum fits |
| Numbers.DecimalStringValue | SmartData.Lib/Services/FileManipulatorService.cs:298 | the decimal digits written for `i + 1` denote `i + 1` |
| Numbers.DecimalStringInjective | SmartData.Lib/Services/FileManipulatorService.cs:298 | two different numbers are written differently, so new names never collide |
| Numbers.ParsePrinted | DatasetProcessor/ViewModels/TagEditorViewModel.cs:227 | `int.Parse` of the decimal form of a 32-bit number gives that number |
| Numbers.ParseNeedsDigits | DatasetProcessor/ViewModels/TagEditorViewModel.cs:227 | `int.Parse` of a name without digits throws |
| FileSystem.MoveIn | SmartData.Lib/Services/FileManipulatorService.cs:263 | `File.Move` succeeds iff the source exists and the destination does not; an exception changes nothing |
| FileSystem.MoveIfPresent | SmartData.Lib/Services/FileManipulatorService.cs:265-271 | a sidecar is moved only when the lookup finds it, and an absent one is no exception |
| FileSystem.FileSystem.Move | SmartData.Lib/Services/FileManipulatorService.cs:263 | the disk is the old disk with that one folder replaced by the result of `MoveIn` |
| FileSystem.FileSystem.MoveIfExists | SmartData.Lib/Services/FileManipulatorService.cs:265-271 | the disk is the old disk with that one folder replaced by the result of `MoveIfPresent` |
| FileSystem.FileSystem.GetFiles | SmartData.Lib/Helpers/Utilities.cs:18 | a missing folder throws; otherwise every file of the folder is listed exactly once, in some order |
| FileSystem.CopyNew | SmartData.Lib/Services/FileManipulatorService.cs:232-236 | the copy succeeds iff the source exists and the name is free in the destination (`FileMode.CreateNew`); it adds that one file with the source's content, and an exception changes nothing |
| FileSystem.FileSystem.CopyToNew | SmartData.Lib/Services/FileManipulatorService.cs:232-245 | the disk and the exception are those of `CopyNew` |
| FileSystem.FileSystem.ReadAllText | SmartData.Lib/Services/FileManipulatorService.cs:198 | the content of an existing file, and `FileNotFound` or `DirectoryNotFound` otherwise |
| FileSystem.UpdatesNext | SmartData.Lib/Services/FileManipulatorService.cs:64 | one more `UpdateProgress` call extends the log of `n` updates to `n + 1` |
| FileManipulatorService.RenameFileToTemporaryName | SmartData.Lib/Services/FileManipulatorService.cs:257-279 | only the input folder changes: the image moves to `stem_temp.ext` (required), then `stem.txt` and `stem.caption` move to `stem_temp.txt` and `stem_temp.caption` when present, stopping at the first exception |
| FileManipulatorService.RenameFileToCrescentName | SmartData.Lib/Services/FileManipulatorService.cs:290-312 | only the input folder changes: `stem.txt` and `stem.caption` move to `(i+1).txt` and `(i+1).caption` when present, then the image moves to `(i+1).ext`, stopping at the first exception |
| FileManipulatorService.RenameToTemporaryAt | SmartData.Lib/Services/FileManipulatorService.cs:27-30 | one turn of the first loop: once `i` turns have completed, the disk holds the result of `i + 1` turns; on an exception it holds the result of the whole loop, which stopped after `i` turns |
| FileManipulatorService.RenameToNumberAt | SmartData.Lib/Services/FileManipulatorService.cs:34-37 | one turn of the second loop, in the same terms |
| FileManipulatorService.RenameAllToTemporary | SmartData.Lib/Services/FileManipulatorService.cs:27-30 | only the input folder changes, to the folder `TempPhase` gives for the whole scan; the exception is the first one raised |
| FileManipulatorService.RenameAllToTemporaryWithProgress | SmartData.Lib/Services/FileManipulatorService.cs:60-65 | as `RenameAllToTemporary`, plus one `UpdateProgress` per completed image |
| FileManipulatorService.RenameAllToNumbers | SmartData.Lib/Services/FileManipulatorService.cs:34-37 | only the input folder changes, to the folder `CrescentPhase` gives for the re-scan; the exception is the first one raised |
| FileManipulatorService.RenameAllToNumbersWithProgress | SmartData.Lib/Services/FileManipulatorService.cs:71-76 | as `RenameAllToNumbers`, plus one `UpdateProgress` per completed image |
| FileManipulatorService.RenameAllToCrescent | SmartData.Lib/Services/FileManipulatorService.cs:21-39 | a missing folder throws and changes nothing; an empty scan moves nothing; otherwise the first loop runs over the scan; if it completes, the second loop runs over a re-scan of the renamed folder |
| FileManipulatorService.RenameAllToCrescentWithProgress | SmartData.Lib/Services/FileManipulatorService.cs:52-78 | the same renaming; the progress calls are `TotalFiles = N`, one update per image of the first loop, `Reset`, then one update per image of the second loop; an empty scan makes no call |
| GroupMoves.MoveStep | SmartData.Lib/Services/FileManipulatorService.cs:263-278 | one move to an absent target throws only when a required source is missing; a present source goes to the target and every other name stays |
| GroupMoves.ThreeMoves | SmartData.Lib/Services/FileManipulatorService.cs:292-312 | three moves with distinct names and absent targets complete; each present source ends at its target and every other name keeps its content |
| GroupMoves.GroupStep | SmartData.Lib/Services/FileManipulatorService.cs:290-312 | one group of a clash-free plan completes; it moves each present source to its target and keeps every other name |
| GroupMoves.RunRenames | SmartData.Lib/Services/FileManipulatorService.cs:27-37 | every prefix of a clash-free plan runs without exception; done groups are at their targets, waiting groups untouched, other files kept, and no other name appears |
| CrescentRenaming.TempPhaseIsRun | SmartData.Lib/Services/FileManipulatorService.cs:27-30 | the first loop is a group rename in which the image move is required |
| CrescentRenaming.CrescentPhaseIsRun | SmartData.Lib/Services/FileManipulatorService.cs:34-37 | the second loop is a group rename in which the image move is required |
| CrescentRenaming.TempPlan | SmartData.Lib/Services/FileManipulatorService.cs:257-279 | on a renumberable folder the moves of the first loop cannot clash |
| CrescentRenaming.TempPhaseRenames | SmartData.Lib/Services/FileManipulatorService.cs:257-279 | on a renumberable folder the first loop completes: each image `b.ext` becomes `b_temp.ext` with its content; `b_temp.txt` and `b_temp.caption` exist exactly when `b.txt` and `b.caption` did, with their content; every other file is unchanged and no other name appears |
| CrescentRenaming.RescanFindsTempNames | SmartData.Lib/Services/FileManipulatorService.cs:32 | after the first loop the re-scan finds exactly the temporary names of the images, once each, as many as there were images |
| CrescentRenaming.NumberPlan | SmartData.Lib/Services/FileManipulatorService.cs:34-37 | after the first loop, the moves of the second loop cannot clash |
| CrescentRenaming.NumberedOf | SmartData.Lib/Services/FileManipulatorService.cs:290-312 | after the second loop, the image at index `i` of the re-scan is `(i+1).ext` with the content of its original image; its sidecars are `(i+1).txt` and `(i+1).caption` exactly when they existed, with their content; every image got a number, and every other file is kept |
| CrescentRenaming.CrescentRenumbers | SmartData.Lib/Services/FileManipulatorService.cs:21-39 | on a renumberable folder both loops complete whatever order the scans list files in, the re-scan has as many images as the scan, and the folder ends up `Numbered`: images 1..N, each sidecar with its image's number, nothing else changed |
| FileManipulatorService.SortImage | SmartData.Lib/Services/FileManipulatorService.cs:224-248 | the copy succeeds iff the file exists, decodes, and its name is free in the folder its size chooses (discarded iff width < d and height < d); it adds exactly that file, under its own name and with its content, to that folder; an exception changes nothing |
| FileManipulatorService.SortImageAsync | SmartData.Lib/Services/FileManipulatorService.cs:224-248 | the disk and the exception are those of `SortImage` |
| FileManipulatorService.SortBoundary | SmartData.Lib/Services/FileManipulatorService.cs:229 | a d×d image and a (d-1)×(d+1) image are selected; a (d-1)×(d-1) image is discarded |
| FileManipulatorService.SortImageAt | SmartData.Lib/Services/FileManipulatorService.cs:92-95 | one turn of the sort loop: once `i` images are sorted, the disk holds the result for `i + 1`; on an exception it holds the result of the whole loop, which stopped after `i` |
| FileManipulatorService.SortImages | SmartData.Lib/Services/FileManipulatorService.cs:89-96 | a missing folder throws and changes nothing; otherwise the disk and the exception are those of `SortPhase` over the scan, in scan order |
| FileManipulatorService.SortEachWithProgress | SmartData.Lib/Services/FileManipulatorService.cs:114-118 | the sort loop, plus one `UpdateProgress` per completed image |
| FileManipulatorService.SortImagesWithProgress | SmartData.Lib/Services/FileManipulatorService.cs:108-119 | as `SortImages`, after `TotalFiles = N`, with one `UpdateProgress` per completed image |
| FileManipulatorService.SortPhaseSorts | SmartData.Lib/Services/FileManipulatorService.cs:92-95 | when the sort can succeed (three different existing folders, distinct decodable images, names free in the outputs), every prefix of the loop completes and has copied each image it reached into exactly the folder its size chooses |
| FileManipulatorService.SortImagesPartitions | SmartData.Lib/Services/FileManipulatorService.cs:89-96 | after the whole loop, each scanned image is in exactly one output folder, the one its size chooses, with its content; the input folder and every other folder are unchanged |
| FileManipulatorService.TextFor | SmartData.Lib/Services/FileManipulatorService.cs:194-201 | the text is found iff the file with the image's extension changed exists, and otherwise the exception names that file |
| FileManipulatorService.GetTextFromFile | SmartData.Lib/Services/FileManipulatorService.cs:194-201 | a missing folder throws; otherwise the result is `TextFor` |
| FileManipulatorService.FilterTerms | SmartData.Lib/Services/FileManipulatorService.cs:170 | the filter has at least one term and no term contains ',' |
| FileManipulatorService.FilterMatches | SmartData.Lib/Services/FileManipulatorService.cs:172-183 | the filter succeeds iff every image has its text file; an image is kept iff its text contains one of the terms; a failure names the first image whose text file is missing |
| FileManipulatorService.FilterKeepsOrder | SmartData.Lib/Services/FileManipulatorService.cs:172-183 | the kept images are a subsequence of the scan |
| FileManipulatorService.EmptyFilterKeepsAll | SmartData.Lib/Services/FileManipulatorService.cs:170-183 | an empty filter string keeps every image |
| FileManipulatorService.FilterMatchesStops | SmartData.Lib/Services/FileManipulatorService.cs:174 | once a text file is missing, the whole filter fails with that file |
| FileManipulatorService.FilterImages | SmartData.Lib/Services/FileManipulatorService.cs:169-183 | the loop with its `break` returns what `FilterMatches` states |
| FileManipulatorService.GetImageFiles | SmartData.Lib/Services/FileManipulatorService.cs:153-157 | a missing folder throws; otherwise the result is sorted by the comparer, is a permutation of the scan, holds exactly the files that pass the scan, and has no repeats |
| FileManipulatorService.GetFilteredImageFiles | SmartData.Lib/Services/FileManipulatorService.cs:160-187 | an extension other than `.txt`/`.caption` throws before any listing; otherwise a missing folder or text file throws, and a success is the filter result sorted by the comparer, with no image twice (the `break` after the first matching term) |
| Ordering.Sort | SmartData.Lib/Services/FileManipulatorService.cs:156 | `List.Sort` returns a sorted permutation of its input |
| Ordering.OrderBy | DatasetProcessor/ViewModels/TagEditorViewModel.cs:227 | `OrderBy` returns a permutation of its input |
| Ordering.OrderBySorted | DatasetProcessor/ViewModels/TagEditorViewModel.cs:227 | `OrderBy` returns its input sorted by the key |
| Ordering.OrderByStable | DatasetProcessor/ViewModels/TagEditorViewModel.cs:227 | `OrderBy` keeps the input order among equal keys |
| ResizeImagesConfigs.ClampReal | SmartData.Lib/Models/Configurations/ResizeImagesConfigs.cs:39 | the sigma clamp lands in range, keeps an in-range value, and maps an out-of-range value to the nearer bound |
| ResizeImagesConfigs.ResizeImagesConfigs.constructor | SmartData.Lib/Models/Configurations/ResizeImagesConfigs.cs:10-18 | the defaults: empty folders, 1024×1024, radius 3, sharpening on, sigma 0.7, threshold 256 |
| ResizeImagesConfigs.ResizeImagesConfigs.SetLanczosRadius | SmartData.Lib/Models/Configurations/ResizeImagesConfigs.cs:20-27 | the radius becomes the value clamped to [1, 25]; it equals the value iff the value is in range; the invariant is kept and no other field changes |
| ResizeImagesConfigs.ResizeImagesConfigs.SetMinimumResolutionForSharpen | SmartData.Lib/Models/Configurations/ResizeImagesConfigs.cs:44-52 | the threshold becomes the value clamped to [256, 65535]; it equals the value iff the value is in range; the invariant is kept and no other field changes |
| ResizeImagesConfigs.ResizeImagesConfigs.SetSharpenSigma | SmartData.Lib/Models/Configurations/ResizeImagesConfigs.cs:34-41 | the sigma becomes the value clamped to [0.5, 5.0], and no other field changes |
| ResizeImagesConfigs.ResizeImagesConfigs.ReassignCurrent | SmartData.Lib/Models/Configurations/ResizeImagesConfigs.cs:20-52 | assigning each clamped setting its current value changes no field, and the ranges stay valid |
| TagEditorViewModel.TokenColorFor | DatasetProcessor/ViewModels/TagEditorViewModel.cs:304-311 | the count is green iff it is below 75, and red iff it is 75 or more |
| TagEditorViewModel.TagEditorViewModel.CountTokensForCurrentImage | DatasetProcessor/ViewModels/TagEditorViewModel.cs:302-311 | the colour becomes `TokenColorFor(count)` and nothing else changes |
| TagEditorViewModel.NumericOrder | DatasetProcessor/ViewModels/TagEditorViewModel.cs:227 | ordering by the parsed base name succeeds iff every base name parses; the result is a permutation sorted by that number, and stable among equal numbers |
| TagEditorViewModel.Arranged | DatasetProcessor/ViewModels/TagEditorViewModel.cs:321-325 | the list the view model keeps: a permutation of the loaded list, numerically sorted when every name parses and unchanged otherwise |
| TagEditorViewModel.NumericOrderOfNumbers | DatasetProcessor/ViewModels/TagEditorViewModel.cs:324 | a list named by numbers, as the renaming leaves it, always orders numerically |
| TagEditorViewModel.NonNumericNameKeepsOrder | DatasetProcessor/ViewModels/TagEditorViewModel.cs:324 | one base name without digits makes the numeric ordering fail |
| TagEditorViewModel.AddInt32Unchanged | DatasetProcessor/ViewModels/TagEditorViewModel.cs:143-147 | a 32-bit move keeps the index iff the offset is 0 |
| TagEditorViewModel.TagEditorViewModel.Normalized | DatasetProcessor/ViewModels/TagEditorViewModel.cs:360-371 | the handler's index is in [0, Count) for a non-empty list, 0 for a null or empty one, and an in-range value is kept |
| TagEditorViewModel.TagEditorViewModel.constructor | DatasetProcessor/ViewModels/TagEditorViewModel.cs:102-111 | the initial state: no list, index 0, editing `.txt`, buttons enabled, green counter |
| TagEditorViewModel.TagEditorViewModel.CurrentType | DatasetProcessor/ViewModels/TagEditorViewModel.cs:69-82 | `.txt` iff editing `.txt`, `.caption` otherwise |
| TagEditorViewModel.TagEditorViewModel.SetSelectedItemIndex | DatasetProcessor/ViewModels/TagEditorViewModel.cs:38 | the generated setter ignores the current value and otherwise ends with the normalized value; no other field changes |
| TagEditorViewModel.TagEditorViewModel.OnSelectedItemIndexChanged | DatasetProcessor/ViewModels/TagEditorViewModel.cs:360-371 | the index ends clamped to the list, or 0 for a null or empty list |
| TagEditorViewModel.TagEditorViewModel.GoToItem | DatasetProcessor/ViewModels/TagEditorViewModel.cs:139-154 | on a non-empty list an offset of 0 (or one that does not parse) keeps the index, even a stale one, since the setter sees an equal value; any other offset gives clamp(old + offset) under 32-bit addition; an empty list keeps the index; the invariant is kept |
| TagEditorViewModel.TagEditorViewModel.GoToRandomItem | DatasetProcessor/ViewModels/TagEditorViewModel.cs:160-166 | on a non-empty list the index becomes the drawn value in [0, Count); otherwise it is unchanged |
| TagEditorViewModel.TagEditorViewModel.SwitchEditorType | DatasetProcessor/ViewModels/TagEditorViewModel.cs:172-176 | the toggle is negated, so `CurrentType` changes, and nothing else changes |
| TagEditorViewModel.TagEditorViewModel.SwitchEditorTypeTwice | DatasetProcessor/ViewModels/TagEditorViewModel.cs:172-176 | two switches restore the toggle and `CurrentType` |
| TagEditorViewModel.TagEditorViewModel.FilterFilesAsync | DatasetProcessor/ViewModels/TagEditorViewModel.cs:217-252 | a non-empty result resets the index and becomes the list, numerically ordered when every name parses; an empty result or an exception keeps list and index; in `finally` a null list throws, and so does a stale index into a non-empty list; either escape leaves the buttons disabled |
| TagEditorViewModel.TagEditorViewModel.TakeSearchResult | DatasetProcessor/ViewModels/TagEditorViewModel.cs:222-232 | a non-empty result resets the index and becomes the list, numerically ordered when every name parses, and leaves a valid index; any other outcome keeps list and index |
| TagEditorViewModel.TagEditorViewModel.ShowSelectedImage | DatasetProcessor/ViewModels/TagEditorViewModel.cs:332-338 | the `finally` block throws on a null list, throws on a non-empty list whose index is out of range (the indexing at line 417), and otherwise completes |
| TagEditorViewModel.TagEditorViewModel.LoadImagesFromInputFolder | DatasetProcessor/ViewModels/TagEditorViewModel.cs:317-339 | the list becomes what `GetImageFiles` returned, a comparer-sorted, repeat-free permutation of the scan of the listing, numerically ordered when every name parses; the index is reset only then; a listing failure keeps the list; `finally` throws on a null list or on a stale index into a non-empty list |

## Left out

- Image decoding and byte copying (`Image.Load`, `CopyToAsync`): decoding is the parameter `decode`, and a copy transfers the whole content at once.
- `async`/`await` and `Task.Run`: every call is awaited in order, so each operation is a sequential method.
- The `Progress` class: only the calls made on it are recorded (`TotalFiles`, `UpdateProgress`, `Reset`); its percentage arithmetic is not modelled.
- The directory listing order and the culture-aware `string.Compare`: the listing is any order without repeats, and the comparer is any total preorder.
- Search-pattern lookups such as `Directory.GetFiles(inputPath, $"{fileName}.txt")`: each is an exact-name lookup. Wildcards, case-insensitive file systems and 8.3 short names are not modelled.
- Full paths: a file is named by its folder and its name inside it; `sample_prompt_custom.txt` is looked for in the folder joined to the name with '/'.
- `BackupFiles` (its arguments to `Path.Combine` are reversed), `CreateFolderIfNotExist` and `SaveTextForImage`: thin I/O wrappers whose effect depends on .NET's rooted-path rules.
- The view model's I/O and UI work: bitmaps, `SelectBitmapInterpolation`, `BlurImageAsync`, tag loading and saving, the clipboard, the folder picker, model downloads, logging and the debounce in the view.
- The CLIP tokenizer: `CountTokensForCurrentImage` takes the count it returns as a parameter.
- The four-argument `GetFilteredImageFiles` overload with an exact-match flag, which the view model calls: its body is not part of this model, so `FilterFilesAsync` takes the search outcome as a parameter.
- `SupportedDimensions` values other than the two this code names: the size test takes the dimension as an integer.
- `SetSharpenSigma`: clamps a real number, not a 32-bit float, so float rounding is not modelled.
- `CrescentRenumbers`: proves the numbering only on a renumberable folder: every scanned image has an extension, base names are distinct, no base name ends in `_temp`, no stray file is named by a number 1..N, and no temporary name contains `sample_prompt_custom.txt`. Extensionless files pass the image scan and the code renumbers them too (`a` and `a.txt` become `1` and `1.txt`), but the theorem does not cover a folder that holds one. On other folders the loops may throw part-way, and the model states only the disk at that point.
- `ToLower`: modelled as ASCII lower-casing. Culture-specific mappings (the Turkish dotless i, non-ASCII capitals) are not modelled, so under a Turkish culture the model keeps `a.GIF` where the code skips it.
- The order of the final numbers follows the second scan, which the operating system chooses; the model proves no order preservation and no idempotence.
