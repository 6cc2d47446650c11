/** What the two loops of `RenameAllToCrescentAsync` achieve. The first
    loop gives every image `b.ext` of the scan, and its `b.txt` and
    `b.caption` when they exist, the name `b_temp` with the same extension;
    the second loop gives the image at index `i` of the re-scan, and its two
    sidecars when they exist, the name `i + 1` with the same extension. On a
    folder where these renames cannot clash, neither loop throws, the images
    end up numbered 1..N, each sidecar carries the number of its image, and
    every other file is left alone. The order of the numbers is the order of
    the second scan, which the operating system chooses. */
module CrescentRenaming {
  import opened Outcomes
  import opened Text
  import opened PathNames
  import opened Numbers
  import opened Utilities
  import opened FileSystem
  import opened GroupMoves
  import opened FileManipulatorService

  // ---------------------------------------------------------------------
  // Names.

  /** The stem ends with the suffix the first loop adds. */
  predicate EndsWithTemp(s: string) {
    |s| >= 5 && s[|s| - 5..] == "_temp"
  }

  /** The name the first loop gives an image. */
  function TempName(image: string): string {
    Stem(image) + "_temp" + Ext(image)
  }

  /** The image a temporary name was made from. */
  function TempOrigin(name: string): string {
    var t := Stem(name);
    (if |t| >= 5 then t[..|t| - 5] else t) + Ext(name)
  }

  /** `x` is one of the two text files that travel with `image`. */
  predicate IsSidecarOf(x: string, image: string) {
    x == Stem(image) + ".txt" || x == Stem(image) + ".caption"
  }

  /** `x` is an image of the scan or a sidecar of one. */
  predicate InGroup(x: string, images: seq<string>) {
    x in images || exists a :: a in images && IsSidecarOf(x, a)
  }

  /** `x` is one of the names the first loop can give the group of `a`. */
  predicate IsTempOf(x: string, a: string) {
    x == TempName(a) || x == Stem(a) + "_temp" + ".txt" || x == Stem(a) + "_temp" + ".caption"
  }

  /** `s` is the decimal form of one of 1..n. */
  predicate IsNumberUpTo(s: string, n: nat) {
    exists k: nat :: 1 <= k <= n && s == DecimalString(k)
  }

  /** `x` is one of the names the second loop gives the group at index `i`
      of `images`. */
  predicate IsNumberedAt(x: string, images: seq<string>, i: nat)
    requires i < |images|
  {
    var number := DecimalString(i + 1);
    x == number + ".txt" || x == number + ".caption" || x == number + Ext(images[i])
  }

  /** The conditions under which the renumbering of the image scan `images`
      of `f` cannot clash: every image has an extension, no two images share
      a base name, no file of the folder has a base name ending in "_temp",
      no file outside the image groups has a base name among 1..N, and no
      temporary image name holds the name the scan excludes. */
  ghost predicate Renumberable(f: Folder, inputPath: string, images: seq<string>) {
    && HaveExts(images)
    && DistinctStems(images)
    && NoTempStems(f)
    && NoStrayNumbers(f, images)
    && (forall a :: a in images ==> !Contains(Combine(inputPath, TempName(a)), ExcludedName))
  }

  predicate HaveExts(images: seq<string>) {
    forall a :: a in images ==> Ext(a) != ""
  }

  predicate DistinctStems(images: seq<string>) {
    forall i, j :: 0 <= i < j < |images| ==> Stem(images[i]) != Stem(images[j])
  }

  ghost predicate NoTempStems(f: Folder) {
    forall x :: x in f ==> !EndsWithTemp(Stem(x))
  }

  ghost predicate NoStrayNumbers(f: Folder, images: seq<string>) {
    forall x :: x in f && !InGroup(x, images) ==> !IsNumberUpTo(Stem(x), |images|)
  }

  // ---------------------------------------------------------------------
  // Facts about names.

  /** A name with an extension is its stem followed by that extension, and
      the extension is proper. */
  lemma {:induction false} SplitsWithExt(x: string)
    requires Ext(x) != ""
    ensures x == Stem(x) + Ext(x) && ProperExt(Ext(x))
  {
    ExtShape(x);
    var i := LastDot(x);
    assert x[..i] + x[i..] == x;
  }

  /** A temporary name splits into the image's stem plus "_temp" and the
      image's extension, and leads back to the image. */
  lemma {:induction false} TempNameParts(a: string)
    requires Ext(a) != ""
    ensures Stem(TempName(a)) == Stem(a) + "_temp" && Ext(TempName(a)) == Ext(a)
    ensures TempOrigin(TempName(a)) == a
    ensures EndsWithTemp(Stem(TempName(a)))
  {
    SplitsWithExt(a);
    StemExtOf(Stem(a) + "_temp", Ext(a));
    var t := Stem(a) + "_temp";
    assert t[..|t| - 5] == Stem(a);
    assert t[|t| - 5..] == "_temp";
  }

  /** A stem ending in "_temp" is never a number. */
  lemma {:induction false} TempStemIsNoNumber(s: string, k: nat)
    requires EndsWithTemp(s)
    ensures s != DecimalString(k)
  {
    var d := DecimalString(k);
    assert IsDigit(d[|d| - 1]);
    assert s[|s| - 1] == "_temp"[4] == 'p';
  }

  lemma {:induction false} AppendTempEndsWithTemp(s: string)
    ensures EndsWithTemp(s + "_temp")
  {
    assert (s + "_temp")[|s|..] == "_temp";
  }

  /** Appending the same suffix to two different stems keeps them apart. */
  lemma {:induction false} AppendTempInjective(s: string, t: string)
    requires s + "_temp" == t + "_temp"
    ensures s == t
  {
    assert s == (s + "_temp")[..|s|];
    assert t == (t + "_temp")[..|t|];
  }

  /** An image's extension is not a sidecar extension: the scan keeps the
      image and would not keep a `.txt` or `.caption` file. */
  lemma {:induction false} ImageExtIsNoSidecarExt(inputPath: string, a: string)
    requires Keeps(inputPath, a, ImageSearchPattern) && Ext(a) != ""
    ensures Ext(a) != ".txt" && Ext(a) != ".caption"
  {
    SplitsWithExt(a);
    SidecarsAreNoImages(inputPath, Stem(a));
  }

  /** No image of the scan has a sidecar extension. */
  predicate NoSidecarExts(images: seq<string>) {
    forall a :: a in images ==> Ext(a) != ".txt" && Ext(a) != ".caption"
  }

  /** The images the scan keeps have no sidecar extension. */
  lemma {:induction false} ScannedHaveNoSidecarExts(inputPath: string, images: seq<string>)
    requires HaveExts(images)
    requires forall a :: a in images ==> Keeps(inputPath, a, ImageSearchPattern)
    ensures NoSidecarExts(images)
  {
    forall a | a in images ensures Ext(a) != ".txt" && Ext(a) != ".caption" {
      ImageExtIsNoSidecarExt(inputPath, a);
    }
  }

  /** A sequence without repetition has as many elements as its set. */
  lemma {:induction false} DistinctCard<T>(s: seq<T>)
    requires Distinct(s)
    ensures |set x | x in s| == |s|
    decreases |s|
  {
    if s != [] {
      var init := s[..|s| - 1];
      DistinctCard(init);
      assert s[|s| - 1] !in init;
      assert (set x | x in s) == (set x | x in init) + {s[|s| - 1]} by {
        assert s == init + [s[|s| - 1]];
      }
    }
  }

  /** Two sequences without repetition and with the same elements are
      equally long. */
  lemma {:induction false} SameElementsSameLength<T>(s: seq<T>, t: seq<T>)
    requires Distinct(s) && Distinct(t)
    requires forall x :: x in s <==> x in t
    ensures |s| == |t|
  {
    DistinctCard(s);
    DistinctCard(t);
    assert (set x | x in s) == (set x | x in t);
  }

  // ---------------------------------------------------------------------
  // Both loops as group renames.

  /** The names the first loop moves: the image, its `.txt`, its `.caption`. */
  function TempSrc(images: seq<string>): (nat, nat) -> string {
    (i: nat, s: nat) =>
      if i >= |images| then ""
      else if s == 0 then images[i]
      else if s == 1 then Stem(images[i]) + ".txt"
      else Stem(images[i]) + ".caption"
  }

  /** Where the first loop moves them. */
  function TempDst(images: seq<string>): (nat, nat) -> string {
    (i: nat, s: nat) =>
      if i >= |images| then ""
      else if s == 0 then Stem(images[i]) + "_temp" + Ext(images[i])
      else if s == 1 then Stem(images[i]) + "_temp" + ".txt"
      else Stem(images[i]) + "_temp" + ".caption"
  }

  /** The names the second loop moves: the `.txt`, the `.caption`, then the
      image. */
  function NumberSrc(images: seq<string>): (nat, nat) -> string {
    (i: nat, s: nat) =>
      if i >= |images| then ""
      else if s == 0 then Stem(images[i]) + ".txt"
      else if s == 1 then Stem(images[i]) + ".caption"
      else images[i]
  }

  /** Where the second loop moves them. */
  function NumberDst(images: seq<string>): (nat, nat) -> string {
    (i: nat, s: nat) =>
      if i >= |images| then ""
      else if s == 0 then DecimalString(i + 1) + ".txt"
      else if s == 1 then DecimalString(i + 1) + ".caption"
      else DecimalString(i + 1) + Ext(images[i])
  }

  /** The first loop is the group rename of the scan, with the image as the
      required move. */
  lemma TempPhaseIsRun(f: Folder, images: seq<string>, k: nat)
    requires k <= |images|
    ensures TempPhase(f, images, k) == Run(f, TempSrc(images), TempDst(images), 0, k)
  {
    forall i: nat | i < k
      ensures TempSteps(images)(i) == Groups(TempSrc(images), TempDst(images), 0)(i)
    {
      TempMovesAreGroup(images, i);
    }
    StepsAgree(f, TempSteps(images), Groups(TempSrc(images), TempDst(images), 0), k);
  }

  lemma TempMovesAreGroup(images: seq<string>, i: nat)
    requires i < |images|
    ensures TempMoves(images[i]) == Group(TempSrc(images), TempDst(images), 0, i)
  {
  }

  lemma CrescentMovesAreGroup(images: seq<string>, i: nat)
    requires i < |images|
    ensures CrescentMoves(images[i], i) == Group(NumberSrc(images), NumberDst(images), 2, i)
  {
  }

  /** The second loop is the group rename of the re-scan, with the image as
      the required move. */
  lemma CrescentPhaseIsRun(f: Folder, images: seq<string>, k: nat)
    requires k <= |images|
    ensures CrescentPhase(f, images, k) == Run(f, NumberSrc(images), NumberDst(images), 2, k)
  {
    forall i: nat | i < k
      ensures CrescentSteps(images)(i) == Groups(NumberSrc(images), NumberDst(images), 2)(i)
    {
      CrescentMovesAreGroup(images, i);
    }
    StepsAgree(f, CrescentSteps(images), Groups(NumberSrc(images), NumberDst(images), 2), k);
  }

  /** A rename plan whose names are stems followed by proper extensions is
      free of clashes when the three extensions of a group differ, the
      source stems differ from each other, the target stems differ from
      each other and from every source stem, and no target exists yet. */
  lemma {:induction false} PlanFromStems(f: Folder, src: (nat, nat) -> string, dst: (nat, nat) -> string, req: nat, n: nat,
                                         sstem: nat -> string, dstem: nat -> string, ext: (nat, nat) -> string)
    requires req < 3
    requires forall i: nat, s: nat | i < n && s < 3 ::
      ProperExt(ext(i, s)) && src(i, s) == sstem(i) + ext(i, s) && dst(i, s) == dstem(i) + ext(i, s)
    requires forall i: nat, s: nat, t: nat | i < n && s < t < 3 :: ext(i, s) != ext(i, t)
    requires forall i: nat, j: nat | i < j < n :: sstem(i) != sstem(j) && dstem(i) != dstem(j)
    requires forall i: nat, j: nat | i < n && j < n :: sstem(i) != dstem(j)
    requires forall i: nat, s: nat | i < n && s < 3 :: dst(i, s) !in f
    requires forall i: nat | i < n :: src(i, req) in f
    ensures Plan(f, src, dst, req, n)
  {
    forall i: nat, s: nat, j: nat, t: nat | i < n && s < 3 && j < n && t < 3 && (i != j || s != t)
      ensures src(i, s) != src(j, t) && dst(i, s) != dst(j, t)
    {
      StemExtOf(sstem(i), ext(i, s));
      StemExtOf(sstem(j), ext(j, t));
      StemExtOf(dstem(i), ext(i, s));
      StemExtOf(dstem(j), ext(j, t));
      if i == j {
        if s < t { assert ext(i, s) != ext(i, t); } else { assert ext(i, t) != ext(i, s); }
      } else if i < j {
        assert sstem(i) != sstem(j) && dstem(i) != dstem(j);
      } else {
        assert sstem(j) != sstem(i) && dstem(j) != dstem(i);
      }
    }
    forall i: nat, s: nat, j: nat, t: nat | i < n && s < 3 && j < n && t < 3
      ensures src(i, s) != dst(j, t)
    {
      StemExtOf(sstem(i), ext(i, s));
      StemExtOf(dstem(j), ext(j, t));
    }
  }

  /** `x` is one of the names the plan moves. */
  lemma {:induction false} SourcesFromMembers(src: (nat, nat) -> string, k: nat, n: nat, x: string)
    requires x in SourcesFrom(src, k, n)
    ensures exists i: nat, s: nat | k <= i < n && s < 3 :: x == src(i, s)
    decreases n - k
  {
    if x !in {src(k, 0), src(k, 1), src(k, 2)} {
      SourcesFromMembers(src, k + 1, n, x);
    } else if x == src(k, 0) {
      assert k <= k < n && x == src(k, 0);
    } else if x == src(k, 1) {
      assert k <= k < n && x == src(k, 1);
    } else {
      assert k <= k < n && x == src(k, 2);
    }
  }

  // ---------------------------------------------------------------------
  // The first loop.

  /** What the scan of a folder yields: the files it keeps, once each. */
  lemma {:induction false} ScanFacts(f: Folder, inputPath: string, listed: seq<string>)
    requires IsListingOf(listed, f)
    ensures Distinct(ImageFiles(inputPath, listed))
    ensures forall x :: x in ImageFiles(inputPath, listed) <==> x in f && Keeps(inputPath, x, ImageSearchPattern)
  {
    ScanKeepsOrder(inputPath, listed, ImageSearchPattern);
  }

  /** The images of the scan are pairwise different in their stems. */
  lemma {:induction false} StemsDiffer(images: seq<string>, a: string, b: string)
    requires DistinctStems(images)
    requires a in images && b in images && a != b
    ensures Stem(a) != Stem(b)
  {
    var i :| 0 <= i < |images| && images[i] == a;
    var j :| 0 <= j < |images| && images[j] == b;
    if i < j {
      assert Stem(images[i]) != Stem(images[j]);
    } else {
      assert Stem(images[j]) != Stem(images[i]);
    }
  }

  /** The stems and extensions of the first loop's names. */
  function TempSrcStem(images: seq<string>): nat -> string {
    (i: nat) => if i < |images| then Stem(images[i]) else ""
  }

  function TempDstStem(images: seq<string>): nat -> string {
    (i: nat) => if i < |images| then Stem(images[i]) + "_temp" else ""
  }

  function TempExts(images: seq<string>): (nat, nat) -> string {
    (i: nat, s: nat) =>
      if i >= |images| then ".txt"
      else if s == 0 then Ext(images[i])
      else if s == 1 then ".txt"
      else ".caption"
  }

  /** Each name of the first loop is its stem followed by a proper
      extension. */
  lemma {:induction false} TempGroupShape(images: seq<string>, i: nat, s: nat)
    requires i < |images| && s < 3 && Ext(images[i]) != ""
    ensures ProperExt(TempExts(images)(i, s))
    ensures TempSrc(images)(i, s) == TempSrcStem(images)(i) + TempExts(images)(i, s)
    ensures TempDst(images)(i, s) == TempDstStem(images)(i) + TempExts(images)(i, s)
  {
    SidecarExtsProper();
    SplitsWithExt(images[i]);
  }

  lemma {:induction false} TempExtsDiffer(images: seq<string>, i: nat, s: nat, t: nat)
    requires i < |images| && s < t < 3
    requires Ext(images[i]) != ".txt" && Ext(images[i]) != ".caption"
    ensures TempExts(images)(i, s) != TempExts(images)(i, t)
  {
  }

  lemma {:induction false} TempStemsDiffer(images: seq<string>, i: nat, j: nat)
    requires i < j < |images| && Stem(images[i]) != Stem(images[j])
    ensures TempSrcStem(images)(i) != TempSrcStem(images)(j)
    ensures TempDstStem(images)(i) != TempDstStem(images)(j)
  {
    if TempDstStem(images)(i) == TempDstStem(images)(j) {
      AppendTempInjective(Stem(images[i]), Stem(images[j]));
    }
  }

  lemma {:induction false} TempStemsApart(images: seq<string>, i: nat, j: nat)
    requires i < |images| && j < |images| && !EndsWithTemp(Stem(images[i]))
    ensures TempSrcStem(images)(i) != TempDstStem(images)(j)
  {
    AppendTempEndsWithTemp(Stem(images[j]));
  }

  lemma {:induction false} TempTargetAbsent(f: Folder, images: seq<string>, i: nat, s: nat)
    requires i < |images| && s < 3 && Ext(images[i]) != ""
    requires NoTempStems(f)
    ensures TempDst(images)(i, s) !in f
  {
    TempGroupShape(images, i, s);
    StemExtOf(TempDstStem(images)(i), TempExts(images)(i, s));
    AppendTempEndsWithTemp(Stem(images[i]));
  }

  /** The first loop has no clash on a renumberable folder. */
  lemma {:induction false} TempPlan(f: Folder, inputPath: string, listed: seq<string>)
    requires IsListingOf(listed, f)
    requires Renumberable(f, inputPath, ImageFiles(inputPath, listed))
    ensures var images := ImageFiles(inputPath, listed);
      Plan(f, TempSrc(images), TempDst(images), 0, |images|)
  {
    var images := ImageFiles(inputPath, listed);
    assert (forall x :: x in images ==> x in f) && NoSidecarExts(images) by {
      ScanFacts(f, inputPath, listed);
      ScannedHaveNoSidecarExts(inputPath, images);
    }
    TempPlanOf(f, images);
  }

  lemma {:induction false} TempPlanOf(f: Folder, images: seq<string>)
    requires forall x :: x in images ==> x in f
    requires HaveExts(images) && DistinctStems(images) && NoTempStems(f) && NoSidecarExts(images)
    ensures Plan(f, TempSrc(images), TempDst(images), 0, |images|)
  {
    var n := |images|;
    TempShapes(images);
    TempExtsAllDiffer(images);
    TempStemsAllDiffer(images);
    TempStemsAllApart(f, images);
    TempTargetsAbsent(f, images);
    forall i: nat | i < n ensures TempSrc(images)(i, 0) in f {
      assert images[i] in images;
    }
    PlanFromStems(f, TempSrc(images), TempDst(images), 0, n, TempSrcStem(images), TempDstStem(images), TempExts(images));
  }

  lemma {:induction false} TempShapes(images: seq<string>)
    requires HaveExts(images)
    ensures forall i: nat, s: nat | i < |images| && s < 3 ::
      && ProperExt(TempExts(images)(i, s))
      && TempSrc(images)(i, s) == TempSrcStem(images)(i) + TempExts(images)(i, s)
      && TempDst(images)(i, s) == TempDstStem(images)(i) + TempExts(images)(i, s)
  {
    forall i: nat, s: nat | i < |images| && s < 3
      ensures && ProperExt(TempExts(images)(i, s))
              && TempSrc(images)(i, s) == TempSrcStem(images)(i) + TempExts(images)(i, s)
              && TempDst(images)(i, s) == TempDstStem(images)(i) + TempExts(images)(i, s)
    {
      assert images[i] in images;
      TempGroupShape(images, i, s);
    }
  }

  lemma {:induction false} TempExtsAllDiffer(images: seq<string>)
    requires NoSidecarExts(images)
    ensures forall i: nat, s: nat, t: nat | i < |images| && s < t < 3 :: TempExts(images)(i, s) != TempExts(images)(i, t)
  {
    forall i: nat, s: nat, t: nat | i < |images| && s < t < 3 ensures TempExts(images)(i, s) != TempExts(images)(i, t) {
      assert images[i] in images;
      TempExtsDiffer(images, i, s, t);
    }
  }

  lemma {:induction false} TempStemsAllDiffer(images: seq<string>)
    requires DistinctStems(images)
    ensures forall i: nat, j: nat | i < j < |images| ::
      TempSrcStem(images)(i) != TempSrcStem(images)(j) && TempDstStem(images)(i) != TempDstStem(images)(j)
  {
    forall i: nat, j: nat | i < j < |images|
      ensures TempSrcStem(images)(i) != TempSrcStem(images)(j) && TempDstStem(images)(i) != TempDstStem(images)(j)
    {
      TempStemsDiffer(images, i, j);
    }
  }

  lemma {:induction false} TempStemsAllApart(f: Folder, images: seq<string>)
    requires forall x :: x in images ==> x in f
    requires NoTempStems(f)
    ensures forall i: nat, j: nat | i < |images| && j < |images| :: TempSrcStem(images)(i) != TempDstStem(images)(j)
  {
    forall i: nat, j: nat | i < |images| && j < |images| ensures TempSrcStem(images)(i) != TempDstStem(images)(j) {
      assert images[i] in images;
      TempStemsApart(images, i, j);
    }
  }

  lemma {:induction false} TempTargetsAbsent(f: Folder, images: seq<string>)
    requires HaveExts(images) && NoTempStems(f)
    ensures forall i: nat, s: nat | i < |images| && s < 3 :: TempDst(images)(i, s) !in f
  {
    forall i: nat, s: nat | i < |images| && s < 3 ensures TempDst(images)(i, s) !in f {
      assert images[i] in images;
      TempTargetAbsent(f, images, i, s);
    }
  }

  /** The file that the first loop put at a temporary name. */
  ghost predicate TempRenamed(r: Folder, f: Folder, images: seq<string>) {
    TempGroups(r, f, images) && OthersKept(r, f, images) && OnlyTempNames(r, f, images)
  }

  /** Each image group is at its temporary names. */
  ghost predicate TempGroups(r: Folder, f: Folder, images: seq<string>) {
    forall a :: a in images ==> TempGroup(r, f, a)
  }

  /** The image `a` of `f` is at its temporary name in `r`, and so are its
      `.txt` and `.caption` exactly when they existed. */
  ghost predicate TempGroup(r: Folder, f: Folder, a: string) {
    && a in f && a !in r && Stem(a) + ".txt" !in r && Stem(a) + ".caption" !in r
    && TempName(a) in r && r[TempName(a)] == f[a]
    && (Stem(a) + "_temp" + ".txt" in r <==> Stem(a) + ".txt" in f)
    && (Stem(a) + ".txt" in f ==> r[Stem(a) + "_temp" + ".txt"] == f[Stem(a) + ".txt"])
    && (Stem(a) + "_temp" + ".caption" in r <==> Stem(a) + ".caption" in f)
    && (Stem(a) + ".caption" in f ==> r[Stem(a) + "_temp" + ".caption"] == f[Stem(a) + ".caption"])
  }

  /** Every file outside the image groups is as it was. */
  ghost predicate OthersKept(r: Folder, f: Folder, images: seq<string>) {
    forall x :: x in f && !InGroup(x, images) ==> x in r && r[x] == f[x]
  }

  /** Every file is an untouched one or a temporary name. */
  ghost predicate OnlyTempNames(r: Folder, f: Folder, images: seq<string>) {
    forall x :: x in r ==> (x in f && !InGroup(x, images)) || exists a :: a in images && IsTempOf(x, a)
  }

  /** The group of the image at index `i` after the first loop. */
  lemma {:induction false} TempGroupMoved(r: Folder, f: Folder, images: seq<string>, i: nat)
    requires i < |images| && images[i] in f
    requires DoneGroups(r, f, TempSrc(images), TempDst(images), |images|)
    ensures var a := images[i];
      && a !in r && Stem(a) + ".txt" !in r && Stem(a) + ".caption" !in r
      && TempName(a) in r && r[TempName(a)] == f[a]
      && (Stem(a) + "_temp" + ".txt" in r <==> Stem(a) + ".txt" in f)
      && (Stem(a) + ".txt" in f ==> r[Stem(a) + "_temp" + ".txt"] == f[Stem(a) + ".txt"])
      && (Stem(a) + "_temp" + ".caption" in r <==> Stem(a) + ".caption" in f)
      && (Stem(a) + ".caption" in f ==> r[Stem(a) + "_temp" + ".caption"] == f[Stem(a) + ".caption"])
  {
    var src, dst := TempSrc(images), TempDst(images);
    var a := images[i];
    assert src(i, 0) == a && dst(i, 0) == TempName(a);
    assert src(i, 1) == Stem(a) + ".txt" && dst(i, 1) == Stem(a) + "_temp" + ".txt";
    assert src(i, 2) == Stem(a) + ".caption" && dst(i, 2) == Stem(a) + "_temp" + ".caption";
  }

  /** A file outside the image groups is not moved by the first loop. */
  lemma {:induction false} TempKeepsOthers(r: Folder, f: Folder, images: seq<string>, x: string)
    requires x in f && !InGroup(x, images)
    requires KeptNames(r, f, TempSrc(images), |images|)
    ensures x in r && r[x] == f[x]
  {
    var src := TempSrc(images);
    if x in SourcesFrom(src, 0, |images|) {
      SourcesFromMembers(src, 0, |images|, x);
      var i: nat, s: nat :| i < |images| && s < 3 && x == src(i, s);
      TempSourceInGroup(images, i, s);
      assert false;
    }
  }

  /** Every name the first loop moves belongs to an image group. */
  lemma {:induction false} TempSourceInGroup(images: seq<string>, i: nat, s: nat)
    requires i < |images| && s < 3
    ensures InGroup(TempSrc(images)(i, s), images)
  {
    assert images[i] in images;
    assert s == 0 || IsSidecarOf(TempSrc(images)(i, s), images[i]);
  }

  /** Every file after the first loop is an untouched file or a temporary
      name. */
  lemma {:induction false} TempNoOthers(r: Folder, f: Folder, images: seq<string>, x: string)
    requires x in r
    requires NoOtherNames(r, f, TempSrc(images), TempDst(images), |images|, |images|)
    ensures (x in f && !InGroup(x, images)) || exists a :: a in images && IsTempOf(x, a)
  {
    var n := |images|;
    var src, dst := TempSrc(images), TempDst(images);
    if x in TargetsBefore(dst, n) {
      InTargetsBefore(dst, n, x);
      var i: nat, s: nat :| i < n && s < 3 && x == dst(i, s);
      assert images[i] in images && IsTempOf(x, images[i]);
    } else if x in f && InGroup(x, images) {
      InSourcesOfGroup(images, x);
      assert false;
    }
  }

  /** The description of the group rename, read image by image. */
  lemma {:induction false} TempRenamedOf(r: Folder, f: Folder, images: seq<string>)
    requires forall a :: a in images ==> a in f
    requires Renamed(r, f, TempSrc(images), TempDst(images), |images|, |images|)
    ensures TempRenamed(r, f, images)
  {
    forall a | a in images
      ensures && a in f && a !in r && Stem(a) + ".txt" !in r && Stem(a) + ".caption" !in r
              && TempName(a) in r && r[TempName(a)] == f[a]
              && (Stem(a) + "_temp" + ".txt" in r <==> Stem(a) + ".txt" in f)
              && (Stem(a) + ".txt" in f ==> r[Stem(a) + "_temp" + ".txt"] == f[Stem(a) + ".txt"])
              && (Stem(a) + "_temp" + ".caption" in r <==> Stem(a) + ".caption" in f)
              && (Stem(a) + ".caption" in f ==> r[Stem(a) + "_temp" + ".caption"] == f[Stem(a) + ".caption"])
    {
      var i :| 0 <= i < |images| && images[i] == a;
      TempGroupMoved(r, f, images, i);
    }
    forall x | x in f && !InGroup(x, images) ensures x in r && r[x] == f[x] {
      TempKeepsOthers(r, f, images, x);
    }
    forall x | x in r ensures (x in f && !InGroup(x, images)) || exists a :: a in images && IsTempOf(x, a) {
      TempNoOthers(r, f, images, x);
    }
  }

  /** On a renumberable folder the first loop of `RenameAllToCrescentAsync`
      completes: every image `b.ext` is now `b_temp.ext` with its content,
      a `b.txt` or `b.caption` is now `b_temp.txt` or `b_temp.caption`
      exactly when it existed, and no other file changed. */
  lemma {:induction false} TempPhaseRenames(f: Folder, inputPath: string, listed: seq<string>)
    requires IsListingOf(listed, f)
    requires Renumberable(f, inputPath, ImageFiles(inputPath, listed))
    ensures var images := ImageFiles(inputPath, listed);
      var r := TempPhase(f, images, |images|);
      && r.error == None && r.done == |images|
      && TempRenamed(r.folder, f, images)
  {
    var images := ImageFiles(inputPath, listed);
    var n := |images|;
    TempPlan(f, inputPath, listed);
    RunRenames(f, TempSrc(images), TempDst(images), 0, n, n);
    TempPhaseIsRun(f, images, n);
    ScanFacts(f, inputPath, listed);
    TempRenamedOf(TempPhase(f, images, |images|).folder, f, images);
  }

  /** Every file of an image group is one of the names the first loop moves. */
  lemma {:induction false} InSourcesOfGroup(images: seq<string>, x: string)
    requires InGroup(x, images)
    ensures x in SourcesFrom(TempSrc(images), 0, |images|)
  {
    var src := TempSrc(images);
    if x in images {
      var i :| 0 <= i < |images| && images[i] == x;
      InSourcesFrom(src, 0, |images|, i, 0);
    } else {
      var a :| a in images && IsSidecarOf(x, a);
      var i :| 0 <= i < |images| && images[i] == a;
      if x == Stem(a) + ".txt" {
        InSourcesFrom(src, 0, |images|, i, 1);
      } else {
        InSourcesFrom(src, 0, |images|, i, 2);
      }
    }
  }

  // ---------------------------------------------------------------------
  // The re-scan.

  /** The scan keeps the temporary name of an image it kept. */
  lemma {:induction false} TempNameScanned(inputPath: string, a: string)
    requires Keeps(inputPath, a, ImageSearchPattern) && Ext(a) != ""
    requires !Contains(Combine(inputPath, TempName(a)), ExcludedName)
    ensures Keeps(inputPath, TempName(a), ImageSearchPattern)
  {
    TempNameParts(a);
  }

  /** A file the scan keeps after the first loop is a temporary image name. */
  lemma {:induction false} RescanMember(r: Folder, f: Folder, inputPath: string, images: seq<string>, x: string)
    requires forall y :: y in f && Keeps(inputPath, y, ImageSearchPattern) ==> y in images
    requires OnlyTempNames(r, f, images)
    requires x in r && Keeps(inputPath, x, ImageSearchPattern)
    ensures exists a :: a in images && x == TempName(a)
  {
    if x in f && !InGroup(x, images) {
      assert false;
    }
    var a :| a in images && IsTempOf(x, a);
    if x != TempName(a) {
      SidecarsAreNoImages(inputPath, Stem(a) + "_temp");
      assert false;
    }
  }

  /** Images with pairwise different stems have as many temporary names as
      there are images, so a scan listing each of those names once is as
      long as the first scan. */
  lemma {:induction false} TempNamesCount(images: seq<string>, again: seq<string>)
    requires forall a :: a in images ==> Ext(a) != ""
    requires forall i, j :: 0 <= i < j < |images| ==> Stem(images[i]) != Stem(images[j])
    requires Distinct(again)
    requires forall x :: x in again <==> exists a :: a in images && x == TempName(a)
    ensures |again| == |images|
  {
    var temps := seq(|images|, i requires 0 <= i < |images| => TempName(images[i]));
    forall i, j | 0 <= i < j < |temps| ensures temps[i] != temps[j] {
      assert images[i] in images && images[j] in images;
      TempNameParts(images[i]);
      TempNameParts(images[j]);
      if temps[i] == temps[j] {
        AppendTempInjective(Stem(images[i]), Stem(images[j]));
      }
    }
    forall x ensures x in temps <==> x in again {
      if x in again {
        var a :| a in images && x == TempName(a);
        var i :| 0 <= i < |images| && images[i] == a;
        assert temps[i] == x;
      }
    }
    SameElementsSameLength(temps, again);
  }

  /** After the first loop, the scan finds exactly the temporary names of
      the images, once each, and as many as there were images. */
  lemma {:induction false} RescanFindsTempNames(f: Folder, inputPath: string, listed: seq<string>, relisted: seq<string>)
    requires IsListingOf(listed, f)
    requires Renumberable(f, inputPath, ImageFiles(inputPath, listed))
    requires IsListingOf(relisted, TempPhase(f, ImageFiles(inputPath, listed), |ImageFiles(inputPath, listed)|).folder)
    ensures var images := ImageFiles(inputPath, listed);
      var again := ImageFiles(inputPath, relisted);
      && Distinct(again) && |again| == |images|
      && forall x :: x in again <==> exists a :: a in images && x == TempName(a)
  {
    var images := ImageFiles(inputPath, listed);
    var again := ImageFiles(inputPath, relisted);
    var r := TempPhase(f, images, |images|).folder;
    TempPhaseRenames(f, inputPath, listed);
    ScanFacts(f, inputPath, listed);
    ScanFacts(r, inputPath, relisted);
    forall x | x in again ensures exists a :: a in images && x == TempName(a) {
      RescanMember(r, f, inputPath, images, x);
    }
    forall a | a in images ensures TempName(a) in again {
      TempNameScanned(inputPath, a);
    }
    TempNamesCount(images, again);
  }

  // ---------------------------------------------------------------------
  // The second loop and the whole renaming.

  /** The stems and extensions of the second loop's names. */
  function NumberSrcStem(again: seq<string>): nat -> string {
    (i: nat) => if i < |again| then Stem(again[i]) else ""
  }

  function NumberDstStem(again: seq<string>): nat -> string {
    (i: nat) => DecimalString(i + 1)
  }

  function NumberExts(again: seq<string>): (nat, nat) -> string {
    (i: nat, s: nat) =>
      if i >= |again| then ".txt"
      else if s == 0 then ".txt"
      else if s == 1 then ".caption"
      else Ext(again[i])
  }

  /** The re-scan entry at index `i` is the temporary name of an image of
      the first scan. */
  predicate FromImage(again: seq<string>, images: seq<string>, i: nat)
    requires i < |again|
  {
    var a := TempOrigin(again[i]);
    a in images && again[i] == TempName(a) && Ext(a) != ""
  }

  /** Each name of the second loop is its stem followed by a proper
      extension. */
  lemma {:induction false} NumberGroupShape(again: seq<string>, a: string, i: nat, s: nat)
    requires i < |again| && s < 3 && again[i] == TempName(a) && Ext(a) != ""
    ensures ProperExt(NumberExts(again)(i, s))
    ensures NumberSrc(again)(i, s) == NumberSrcStem(again)(i) + NumberExts(again)(i, s)
    ensures NumberDst(again)(i, s) == NumberDstStem(again)(i) + NumberExts(again)(i, s)
  {
    SidecarExtsProper();
    TempNameParts(a);
    SplitsWithExt(again[i]);
  }

  lemma {:induction false} NumberExtsDiffer(again: seq<string>, a: string, i: nat, s: nat, t: nat)
    requires i < |again| && s < t < 3 && again[i] == TempName(a) && Ext(a) != ""
    requires Ext(a) != ".txt" && Ext(a) != ".caption"
    ensures NumberExts(again)(i, s) != NumberExts(again)(i, t)
  {
    TempNameParts(a);
    var e := Ext(again[i]);
    assert e != ".txt" && e != ".caption";
  }

  lemma {:induction false} NumberStemsDiffer(again: seq<string>, a: string, b: string, i: nat, j: nat)
    requires i < j < |again| && again[i] == TempName(a) && again[j] == TempName(b)
    requires Ext(a) != "" && Ext(b) != "" && Stem(a) != Stem(b)
    ensures NumberSrcStem(again)(i) != NumberSrcStem(again)(j)
    ensures NumberDstStem(again)(i) != NumberDstStem(again)(j)
  {
    TempNameParts(a);
    TempNameParts(b);
    if NumberSrcStem(again)(i) == NumberSrcStem(again)(j) {
      AppendTempInjective(Stem(a), Stem(b));
    }
    if NumberDstStem(again)(i) == NumberDstStem(again)(j) {
      DecimalStringInjective(i + 1, j + 1);
    }
  }

  lemma {:induction false} NumberStemsApart(again: seq<string>, a: string, i: nat, j: nat)
    requires i < |again| && again[i] == TempName(a) && Ext(a) != ""
    ensures NumberSrcStem(again)(i) != NumberDstStem(again)(j)
  {
    TempNameParts(a);
    AppendTempEndsWithTemp(Stem(a));
    TempStemIsNoNumber(Stem(again[i]), j + 1);
  }

  /** After the first loop, no file has one of the numbers 1..N as its
      stem. */
  lemma {:induction false} NumberNameFree(g: Folder, f: Folder, images: seq<string>, x: string, k: nat)
    requires 1 <= k <= |images| && Stem(x) == DecimalString(k)
    requires HaveExts(images) && NoStrayNumbers(f, images) && OnlyTempNames(g, f, images)
    ensures x !in g
  {
    if x in g {
      if x in f && !InGroup(x, images) {
        assert false;
      }
      var b :| b in images && IsTempOf(x, b);
      TempOfEndsWithTemp(x, b);
      TempStemIsNoNumber(Stem(x), k);
      assert false;
    }
  }

  /** Every name the first loop gives has a stem ending in "_temp". */
  lemma {:induction false} TempOfEndsWithTemp(x: string, b: string)
    requires IsTempOf(x, b) && Ext(b) != ""
    ensures EndsWithTemp(Stem(x))
  {
    var t := Stem(b) + "_temp";
    assert EndsWithTemp(t) by { AppendTempEndsWithTemp(Stem(b)); }
    if x == TempName(b) {
      TempNameParts(b);
    } else if x == t + ".txt" {
      assert Stem(t + ".txt") == t by { SidecarExtsProper(); StemExtOf(t, ".txt"); }
    } else {
      assert Stem(t + ".caption") == t by { SidecarExtsProper(); StemExtOf(t, ".caption"); }
    }
  }

  lemma {:induction false} NumberTargetAbsent(g: Folder, f: Folder, again: seq<string>, images: seq<string>, a: string, i: nat, s: nat)
    requires i < |again| && s < 3 && |again| == |images| && again[i] == TempName(a) && Ext(a) != ""
    requires HaveExts(images) && NoStrayNumbers(f, images) && OnlyTempNames(g, f, images)
    ensures NumberDst(again)(i, s) !in g
  {
    var x, e, number := NumberDst(again)(i, s), NumberExts(again)(i, s), DecimalString(i + 1);
    assert ProperExt(e) && x == NumberDstStem(again)(i) + e by { NumberGroupShape(again, a, i, s); }
    assert NumberDstStem(again)(i) == number;
    StemExtOf(number, e);
    NumberNameFree(g, f, images, x, i + 1);
  }

  /** The second loop has no clash when the re-scan lists, once each, the
      temporary names of images with pairwise different stems and the
      folder holds no other file whose stem is one of the numbers. */
  lemma {:induction false} NumberPlanOf(g: Folder, f: Folder, images: seq<string>, again: seq<string>)
    requires |again| == |images| && Distinct(again)
    requires forall i :: 0 <= i < |again| ==> FromImage(again, images, i)
    requires NoSidecarExts(images)
    requires forall i: nat | i < |again| :: NumberSrc(again)(i, 2) in g
    requires HaveExts(images) && DistinctStems(images) && NoStrayNumbers(f, images) && OnlyTempNames(g, f, images)
    ensures Plan(g, NumberSrc(again), NumberDst(again), 2, |again|)
  {
    NumberShapes(again, images);
    NumberExtsAllDiffer(again, images);
    NumberStemsAllDiffer(again, images);
    NumberStemsAllApart(again, images);
    NumberTargetsAbsent(g, f, again, images);
    NumberPlanFromStems(g, again);
  }

  /** The images the second loop moves are in the folder. */
  lemma {:induction false} NumberSourcesPresent(g: Folder, again: seq<string>)
    requires forall x :: x in again ==> x in g
    ensures forall i: nat | i < |again| :: NumberSrc(again)(i, 2) in g
  {
    forall i: nat | i < |again| ensures NumberSrc(again)(i, 2) in g {
      assert again[i] in again;
    }
  }

  lemma {:induction false} NumberShapes(again: seq<string>, images: seq<string>)
    requires forall i :: 0 <= i < |again| ==> FromImage(again, images, i)
    ensures forall i: nat, s: nat | i < |again| && s < 3 ::
      && ProperExt(NumberExts(again)(i, s))
      && NumberSrc(again)(i, s) == NumberSrcStem(again)(i) + NumberExts(again)(i, s)
      && NumberDst(again)(i, s) == NumberDstStem(again)(i) + NumberExts(again)(i, s)
  {
    forall i: nat, s: nat | i < |again| && s < 3
      ensures && ProperExt(NumberExts(again)(i, s))
              && NumberSrc(again)(i, s) == NumberSrcStem(again)(i) + NumberExts(again)(i, s)
              && NumberDst(again)(i, s) == NumberDstStem(again)(i) + NumberExts(again)(i, s)
    {
      assert FromImage(again, images, i);
      NumberGroupShape(again, TempOrigin(again[i]), i, s);
    }
  }

  lemma {:induction false} NumberExtsAllDiffer(again: seq<string>, images: seq<string>)
    requires forall i :: 0 <= i < |again| ==> FromImage(again, images, i)
    requires NoSidecarExts(images)
    ensures forall i: nat, s: nat, t: nat | i < |again| && s < t < 3 :: NumberExts(again)(i, s) != NumberExts(again)(i, t)
  {
    forall i: nat, s: nat, t: nat | i < |again| && s < t < 3 ensures NumberExts(again)(i, s) != NumberExts(again)(i, t) {
      assert FromImage(again, images, i);
      NumberExtsDiffer(again, TempOrigin(again[i]), i, s, t);
    }
  }

  lemma {:induction false} NumberStemsAllDiffer(again: seq<string>, images: seq<string>)
    requires Distinct(again) && DistinctStems(images)
    requires forall i :: 0 <= i < |again| ==> FromImage(again, images, i)
    ensures forall i: nat, j: nat | i < j < |again| ::
      NumberSrcStem(again)(i) != NumberSrcStem(again)(j) && NumberDstStem(again)(i) != NumberDstStem(again)(j)
  {
    forall i: nat, j: nat | i < j < |again|
      ensures NumberSrcStem(again)(i) != NumberSrcStem(again)(j) && NumberDstStem(again)(i) != NumberDstStem(again)(j)
    {
      assert FromImage(again, images, i) && FromImage(again, images, j);
      var a, b := TempOrigin(again[i]), TempOrigin(again[j]);
      StemsDiffer(images, a, b);
      NumberStemsDiffer(again, a, b, i, j);
    }
  }

  lemma {:induction false} NumberStemsAllApart(again: seq<string>, images: seq<string>)
    requires forall i :: 0 <= i < |again| ==> FromImage(again, images, i)
    ensures forall i: nat, j: nat | i < |again| && j < |again| :: NumberSrcStem(again)(i) != NumberDstStem(again)(j)
  {
    forall i: nat, j: nat | i < |again| && j < |again| ensures NumberSrcStem(again)(i) != NumberDstStem(again)(j) {
      assert FromImage(again, images, i);
      NumberStemsApart(again, TempOrigin(again[i]), i, j);
    }
  }

  lemma {:induction false} NumberTargetsAbsent(g: Folder, f: Folder, again: seq<string>, images: seq<string>)
    requires |again| == |images|
    requires forall i :: 0 <= i < |again| ==> FromImage(again, images, i)
    requires HaveExts(images) && NoStrayNumbers(f, images) && OnlyTempNames(g, f, images)
    ensures forall i: nat, s: nat | i < |again| && s < 3 :: NumberDst(again)(i, s) !in g
  {
    forall i: nat, s: nat | i < |again| && s < 3 ensures NumberDst(again)(i, s) !in g {
      assert FromImage(again, images, i);
      NumberTargetAbsent(g, f, again, images, TempOrigin(again[i]), i, s);
    }
  }

  lemma {:induction false} NumberPlanFromStems(g: Folder, again: seq<string>)
    requires forall i: nat, s: nat | i < |again| && s < 3 ::
      && ProperExt(NumberExts(again)(i, s))
      && NumberSrc(again)(i, s) == NumberSrcStem(again)(i) + NumberExts(again)(i, s)
      && NumberDst(again)(i, s) == NumberDstStem(again)(i) + NumberExts(again)(i, s)
    requires forall i: nat, s: nat, t: nat | i < |again| && s < t < 3 :: NumberExts(again)(i, s) != NumberExts(again)(i, t)
    requires forall i: nat, j: nat | i < j < |again| ::
      NumberSrcStem(again)(i) != NumberSrcStem(again)(j) && NumberDstStem(again)(i) != NumberDstStem(again)(j)
    requires forall i: nat, j: nat | i < |again| && j < |again| :: NumberSrcStem(again)(i) != NumberDstStem(again)(j)
    requires forall i: nat, s: nat | i < |again| && s < 3 :: NumberDst(again)(i, s) !in g
    requires forall i: nat | i < |again| :: NumberSrc(again)(i, 2) in g
    ensures Plan(g, NumberSrc(again), NumberDst(again), 2, |again|)
  {
    PlanFromStems(g, NumberSrc(again), NumberDst(again), 2, |again|, NumberSrcStem(again), NumberDstStem(again), NumberExts(again));
  }

  /** Each entry of the re-scan after the first loop is the temporary name
      of an image of the first scan. */
  lemma {:induction false} RescanFromImages(images: seq<string>, again: seq<string>)
    requires HaveExts(images)
    requires forall x :: x in again <==> exists a :: a in images && x == TempName(a)
    ensures forall i :: 0 <= i < |again| ==> FromImage(again, images, i)
  {
    forall i | 0 <= i < |again| ensures FromImage(again, images, i) {
      assert again[i] in again;
      var a :| a in images && again[i] == TempName(a);
      TempNameParts(a);
    }
  }

  /** The second loop has no clash after the first loop on a renumberable
      folder. */
  lemma {:induction false} NumberPlan(f: Folder, inputPath: string, listed: seq<string>, relisted: seq<string>)
    requires IsListingOf(listed, f)
    requires Renumberable(f, inputPath, ImageFiles(inputPath, listed))
    requires IsListingOf(relisted, TempPhase(f, ImageFiles(inputPath, listed), |ImageFiles(inputPath, listed)|).folder)
    ensures var again := ImageFiles(inputPath, relisted);
      Plan(TempPhase(f, ImageFiles(inputPath, listed), |ImageFiles(inputPath, listed)|).folder, NumberSrc(again), NumberDst(again), 2, |again|)
  {
    var images := ImageFiles(inputPath, listed);
    var again := ImageFiles(inputPath, relisted);
    var g := TempPhase(f, images, |images|).folder;
    TempPhaseRenames(f, inputPath, listed);
    RescanFindsTempNames(f, inputPath, listed, relisted);
    assert NoSidecarExts(images) by {
      ScanFacts(f, inputPath, listed);
      ScannedHaveNoSidecarExts(inputPath, images);
    }
    assert forall i: nat | i < |again| :: NumberSrc(again)(i, 2) in g by {
      ScanFacts(g, inputPath, relisted);
      NumberSourcesPresent(g, again);
    }
    RescanFromImages(images, again);
    NumberPlanOf(g, f, images, again);
  }

  /** The folder the whole renaming leaves: the image at index `i` of the
      re-scan, which came from the image `TempOrigin(again[i])` of the first
      scan, is now `i + 1` with that image's extension and content; that
      image's `.txt` and `.caption`, when they existed, are now `i + 1`
      with their own extension and content; every image of the first scan
      got a number; every other file is as it was; and nothing else is in
      the folder. */
  ghost predicate Numbered(r: Folder, f: Folder, images: seq<string>, again: seq<string>) {
    && NumberedGroups(r, f, images, again)
    && (forall a :: a in images ==> exists i :: 0 <= i < |again| && TempOrigin(again[i]) == a)
    && OthersKept(r, f, images)
    && OnlyNumberedNames(r, f, images, again)
  }

  /** The group at index `i` of the re-scan carries the number `i + 1`. */
  ghost predicate NumberedGroup(r: Folder, f: Folder, images: seq<string>, again: seq<string>, i: nat)
    requires i < |again|
  {
    var a := TempOrigin(again[i]);
    var number := DecimalString(i + 1);
    && a in images && a in f && again[i] == TempName(a)
    && number + Ext(a) in r && r[number + Ext(a)] == f[a]
    && (number + ".txt" in r <==> Stem(a) + ".txt" in f)
    && (Stem(a) + ".txt" in f ==> r[number + ".txt"] == f[Stem(a) + ".txt"])
    && (number + ".caption" in r <==> Stem(a) + ".caption" in f)
    && (Stem(a) + ".caption" in f ==> r[number + ".caption"] == f[Stem(a) + ".caption"])
  }

  ghost predicate NumberedGroups(r: Folder, f: Folder, images: seq<string>, again: seq<string>) {
    forall i :: 0 <= i < |again| ==> NumberedGroup(r, f, images, again, i)
  }

  /** Every file is an untouched one or carries a number. */
  ghost predicate OnlyNumberedNames(r: Folder, f: Folder, images: seq<string>, again: seq<string>) {
    forall x :: x in r ==> (x in f && !InGroup(x, images)) || exists i :: 0 <= i < |again| && IsNumberedAt(x, again, i)
  }

  /** The group at index `i` after the second loop. */
  lemma {:induction false} NumberGroupMoved(r: Folder, g: Folder, f: Folder, images: seq<string>, again: seq<string>, i: nat)
    requires i < |again| && FromImage(again, images, i)
    requires TempGroup(g, f, TempOrigin(again[i]))
    requires MovedTo(r, g, NumberSrc(again)(i, 0), NumberDst(again)(i, 0))
    requires MovedTo(r, g, NumberSrc(again)(i, 1), NumberDst(again)(i, 1))
    requires MovedTo(r, g, NumberSrc(again)(i, 2), NumberDst(again)(i, 2))
    ensures NumberedGroup(r, f, images, again, i)
  {
    var a := TempOrigin(again[i]);
    var number := DecimalString(i + 1);
    TempNameParts(a);
    NumberGroupNames(again, i, a);
    ChainedMove(r, g, f, number + ".txt", Stem(a) + "_temp" + ".txt", Stem(a) + ".txt");
    ChainedMove(r, g, f, number + ".caption", Stem(a) + "_temp" + ".caption", Stem(a) + ".caption");
  }

  /** The names of group `i` of the second loop, for the image `a` whose
      temporary name is at index `i`. */
  lemma {:induction false} NumberGroupNames(again: seq<string>, i: nat, a: string)
    requires i < |again| && Stem(again[i]) == Stem(a) + "_temp" && Ext(again[i]) == Ext(a)
    ensures NumberSrc(again)(i, 0) == Stem(a) + "_temp" + ".txt"
    ensures NumberSrc(again)(i, 1) == Stem(a) + "_temp" + ".caption"
    ensures NumberSrc(again)(i, 2) == again[i]
    ensures NumberDst(again)(i, 0) == DecimalString(i + 1) + ".txt"
    ensures NumberDst(again)(i, 1) == DecimalString(i + 1) + ".caption"
    ensures NumberDst(again)(i, 2) == DecimalString(i + 1) + Ext(a)
  {
  }

  /** A name `z` of `f` that the first loop moved to `y` and the second
      loop to `x`, when each move took place exactly when its source
      existed. */
  lemma ChainedMove(r: Folder, g: Folder, f: Folder, x: string, y: string, z: string)
    requires (x in r <==> y in g) && (y in g ==> r[x] == g[y])
    requires (y in g <==> z in f) && (z in f ==> g[y] == f[z])
    ensures (x in r <==> z in f) && (z in f ==> r[x] == f[z])
  {
  }

  /** Every image of the first scan gets a number. */
  lemma {:induction false} EveryImageNumbered(images: seq<string>, again: seq<string>, a: string)
    requires a in images && HaveExts(images)
    requires forall x :: x in again <==> exists b :: b in images && x == TempName(b)
    ensures exists i :: 0 <= i < |again| && TempOrigin(again[i]) == a
  {
    TempNameParts(a);
    assert TempName(a) in again;
    var i :| 0 <= i < |again| && again[i] == TempName(a);
  }

  /** Every name the second loop moves has a stem ending in "_temp". */
  lemma {:induction false} NumberSourceIsTemp(again: seq<string>, images: seq<string>, i: nat, s: nat)
    requires i < |again| && s < 3 && FromImage(again, images, i)
    ensures EndsWithTemp(Stem(NumberSrc(again)(i, s)))
  {
    var a := TempOrigin(again[i]);
    var t := Stem(a) + "_temp";
    assert Stem(again[i]) == t by { TempNameParts(a); }
    assert EndsWithTemp(t) by { AppendTempEndsWithTemp(Stem(a)); }
    if s == 0 {
      assert NumberSrc(again)(i, s) == t + ".txt";
      assert Stem(t + ".txt") == t by { SidecarExtsProper(); StemExtOf(t, ".txt"); }
    } else if s == 1 {
      assert NumberSrc(again)(i, s) == t + ".caption";
      assert Stem(t + ".caption") == t by { SidecarExtsProper(); StemExtOf(t, ".caption"); }
    } else {
      assert NumberSrc(again)(i, s) == again[i];
    }
  }

  /** A file outside the image groups is not moved by either loop. */
  lemma {:induction false} NumberKeepsOthers(r: Folder, g: Folder, f: Folder, images: seq<string>, again: seq<string>, x: string)
    requires x in f && !InGroup(x, images) && NoTempStems(f)
    requires forall i :: 0 <= i < |again| ==> FromImage(again, images, i)
    requires OthersKept(g, f, images)
    requires KeptNames(r, g, NumberSrc(again), |again|)
    ensures x in r && r[x] == f[x]
  {
    var src := NumberSrc(again);
    if x in SourcesFrom(src, 0, |again|) {
      SourcesFromMembers(src, 0, |again|, x);
      var i: nat, s: nat :| i < |again| && s < 3 && x == src(i, s);
      NumberSourceIsTemp(again, images, i, s);
      assert false;
    }
  }

  /** Every file after the second loop is an untouched file or carries a
      number. */
  lemma {:induction false} NumberNoOthers(r: Folder, g: Folder, f: Folder, images: seq<string>, again: seq<string>, x: string)
    requires x in r && HaveExts(images)
    requires forall x :: x in again <==> exists b :: b in images && x == TempName(b)
    requires OnlyTempNames(g, f, images)
    requires NoOtherNames(r, g, NumberSrc(again), NumberDst(again), |again|, |again|)
    ensures (x in f && !InGroup(x, images)) || exists i :: 0 <= i < |again| && IsNumberedAt(x, again, i)
  {
    if x in TargetsBefore(NumberDst(again), |again|) {
      NumberTargetIsNumbered(again, x);
    } else if !(x in f && !InGroup(x, images)) {
      var a :| a in images && IsTempOf(x, a);
      TempNameIsSource(images, again, a, x);
      assert false;
    }
  }

  /** A target of the second loop carries a number. */
  lemma {:induction false} NumberTargetIsNumbered(again: seq<string>, x: string)
    requires x in TargetsBefore(NumberDst(again), |again|)
    ensures exists i :: 0 <= i < |again| && IsNumberedAt(x, again, i)
  {
    var dst := NumberDst(again);
    InTargetsBefore(dst, |again|, x);
    var i: nat, s: nat :| i < |again| && s < 3 && x == dst(i, s);
    NumberDstIsNumbered(again, i, s);
  }

  lemma {:induction false} NumberDstIsNumbered(again: seq<string>, i: nat, s: nat)
    requires i < |again| && s < 3
    ensures IsNumberedAt(NumberDst(again)(i, s), again, i)
  {
    assert s == 0 || s == 1 || s == 2;
  }

  /** A name the first loop gave is one the second loop moves away. */
  lemma {:induction false} TempNameIsSource(images: seq<string>, again: seq<string>, a: string, x: string)
    requires a in images && IsTempOf(x, a) && HaveExts(images)
    requires forall x :: x in again <==> exists b :: b in images && x == TempName(b)
    ensures x in SourcesFrom(NumberSrc(again), 0, |again|)
  {
    var src := NumberSrc(again);
    assert Stem(TempName(a)) == Stem(a) + "_temp" by { TempNameParts(a); }
    assert TempName(a) in again;
    var i :| 0 <= i < |again| && again[i] == TempName(a);
    var ii: nat := i;
    var t := Stem(a) + "_temp";
    assert Stem(again[ii]) == t;
    if x == TempName(a) {
      assert src(ii, 2) == again[ii];
      InSourcesFrom(src, 0, |again|, ii, 2);
    } else if x == t + ".txt" {
      assert x == src(ii, 0);
      InSourcesFrom(src, 0, |again|, ii, 0);
    } else {
      assert x == t + ".caption";
      assert x == src(ii, 1);
      InSourcesFrom(src, 0, |again|, ii, 1);
    }
  }

  /** The description of the second group rename, read image by image. */
  lemma {:induction false} NumberedOf(r: Folder, g: Folder, f: Folder, images: seq<string>, again: seq<string>)
    requires HaveExts(images) && NoTempStems(f)
    requires forall x :: x in again <==> exists b :: b in images && x == TempName(b)
    requires forall i :: 0 <= i < |again| ==> FromImage(again, images, i)
    requires TempRenamed(g, f, images)
    requires Renamed(r, g, NumberSrc(again), NumberDst(again), |again|, |again|)
    ensures Numbered(r, f, images, again)
  {
    forall i | 0 <= i < |again| ensures NumberedGroup(r, f, images, again, i) {
      assert FromImage(again, images, i) && TempOrigin(again[i]) in images;
      NumberGroupMoved(r, g, f, images, again, i);
    }
    forall a | a in images ensures exists i :: 0 <= i < |again| && TempOrigin(again[i]) == a {
      EveryImageNumbered(images, again, a);
    }
    forall x | x in f && !InGroup(x, images) ensures x in r && r[x] == f[x] {
      NumberKeepsOthers(r, g, f, images, again, x);
    }
    forall x | x in r ensures (x in f && !InGroup(x, images)) || exists i :: 0 <= i < |again| && IsNumberedAt(x, again, i) {
      NumberNoOthers(r, g, f, images, again, x);
    }
  }

  /** On a renumberable folder, both loops of `RenameAllToCrescentAsync`
      complete, whatever order the two scans list the files in, and leave
      the images numbered 1..N with their sidecars. */
  lemma {:induction false} CrescentRenumbers(f: Folder, inputPath: string, listed: seq<string>, relisted: seq<string>)
    requires IsListingOf(listed, f)
    requires Renumberable(f, inputPath, ImageFiles(inputPath, listed))
    requires IsListingOf(relisted, TempPhase(f, ImageFiles(inputPath, listed), |ImageFiles(inputPath, listed)|).folder)
    ensures var images := ImageFiles(inputPath, listed);
      var temp := TempPhase(f, images, |images|);
      var again := ImageFiles(inputPath, relisted);
      var final := CrescentPhase(temp.folder, again, |again|);
      && temp.error == None && |again| == |images|
      && final.error == None && final.done == |images|
      && Numbered(final.folder, f, images, again)
  {
    var images := ImageFiles(inputPath, listed);
    var g := TempPhase(f, images, |images|).folder;
    var again := ImageFiles(inputPath, relisted);
    var n := |again|;
    TempPhaseRenames(f, inputPath, listed);
    RescanFindsTempNames(f, inputPath, listed, relisted);
    NumberPlan(f, inputPath, listed, relisted);
    RunRenames(g, NumberSrc(again), NumberDst(again), 2, n, n);
    CrescentPhaseIsRun(g, again, n);
    RescanFromImages(images, again);
    NumberedOf(CrescentPhase(g, again, n).folder, g, f, images, again);
  }
}
