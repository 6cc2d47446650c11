/** `SmartData.Lib.Helpers.Utilities`: the extension-based file scan and the
    tag splitter. Both are pure: the scan works on a directory listing that
    its caller obtained. */
module Utilities {
  import opened Text
  import opened PathNames

  /** Files whose path contains this name are never returned by the scan. */
  const ExcludedName: string := "sample_prompt_custom.txt"

  /** The test the scan applies to one listed file: its lower-cased
      extension occurs somewhere in the comma pattern, and its full path
      does not contain the excluded name. */
  predicate Keeps(folderPath: string, name: string, searchPattern: string) {
    && Contains(searchPattern, ToLower(Ext(name)))
    && !Contains(Combine(folderPath, name), ExcludedName)
  }

  /** `GetFilesByMultipleExtensions(folderPath, searchPattern)` over the
      top-level names `listing` of the folder, in listing order. */
  function GetFilesByMultipleExtensions(folderPath: string, listing: seq<string>, searchPattern: string): (r: seq<string>)
    ensures forall x :: x in r <==> x in listing && Keeps(folderPath, x, searchPattern)
    ensures |r| <= |listing|
    decreases |listing|
  {
    if listing == [] then []
    else
      var init, last := listing[..|listing| - 1], listing[|listing| - 1];
      assert listing == init + [last];
      GetFilesByMultipleExtensions(folderPath, init, searchPattern)
        + (if Keeps(folderPath, last, searchPattern) then [last] else [])
  }

  predicate Distinct<T(==)>(s: seq<T>) {
    forall i, j :: 0 <= i < j < |s| ==> s[i] != s[j]
  }

  /** `a` is `b` with some elements left out. */
  predicate Subsequence<T(==)>(a: seq<T>, b: seq<T>)
    decreases |b|
  {
    if b == [] then a == []
    else
      || Subsequence(a, b[..|b| - 1])
      || (a != [] && a[|a| - 1] == b[|b| - 1] && Subsequence(a[..|a| - 1], b[..|b| - 1]))
  }

  /** The scan keeps the listing order and adds no duplicate. */
  lemma {:induction false} ScanKeepsOrder(folderPath: string, listing: seq<string>, searchPattern: string)
    ensures Subsequence(GetFilesByMultipleExtensions(folderPath, listing, searchPattern), listing)
    ensures Distinct(listing) ==> Distinct(GetFilesByMultipleExtensions(folderPath, listing, searchPattern))
    decreases |listing|
  {
    if listing != [] {
      var init, last := listing[..|listing| - 1], listing[|listing| - 1];
      var r0 := GetFilesByMultipleExtensions(folderPath, init, searchPattern);
      var r := GetFilesByMultipleExtensions(folderPath, listing, searchPattern);
      ScanKeepsOrder(folderPath, init, searchPattern);
      if Keeps(folderPath, last, searchPattern) {
        assert r == r0 + [last];
        assert r[..|r| - 1] == r0;
        if Distinct(listing) {
          assert last !in init;
          assert last !in r0;
        }
      } else {
        assert r == r0;
      }
    }
  }

  /** A sequence is repeat-free exactly when no element occurs twice in
      its multiset. */
  lemma {:induction false} DistinctCounts<T>(s: seq<T>)
    ensures Distinct(s) <==> forall x :: multiset(s)[x] <= 1
    decreases |s|
  {
    if s != [] {
      var init, last := s[..|s| - 1], s[|s| - 1];
      assert s == init + [last];
      DistinctCounts(init);
      if Distinct(s) {
        assert Distinct(init) by {
          forall i, j | 0 <= i < j < |init| ensures init[i] != init[j] {
            assert init[i] == s[i] && init[j] == s[j];
          }
        }
        assert last !in init by {
          forall i | 0 <= i < |init| ensures init[i] != last {
            assert init[i] == s[i];
          }
        }
      } else {
        var i, j :| 0 <= i < j < |s| && s[i] == s[j];
        if j < |s| - 1 {
          assert init[i] == init[j];
          assert !Distinct(init);
          var x :| multiset(init)[x] > 1;
          assert multiset(s)[x] > 1;
        } else {
          assert init[i] == last;
          assert last in multiset(init);
          assert multiset(s)[last] > 1;
        }
      }
    }
  }

  /** A subsequence takes each element at most as often as the sequence it
      is drawn from. */
  lemma {:induction false} SubsequenceCounts<T>(a: seq<T>, b: seq<T>)
    requires Subsequence(a, b)
    ensures multiset(a) <= multiset(b)
    decreases |b|
  {
    if b != [] {
      var binit := b[..|b| - 1];
      assert b == binit + [b[|b| - 1]];
      if Subsequence(a, binit) {
        SubsequenceCounts(a, binit);
      } else {
        var ainit := a[..|a| - 1];
        assert a == ainit + [a[|a| - 1]];
        SubsequenceCounts(ainit, binit);
      }
    }
  }

  /** What is drawn from a repeat-free sequence, and then reordered, is
      repeat-free. */
  lemma {:induction false} DrawnDistinct<T>(r: seq<T>, a: seq<T>, b: seq<T>)
    requires Subsequence(a, b) && Distinct(b) && multiset(r) == multiset(a)
    ensures Distinct(r)
  {
    SubsequenceCounts(a, b);
    DistinctCounts(b);
    DistinctCounts(r);
  }

  /** A file without an extension passes the extension test of any pattern:
      every string contains the empty string. */
  lemma {:induction false} NoExtensionAlwaysMatches(folderPath: string, name: string, searchPattern: string)
    requires '.' !in name
    requires !Contains(Combine(folderPath, name), ExcludedName)
    ensures Keeps(folderPath, name, searchPattern)
  {
    LastDotNone(name);
    ContainsEmpty(searchPattern);
  }

  /** `ParseAndCleanTags`: collapse ", " to "," and then "  " to " ", and
      split at every ','. There is always one piece at least, and no piece
      holds a comma. */
  function ParseAndCleanTags(tags: string): (r: seq<string>)
    ensures |r| >= 1
    ensures forall k :: 0 <= k < |r| ==> ',' !in r[k]
  {
    Split(Replace(Replace(tags, ", ", ","), "  ", " "), ',')
  }

  /** Joining the pieces with "," gives the input after the two
      replacements, so no text other than the separators is lost. */
  lemma {:induction false} ParseAndCleanTagsJoin(tags: string)
    ensures Join(ParseAndCleanTags(tags), ',') == Replace(Replace(tags, ", ", ","), "  ", " ")
  {
    JoinSplit(Replace(Replace(tags, ", ", ","), "  ", " "), ',');
  }

  /** Tags that hold no ", " and no "  " come back exactly as they were
      split, piece by piece. */
  lemma {:induction false} ParseAndCleanTagsOfCleanTags(pieces: seq<string>)
    requires |pieces| >= 1
    requires forall k :: 0 <= k < |pieces| ==> ',' !in pieces[k]
    requires !Contains(Join(pieces, ','), ", ") && !Contains(Join(pieces, ','), "  ")
    ensures ParseAndCleanTags(Join(pieces, ',')) == pieces
  {
    var s := Join(pieces, ',');
    ReplaceAbsent(s, ", ", ",");
    ReplaceAbsent(s, "  ", " ");
    SplitJoin(pieces, ',');
  }
}
