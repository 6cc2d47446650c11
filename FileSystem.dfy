/** The part of `System.IO` the modelled code relies on: folders of named
    files, directory listings, `File.Move`, a copy into a `FileMode.CreateNew`
    stream and `File.ReadAllText`. A file is named by its folder and its name
    inside that folder; its content is the text or bytes it holds. */
module FileSystem {
  import opened Outcomes
  import opened Utilities

  type Content = string

  /** The files of one folder, by name. */
  type Folder = map<string, Content>

  /** The exceptions the modelled operations can raise. */
  datatype IoError =
    | DirectoryNotFound(folder: string)
    | FileNotFound(name: string)
    | FileAlreadyExists(name: string)
    | UnreadableImage(name: string)
    | InvalidArgument

  /** One folder after an operation, and the exception that operation raised. */
  datatype Outcome = Outcome(folder: Folder, error: Option<IoError>)

  /** `names` lists every file of `f` once, in some order. */
  ghost predicate IsListingOf(names: seq<string>, f: Folder) {
    && Distinct(names)
    && forall n :: n in names <==> n in f
  }

  /** `File.Move(src, dst)` between two names of the same folder: the source
      must exist and the destination must not. */
  function MoveIn(f: Folder, src: string, dst: string): (r: Outcome)
    ensures r.error == None <==> src in f && dst !in f
    ensures r.error != None ==> r.folder == f
  {
    if src !in f then Outcome(f, Some(FileNotFound(src)))
    else if dst in f then Outcome(f, Some(FileAlreadyExists(dst)))
    else Outcome((f - {src})[dst := f[src]], None)
  }

  /** Looking `src` up in the folder and, when it is there, moving it to
      `dst`. */
  function MoveIfPresent(f: Folder, src: string, dst: string): (r: Outcome)
    ensures src !in f ==> r == Outcome(f, None)
    ensures src in f ==> r == MoveIn(f, src, dst)
  {
    if src in f then MoveIn(f, src, dst) else Outcome(f, None)
  }

  /** One `File.Move` of a group rename. An optional move is skipped when
      its source is absent, as after a directory lookup that found nothing. */
  datatype Move = Move(src: string, dst: string, optional: bool)

  function ApplyMove(f: Folder, m: Move): Outcome {
    if m.optional then MoveIfPresent(f, m.src, m.dst) else MoveIn(f, m.src, m.dst)
  }

  /** The moves done in order, stopping at the first one that throws. */
  function ApplyMoves(f: Folder, moves: seq<Move>): Outcome
    decreases |moves|
  {
    if moves == [] then Outcome(f, None)
    else
      var o := ApplyMove(f, moves[0]);
      if o.error.Some? then o else ApplyMoves(o.folder, moves[1..])
  }

  /** Three moves in order, stopping at the first that throws. */
  lemma {:induction false} ApplyThree(f: Folder, m0: Move, m1: Move, m2: Move)
    ensures var o0 := ApplyMove(f, m0);
      var o1 := ApplyMove(o0.folder, m1);
      ApplyMoves(f, [m0, m1, m2]) ==
        if o0.error.Some? then o0 else if o1.error.Some? then o1 else ApplyMove(o1.folder, m2)
  {
    var o0 := ApplyMove(f, m0);
    assert [m0, m1, m2][0] == m0 && [m0, m1, m2][1..] == [m1, m2];
    if o0.error == None {
      var o1 := ApplyMove(o0.folder, m1);
      assert [m1, m2][0] == m1 && [m1, m2][1..] == [m2];
      if o1.error == None {
        var o2 := ApplyMove(o1.folder, m2);
        assert [m2][0] == m2 && [m2][1..] == [];
        assert ApplyMoves(o1.folder, [m2]) == if o2.error.Some? then o2 else ApplyMoves(o2.folder, []);
      }
    }
  }

  /** One folder after a loop of steps, the exception that ended the loop,
      and how many steps completed. */
  datatype Batch = Batch(folder: Folder, error: Option<IoError>, done: nat)

  /** The first `k` steps of a loop whose step `i` does the moves
      `steps(i)`; the loop stops at the first exception. */
  function Steps(f: Folder, steps: nat -> seq<Move>, k: nat): (r: Batch)
    ensures r.done <= k
    ensures r.error == None <==> r.done == k
    decreases k
  {
    if k == 0 then Batch(f, None, 0)
    else
      var prev := Steps(f, steps, k - 1);
      if prev.error.Some? then prev
      else
        var o := ApplyMoves(prev.folder, steps(k - 1));
        Batch(o.folder, o.error, if o.error == None then prev.done + 1 else prev.done)
  }

  /** One more step, after steps that all completed. */
  lemma StepsNext(f: Folder, steps: nat -> seq<Move>, k: nat)
    requires Steps(f, steps, k).error == None
    ensures Steps(f, steps, k + 1).folder == ApplyMoves(Steps(f, steps, k).folder, steps(k)).folder
    ensures Steps(f, steps, k + 1).error == ApplyMoves(Steps(f, steps, k).folder, steps(k)).error
  {
  }

  /** Once a step throws, the loop ends there. */
  lemma {:induction false} StepsStop(f: Folder, steps: nat -> seq<Move>, j: nat, k: nat)
    requires j <= k && Steps(f, steps, j).error.Some?
    ensures Steps(f, steps, k) == Steps(f, steps, j)
    decreases k - j
  {
    if j < k {
      StepsStop(f, steps, j, k - 1);
    }
  }

  /** A property of the folder that holds before the loop and that every
      step `j < n` keeps, without throwing, holds after each of the first
      `n` steps. */
  lemma {:induction false} StepsKeep(f: Folder, steps: nat -> seq<Move>, inv: (nat, Folder) -> bool, n: nat, k: nat)
    requires k <= n
    requires inv(0, f)
    requires forall j: nat, r: Folder | j < n && inv(j, r) ::
      ApplyMoves(r, steps(j)).error == None && inv(j + 1, ApplyMoves(r, steps(j)).folder)
    ensures Steps(f, steps, k).error == None && inv(k, Steps(f, steps, k).folder)
    decreases k
  {
    if k > 0 {
      StepsKeep(f, steps, inv, n, k - 1);
      StepsNext(f, steps, k - 1);
    }
  }

  /** Two loops whose first `k` steps do the same moves end alike. */
  lemma {:induction false} StepsAgree(f: Folder, steps: nat -> seq<Move>, steps': nat -> seq<Move>, k: nat)
    requires forall i: nat | i < k :: steps(i) == steps'(i)
    ensures Steps(f, steps, k) == Steps(f, steps', k)
    decreases k
  {
    if k > 0 {
      StepsAgree(f, steps, steps', k - 1);
    }
  }

  /** The whole file system after an operation that may touch several
      folders, and the exception raised, if any. */
  datatype Effect = Effect(folders: map<string, Folder>, error: Option<IoError>)

  /** The whole file system after the first `k` steps of a loop, the
      exception that ended it, and how many steps completed. */
  datatype Sweep = Sweep(folders: map<string, Folder>, error: Option<IoError>, done: nat)

  /** The first `k` steps of a loop whose step `i` does `step(i, _)` to the
      whole file system; the loop stops at the first exception. */
  function Effects(folders: map<string, Folder>, step: (nat, map<string, Folder>) -> Effect, k: nat): (r: Sweep)
    ensures r.done <= k
    ensures r.error == None <==> r.done == k
    decreases k
  {
    if k == 0 then Sweep(folders, None, 0)
    else
      var prev := Effects(folders, step, k - 1);
      if prev.error.Some? then prev
      else
        var e := step(k - 1, prev.folders);
        Sweep(e.folders, e.error, if e.error == None then prev.done + 1 else prev.done)
  }

  /** One more step, after steps that all completed. */
  lemma EffectsNext(folders: map<string, Folder>, step: (nat, map<string, Folder>) -> Effect, k: nat)
    requires Effects(folders, step, k).error == None
    ensures Effects(folders, step, k + 1).folders == step(k, Effects(folders, step, k).folders).folders
    ensures Effects(folders, step, k + 1).error == step(k, Effects(folders, step, k).folders).error
  {
  }

  /** Once a step throws, the loop ends there. */
  lemma {:induction false} EffectsStop(folders: map<string, Folder>, step: (nat, map<string, Folder>) -> Effect, j: nat, k: nat)
    requires j <= k && Effects(folders, step, j).error.Some?
    ensures Effects(folders, step, k) == Effects(folders, step, j)
    decreases k - j
  {
    if j < k {
      EffectsStop(folders, step, j, k - 1);
    }
  }

  /** Where the loop stands after step `i` of `n` did `after` and raised
      `err`: one more step done, or the loop's end. */
  lemma EffectsAfter(folders: map<string, Folder>, step: (nat, map<string, Folder>) -> Effect, i: nat, n: nat,
                     after: map<string, Folder>, err: Option<IoError>)
    requires i < n && Effects(folders, step, i).error == None
    requires after == step(i, Effects(folders, step, i).folders).folders
    requires err == step(i, Effects(folders, step, i).folders).error
    ensures err == None ==> Effects(folders, step, i + 1).error == None && after == Effects(folders, step, i + 1).folders
    ensures err != None ==>
      && err == Effects(folders, step, n).error && Effects(folders, step, n).done == i
      && after == Effects(folders, step, n).folders
  {
    EffectsNext(folders, step, i);
    if err != None {
      EffectsStop(folders, step, i + 1, n);
    }
  }

  /** A property of the file system that holds before the loop and that
      every step `j < n` keeps, without throwing, holds after each of the
      first `n` steps. */
  lemma {:induction false} EffectsKeep(folders: map<string, Folder>, step: (nat, map<string, Folder>) -> Effect,
                                       inv: (nat, map<string, Folder>) -> bool, n: nat, k: nat)
    requires k <= n
    requires inv(0, folders)
    requires forall j: nat, r: map<string, Folder> | j < n && inv(j, r) ::
      step(j, r).error == None && inv(j + 1, step(j, r).folders)
    ensures Effects(folders, step, k).error == None && inv(k, Effects(folders, step, k).folders)
    decreases k
  {
    if k > 0 {
      EffectsKeep(folders, step, inv, n, k - 1);
      EffectsNext(folders, step, k - 1);
    }
  }

  /** Opening `name` in `srcFolder` for reading and a new file of the same
      name in `dstFolder` with `FileMode.CreateNew`, then copying the bytes. */
  function CopyNew(folders: map<string, Folder>, srcFolder: string, name: string, dstFolder: string): (r: Effect)
    ensures r.error == None <==>
      srcFolder in folders && name in folders[srcFolder] && dstFolder in folders && name !in folders[dstFolder]
    ensures r.error != None ==> r.folders == folders
    ensures r.error == None ==>
      r.folders == folders[dstFolder := folders[dstFolder][name := folders[srcFolder][name]]]
  {
    if srcFolder !in folders then Effect(folders, Some(DirectoryNotFound(srcFolder)))
    else if name !in folders[srcFolder] then Effect(folders, Some(FileNotFound(name)))
    else if dstFolder !in folders then Effect(folders, Some(DirectoryNotFound(dstFolder)))
    else if name in folders[dstFolder] then Effect(folders, Some(FileAlreadyExists(name)))
    else Effect(folders[dstFolder := folders[dstFolder][name := folders[srcFolder][name]]], None)
  }

  /** `after` is `before` with the files of `folder` replaced by `files`. */
  ghost predicate Replaced(after: map<string, Folder>, before: map<string, Folder>, folder: string, files: Folder) {
    && folder in after
    && after[folder] == files
    && after - {folder} == before - {folder}
  }

  /** Replacing the same folder twice replaces it once, with the second
      contents. */
  lemma ReplacedTwice(before: map<string, Folder>, middle: map<string, Folder>, after: map<string, Folder>,
                      folder: string, files: Folder, files': Folder)
    requires Replaced(middle, before, folder, files)
    requires Replaced(after, middle, folder, files')
    ensures Replaced(after, before, folder, files')
  {
  }

  /** One step of a loop over `folder` of the disk, as a method does it:
      when the first `i` steps completed and the disk held their result,
      the disk after step `i` holds the result of `i + 1` steps, or, when
      the step threw, of the whole loop of `n` steps, which completed `i`. */
  lemma StepsOnDisk(orig: map<string, Folder>, before: map<string, Folder>, after: map<string, Folder>,
                    folder: string, f: Folder, steps: nat -> seq<Move>, i: nat, n: nat,
                    moves: seq<Move>, err: Option<IoError>)
    requires i < n && moves == steps(i)
    requires Steps(f, steps, i).error == None
    requires Replaced(before, orig, folder, Steps(f, steps, i).folder)
    requires Replaced(after, before, folder, ApplyMoves(before[folder], moves).folder)
    requires err == ApplyMoves(before[folder], moves).error
    ensures err == None ==> Steps(f, steps, i + 1).error == None && Replaced(after, orig, folder, Steps(f, steps, i + 1).folder)
    ensures err != None ==>
      && err == Steps(f, steps, n).error && Steps(f, steps, n).done == i
      && Replaced(after, orig, folder, Steps(f, steps, n).folder)
  {
    StepsNext(f, steps, i);
    ReplacedTwice(orig, before, after, folder, before[folder], after[folder]);
    if err != None {
      StepsStop(f, steps, i + 1, n);
    }
  }

  /** The disk: every folder the program can reach, by path. */
  class FileSystem {
    var folders: map<string, Folder>

    constructor (initial: map<string, Folder>)
      ensures folders == initial
    {
      folders := initial;
    }

    /** `Directory.GetFiles(folder, "*.*", TopDirectoryOnly)`: every file of
        the folder once, in an order the operating system chooses. */
    method GetFiles(folder: string) returns (r: Result<seq<string>, IoError>)
      ensures folder !in folders ==> r == Err(DirectoryNotFound(folder))
      ensures folder in folders ==> r.Ok? && IsListingOf(r.value, folders[folder])
    {
      if folder !in folders {
        return Err(DirectoryNotFound(folder));
      }
      var remaining := folders[folder].Keys;
      var names: seq<string> := [];
      while remaining != {}
        invariant remaining <= folders[folder].Keys
        invariant Distinct(names)
        invariant forall n :: n in names <==> n in folders[folder] && n !in remaining
        decreases |remaining|
      {
        var n :| n in remaining;
        names := names + [n];
        remaining := remaining - {n};
      }
      return Ok(names);
    }

    /** `File.Move` inside `folder`. */
    method Move(folder: string, src: string, dst: string) returns (err: Option<IoError>)
      requires folder in folders
      modifies this
      ensures Replaced(folders, old(folders), folder, MoveIn(old(folders)[folder], src, dst).folder)
      ensures err == MoveIn(old(folders)[folder], src, dst).error
    {
      var o := MoveIn(folders[folder], src, dst);
      folders := folders[folder := o.folder];
      err := o.error;
    }

    /** Moves `src` to `dst` inside `folder` when `src` exists there. */
    method MoveIfExists(folder: string, src: string, dst: string) returns (err: Option<IoError>)
      requires folder in folders
      modifies this
      ensures Replaced(folders, old(folders), folder, MoveIfPresent(old(folders)[folder], src, dst).folder)
      ensures err == MoveIfPresent(old(folders)[folder], src, dst).error
    {
      if src in folders[folder] {
        err := Move(folder, src, dst);
      } else {
        err := None;
      }
    }

    /** Copies `name` from `srcFolder` to a new file of that name in
        `dstFolder`. */
    method CopyToNew(srcFolder: string, name: string, dstFolder: string) returns (err: Option<IoError>)
      modifies this
      ensures folders == CopyNew(old(folders), srcFolder, name, dstFolder).folders
      ensures err == CopyNew(old(folders), srcFolder, name, dstFolder).error
    {
      var e := CopyNew(folders, srcFolder, name, dstFolder);
      folders := e.folders;
      err := e.error;
    }

    /** `File.ReadAllText` of `name` in `folder`. */
    method ReadAllText(folder: string, name: string) returns (r: Result<Content, IoError>)
      ensures folder !in folders ==> r == Err(DirectoryNotFound(folder))
      ensures folder in folders && name !in folders[folder] ==> r == Err(FileNotFound(name))
      ensures folder in folders && name in folders[folder] ==> r == Ok(folders[folder][name])
    {
      if folder !in folders {
        return Err(DirectoryNotFound(folder));
      }
      if name !in folders[folder] {
        return Err(FileNotFound(name));
      }
      return Ok(folders[folder][name]);
    }
  }

  /** What a progress reporter was told, in order. */
  datatype ProgressCall = SetTotalFiles(total: int) | UpdateProgress | Reset

  /** `n` calls of `UpdateProgress`. */
  function Updates(n: nat): (r: seq<ProgressCall>)
    ensures |r| == n && forall k :: 0 <= k < n ==> r[k] == UpdateProgress
  {
    seq(n, _ => UpdateProgress)
  }

  /** One more update extends the log of updates. */
  lemma UpdatesNext(calls: seq<ProgressCall>, n: nat)
    ensures calls + Updates(n) + [UpdateProgress] == calls + Updates(n + 1)
  {
    assert Updates(n) + [UpdateProgress] == Updates(n + 1);
  }

  /** `SmartData.Lib.Helpers.Progress`: the model keeps the calls made to it,
      which is all the modelled services do with it. */
  class Progress {
    var calls: seq<ProgressCall>

    constructor ()
      ensures calls == []
    {
      calls := [];
    }

    method SetTotal(total: int)
      modifies this
      ensures calls == old(calls) + [SetTotalFiles(total)]
    {
      calls := calls + [SetTotalFiles(total)];
    }

    method Update()
      modifies this
      ensures calls == old(calls) + [UpdateProgress]
    {
      calls := calls + [UpdateProgress];
    }

    method ResetProgress()
      modifies this
      ensures calls == old(calls) + [Reset]
    {
      calls := calls + [Reset];
    }
  }
}
