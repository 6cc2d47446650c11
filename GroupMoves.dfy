/** Renaming in groups: group `i` moves the names `src(i, 0..2)` to
    `dst(i, 0..2)` in that order. One move of each group is required: it
    throws when its source is missing. The other two are skipped when their
    source is absent. Both loops of the crescent renaming have this shape.
    When no two names of the plan clash, running the groups in order gives
    the same folder as renaming all of them at once. */
module GroupMoves {
  import opened Outcomes
  import opened FileSystem

  /** The three moves of group `i`; the one in slot `req` is required. */
  function Group(src: (nat, nat) -> string, dst: (nat, nat) -> string, req: nat, i: nat): seq<Move> {
    [ Move(src(i, 0), dst(i, 0), req != 0),
      Move(src(i, 1), dst(i, 1), req != 1),
      Move(src(i, 2), dst(i, 2), req != 2) ]
  }

  /** The groups, as the steps of a loop. */
  function Groups(src: (nat, nat) -> string, dst: (nat, nat) -> string, req: nat): nat -> seq<Move> {
    (i: nat) => Group(src, dst, req, i)
  }

  /** The first `k` groups, in order, stopping at the first exception. */
  function Run(f: Folder, src: (nat, nat) -> string, dst: (nat, nat) -> string, req: nat, k: nat): Batch {
    Steps(f, Groups(src, dst, req), k)
  }

  /** The `n` groups can run without clashing: no two sources, and no two
      targets, coincide; no source is a target; no target exists yet; every
      required source exists. */
  ghost predicate Plan(f: Folder, src: (nat, nat) -> string, dst: (nat, nat) -> string, req: nat, n: nat) {
    && req < 3
    && (forall i: nat, s: nat, j: nat, t: nat | i < n && s < 3 && j < n && t < 3 && (i != j || s != t) ::
          src(i, s) != src(j, t) && dst(i, s) != dst(j, t))
    && (forall i: nat, s: nat, j: nat, t: nat | i < n && s < 3 && j < n && t < 3 :: src(i, s) != dst(j, t))
    && (forall i: nat, s: nat | i < n && s < 3 :: dst(i, s) !in f)
    && (forall i: nat | i < n :: src(i, req) in f)
  }

  /** The targets of the first `k` groups. */
  function TargetsBefore(dst: (nat, nat) -> string, k: nat): set<string>
    decreases k
  {
    if k == 0 then {} else TargetsBefore(dst, k - 1) + {dst(k - 1, 0), dst(k - 1, 1), dst(k - 1, 2)}
  }

  /** The sources of the groups `k..n-1`. */
  function SourcesFrom(src: (nat, nat) -> string, k: nat, n: nat): set<string>
    decreases n - k
  {
    if k >= n then {} else {src(k, 0), src(k, 1), src(k, 2)} + SourcesFrom(src, k + 1, n)
  }

  lemma {:induction false} InSourcesFrom(src: (nat, nat) -> string, k: nat, n: nat, i: nat, s: nat)
    requires k <= i < n && s < 3
    ensures src(i, s) in SourcesFrom(src, k, n)
    decreases i - k
  {
    if k < i {
      InSourcesFrom(src, k + 1, n, i, s);
    } else {
      assert s == 0 || s == 1 || s == 2;
    }
  }

  /** The targets of the first `k` groups are exactly the `dst(i, s)` with
      `i < k`. */
  lemma {:induction false} InTargetsBefore(dst: (nat, nat) -> string, k: nat, x: string)
    ensures x in TargetsBefore(dst, k) <==> exists i: nat, s: nat | i < k && s < 3 :: x == dst(i, s)
    decreases k
  {
    if k > 0 {
      InTargetsBefore(dst, k - 1, x);
      if x in {dst(k - 1, 0), dst(k - 1, 1), dst(k - 1, 2)} {
        assert x == dst(k - 1, 0) || x == dst(k - 1, 1) || x == dst(k - 1, 2);
      }
    }
  }

  /** The folder `r` after the first `k` groups, described name by name:
      every present source of a done group is now at its target, the
      groups still to come find their sources as they were, and every other
      name of `f` is untouched. Nothing else is in `r`. */
  ghost predicate Renamed(r: Folder, f: Folder, src: (nat, nat) -> string, dst: (nat, nat) -> string, n: nat, k: nat) {
    && DoneGroups(r, f, src, dst, k)
    && WaitingGroups(r, f, src, dst, n, k)
    && KeptNames(r, f, src, n)
    && NoOtherNames(r, f, src, dst, n, k)
  }

  ghost predicate DoneGroups(r: Folder, f: Folder, src: (nat, nat) -> string, dst: (nat, nat) -> string, k: nat) {
    forall i: nat, s: nat | i < k && s < 3 :: MovedTo(r, f, src(i, s), dst(i, s))
  }

  /** `x` of `f` is gone from `r` and, when it existed, is now `y`. */
  ghost predicate MovedTo(r: Folder, f: Folder, x: string, y: string) {
    && x !in r
    && (y in r <==> x in f)
    && (x in f ==> r[y] == f[x])
  }

  ghost predicate WaitingGroups(r: Folder, f: Folder, src: (nat, nat) -> string, dst: (nat, nat) -> string, n: nat, k: nat) {
    forall i: nat, s: nat | k <= i < n && s < 3 ::
      && dst(i, s) !in r
      && (src(i, s) in r <==> src(i, s) in f)
      && (src(i, s) in f ==> r[src(i, s)] == f[src(i, s)])
  }

  ghost predicate KeptNames(r: Folder, f: Folder, src: (nat, nat) -> string, n: nat) {
    forall x | x in f && x !in SourcesFrom(src, 0, n) :: x in r && r[x] == f[x]
  }

  ghost predicate NoOtherNames(r: Folder, f: Folder, src: (nat, nat) -> string, dst: (nat, nat) -> string, n: nat, k: nat) {
    forall x | x in r ::
      (x in f && x !in SourcesFrom(src, 0, n)) || x in TargetsBefore(dst, k) || x in SourcesFrom(src, k, n)
  }

  /** `y` is none of the six names of group `k`. */
  predicate Outside(y: string, src: (nat, nat) -> string, dst: (nat, nat) -> string, k: nat) {
    && y != src(k, 0) && y != src(k, 1) && y != src(k, 2)
    && y != dst(k, 0) && y != dst(k, 1) && y != dst(k, 2)
  }

  /** `r'` is `r` after moving each present source of group `k` to its
      target. */
  ghost predicate GroupApplied(r': Folder, r: Folder, src: (nat, nat) -> string, dst: (nat, nat) -> string, k: nat) {
    && (forall s: nat | s < 3 ::
          src(k, s) !in r' && (dst(k, s) in r' <==> src(k, s) in r) && (src(k, s) in r ==> r'[dst(k, s)] == r[src(k, s)]))
    && (forall y | Outside(y, src, dst, k) :: (y in r' <==> y in r) && (y in r ==> r'[y] == r[y]))
  }

  /** One move to an absent target: no exception unless a required source
      is missing; the source, when present, goes to the target, and every
      other name stays. */
  lemma MoveStep(r: Folder, m: Move)
    requires m.src != m.dst && m.dst !in r && (!m.optional ==> m.src in r)
    ensures ApplyMove(r, m).error == None
    ensures var r' := ApplyMove(r, m).folder;
      && m.src !in r' && (m.dst in r' <==> m.src in r) && (m.src in r ==> r'[m.dst] == r[m.src])
      && (forall y | y != m.src && y != m.dst :: (y in r' <==> y in r) && (y in r ==> r'[y] == r[y]))
  {
  }

  /** Three moves over six distinct names, whose targets are absent and
      whose required sources are present: no exception, each present
      source goes to its target, and every other name stays. */
  lemma ThreeMoves(r: Folder, m0: Move, m1: Move, m2: Move)
    requires m0.src != m1.src && m0.src != m2.src && m1.src != m2.src
    requires m0.dst != m1.dst && m0.dst != m2.dst && m1.dst != m2.dst
    requires m0.src != m0.dst && m0.src != m1.dst && m0.src != m2.dst
    requires m1.src != m0.dst && m1.src != m1.dst && m1.src != m2.dst
    requires m2.src != m0.dst && m2.src != m1.dst && m2.src != m2.dst
    requires m0.dst !in r && m1.dst !in r && m2.dst !in r
    requires (!m0.optional ==> m0.src in r) && (!m1.optional ==> m1.src in r) && (!m2.optional ==> m2.src in r)
    ensures ApplyMoves(r, [m0, m1, m2]).error == None
    ensures MovedTo(ApplyMoves(r, [m0, m1, m2]).folder, r, m0.src, m0.dst)
    ensures MovedTo(ApplyMoves(r, [m0, m1, m2]).folder, r, m1.src, m1.dst)
    ensures MovedTo(ApplyMoves(r, [m0, m1, m2]).folder, r, m2.src, m2.dst)
    ensures forall y | y != m0.src && y != m1.src && y != m2.src && y != m0.dst && y != m1.dst && y != m2.dst ::
      (y in ApplyMoves(r, [m0, m1, m2]).folder <==> y in r) && (y in r ==> ApplyMoves(r, [m0, m1, m2]).folder[y] == r[y])
  {
    ApplyThree(r, m0, m1, m2);
    MoveStep(r, m0);
    var r0 := ApplyMove(r, m0).folder;
    MoveStep(r0, m1);
    var r1 := ApplyMove(r0, m1).folder;
    MoveStep(r1, m2);
  }

  /** Group `k` over six distinct names, whose targets are absent and whose
      required source is present: no exception, each present source goes
      to its target, and every other name stays. */
  lemma GroupStep(r: Folder, src: (nat, nat) -> string, dst: (nat, nat) -> string, req: nat, k: nat)
    requires req < 3
    requires forall s: nat, t: nat | s < t < 3 :: src(k, s) != src(k, t) && dst(k, s) != dst(k, t)
    requires forall s: nat, t: nat | s < 3 && t < 3 :: src(k, s) != dst(k, t)
    requires forall s: nat | s < 3 :: dst(k, s) !in r
    requires src(k, req) in r
    ensures ApplyMoves(r, Group(src, dst, req, k)).error == None
    ensures GroupApplied(ApplyMoves(r, Group(src, dst, req, k)).folder, r, src, dst, k)
  {
    var a0, a1, a2 := src(k, 0), src(k, 1), src(k, 2);
    var b0, b1, b2 := dst(k, 0), dst(k, 1), dst(k, 2);
    assert a0 != a1 && a0 != a2 && a1 != a2 && b0 != b1 && b0 != b2 && b1 != b2;
    assert a0 != b0 && a0 != b1 && a0 != b2 && a1 != b0 && a1 != b1 && a1 != b2 && a2 != b0 && a2 != b1 && a2 != b2;
    assert b0 !in r && b1 !in r && b2 !in r;
    assert (req == 0 ==> a0 in r) && (req == 1 ==> a1 in r) && (req == 2 ==> a2 in r);
    assert Group(src, dst, req, k) == [Move(a0, b0, req != 0), Move(a1, b1, req != 1), Move(a2, b2, req != 2)];
    var r2 := ApplyMoves(r, Group(src, dst, req, k)).folder;
    ThreeMoves(r, Move(a0, b0, req != 0), Move(a1, b1, req != 1), Move(a2, b2, req != 2));
    forall s: nat | s < 3 ensures MovedTo(r2, r, src(k, s), dst(k, s)) {
      assert s == 0 || s == 1 || s == 2;
    }
    forall y | Outside(y, src, dst, k) ensures (y in r2 <==> y in r) && (y in r ==> r2[y] == r[y]) {
    }
  }

  /** Running group `k` keeps the description. */
  lemma {:induction false} RenamedStep(r': Folder, r: Folder, f: Folder, src: (nat, nat) -> string, dst: (nat, nat) -> string,
                                        req: nat, n: nat, k: nat)
    requires Plan(f, src, dst, req, n) && k < n
    requires Renamed(r, f, src, dst, n, k)
    requires r' == ApplyMoves(r, Group(src, dst, req, k)).folder
    ensures ApplyMoves(r, Group(src, dst, req, k)).error == None
    ensures Renamed(r', f, src, dst, n, k + 1)
  {
    GroupStep(r, src, dst, req, k);
    DoneGroupsStep(r', r, f, src, dst, req, n, k);
    WaitingGroupsStep(r', r, f, src, dst, req, n, k);
    KeptNamesStep(r', r, f, src, dst, req, n, k);
    NoOtherNamesStep(r', r, f, src, dst, n, k);
  }

  lemma DoneGroupsStep(r': Folder, r: Folder, f: Folder, src: (nat, nat) -> string, dst: (nat, nat) -> string,
                       req: nat, n: nat, k: nat)
    requires Plan(f, src, dst, req, n) && k < n
    requires GroupApplied(r', r, src, dst, k)
    requires DoneGroups(r, f, src, dst, k) && WaitingGroups(r, f, src, dst, n, k)
    ensures DoneGroups(r', f, src, dst, k + 1)
  {
    forall i: nat, s: nat | i < k + 1 && s < 3
      ensures MovedTo(r', f, src(i, s), dst(i, s))
    {
      if i < k {
        assert Outside(src(i, s), src, dst, k) && Outside(dst(i, s), src, dst, k);
      }
    }
  }

  lemma WaitingGroupsStep(r': Folder, r: Folder, f: Folder, src: (nat, nat) -> string, dst: (nat, nat) -> string,
                          req: nat, n: nat, k: nat)
    requires Plan(f, src, dst, req, n) && k < n
    requires GroupApplied(r', r, src, dst, k)
    requires WaitingGroups(r, f, src, dst, n, k)
    ensures WaitingGroups(r', f, src, dst, n, k + 1)
  {
    forall i: nat, s: nat | k + 1 <= i < n && s < 3
      ensures dst(i, s) !in r' && (src(i, s) in r' <==> src(i, s) in f)
      ensures src(i, s) in f ==> r'[src(i, s)] == f[src(i, s)]
    {
      assert Outside(src(i, s), src, dst, k) && Outside(dst(i, s), src, dst, k);
    }
  }

  lemma KeptNamesStep(r': Folder, r: Folder, f: Folder, src: (nat, nat) -> string, dst: (nat, nat) -> string,
                      req: nat, n: nat, k: nat)
    requires Plan(f, src, dst, req, n) && k < n
    requires GroupApplied(r', r, src, dst, k)
    requires KeptNames(r, f, src, n)
    ensures KeptNames(r', f, src, n)
  {
    InSourcesFrom(src, 0, n, k, 0);
    InSourcesFrom(src, 0, n, k, 1);
    InSourcesFrom(src, 0, n, k, 2);
    assert dst(k, 0) !in f && dst(k, 1) !in f && dst(k, 2) !in f;
    forall x | x in f && x !in SourcesFrom(src, 0, n) ensures x in r' && r'[x] == f[x] {
      assert Outside(x, src, dst, k);
    }
  }

  lemma NoOtherNamesStep(r': Folder, r: Folder, f: Folder, src: (nat, nat) -> string, dst: (nat, nat) -> string,
                         n: nat, k: nat)
    requires k < n
    requires GroupApplied(r', r, src, dst, k)
    requires NoOtherNames(r, f, src, dst, n, k)
    ensures NoOtherNames(r', f, src, dst, n, k + 1)
  {
    var here := {src(k, 0), src(k, 1), src(k, 2)};
    assert SourcesFrom(src, k, n) == here + SourcesFrom(src, k + 1, n);
    assert TargetsBefore(dst, k + 1) == TargetsBefore(dst, k) + {dst(k, 0), dst(k, 1), dst(k, 2)};
    forall x | x in r'
      ensures (x in f && x !in SourcesFrom(src, 0, n)) || x in TargetsBefore(dst, k + 1) || x in SourcesFrom(src, k + 1, n)
    {
      assert x != src(k, 0);
      assert x != src(k, 1);
      assert x != src(k, 2);
      if Outside(x, src, dst, k) {
        assert x in r;
      }
    }
  }

  /** Before any group runs, the folder is as described. */
  lemma RenamedStart(f: Folder, src: (nat, nat) -> string, dst: (nat, nat) -> string, req: nat, n: nat)
    requires Plan(f, src, dst, req, n)
    ensures Renamed(f, f, src, dst, n, 0)
  {
    forall x | x in f ensures (x in f && x !in SourcesFrom(src, 0, n)) || x in TargetsBefore(dst, 0) || x in SourcesFrom(src, 0, n) {
    }
  }

  /** Every prefix of the plan runs without exception and leaves the
      described folder. */
  lemma RunRenames(f: Folder, src: (nat, nat) -> string, dst: (nat, nat) -> string,
                   req: nat, n: nat, k: nat)
    requires Plan(f, src, dst, req, n) && k <= n
    ensures Run(f, src, dst, req, k).error == None
    ensures Renamed(Run(f, src, dst, req, k).folder, f, src, dst, n, k)
  {
    RenamedStart(f, src, dst, req, n);
    forall j: nat, r: Folder | j < n && Renamed(r, f, src, dst, n, j)
      ensures ApplyMoves(r, Group(src, dst, req, j)).error == None
      ensures Renamed(ApplyMoves(r, Group(src, dst, req, j)).folder, f, src, dst, n, j + 1)
    {
      RenamedStep(ApplyMoves(r, Group(src, dst, req, j)).folder, r, f, src, dst, req, n, j);
    }
    StepsKeep(f, Groups(src, dst, req), (j: nat, r: Folder) => Renamed(r, f, src, dst, n, j), n, k);
  }
}
