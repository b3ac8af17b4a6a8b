/** Exactly when an uninstall panics: `Remove` runs off its slice when it is asked for a string that is
    last and repeated, and removing other finalizers can make one last. */
module UninstallPanics {
  import opened Phases
  import opened Slices
  import opened Finalizers
  import opened Uninstall
  import opened UninstallRuns
  import Text

  // ---------------------------------------------------------------- fragile lists

  /** A repeated finalizer of `own` with nothing after it that is not in `gone`. */
  ghost predicate FragileAt(list: seq<string>, own: set<string>, gone: set<string>, i: nat) {
    i < |list| && list[i] in own && list[i] in list[..i] && forall j | i < j < |list| :: list[j] in gone
  }

  ghost predicate Fragile(list: seq<string>, own: set<string>, gone: set<string>) {
    exists i: nat :: FragileAt(list, own, gone, i)
  }

  /** Removing a finalizer of `gone` makes no list fragile that was not. */
  lemma ScanKeepsSturdy(list: seq<string>, s: string, own: set<string>, gone: set<string>)
    requires s in gone && !Fragile(list, own, gone)
    ensures !Fragile(SkipScan(list, s), own, gone)
  {
    var r := SkipScan(list, s);
    var at := SkipScanEmbeds(list, s);
    if i: nat :| FragileAt(r, own, gone, i) {
      var j :| 0 <= j < i && r[j] == r[i];
      assert list[..at[i]][at[j]] == list[at[i]];
      forall m | at[i] < m < |list| ensures list[m] in gone { EmbeddedAfter(r, list, s, at, i, m); }
      assert FragileAt(list, own, gone, at[i]);
    }
  }

  lemma SturdyDoesNotRunOff(list: seq<string>, s: string, own: set<string>, gone: set<string>)
    requires s in own && !Fragile(list, own, gone)
    ensures !RunsOff(list, s)
  {
    if RunsOff(list, s) {
      assert FragileAt(list, own, gone, |list| - 1);
    }
  }

  // ---------------------------------------------------------------- a sturdy list does not panic

  /** Every product handled has its finalizer in `fs`, or is skipped. */
  ghost predicate Covered(products: seq<string>, w: World, fs: set<string>) {
    forall p | p in products :: Skips(p, w) || Current(p) in fs
  }

  lemma {:induction false} HandledSturdy(
    st: Pass, p: string, snapshot: seq<string>, n: nat, w: World, own: set<string>, gone: set<string>)
    requires !Fragile(st.list, own, gone) && (Skips(p, w) || Current(p) in gone)
    ensures var (st1, stand) := Handled(st, p, snapshot, n, w);
      !Fragile(st1.list, own, gone) && ((Skips(p, w) || Current(p) in own) ==> stand != Panicked)
    decreases |snapshot|
  {
    if snapshot != [] {
      if Text.Contains(snapshot[0], p) {
        if !Skips(p, w) {
          ScanKeepsSturdy(st.list, Current(p), own, gone);
          if Current(p) in own {
            SturdyDoesNotRunOff(st.list, Current(p), own, gone);
          }
        }
        HandledSturdy(Called(st, p, n, w).0, p, snapshot[1..], n + 1, w, own, gone);
      } else {
        HandledSturdy(st, p, snapshot[1..], n, w, own, gone);
      }
    }
  }

  lemma {:induction false} StageSturdy(
    st: Pass, products: seq<string>, snapshot: seq<string>, w: World, own: set<string>, gone: set<string>)
    requires !Fragile(st.list, own, gone) && Covered(products, w, gone)
    ensures var (st1, stand) := StageHandled(st, products, snapshot, w);
      !Fragile(st1.list, own, gone) && (Covered(products, w, own) ==> stand != Panicked)
    decreases |products|
  {
    if products != [] {
      HandledSturdy(st, products[0], snapshot, 0, w, own, gone);
      StageSturdy(Handled(st, products[0], snapshot, 0, w).0, products[1..], snapshot, w, own, gone);
    }
  }

  // ---------------------------------------------------------------- stages in which everything completes

  /** Every cleanup completes, those of `liars` together with an error. */
  ghost predicate Completing(w: World, liars: set<string>) {
    forall p, n :: w.answers(p, n) == Cleanup(Outcome(Completed, p in liars))
  }

  function Fine(inProw: bool, liars: set<string>): World {
    World(inProw, (p, n) => Cleanup(Outcome(Completed, p in liars)), n => OK, true, Absent, Absent, true)
  }

  /** The finalizers such a stage gets rid of. */
  function Shed(products: set<string>, inProw: bool, liars: set<string>): set<string> {
    set p | p in products && !(p == GRAFANA && inProw) && p !in liars :: Current(p)
  }

  lemma {:induction false} WithoutOfScan(list: seq<string>, s: string)
    ensures Without(SkipScan(list, s), s) == Without(list, s)
    decreases |list|
  {
    if list != [] {
      if list[0] != s || |list| == 1 {
        WithoutOfScan(list[1..], s);
      } else {
        WithoutOfScan(list[2..], s);
        assert list[1..][1..] == list[2..];
      }
    }
  }

  /** Up to its own finalizer a product leaves the list as it is. */
  lemma {:induction false} HandledWithout(
    st: Pass, p: string, snapshot: seq<string>, n: nat, w: World, liars: set<string>)
    requires Completing(w, liars)
    ensures var (st1, stand) := Handled(st, p, snapshot, n, w);
      && stand != Pending
      && Without(st1.list, Current(p)) == Without(st.list, Current(p))
      && (Skips(p, w) || p in liars ==> stand == Settled && st1.list == st.list)
    decreases |snapshot|
  {
    if snapshot != [] {
      WithoutOfScan(st.list, Current(p));
      HandledWithout(st, p, snapshot[1..], n, w, liars);
      HandledWithout(Called(st, p, n, w).0, p, snapshot[1..], n + 1, w, liars);
    }
  }

  lemma HandledSheds(st: Pass, p: string, snapshot: seq<string>, w: World, liars: set<string>)
    requires Completing(w, liars) && Copies(st.list, p) <= Copies(snapshot, p)
    ensures var (st1, stand) := Handled(st, p, snapshot, 0, w);
      && stand != Pending
      && (stand == Settled ==> st1.list == Keep(st.list, Shed({p}, w.inProw, liars)))
  {
    var (st1, stand) := Handled(st, p, snapshot, 0, w);
    HandledWithout(st, p, snapshot, 0, w, liars);
    if stand == Settled {
      if Skips(p, w) || p in liars {
        KeepNothing(st.list);
        assert Shed({p}, w.inProw, liars) == {};
      } else {
        SettledMeansGone(st, p, snapshot, 0, w);
        WithoutAbsent(st1.list, Current(p));
        WithoutIsKeep(st.list, Current(p));
        assert Shed({p}, w.inProw, liars) == {Current(p)};
      }
    }
  }

  /** Unless it panics, such a stage settles and leaves everything but what it sheds. */
  lemma {:induction false} StageSheds(
    st: Pass, products: seq<string>, snapshot: seq<string>, w: World, liars: set<string>)
    requires Completing(w, liars) && forall q :: Copies(st.list, q) <= Copies(snapshot, q)
    ensures var (st1, stand) := StageHandled(st, products, snapshot, w);
      && stand != Pending
      && (stand == Settled ==> st1.list == Keep(st.list, Shed(Elements(products), w.inProw, liars)))
    decreases |products|
  {
    if products == [] {
      KeepNothing(st.list);
      assert Shed(Elements(products), w.inProw, liars) == {};
    } else {
      var p, rest := products[0], products[1..];
      var st1 := Handled(st, p, snapshot, 0, w).0;
      HandledSheds(st, p, snapshot, w, liars);
      forall q ensures Copies(st1.list, q) <= Copies(snapshot, q) {
        HandledCopies(st, p, snapshot, 0, w, q);
        assert Copies(st.list, q) <= Copies(snapshot, q);
      }
      StageSheds(st1, rest, snapshot, w, liars);
      ShedInTurn(st.list, products, w.inProw, liars);
    }
  }

  lemma ShedInTurn(list: seq<string>, products: seq<string>, inProw: bool, liars: set<string>)
    requires products != []
    ensures Keep(Keep(list, Shed({products[0]}, inProw, liars)), Shed(Elements(products[1..]), inProw, liars))
         == Keep(list, Shed(Elements(products), inProw, liars))
  {
    var p, rest := products[0], products[1..];
    var a, b := Shed({p}, inProw, liars), Shed(Elements(rest), inProw, liars);
    assert products == [p] + rest;
    assert Elements(products) == {p} + Elements(rest);
    assert Shed(Elements(products), inProw, liars) == a + b;
    KeepTwice(list, a, b);
  }

  lemma {:induction false} StageSnoc(st: Pass, products: seq<string>, p: string, snapshot: seq<string>, w: World)
    requires StageHandled(st, products, snapshot, w).1 != Pending
    ensures var (st1, stand) := StageHandled(st, products, snapshot, w);
      StageHandled(st, products + [p], snapshot, w).1
      == if stand == Panicked then Panicked else Handled(st1, p, snapshot, 0, w).1
    decreases |products|
  {
    var all := products + [p];
    if products == [] {
      assert all[0] == p && all[1..] == [];
    } else {
      assert all[0] == products[0] && all[1..] == products[1..] + [p];
      var (st1, stand) := Handled(st, products[0], snapshot, 0, w);
      if stand != Panicked {
        StageSnoc(st1, products[1..], p, snapshot, w);
      }
    }
  }

  /** A product whose finalizer is last and repeated panics at once. */
  lemma {:induction false} HandledRunsOff(
    st: Pass, p: string, snapshot: seq<string>, n: nat, w: World, liars: set<string>)
    requires Completing(w, liars) && p !in liars && !Skips(p, w)
    requires RunsOff(st.list, Current(p)) && Current(p) in snapshot
    ensures Handled(st, p, snapshot, n, w).1 == Panicked
    decreases |snapshot|
  {
    OwnFinalizerMatches(p);
    if !Text.Contains(snapshot[0], p) {
      HandledRunsOff(st, p, snapshot[1..], n, w, liars);
    }
  }

  // ---------------------------------------------------------------- a fragile list can panic

  lemma {:induction false} KeepOfConcat(a: seq<string>, b: seq<string>, drop: set<string>)
    ensures Keep(a + b, drop) == Keep(a, drop) + Keep(b, drop)
  {
    if a == [] {
      assert a + b == b;
    } else {
      assert (a + b)[0] == a[0] && (a + b)[1..] == a[1..] + b;
      KeepOfConcat(a[1..], b, drop);
    }
  }

  /** With everything else gone that may go, the repeated finalizer is last. */
  lemma FragileRunsOff(list: seq<string>, own: set<string>, gone: set<string>, drop: set<string>, i: nat)
    requires FragileAt(list, own, gone, i) && gone <= drop + {list[i]} && list[i] !in drop
    ensures RunsOff(Keep(list, drop), list[i])
  {
    var f := list[i];
    var a, b := Keep(list[..i], drop), Keep(list[i..], drop);
    assert list == list[..i] + list[i..];
    KeepOfConcat(list[..i], list[i..], drop);
    assert list[i..][0] == f;
    forall x | x in b ensures x == f {
      var j :| 0 <= j < |list[i..]| && list[i..][j] == x;
      assert list[i + j] == x;
    }
    RunsOffAfter(a, b, f);
  }

  lemma RunsOffAfter(a: seq<string>, b: seq<string>, f: string)
    requires f in a && f in b && forall x | x in b :: x == f
    ensures RunsOff(a + b, f)
  {
    var c := a + b;
    assert c[|c| - 1] == b[|b| - 1] && b[|b| - 1] in b;
    assert c[..|c| - 1] == a + b[..|b| - 1];
  }

  lemma {:induction false} Listed(products: set<string>) returns (ps: seq<string>)
    ensures NoDuplicates(ps) && Elements(ps) == products
  {
    ps := [];
    if products != {} {
      var p :| p in products;
      var rest := Listed(products - {p});
      ps := rest + [p];
      assert forall q :: q in ps <==> q in rest || q == p;
      assert p !in Elements(rest);
      assert Elements(ps) == Elements(rest) + {p};
    }
  }

  /** A fragile list, its repeated finalizer that of `p`: after all other products `p` panics, if none
      of them has. */
  lemma OthersFirst(list: seq<string>, others: seq<string>, p: string, w: World, i: nat)
    requires var fs := Shed(Elements(others) + {p}, w.inProw, {}); FragileAt(list, fs, fs, i)
    requires Completing(w, {}) && !Skips(p, w) && p !in others && list[i] == Current(p)
    ensures StageHandled(Pass(list, []), others + [p], list, w).1 == Panicked
  {
    var st := Pass(list, []);
    var fs, drop := Shed(Elements(others) + {p}, w.inProw, {}), Shed(Elements(others), w.inProw, {});
    StageSheds(st, others, list, w, {});
    StageSnoc(st, others, p, list, w);
    var (st1, stand) := StageHandled(st, others, list, w);
    if stand == Settled {
      if Current(p) in drop {
        var q :| q in others && Current(q) == Current(p);
        CurrentInjective(p, q);
      }
      FragileRunsOff(list, fs, fs, drop, i);
      HandledRunsOff(st1, p, list, 0, w, {});
    }
  }

  lemma StagePanics(list: seq<string>, products: set<string>, inProw: bool, i: nat) returns (ps: seq<string>, w: World)
    requires var fs := Shed(products, inProw, {}); FragileAt(list, fs, fs, i)
    ensures NoDuplicates(ps) && Elements(ps) == products && w.inProw == inProw && Completing(w, {})
    ensures StageHandled(Pass(list, []), ps, list, w).1 == Panicked
  {
    w := Fine(inProw, {});
    var p :| p in products && !(p == GRAFANA && inProw) && Current(p) == list[i];
    var others := Listed(products - {p});
    assert Elements(others) + {p} == products;
    OthersFirst(list, others, p, w, i);
    ps := others + [p];
    assert p !in Elements(others);
    assert Elements(ps) == Elements(others) + {p};
  }

  // ---------------------------------------------------------------- the exact conditions

  ghost predicate StageNeverPanics(list: seq<string>, products: set<string>, inProw: bool) {
    forall ps, w: World | NoDuplicates(ps) && Elements(ps) == products && w.inProw == inProw ::
      StageHandled(Pass(list, []), ps, list, w).1 != Panicked
  }

  /** A stage panics in no order and whatever its cleanups report, exactly when every repeated finalizer
      it may remove is followed by something it does not. */
  lemma StageNeverPanicsIff(list: seq<string>, products: set<string>, inProw: bool)
    ensures var fs := Shed(products, inProw, {}); StageNeverPanics(list, products, inProw) <==> !Fragile(list, fs, fs)
  {
    var fs := Shed(products, inProw, {});
    if i: nat :| FragileAt(list, fs, fs, i) {
      var ps, w := StagePanics(list, products, inProw, i);
    } else {
      forall ps, w: World | NoDuplicates(ps) && Elements(ps) == products && w.inProw == inProw
        ensures StageHandled(Pass(list, []), ps, list, w).1 != Panicked
      {
        AllCovered(ps, products, w);
        StageSturdy(Pass(list, []), ps, list, w, fs, fs);
      }
    }
  }

  lemma AllCovered(ps: seq<string>, products: set<string>, w: World)
    requires Elements(ps) == products
    ensures Covered(ps, w, Shed(products, w.inProw, {}))
  {
    forall p | p in ps ensures Skips(p, w) || Current(p) in Shed(products, w.inProw, {}) {
      assert p in Elements(ps);
    }
  }

  const CLOUD := Current(CLOUD_RESOURCES)

  /** Fragile within the first stage, or in the second after whatever the first may have removed. */
  ghost predicate PassFragile(list: seq<string>, products: set<string>, inProw: bool) {
    var fs := Shed(products, inProw, {});
    Fragile(list, fs, fs) || Fragile(list, {CLOUD}, fs + {CLOUD})
  }

  ghost predicate PassNeverPanics(list: seq<string>, products: set<string>, inProw: bool) {
    forall stages, w: World | IsTable(stages, products) && w.inProw == inProw :: !Panics(list, stages, w)
  }

  function TableOf(ps: seq<string>): seq<Stage> {
    [Stage("uninstall - products", ps), Stage("uninstall - cloud-resources", [CLOUD_RESOURCES]),
     Stage("uninstall - bootstrap", [])]
  }

  lemma StageOfOne(st: Pass, p: string, snapshot: seq<string>, w: World)
    ensures StageHandled(st, [p], snapshot, w) == Handled(st, p, snapshot, 0, w)
  {
    assert [p][1..] == [];
  }

  lemma CloudStagePanics(list: seq<string>, products: set<string>, ps: seq<string>, w: World, i: nat)
    requires NoDuplicates(ps) && Elements(ps) == products && CLOUD_RESOURCES !in products && Completing(w, {})
    requires FragileAt(list, {CLOUD}, Shed(products, w.inProw, {}) + {CLOUD}, i)
    ensures Panics(list, TableOf(ps), w)
  {
    var st, fs := Pass(list, []), Shed(products, w.inProw, {});
    WalkOfTable(list, TableOf(ps), products, w);
    StageSheds(st, ps, list, w, {});
    var (st1, stand) := StageHandled(st, ps, list, w);
    if stand == Settled {
      if CLOUD in fs {
        var q :| q in products && Current(q) == CLOUD;
        CurrentInjective(q, CLOUD_RESOURCES);
      }
      FragileRunsOff(list, {CLOUD}, fs + {CLOUD}, fs, i);
      HandledRunsOff(st1, CLOUD_RESOURCES, list, 0, w, {});
      StageOfOne(st1, CLOUD_RESOURCES, list, w);
    }
  }

  lemma PassSturdy(list: seq<string>, stages: seq<Stage>, products: set<string>, w: World)
    requires IsTable(stages, products) && !PassFragile(list, products, w.inProw)
    ensures !Panics(list, stages, w)
  {
    var fs, st := Shed(products, w.inProw, {}), Pass(list, []);
    var ps := stages[0].products;
    var st1 := StageHandled(st, ps, list, w).0;
    WalkOfTable(list, stages, products, w);
    AllCovered(ps, products, w);
    StageSturdy(st, ps, list, w, fs, fs);
    StageSturdy(st, ps, list, w, {CLOUD}, fs + {CLOUD});
    StageSturdy(st1, [CLOUD_RESOURCES], list, w, {CLOUD}, fs + {CLOUD});
  }

  lemma SomePassPanics(list: seq<string>, products: set<string>, inProw: bool) returns (stages: seq<Stage>, w: World)
    requires CLOUD_RESOURCES !in products && PassFragile(list, products, inProw)
    ensures IsTable(stages, products) && w.inProw == inProw && Completing(w, {}) && Panics(list, stages, w)
  {
    var fs := Shed(products, inProw, {});
    var ps: seq<string>;
    if i: nat :| FragileAt(list, fs, fs, i) {
      ps, w := StagePanics(list, products, inProw, i);
      assert IsTable(TableOf(ps), products);
      WalkOfTable(list, TableOf(ps), products, w);
    } else {
      var i: nat :| FragileAt(list, {CLOUD}, fs + {CLOUD}, i);
      ps := Listed(products);
      w := Fine(inProw, {});
      assert IsTable(TableOf(ps), products);
      CloudStagePanics(list, products, ps, w, i);
    }
    stages := TableOf(ps);
  }

  /** A pass over a table panics under no order and no outcomes exactly when its list is not fragile. */
  lemma PassNeverPanicsIff(list: seq<string>, products: set<string>, inProw: bool)
    requires CLOUD_RESOURCES !in products
    ensures PassNeverPanics(list, products, inProw) <==> !PassFragile(list, products, inProw)
  {
    if PassFragile(list, products, inProw) {
      var stages, w := SomePassPanics(list, products, inProw);
    } else {
      forall stages, w: World | IsTable(stages, products) && w.inProw == inProw ensures !Panics(list, stages, w) {
        PassSturdy(list, stages, products, w);
      }
    }
  }

  // ---------------------------------------------------------------- over runs of passes

  ghost predicate TablePasses(passes: seq<(seq<Stage>, World)>, products: set<string>, inProw: bool) {
    forall x | x in passes :: IsTable(x.0, products) && x.1.inProw == inProw
  }

  ghost predicate AllSound(passes: seq<(seq<Stage>, World)>) { forall x | x in passes :: Sound(x.1) }

  lemma NextOfPass(list: seq<string>, stages: seq<Stage>, w: World)
    ensures var next := Next(list, stages, w);
      next == list || next == [] || next == Walked(Pass(list, []), stages, list, w).0.list
  {
    PassAfterWalk(list, stages, w);
  }

  /** Without cleanups that complete with an error, a pass leaves a list that is not fragile so: the
      second stage only starts once the first has shed everything. */
  lemma SoundPassKeepsSturdy(list: seq<string>, stages: seq<Stage>, products: set<string>, w: World)
    requires IsTable(stages, products) && Sound(w) && !PassFragile(list, products, w.inProw)
    ensures !PassFragile(Next(list, stages, w), products, w.inProw)
  {
    var fs, st, ps := Shed(products, w.inProw, {}), Pass(list, []), stages[0].products;
    var (st1, stand1) := StageHandled(st, ps, list, w);
    var st2 := StageHandled(st1, [CLOUD_RESOURCES], list, w).0;
    NextOfPass(list, stages, w);
    WalkOfTable(list, stages, products, w);
    AllCovered(ps, products, w);
    StageSturdy(st, ps, list, w, fs, fs);
    StageSturdy(st, ps, list, w, {CLOUD}, fs + {CLOUD});
    StageSturdy(st1, [CLOUD_RESOURCES], list, w, {CLOUD}, fs + {CLOUD});
    if stand1 == Settled {
      StageProgress(st1, [CLOUD_RESOURCES], list, w);
      forall p | p in products && !Skips(p, w) ensures Current(p) !in st2.list {
        assert p in Elements(ps);
        SettledStageHoldsNothing(st, ps, list, w, p);
      }
      assert forall f | f in fs :: f !in st2.list;
    }
  }

  lemma {:induction false} SoundRunSturdy(
    list: seq<string>, passes: seq<(seq<Stage>, World)>, products: set<string>, inProw: bool)
    requires TablePasses(passes, products, inProw) && AllSound(passes) && !PassFragile(list, products, inProw)
    ensures !EverPanics(list, passes)
    decreases |passes|
  {
    if passes != [] && list != [] {
      PassSturdy(list, passes[0].0, products, passes[0].1);
      SoundPassKeepsSturdy(list, passes[0].0, products, passes[0].1);
      SoundRunSturdy(Next(list, passes[0].0, passes[0].1), passes[1..], products, inProw);
    }
  }

  /** If no cleanup completes with an error, no run of passes panics exactly when no first pass does. */
  lemma SoundRunNeverPanicsIff(list: seq<string>, products: set<string>, inProw: bool)
    requires CLOUD_RESOURCES !in products
    ensures (forall passes | TablePasses(passes, products, inProw) && AllSound(passes) :: !EverPanics(list, passes))
       <==> !PassFragile(list, products, inProw)
  {
    if PassFragile(list, products, inProw) {
      var stages, w := SomePassPanics(list, products, inProw);
      assert SoundFor(w, "") && Sound(w);
      var passes := [(stages, w)];
      assert TablePasses(passes, products, inProw) && AllSound(passes) && EverPanics(list, passes);
    } else {
      forall passes | TablePasses(passes, products, inProw) && AllSound(passes) ensures !EverPanics(list, passes) {
        SoundRunSturdy(list, passes, products, inProw);
      }
    }
  }

  /** Everything the two stages together may remove. */
  function AllShed(products: set<string>, inProw: bool): set<string> { Shed(products, inProw, {}) + {CLOUD} }

  lemma FragileGrows(list: seq<string>, own: set<string>, gone: set<string>, own': set<string>, gone': set<string>)
    requires own <= own' && gone <= gone' && Fragile(list, own, gone)
    ensures Fragile(list, own', gone')
  {
    var i: nat :| FragileAt(list, own, gone, i);
    assert FragileAt(list, own', gone', i);
  }

  lemma PassSturdyThroughout(list: seq<string>, stages: seq<Stage>, products: set<string>, w: World)
    requires var g := AllShed(products, w.inProw); IsTable(stages, products) && !Fragile(list, g, g)
    ensures var g := AllShed(products, w.inProw); !Panics(list, stages, w) && !Fragile(Next(list, stages, w), g, g)
  {
    var g, st, ps := AllShed(products, w.inProw), Pass(list, []), stages[0].products;
    var st1 := StageHandled(st, ps, list, w).0;
    NextOfPass(list, stages, w);
    WalkOfTable(list, stages, products, w);
    AllCovered(ps, products, w);
    StageSturdy(st, ps, list, w, g, g);
    StageSturdy(st1, [CLOUD_RESOURCES], list, w, g, g);
  }

  lemma {:induction false} RunSturdy(
    list: seq<string>, passes: seq<(seq<Stage>, World)>, products: set<string>, inProw: bool)
    requires var g := AllShed(products, inProw); TablePasses(passes, products, inProw) && !Fragile(list, g, g)
    ensures !EverPanics(list, passes)
    decreases |passes|
  {
    if passes != [] && list != [] {
      PassSturdyThroughout(list, passes[0].0, products, passes[0].1);
      RunSturdy(Next(list, passes[0].0, passes[0].1), passes[1..], products, inProw);
    }
  }

  /** A pass in which `p` completes with an error and everything else really completes: unless it
      panics, it leaves all but what the others shed. */
  lemma LyingPass(list: seq<string>, ps: seq<string>, products: set<string>, p: string, inProw: bool)
    requires NoDuplicates(ps) && Elements(ps) == products && CLOUD_RESOURCES !in products && p in products
    requires Current(p) in list
    ensures var w := Fine(inProw, {p});
      Panics(list, TableOf(ps), w) || Next(list, TableOf(ps), w) == Keep(list, Shed(products, inProw, {p}) + {CLOUD})
  {
    var w, st := Fine(inProw, {p}), Pass(list, []);
    var a := Shed(products, inProw, {p});
    WalkOfTable(list, TableOf(ps), products, w);
    StageSheds(st, ps, list, w, {p});
    var st1 := StageHandled(st, ps, list, w).0;
    forall q ensures Copies(st1.list, q) <= Copies(list, q) { StageCopies(st, ps, list, w, q); }
    StageSheds(st1, [CLOUD_RESOURCES], list, w, {p});
    assert Shed(Elements([CLOUD_RESOURCES]), inProw, {p}) == {CLOUD};
    KeepTwice(list, a, {CLOUD});
    NotShed(products, inProw, p);
    assert Current(p) in Keep(list, a + {CLOUD});
    SpellingsDistinct(p, p);
  }

  lemma NotShed(products: set<string>, inProw: bool, p: string)
    requires p in products && CLOUD_RESOURCES !in products
    ensures Current(p) !in Shed(products, inProw, {p}) + {CLOUD}
  {
    forall q | Current(q) == Current(p) ensures q == p { CurrentInjective(q, p); }
  }

  lemma {:induction false} StageCopies(st: Pass, products: seq<string>, snapshot: seq<string>, w: World, q: string)
    ensures Copies(StageHandled(st, products, snapshot, w).0.list, q) <= Copies(st.list, q)
    decreases |products|
  {
    if products != [] {
      HandledCopies(st, products[0], snapshot, 0, w, q);
      StageCopies(Handled(st, products[0], snapshot, 0, w).0, products[1..], snapshot, w, q);
    }
  }

  lemma TwoPassesPanic(list: seq<string>, products: set<string>, inProw: bool, p: string, i: nat)
    returns (passes: seq<(seq<Stage>, World)>)
    requires CLOUD_RESOURCES !in products && p in products && !(p == GRAFANA && inProw)
    requires var g := AllShed(products, inProw); FragileAt(list, g, g, i) && list[i] == Current(p)
    ensures TablePasses(passes, products, inProw) && EverPanics(list, passes)
  {
    var fs, g, drop := Shed(products, inProw, {}), AllShed(products, inProw), Shed(products, inProw, {p}) + {CLOUD};
    var ps := Listed(products);
    var first := (TableOf(ps), Fine(inProw, {p}));
    assert IsTable(first.0, products);
    LyingPass(list, ps, products, p, inProw);
    if Panics(list, first.0, first.1) {
      passes := [first];
    } else {
      var next := Next(list, first.0, first.1);
      NotShed(products, inProw, p);
      FragileRunsOff(list, g, g, drop, i);
      assert FragileAt(next, fs, fs, |next| - 1);
      var stages, w := SomePassPanics(next, products, inProw);
      passes := [first, (stages, w)];
      assert passes[1..] == [(stages, w)];
      assert EverPanics(next, passes[1..]);
    }
  }

  /** Whatever cleanups report, no run of passes panics exactly when every repeated finalizer that the
      table may remove is followed by something the table does not. */
  lemma RunNeverPanicsIff(list: seq<string>, products: set<string>, inProw: bool)
    requires CLOUD_RESOURCES !in products
    ensures var g := AllShed(products, inProw);
      (forall passes | TablePasses(passes, products, inProw) :: !EverPanics(list, passes)) <==> !Fragile(list, g, g)
  {
    var fs, g := Shed(products, inProw, {}), AllShed(products, inProw);
    if i: nat :| FragileAt(list, g, g, i) {
      if list[i] == CLOUD {
        assert FragileAt(list, {CLOUD}, fs + {CLOUD}, i);
        var stages, w := SomePassPanics(list, products, inProw);
        var passes := [(stages, w)];
        assert TablePasses(passes, products, inProw) && EverPanics(list, passes);
      } else {
        var p :| p in products && !(p == GRAFANA && inProw) && Current(p) == list[i];
        var passes := TwoPassesPanic(list, products, inProw, p, i);
      }
    } else {
      forall passes | TablePasses(passes, products, inProw) ensures !EverPanics(list, passes) {
        RunSturdy(list, passes, products, inProw);
      }
    }
  }

  // ---------------------------------------------------------------- order

  lemma {:induction false} HandledIdle(st: Pass, p: string, snapshot: seq<string>, n: nat, w: World)
    requires AllGoesWell(w) && Current(p) !in st.list
    ensures Handled(st, p, snapshot, n, w) == (st, Settled)
    decreases |snapshot|
  {
    if snapshot != [] {
      HandledIdle(st, p, snapshot[1..], n, w);
      HandledIdle(st, p, snapshot[1..], n + 1, w);
    }
  }

  /** One successful removal that takes all copies settles a product. */
  lemma {:induction false} HandledWithCopies(st: Pass, p: string, snapshot: seq<string>, n: nat, w: World)
    requires AllGoesWell(w) && !Skips(p, w) && Current(p) in st.list && Current(p) in snapshot
    requires !RunsOff(st.list, Current(p)) && Current(p) !in SkipScan(st.list, Current(p))
    ensures var (st1, stand) := Handled(st, p, snapshot, n, w);
      stand == Settled && st1.list == SkipScan(st.list, Current(p))
    decreases |snapshot|
  {
    OwnFinalizerMatches(p);
    if Text.Contains(snapshot[0], p) {
      HandledIdle(Called(st, p, n, w).0, p, snapshot[1..], n + 1, w);
    } else {
      HandledWithCopies(st, p, snapshot[1..], n, w);
    }
  }

  lemma RemovalsInEitherOrder(f: string, x: string, g: string)
    requires f != x && f != g && g != x
    ensures !RunsOff([f, x, f, g], f) && SkipScan([f, x, f, g], f) == [x, g]
    ensures !RunsOff([x, g], g) && SkipScan([x, g], g) == [x]
    ensures !RunsOff([f, x, f, g], g) && SkipScan([f, x, f, g], g) == [f, x, f] && RunsOff([f, x, f], f)
  {
    assert [f, x, f, g][1..] == [x, f, g] && [f, x, f, g][2..] == [f, g] && [f, g][2..] == [];
    assert [x, f, g][1..] == [f, g] && [f, g][1..] == [g] && [x, g][1..] == [g];
    assert SkipScan([g], g) == [] && SkipScan([f, g], f) == [g] && SkipScan([f, g], g) == [f];
    assert SkipScan([x, f, g], g) == [x] + [f];
    assert [f, x, f][..2][0] == f;
  }

  lemma StageOfTwo(st: Pass, p: string, q: string, snapshot: seq<string>, w: World)
    requires Handled(st, p, snapshot, 0, w).1 == Settled
    ensures StageHandled(st, [p, q], snapshot, w).1 == Handled(Handled(st, p, snapshot, 0, w).0, q, snapshot, 0, w).1
  {
    assert [p, q][1..] == [q] && [q][1..] == [];
    var st1 := Handled(st, p, snapshot, 0, w).0;
    var (st2, stand) := Handled(st1, q, snapshot, 0, w);
    assert StageHandled(st2, [], snapshot, w) == (st2, Settled);
    assert StageHandled(st1, [q], snapshot, w).1 == stand;
  }

  /** Why the order of products is irrelevant only on duplicate-free lists: removing the last finalizer
      first makes a repeated one last, and its removal then panics. */
  lemma OrderMattersWithDuplicates(p: string, q: string, w: World)
    requires p != q && AllGoesWell(w) && !Skips(p, w) && !Skips(q, w)
    ensures var list := [Current(p), DELETION, Current(p), Current(q)];
      && StageHandled(Pass(list, []), [p, q], list, w).1 == Settled
      && StageHandled(Pass(list, []), [q, p], list, w).1 == Panicked
  {
    var f, g := Current(p), Current(q);
    var list := [f, DELETION, f, g];
    var st := Pass(list, []);
    if f == g {
      CurrentInjective(p, q);
    }
    SpellingsDistinct(p, q);
    SpellingsDistinct(q, p);
    RemovalsInEitherOrder(f, DELETION, g);
    HandledWithCopies(st, p, list, 0, w);
    HandledWithCopies(Handled(st, p, list, 0, w).0, q, list, 0, w);
    StageOfTwo(st, p, q, list, w);
    HandledWithCopies(st, q, list, 0, w);
    HandledRunsOff(Handled(st, q, list, 0, w).0, p, list, 0, w, {});
    StageOfTwo(st, q, p, list, w);
  }
}
