/** `plotting/rhi_plot.py`: two-panel RHI images (reflectivity over velocity),
    one per input file, skipped when the image exists, every failure caught
    and logged as one line. */
module RhiPlot {
  import opened Strings
  import opened Store
  import opened Artifacts

  /** One panel of the figure: its field, colour map and, when fixed, its
      limits. The velocity limits come from the Nyquist velocity at run time. */
  datatype Panel = Panel(field: string, cmap: string, limits: Option<(int, int)>)

  /** The per-variable table: only `DBZHC_VEL` is configured, and its two
      panels are the two fields named in the variable id. Any other id leaves
      `varid1` unassigned. */
  function Panels(varid: string): (r: Option<seq<Panel>>)
    ensures r.Some? <==> varid == "DBZHC_VEL"
    ensures r.Some? ==> |r.value| == 2
  {
    if varid == "DBZHC_VEL" then
      Some([Panel("DBZHC", "pyart_NWSRef", Some((-5, 50))),
            Panel("VEL", "pyart_NWSVel", None)])
    else None
  }

  /** The two panels' fields are the two `_` fields of the variable id. */
  lemma PanelFields(varid: string)
    requires Panels(varid).Some?
    ensures var p := Panels(varid).value;
      [p[0].field, p[1].field] == Split(varid, '_')
  {
    assert varid == "DBZHC" + ['_'] + "VEL";
    SplitCons("DBZHC", '_', "VEL");
    SplitNoSep("VEL", '_');
  }

  /** The body of the `try` in `create_sweep`: read, check for the image,
      filter and draw, create the directory, save. */
  function Attempt(fs: Fs, figdir: string, subdir: string, varid: string, s: Sweep): (r: Run)
    ensures r.fs.logs == fs.logs
  {
    if !s.readable then Run(fs, Some(Unreadable))
    else
      var key := ArtifactKey(figdir, subdir, varid, s.angle, s.path);
      if key in fs.files then Run(fs, None)
      else if Panels(varid).None? then Run(fs, Some(Unbound("varid1")))
      else if !s.renders then Run(fs, Some(RenderFailed))
      else
        var made := MakeDirs(fs, FigPath(figdir, subdir, varid, s.angle));
        if made.Failed? then Run(fs, Some(made.error))
        else
          var saved := Save(made.fs, key);
          Run(saved.After(made.fs), saved.Raised())
  }

  /** A call that raises adds no file; otherwise it adds at most its image.
      No directory disappears, and the only directories added are those of
      the image's chain. */
  lemma AttemptBounds(fs: Fs, figdir: string, subdir: string, varid: string, s: Sweep)
    ensures var r := Attempt(fs, figdir, subdir, varid, s);
      && (r.raised.Some? ==> r.fs.files == fs.files)
      && fs.files <= r.fs.files <= fs.files + {ArtifactKey(figdir, subdir, varid, s.angle, s.path)}
      && fs.dirs <= r.fs.dirs <= fs.dirs + Chain(FigPath(figdir, subdir, varid, s.angle))
  {
    var key := ArtifactKey(figdir, subdir, varid, s.angle, s.path);
    if s.readable && key !in fs.files && Panels(varid).Some? && s.renders {
      var made := MakeDirs(fs, FigPath(figdir, subdir, varid, s.angle));
      if made.Done? {
        assert made.fs.files == fs.files;
      }
    }
  }

  /** The line the `except` clause appends. */
  function FailLine(filename: string, varid: string): string
  {
    filename + " " + varid + " failed, skipping\n"
  }

  /** `create_sweep` as a whole: whatever the body raised becomes one log
      line and nothing propagates. */
  function AfterSweep(fs: Fs, logpath: string, figdir: string, subdir: string, varid: string, s: Sweep): Fs
  {
    var r := Attempt(fs, figdir, subdir, varid, s);
    if r.raised.Some? then Append(r.fs, logpath, FailLine(s.path, varid)) else r.fs
  }

  /** An existing image is left alone: nothing is drawn, saved or logged. */
  lemma SkipsExisting(fs: Fs, logpath: string, figdir: string, subdir: string, varid: string, s: Sweep)
    requires s.readable && ArtifactKey(figdir, subdir, varid, s.angle, s.path) in fs.files
    ensures AfterSweep(fs, logpath, figdir, subdir, varid, s) == fs
  {
  }

  /** A call that raises nothing and finds no image adds exactly its image
      and the image's directory chain, and nothing else. */
  lemma DrawsExactlyOne(fs: Fs, logpath: string, figdir: string, subdir: string, varid: string, s: Sweep)
    requires Attempt(fs, figdir, subdir, varid, s).raised.None?
    requires ArtifactKey(figdir, subdir, varid, s.angle, s.path) !in fs.files
    ensures AfterSweep(fs, logpath, figdir, subdir, varid, s) ==
      Fs(fs.files + {ArtifactKey(figdir, subdir, varid, s.angle, s.path)},
         fs.dirs + Chain(FigPath(figdir, subdir, varid, s.angle)), fs.logs,
         fs.saved + [ArtifactKey(figdir, subdir, varid, s.angle, s.path)])
  {
  }

  /** A call that raises adds no file and exactly one log line, and touches
      no other log. */
  lemma FailureLogsOnce(fs: Fs, logpath: string, figdir: string, subdir: string, varid: string, s: Sweep)
    requires Attempt(fs, figdir, subdir, varid, s).raised.Some?
    ensures var r := AfterSweep(fs, logpath, figdir, subdir, varid, s);
      && r.files == fs.files
      && LogOf(r, logpath) == LogOf(fs, logpath) + [FailLine(s.path, varid)]
      && (forall q :: q != logpath ==> LogOf(r, q) == LogOf(fs, q))
  {
  }

  /** Whatever happens, the only file a call can add is its own image and
      no directory disappears. */
  lemma SweepBounds(fs: Fs, logpath: string, figdir: string, subdir: string, varid: string, s: Sweep)
    ensures var r := AfterSweep(fs, logpath, figdir, subdir, varid, s);
      && fs.files <= r.files <= fs.files + {ArtifactKey(figdir, subdir, varid, s.angle, s.path)}
      && fs.dirs <= r.dirs <= fs.dirs + Chain(FigPath(figdir, subdir, varid, s.angle))
  {
    AttemptBounds(fs, figdir, subdir, varid, s);
  }

  /** `savefig` never overwrites: a call saves nothing, or saves its own
      image once when that image did not exist, and the image then exists. */
  lemma NoOverwrite(fs: Fs, logpath: string, figdir: string, subdir: string, varid: string, s: Sweep)
    ensures var r, key := AfterSweep(fs, logpath, figdir, subdir, varid, s), ArtifactKey(figdir, subdir, varid, s.angle, s.path);
      || r.saved == fs.saved
      || (key !in fs.files && key in r.files && r.saved == fs.saved + [key])
  {
  }

  /** Whatever happens, the log gains at most the failure line and no other
      log changes. */
  lemma SweepLog(fs: Fs, logpath: string, figdir: string, subdir: string, varid: string, s: Sweep)
    ensures var r := AfterSweep(fs, logpath, figdir, subdir, varid, s);
      && (LogOf(r, logpath) == LogOf(fs, logpath) ||
          LogOf(r, logpath) == LogOf(fs, logpath) + [FailLine(s.path, varid)])
      && (forall q :: q != logpath ==> LogOf(r, q) == LogOf(fs, q))
  {
    if Attempt(fs, figdir, subdir, varid, s).raised.Some? {
      FailureLogsOnce(fs, logpath, figdir, subdir, varid, s);
    }
  }

  /** An unconfigured variable id never yields an image: a readable input
      whose image is missing ends in the failure line. */
  lemma UnconfiguredFails(fs: Fs, logpath: string, figdir: string, subdir: string, varid: string, s: Sweep)
    requires varid != "DBZHC_VEL"
    ensures var r := AfterSweep(fs, logpath, figdir, subdir, varid, s);
      r.files == fs.files && r.dirs == fs.dirs &&
      (s.readable && ArtifactKey(figdir, subdir, varid, s.angle, s.path) !in fs.files ==>
        LogOf(r, logpath) == LogOf(fs, logpath) + [FailLine(s.path, varid)])
  {
  }

  /** `create_sweep(filename, figdir, subdir, varid)` on the store. The image
      path is computed once for the existence check and again for the save. */
  method CreateSweep(store: FileStore, logpath: string, figdir: string, subdir: string, varid: string, s: Sweep)
    modifies store
    ensures store.State() == AfterSweep(old(store.State()), logpath, figdir, subdir, varid, s)
  {
    var failed := false;
    if !s.readable {
      failed := true;
    } else {
      var checkfile := ArtifactKey(figdir, subdir, varid, s.angle, s.path);
      var fileExists := store.IsFile(checkfile);
      if !fileExists {
        if Panels(varid).None? || !s.renders {
          failed := true;
        } else {
          var figpath := FigPath(figdir, subdir, varid, s.angle);
          var _, err := store.MkdirP(figpath);
          if err.Some? {
            failed := true;
          } else {
            var figname := FigPath(figdir, subdir, varid, s.angle) + "/" + FigName(varid, s.angle, Stem(s.path));
            var saveErr := store.SaveFile(figname);
            failed := saveErr.Some?;
          }
        }
      }
    }
    if failed {
      store.AppendLog(logpath, FailLine(s.path, varid));
    }
  }

  /** `p.map(wrapper, flist)` run one file after another. */
  function AfterBatch(fs: Fs, logpath: string, figdir: string, subdir: string, varid: string, xs: seq<Sweep>): Fs
    decreases |xs|
  {
    if xs == [] then fs
    else AfterSweep(AfterBatch(fs, logpath, figdir, subdir, varid, xs[..|xs| - 1]),
                    logpath, figdir, subdir, varid, xs[|xs| - 1])
  }

  /** The batch over the store. */
  method RunBatch(store: FileStore, logpath: string, figdir: string, subdir: string, varid: string, xs: seq<Sweep>)
    modifies store
    ensures store.State() == AfterBatch(old(store.State()), logpath, figdir, subdir, varid, xs)
  {
    for i := 0 to |xs|
      invariant store.State() == AfterBatch(old(store.State()), logpath, figdir, subdir, varid, xs[..i])
    {
      assert xs[..i + 1][..i] == xs[..i];
      CreateSweep(store, logpath, figdir, subdir, varid, xs[i]);
    }
    assert xs[..|xs|] == xs;
  }

  /** An input that yields its image when the image is missing. */
  predicate Draws(varid: string, s: Sweep)
  {
    s.readable && s.renders && Panels(varid).Some?
  }

  /** The images of the batch's inputs that draw. */
  function Drawn(figdir: string, subdir: string, varid: string, xs: seq<Sweep>): (r: set<string>)
    ensures r <= Keys(figdir, subdir, varid, xs)
    decreases |xs|
  {
    if xs == [] then {}
    else
      var last := xs[|xs| - 1];
      Drawn(figdir, subdir, varid, xs[..|xs| - 1]) +
      (if Draws(varid, last) then {ArtifactKey(figdir, subdir, varid, last.angle, last.path)} else {})
  }

  /** What belongs to `Drawn`, input by input. */
  lemma {:induction false} DrawnMembers(figdir: string, subdir: string, varid: string, xs: seq<Sweep>)
    ensures forall k :: k in Drawn(figdir, subdir, varid, xs) <==>
      exists s :: s in xs && Draws(varid, s) && ArtifactKey(figdir, subdir, varid, s.angle, s.path) == k
    decreases |xs|
  {
    if xs != [] {
      var init, last := xs[..|xs| - 1], xs[|xs| - 1];
      DrawnMembers(figdir, subdir, varid, init);
      assert xs == init + [last];
      assert forall s :: s in xs <==> s in init || s == last;
    }
  }

  /** A call whose directory chain meets no file and whose image is not a
      directory adds its image exactly when the input draws, and at most its
      directory chain; a drawing input logs nothing. */
  lemma SweepFiles(fs: Fs, logpath: string, figdir: string, subdir: string, varid: string, s: Sweep)
    requires Chain(FigPath(figdir, subdir, varid, s.angle)) !! fs.files
    requires ArtifactKey(figdir, subdir, varid, s.angle, s.path) !in fs.dirs + Chain(FigPath(figdir, subdir, varid, s.angle))
    ensures var r := AfterSweep(fs, logpath, figdir, subdir, varid, s);
      && r.files == fs.files + (if Draws(varid, s) then {ArtifactKey(figdir, subdir, varid, s.angle, s.path)} else {})
      && fs.dirs <= r.dirs <= fs.dirs + Chain(FigPath(figdir, subdir, varid, s.angle))
      && (Draws(varid, s) ==> r.logs == fs.logs)
  {
    SweepBounds(fs, logpath, figdir, subdir, varid, s);
    if s.readable && !Draws(varid, s) {
      UnconfiguredOrBlankFails(fs, figdir, subdir, varid, s);
    }
  }

  /** Whatever the inputs do, the batch adds only images of its inputs and
      directories of their chains, and removes nothing. */
  lemma {:induction false} BatchBounds(fs: Fs, logpath: string, figdir: string, subdir: string, varid: string, xs: seq<Sweep>)
    ensures var r := AfterBatch(fs, logpath, figdir, subdir, varid, xs);
      && fs.files <= r.files <= fs.files + Keys(figdir, subdir, varid, xs)
      && fs.dirs <= r.dirs <= fs.dirs + DirChains(figdir, subdir, varid, xs)
    decreases |xs|
  {
    if xs != [] {
      var init, last := xs[..|xs| - 1], xs[|xs| - 1];
      BatchBounds(fs, logpath, figdir, subdir, varid, init);
      SweepBounds(AfterBatch(fs, logpath, figdir, subdir, varid, init), logpath, figdir, subdir, varid, last);
    }
  }

  /** The batch result: the old images plus the image of every input that
      draws, whatever the order and whichever inputs fail; no overwrite and
      no other file touched. */
  lemma {:induction false} BatchFiles(fs: Fs, logpath: string, figdir: string, subdir: string, varid: string, xs: seq<Sweep>)
    requires Separate(fs, figdir, subdir, varid, xs)
    ensures AfterBatch(fs, logpath, figdir, subdir, varid, xs).files == fs.files + Drawn(figdir, subdir, varid, xs)
    decreases |xs|
  {
    if xs != [] {
      var init, last := xs[..|xs| - 1], xs[|xs| - 1];
      var key := ArtifactKey(figdir, subdir, varid, last.angle, last.path);
      var chain := Chain(FigPath(figdir, subdir, varid, last.angle));
      var keys, dirs := Keys(figdir, subdir, varid, init), DirChains(figdir, subdir, varid, init);
      assert (fs.files + keys + {key}) !! (fs.dirs + dirs + chain);
      BatchFiles(fs, logpath, figdir, subdir, varid, init);
      BatchBounds(fs, logpath, figdir, subdir, varid, init);
      SweepFiles(AfterBatch(fs, logpath, figdir, subdir, varid, init), logpath, figdir, subdir, varid, last);
    }
  }

  /** The batch only adds to the record of saves, every image it saves is
      one that did not exist before the batch and exists after it, and no
      image is saved twice. */
  lemma {:induction false} BatchNoOverwrite(fs: Fs, logpath: string, figdir: string, subdir: string, varid: string, xs: seq<Sweep>)
    ensures var r := AfterBatch(fs, logpath, figdir, subdir, varid, xs);
      && |fs.saved| <= |r.saved| && r.saved[..|fs.saved|] == fs.saved
      && (forall i :: |fs.saved| <= i < |r.saved| ==> r.saved[i] in r.files && r.saved[i] !in fs.files)
      && (forall i, j :: |fs.saved| <= i < j < |r.saved| ==> r.saved[i] != r.saved[j])
    decreases |xs|
  {
    if xs != [] {
      var init, last := xs[..|xs| - 1], xs[|xs| - 1];
      BatchNoOverwrite(fs, logpath, figdir, subdir, varid, init);
      BatchBounds(fs, logpath, figdir, subdir, varid, init);
      var b := AfterBatch(fs, logpath, figdir, subdir, varid, init);
      SweepBounds(b, logpath, figdir, subdir, varid, last);
      NoOverwrite(b, logpath, figdir, subdir, varid, last);
      var r := AfterBatch(fs, logpath, figdir, subdir, varid, xs);
      if r.saved != b.saved {
        assert r.saved[..|b.saved|] == b.saved;
      }
    }
  }

  /** When every drawing input's image already exists, the batch draws
      nothing: no file, no directory and no save is added. */
  lemma {:induction false} NoNewWork(fs: Fs, logpath: string, figdir: string, subdir: string, varid: string, xs: seq<Sweep>)
    requires Drawn(figdir, subdir, varid, xs) <= fs.files
    ensures var r := AfterBatch(fs, logpath, figdir, subdir, varid, xs);
      r.files == fs.files && r.dirs == fs.dirs && r.saved == fs.saved
    decreases |xs|
  {
    if xs != [] {
      var init, last := xs[..|xs| - 1], xs[|xs| - 1];
      NoNewWork(fs, logpath, figdir, subdir, varid, init);
      var b := AfterBatch(fs, logpath, figdir, subdir, varid, init);
      if Draws(varid, last) {
        SkipsExisting(b, logpath, figdir, subdir, varid, last);
      } else if last.readable {
        UnconfiguredOrBlankFails(b, figdir, subdir, varid, last);
      }
    }
  }

  /** A readable input that does not draw fails before `mkdir_p`. */
  lemma UnconfiguredOrBlankFails(fs: Fs, figdir: string, subdir: string, varid: string, s: Sweep)
    requires s.readable && !Draws(varid, s)
    ensures Attempt(fs, figdir, subdir, varid, s).fs == fs
  {
  }

  /** Running the batch a second time over the same inputs adds no file and
      no directory. */
  lemma BatchIdempotent(fs: Fs, logpath: string, figdir: string, subdir: string, varid: string, xs: seq<Sweep>)
    requires Separate(fs, figdir, subdir, varid, xs)
    ensures var once := AfterBatch(fs, logpath, figdir, subdir, varid, xs);
      var twice := AfterBatch(once, logpath, figdir, subdir, varid, xs);
      twice.files == once.files && twice.dirs == once.dirs && twice.saved == once.saved
  {
    BatchFiles(fs, logpath, figdir, subdir, varid, xs);
    var once := AfterBatch(fs, logpath, figdir, subdir, varid, xs);
    NoNewWork(once, logpath, figdir, subdir, varid, xs);
  }

  /** Shuffling the inputs gives the same images. */
  lemma BatchOrderIndependent(fs: Fs, logpath: string, figdir: string, subdir: string, varid: string,
                              xs: seq<Sweep>, ys: seq<Sweep>)
    requires multiset(xs) == multiset(ys)
    requires Separate(fs, figdir, subdir, varid, xs)
    ensures AfterBatch(fs, logpath, figdir, subdir, varid, xs).files ==
            AfterBatch(fs, logpath, figdir, subdir, varid, ys).files
  {
    assert forall s :: s in xs <==> s in ys by {
      forall s ensures s in xs <==> s in ys {
        assert s in xs <==> s in multiset(xs);
        assert s in ys <==> s in multiset(ys);
      }
    }
    SameMembersSameSets(figdir, subdir, varid, xs, ys);
    DrawnMembers(figdir, subdir, varid, xs);
    DrawnMembers(figdir, subdir, varid, ys);
    assert Drawn(figdir, subdir, varid, xs) == Drawn(figdir, subdir, varid, ys);
    BatchFiles(fs, logpath, figdir, subdir, varid, xs);
    BatchFiles(fs, logpath, figdir, subdir, varid, ys);
  }

  /** The batch only appends to the log, one failure line per input at most,
      and no other log changes. */
  lemma {:induction false} BatchLog(fs: Fs, logpath: string, figdir: string, subdir: string, varid: string, xs: seq<Sweep>)
    ensures var r := AfterBatch(fs, logpath, figdir, subdir, varid, xs);
      var before, after := LogOf(fs, logpath), LogOf(r, logpath);
      && |before| <= |after| <= |before| + |xs|
      && after[..|before|] == before
      && (forall q :: q != logpath ==> LogOf(r, q) == LogOf(fs, q))
    decreases |xs|
  {
    if xs != [] {
      var init, last := xs[..|xs| - 1], xs[|xs| - 1];
      BatchLog(fs, logpath, figdir, subdir, varid, init);
      var b := AfterBatch(fs, logpath, figdir, subdir, varid, init);
      SweepLog(b, logpath, figdir, subdir, varid, last);
      var before, mid := LogOf(fs, logpath), LogOf(b, logpath);
      var after := LogOf(AfterBatch(fs, logpath, figdir, subdir, varid, xs), logpath);
      assert after[..|before|] == after[..|mid|][..|before|];
    }
  }

  /** Every line the batch logs is the failure line of one of its inputs. */
  lemma {:induction false} BatchLogLines(fs: Fs, logpath: string, figdir: string, subdir: string, varid: string, xs: seq<Sweep>)
    ensures var before, after := LogOf(fs, logpath), LogOf(AfterBatch(fs, logpath, figdir, subdir, varid, xs), logpath);
      forall i :: 0 <= i && |before| <= i < |after| ==> exists s :: s in xs && after[i] == FailLine(s.path, varid)
    decreases |xs|
  {
    if xs != [] {
      var init, last := xs[..|xs| - 1], xs[|xs| - 1];
      BatchLogLines(fs, logpath, figdir, subdir, varid, init);
      BatchLog(fs, logpath, figdir, subdir, varid, init);
      var b := AfterBatch(fs, logpath, figdir, subdir, varid, init);
      SweepLog(b, logpath, figdir, subdir, varid, last);
      var before, mid := LogOf(fs, logpath), LogOf(b, logpath);
      var after := LogOf(AfterBatch(fs, logpath, figdir, subdir, varid, xs), logpath);
      assert forall s :: s in init ==> s in xs;
      forall i | 0 <= i && |before| <= i < |after|
        ensures exists s :: s in xs && after[i] == FailLine(s.path, varid)
      {
        if i < |mid| {
          assert after[i] == mid[i];
        } else {
          assert after[i] == FailLine(last.path, varid);
        }
      }
    }
  }

  /** The three-file listing of the scenarios below: `a` and `c` draw, `b`
      cannot be read, and no file lies where a directory is needed. */
  predicate ThreeFiles(fs: Fs, figdir: string, subdir: string, v: string, a: Sweep, b: Sweep, c: Sweep)
  {
    && Draws(v, a) && Draws(v, c) && !b.readable
    && (fs.files + {ArtifactKey(figdir, subdir, v, a.angle, a.path), ArtifactKey(figdir, subdir, v, c.angle, c.path)})
       !! (fs.dirs + Chain(FigPath(figdir, subdir, v, a.angle)) + Chain(FigPath(figdir, subdir, v, c.angle)))
  }

  /** Three inputs of which the second is unreadable give the first and the
      third images. */
  lemma ThreeFilesImages(fs: Fs, logpath: string, figdir: string, subdir: string, varid: string, a: Sweep, b: Sweep, c: Sweep)
    requires ThreeFiles(fs, figdir, subdir, varid, a, b, c)
    ensures AfterBatch(fs, logpath, figdir, subdir, varid, [a, b, c]).files ==
      fs.files + {ArtifactKey(figdir, subdir, varid, a.angle, a.path)}
               + {ArtifactKey(figdir, subdir, varid, c.angle, c.path)}
  {
    var xs := [a, b, c];
    assert xs[..2] == [a, b] && [a, b][..1] == [a] && [a][..0] == [];
    var f1 := AfterSweep(fs, logpath, figdir, subdir, varid, a);
    var f2 := AfterSweep(f1, logpath, figdir, subdir, varid, b);
    assert AfterBatch(fs, logpath, figdir, subdir, varid, [a]) == f1;
    assert AfterBatch(fs, logpath, figdir, subdir, varid, [a, b]) == f2;
    var f3 := AfterSweep(f2, logpath, figdir, subdir, varid, c);
    assert AfterBatch(fs, logpath, figdir, subdir, varid, xs) == f3;
    var ka := ArtifactKey(figdir, subdir, varid, a.angle, a.path);
    var kc := ArtifactKey(figdir, subdir, varid, c.angle, c.path);
    SweepFiles(fs, logpath, figdir, subdir, varid, a);
    assert f1.files == fs.files + {ka};
    assert f2.files == f1.files && f2.dirs == f1.dirs;
    SweepFiles(f2, logpath, figdir, subdir, varid, c);
  }

  /** Three inputs of which the second is unreadable log exactly one line,
      for the second. */
  lemma ThreeFilesOneLine(fs: Fs, logpath: string, figdir: string, subdir: string, varid: string, a: Sweep, b: Sweep, c: Sweep)
    requires ThreeFiles(fs, figdir, subdir, varid, a, b, c)
    ensures LogOf(AfterBatch(fs, logpath, figdir, subdir, varid, [a, b, c]), logpath) ==
      LogOf(fs, logpath) + [FailLine(b.path, varid)]
  {
    var xs := [a, b, c];
    assert xs[..2] == [a, b] && [a, b][..1] == [a] && [a][..0] == [];
    var f1 := AfterSweep(fs, logpath, figdir, subdir, varid, a);
    var f2 := AfterSweep(f1, logpath, figdir, subdir, varid, b);
    assert AfterBatch(fs, logpath, figdir, subdir, varid, [a]) == f1;
    assert AfterBatch(fs, logpath, figdir, subdir, varid, [a, b]) == f2;
    SweepFiles(fs, logpath, figdir, subdir, varid, a);
    FailureLogsOnce(f1, logpath, figdir, subdir, varid, b);
    assert f2.files == f1.files && f2.dirs == f1.dirs;
    var f3 := AfterSweep(f2, logpath, figdir, subdir, varid, c);
    assert AfterBatch(fs, logpath, figdir, subdir, varid, xs) == f3;
    SweepFiles(f2, logpath, figdir, subdir, varid, c);
  }

  /** The subdirectories holding RHI scans. */
  const Subdirs := ["high/rhi", "low/rhi"]

  /** The batches over the subdirectories `dirs`, each over its filtered
      listing of `.nc` files in `ncpath + Dir`. */
  function AfterDirs(fs: Fs, ncpath: string, figpath: string, logpath: string, varid: string,
                     glob: string -> seq<Sweep>, dirs: seq<string>): Fs
    decreases |dirs|
  {
    if dirs == [] then fs
    else
      var d := dirs[|dirs| - 1];
      AfterBatch(AfterDirs(fs, ncpath, figpath, logpath, varid, glob, dirs[..|dirs| - 1]),
                 logpath, figpath, d, varid, KeepFiles(glob(ncpath + d + "/*.nc")))
  }

  /** One pass of the `scriptvars` loop: the header, then every subdirectory. */
  function AfterVariable(fs: Fs, ncpath: string, figpath: string, logpath: string, varid: string,
                         glob: string -> seq<Sweep>, stamp: string): Fs
  {
    AfterDirs(AppendHeader(fs, logpath, stamp), ncpath, figpath, logpath, varid, glob, Subdirs)
  }

  /** The batches over the subdirectories only append to the log. */
  lemma {:induction false} DirsLogPrefix(fs: Fs, ncpath: string, figpath: string, logpath: string, varid: string,
                                         glob: string -> seq<Sweep>, dirs: seq<string>)
    ensures var before, after := LogOf(fs, logpath), LogOf(AfterDirs(fs, ncpath, figpath, logpath, varid, glob, dirs), logpath);
      |before| <= |after| && after[..|before|] == before
    decreases |dirs|
  {
    if dirs != [] {
      var d := dirs[|dirs| - 1];
      var mid := AfterDirs(fs, ncpath, figpath, logpath, varid, glob, dirs[..|dirs| - 1]);
      DirsLogPrefix(fs, ncpath, figpath, logpath, varid, glob, dirs[..|dirs| - 1]);
      BatchLog(mid, logpath, figpath, d, varid, KeepFiles(glob(ncpath + d + "/*.nc")));
      var l0, l1 := LogOf(fs, logpath), LogOf(mid, logpath);
      var l2 := LogOf(AfterDirs(fs, ncpath, figpath, logpath, varid, glob, dirs), logpath);
      assert l2[..|l0|] == l2[..|l1|][..|l0|];
    }
  }

  /** The header goes in front of everything the pass logs. */
  lemma VariableLogsHeaderFirst(fs: Fs, ncpath: string, figpath: string, logpath: string, varid: string,
                                glob: string -> seq<Sweep>, stamp: string)
    ensures var before, after := LogOf(fs, logpath),
                                 LogOf(AfterVariable(fs, ncpath, figpath, logpath, varid, glob, stamp), logpath);
      |before| + 3 <= |after| && after[..|before| + 3] == before + LogHeader(stamp)
  {
    DirsLogPrefix(AppendHeader(fs, logpath, stamp), ncpath, figpath, logpath, varid, glob, Subdirs);
  }

  /** The `for Dir in subdirs` loop over the subdirectories `dirs`. */
  method RunDirs(store: FileStore, ncpath: string, figpath: string, logpath: string, varid: string,
                 glob: string -> seq<Sweep>, dirs: seq<string>)
    modifies store
    ensures store.State() == AfterDirs(old(store.State()), ncpath, figpath, logpath, varid, glob, dirs)
  {
    for k := 0 to |dirs|
      invariant store.State() == AfterDirs(old(store.State()), ncpath, figpath, logpath, varid, glob, dirs[..k])
    {
      var dir := dirs[k];
      var flist := KeepFiles(glob(ncpath + dir + "/*.nc"));
      assert dirs[..k + 1][..k] == dirs[..k];
      if |flist| > 0 {
        RunBatch(store, logpath, figpath, dir, varid, flist);
      }
    }
    assert dirs[..|dirs|] == dirs;
  }

  /** The body of the `scriptvars` loop for one variable. */
  method ProcessVariable(store: FileStore, ncpath: string, figpath: string, logpath: string, varid: string,
                         glob: string -> seq<Sweep>, stamp: string)
    modifies store
    ensures store.State() == AfterVariable(old(store.State()), ncpath, figpath, logpath, varid, glob, stamp)
  {
    WriteHeader(store, logpath, stamp);
    RunDirs(store, ncpath, figpath, logpath, varid, glob, Subdirs);
  }
}
