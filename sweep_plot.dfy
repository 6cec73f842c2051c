/** `plotting/sweep_plot.py`: one plan-view image per input file, skipped
    when the image exists or the tilt angle is negative. The failure handler
    is commented out, so the first error ends the batch and reaches the
    caller; nothing is logged per file. */
module SweepPlot {
  import opened Strings
  import opened Store
  import opened Artifacts

  /** The colour map and limits handed to the plot call; `None` leaves the
      choice to the plotting library. */
  datatype Settings = Settings(cmap: Option<string>, vmin: Option<int>, vmax: Option<int>)

  /** The per-variable table: reflectivity and radial velocity are
      configured, every other variable gets the library defaults. */
  function SweepSettings(varid: string): (r: Settings)
    ensures r.cmap.Some? <==> varid == "DBZHC" || varid == "VEL"
    ensures r.vmin.Some? <==> r.cmap.Some?
    ensures r.vmax.Some? <==> r.cmap.Some?
    ensures r.vmin.Some? ==> r.vmin.value < r.vmax.value
    ensures varid == "VEL" ==> r.vmin.value == -r.vmax.value
  {
    if varid == "DBZHC" then Settings(Some("pyart_NWSRef"), Some(-5), Some(45))
    else if varid == "VEL" then Settings(Some("pyart_NWSVel"), Some(-40), Some(40))
    else Settings(None, None, None)
  }

  /** `create_sweep` with `gatefilter` holding `None` until a branch assigns
      it: read, check for the image, check the angle, filter and draw,
      create the directory, save. The outcome of the `VEL` filter block does
      not matter: its errors are swallowed. */
  function Attempt(fs: Fs, figdir: string, subdir: string, varid: string, s: Sweep): (r: Run)
    ensures r.fs.logs == fs.logs
  {
    if !s.readable then Run(fs, Some(Unreadable))
    else
      var key := ArtifactKey(figdir, subdir, varid, s.angle, s.path);
      if key in fs.files then Run(fs, None)
      else if s.angle < 0 then Run(fs, None)
      else if !s.renders then Run(fs, Some(RenderFailed))
      else
        var made := MakeDirs(fs, FigPath(figdir, subdir, varid, s.angle));
        if made.Failed? then Run(fs, Some(made.error))
        else
          var saved := Save(made.fs, key);
          Run(saved.After(made.fs), saved.Raised())
  }

  /** A call that raises adds no file; otherwise it adds at most its image.
      No directory disappears, and the only directories added are those of
      the image's chain. */
  lemma AttemptBounds(fs: Fs, figdir: string, subdir: string, varid: string, s: Sweep)
    ensures var r := Attempt(fs, figdir, subdir, varid, s);
      && (r.raised.Some? ==> r.fs.files == fs.files)
      && fs.files <= r.fs.files <= fs.files + {ArtifactKey(figdir, subdir, varid, s.angle, s.path)}
      && fs.dirs <= r.fs.dirs <= fs.dirs + Chain(FigPath(figdir, subdir, varid, s.angle))
  {
  }

  /** Whether `gatefilter` holds a value when the plot call reads it, as the
      code is written: only the branches of the variables the settings table
      configures assign it, and the `VEL` branch only once `GateFilter(radar)`
      has returned. */
  predicate FilterBound(varid: string, s: Sweep)
  {
    SweepSettings(varid).cmap.Some? && (varid == "VEL" ==> s.velFilter != FilterNotCreated)
  }

  /** `create_sweep` as written: reading the unassigned `gatefilter` raises
      `UnboundLocalError` before anything is drawn. Here `renders == false`
      stands for a failure in or after `plot_ppi_map`; a failure of
      `RadarMapDisplay(radar)`, just before it, would raise its own error in
      place of `UnboundLocalError`, and either way the call raises before
      `mkdir_p` and changes nothing. */
  function AttemptAsWritten(fs: Fs, figdir: string, subdir: string, varid: string, s: Sweep): (r: Run)
    ensures r.fs.logs == fs.logs
  {
    if s.readable && ArtifactKey(figdir, subdir, varid, s.angle, s.path) !in fs.files
       && s.angle >= 0 && !FilterBound(varid, s)
    then Run(fs, Some(Unbound("gatefilter")))
    else Attempt(fs, figdir, subdir, varid, s)
  }

  /** As written, a variable the table leaves to the defaults, or a velocity
      file whose gate filter cannot be built, never gets its image: the call
      raises and the store is unchanged. */
  lemma DefaultSettingsRaise(fs: Fs, figdir: string, subdir: string, varid: string, s: Sweep)
    requires s.readable && s.angle >= 0 && ArtifactKey(figdir, subdir, varid, s.angle, s.path) !in fs.files
    requires (varid != "DBZHC" && varid != "VEL") || (varid == "VEL" && s.velFilter == FilterNotCreated)
    ensures AttemptAsWritten(fs, figdir, subdir, varid, s) == Run(fs, Some(Unbound("gatefilter")))
    ensures SweepSettings(varid).cmap.None? || s.velFilter == FilterNotCreated
  {
  }

  /** With the binding in place, every readable file with a missing image, a
      non-negative angle and working drawing calls gets exactly its image and
      its directory chain, whatever the variable and the filter outcome. */
  lemma DrawsWhenRendered(fs: Fs, figdir: string, subdir: string, varid: string, s: Sweep)
    requires s.readable && s.renders && s.angle >= 0
    requires ArtifactKey(figdir, subdir, varid, s.angle, s.path) !in fs.files
    requires Chain(FigPath(figdir, subdir, varid, s.angle)) !! fs.files
    requires ArtifactKey(figdir, subdir, varid, s.angle, s.path) !in fs.dirs + Chain(FigPath(figdir, subdir, varid, s.angle))
    ensures Attempt(fs, figdir, subdir, varid, s) ==
      Run(Fs(fs.files + {ArtifactKey(figdir, subdir, varid, s.angle, s.path)},
             fs.dirs + Chain(FigPath(figdir, subdir, varid, s.angle)), fs.logs,
             fs.saved + [ArtifactKey(figdir, subdir, varid, s.angle, s.path)]), None)
  {
  }

  /** Where `gatefilter` is bound, the code as written and the model agree. */
  lemma AsWrittenAgrees(fs: Fs, figdir: string, subdir: string, varid: string, s: Sweep)
    requires FilterBound(varid, s)
    ensures AttemptAsWritten(fs, figdir, subdir, varid, s) == Attempt(fs, figdir, subdir, varid, s)
  {
  }

  /** An error after the velocity gate filter exists is swallowed: the call
      goes on exactly as when the filter was built. */
  lemma FilterErrorsSwallowed(fs: Fs, figdir: string, subdir: string, s: Sweep)
    requires s.velFilter == FilterRaisedAfterCreate
    ensures AttemptAsWritten(fs, figdir, subdir, "VEL", s) ==
            AttemptAsWritten(fs, figdir, subdir, "VEL", s.(velFilter := FilterBuilt))
  {
  }

  /** `savefig` never overwrites: a call saves nothing, or saves its own
      image once when that image did not exist, and the image then exists;
      as written and corrected alike. */
  lemma NoOverwrite(fs: Fs, figdir: string, subdir: string, varid: string, s: Sweep)
    ensures var r, key := Attempt(fs, figdir, subdir, varid, s), ArtifactKey(figdir, subdir, varid, s.angle, s.path);
      || r.fs.saved == fs.saved
      || (key !in fs.files && key in r.fs.files && r.fs.saved == fs.saved + [key])
    ensures var r, key := AttemptAsWritten(fs, figdir, subdir, varid, s), ArtifactKey(figdir, subdir, varid, s.angle, s.path);
      || r.fs.saved == fs.saved
      || (key !in fs.files && key in r.fs.files && r.fs.saved == fs.saved + [key])
  {
  }

  /** An existing image is left alone. */
  lemma SkipsExisting(fs: Fs, figdir: string, subdir: string, varid: string, s: Sweep)
    requires s.readable && ArtifactKey(figdir, subdir, varid, s.angle, s.path) in fs.files
    ensures Attempt(fs, figdir, subdir, varid, s) == Run(fs, None)
    ensures AttemptAsWritten(fs, figdir, subdir, varid, s) == Run(fs, None)
  {
  }

  /** A negative tilt angle produces no image and no directory. */
  lemma NegativeAngleSkips(fs: Fs, figdir: string, subdir: string, varid: string, s: Sweep)
    requires s.readable && s.angle < 0
    ensures Attempt(fs, figdir, subdir, varid, s) == Run(fs, None)
    ensures AttemptAsWritten(fs, figdir, subdir, varid, s) == Run(fs, None)
  {
  }

  /** `create_sweep(filename, figdir, subdir, varid)` on the store: returns
      the error it raised, if any. */
  method CreateSweep(store: FileStore, figdir: string, subdir: string, varid: string, s: Sweep)
    returns (err: Option<Error>)
    modifies store
    ensures store.State() == Attempt(old(store.State()), figdir, subdir, varid, s).fs
    ensures err == Attempt(old(store.State()), figdir, subdir, varid, s).raised
  {
    if !s.readable {
      return Some(Unreadable);
    }
    var checkfile := ArtifactKey(figdir, subdir, varid, s.angle, s.path);
    var fileExists := store.IsFile(checkfile);
    if fileExists || s.angle < 0 {
      return None;
    }
    if !s.renders {
      return Some(RenderFailed);
    }
    var figpath := FigPath(figdir, subdir, varid, s.angle);
    var _, mkErr := store.MkdirP(figpath);
    if mkErr.Some? {
      return mkErr;
    }
    var figname := FigPath(figdir, subdir, varid, s.angle) + "/" + FigName(varid, s.angle, Stem(s.path));
    err := store.SaveFile(figname);
  }

  /** The batch over a listing taken one file after another: the first
      error ends it and is what the caller sees. */
  function Batch(fs: Fs, figdir: string, subdir: string, varid: string, xs: seq<Sweep>): (r: Run)
    ensures r.fs.logs == fs.logs
    decreases |xs|
  {
    if xs == [] then Run(fs, None)
    else
      var b := Batch(fs, figdir, subdir, varid, xs[..|xs| - 1]);
      if b.raised.Some? then b else Attempt(b.fs, figdir, subdir, varid, xs[|xs| - 1])
  }

  /** Once a prefix of the listing has raised, the rest is never touched. */
  lemma {:induction false} BatchStops(fs: Fs, figdir: string, subdir: string, varid: string, xs: seq<Sweep>, i: nat)
    requires i <= |xs|
    requires Batch(fs, figdir, subdir, varid, xs[..i]).raised.Some?
    ensures Batch(fs, figdir, subdir, varid, xs) == Batch(fs, figdir, subdir, varid, xs[..i])
    decreases |xs|
  {
    if i < |xs| {
      assert xs[..|xs| - 1][..i] == xs[..i];
      BatchStops(fs, figdir, subdir, varid, xs[..|xs| - 1], i);
    } else {
      assert xs[..i] == xs;
    }
  }

  /** A batch over a listing split in two is the batch over the first part,
      then, unless that raised, the batch over the second from where the
      first left the store. */
  lemma {:induction false} BatchConcat(fs: Fs, figdir: string, subdir: string, varid: string, xs: seq<Sweep>, ys: seq<Sweep>)
    ensures var b := Batch(fs, figdir, subdir, varid, xs);
      Batch(fs, figdir, subdir, varid, xs + ys) ==
        if b.raised.Some? then b else Batch(b.fs, figdir, subdir, varid, ys)
    decreases |ys|
  {
    var b := Batch(fs, figdir, subdir, varid, xs);
    if ys == [] {
      assert xs + ys == xs;
    } else {
      var init, last := ys[..|ys| - 1], ys[|ys| - 1];
      assert xs + ys == (xs + init) + [last] && ys == init + [last];
      BatchConcat(fs, figdir, subdir, varid, xs, init);
      BatchSnoc(fs, figdir, subdir, varid, xs + init, last);
      BatchSnoc(b.fs, figdir, subdir, varid, init, last);
    }
  }

  /** A batch over one more file. */
  lemma BatchSnoc(fs: Fs, figdir: string, subdir: string, varid: string, xs: seq<Sweep>, s: Sweep)
    ensures var b := Batch(fs, figdir, subdir, varid, xs);
      Batch(fs, figdir, subdir, varid, xs + [s]) ==
        if b.raised.Some? then b else Attempt(b.fs, figdir, subdir, varid, s)
  {
    assert (xs + [s])[..|xs|] == xs;
  }

  /** A listing with an unreadable file always ends in an error. */
  lemma {:induction false} UnreadableRaises(fs: Fs, figdir: string, subdir: string, varid: string, xs: seq<Sweep>, i: nat)
    requires i < |xs| && !xs[i].readable
    ensures Batch(fs, figdir, subdir, varid, xs).raised.Some?
    decreases |xs|
  {
    if i < |xs| - 1 {
      assert xs[..|xs| - 1][i] == xs[i];
      UnreadableRaises(fs, figdir, subdir, varid, xs[..|xs| - 1], i);
    }
  }

  /** Whatever happens, the batch adds only images and chains of its inputs
      and removes nothing. */
  lemma {:induction false} BatchBounds(fs: Fs, figdir: string, subdir: string, varid: string, xs: seq<Sweep>)
    ensures var r := Batch(fs, figdir, subdir, varid, xs);
      && fs.files <= r.fs.files <= fs.files + Keys(figdir, subdir, varid, xs)
      && fs.dirs <= r.fs.dirs <= fs.dirs + DirChains(figdir, subdir, varid, xs)
    decreases |xs|
  {
    if xs != [] {
      var init, last := xs[..|xs| - 1], xs[|xs| - 1];
      BatchBounds(fs, figdir, subdir, varid, init);
      var b := Batch(fs, figdir, subdir, varid, init);
      if b.raised.None? {
        AttemptBounds(b.fs, figdir, subdir, varid, last);
      }
    }
  }

  /** Over the whole batch `savefig` never overwrites: the saves it issues
      come after the old ones, each is of an image that did not exist before
      and exists after, and none is issued twice. */
  lemma {:induction false} BatchNoOverwrite(fs: Fs, figdir: string, subdir: string, varid: string, xs: seq<Sweep>)
    ensures var r := Batch(fs, figdir, subdir, varid, xs).fs;
      && |fs.saved| <= |r.saved| && r.saved[..|fs.saved|] == fs.saved
      && (forall i :: |fs.saved| <= i < |r.saved| ==> r.saved[i] in r.files && r.saved[i] !in fs.files)
      && (forall i, j :: |fs.saved| <= i < j < |r.saved| ==> r.saved[i] != r.saved[j])
    decreases |xs|
  {
    if xs != [] {
      var init, last := xs[..|xs| - 1], xs[|xs| - 1];
      BatchNoOverwrite(fs, figdir, subdir, varid, init);
      BatchBounds(fs, figdir, subdir, varid, init);
      var b := Batch(fs, figdir, subdir, varid, init);
      if b.raised.None? {
        AttemptBounds(b.fs, figdir, subdir, varid, last);
        NoOverwrite(b.fs, figdir, subdir, varid, last);
        var r := Batch(fs, figdir, subdir, varid, xs).fs;
        if r.saved != b.fs.saved {
          assert r.saved[..|b.fs.saved|] == b.fs.saved;
        }
      }
    }
  }

  /** The batch as written: the same fold over the call as written, where a
      missing `gatefilter` binding raises. */
  function BatchAsWritten(fs: Fs, figdir: string, subdir: string, varid: string, xs: seq<Sweep>): (r: Run)
    ensures r.fs.logs == fs.logs
    decreases |xs|
  {
    if xs == [] then Run(fs, None)
    else
      var b := BatchAsWritten(fs, figdir, subdir, varid, xs[..|xs| - 1]);
      if b.raised.Some? then b else AttemptAsWritten(b.fs, figdir, subdir, varid, xs[|xs| - 1])
  }

  /** On a listing where every input has `gatefilter` bound, the batch as
      written is the model's batch. */
  lemma {:induction false} BatchAsWrittenAgrees(fs: Fs, figdir: string, subdir: string, varid: string, xs: seq<Sweep>)
    requires forall i :: 0 <= i < |xs| ==> FilterBound(varid, xs[i])
    ensures BatchAsWritten(fs, figdir, subdir, varid, xs) == Batch(fs, figdir, subdir, varid, xs)
    decreases |xs|
  {
    if xs != [] {
      var init, last := xs[..|xs| - 1], xs[|xs| - 1];
      assert forall i :: 0 <= i < |init| ==> init[i] == xs[i];
      BatchAsWrittenAgrees(fs, figdir, subdir, varid, init);
      AsWrittenAgrees(Batch(fs, figdir, subdir, varid, init).fs, figdir, subdir, varid, last);
    }
  }

  /** The batch as written adds only images of its inputs and removes none. */
  lemma {:induction false} BatchAsWrittenBounds(fs: Fs, figdir: string, subdir: string, varid: string, xs: seq<Sweep>)
    ensures var r := BatchAsWritten(fs, figdir, subdir, varid, xs);
      fs.files <= r.fs.files <= fs.files + Keys(figdir, subdir, varid, xs)
    decreases |xs|
  {
    if xs != [] {
      var init, last := xs[..|xs| - 1], xs[|xs| - 1];
      BatchAsWrittenBounds(fs, figdir, subdir, varid, init);
      var b := BatchAsWritten(fs, figdir, subdir, varid, init);
      if b.raised.None? {
        AttemptBounds(b.fs, figdir, subdir, varid, last);
      }
    }
  }

  /** The batch as written ends in an error whenever it reaches an input
      whose image is still missing, whose angle is non-negative and for
      which `gatefilter` is unbound: no earlier input can have drawn it. */
  lemma {:induction false} BatchAsWrittenRaises(fs: Fs, figdir: string, subdir: string, varid: string, xs: seq<Sweep>, i: nat)
    requires i < |xs| && xs[i].readable && xs[i].angle >= 0 && !FilterBound(varid, xs[i])
    requires ArtifactKey(figdir, subdir, varid, xs[i].angle, xs[i].path) !in fs.files + Keys(figdir, subdir, varid, xs[..i])
    ensures BatchAsWritten(fs, figdir, subdir, varid, xs).raised.Some?
    decreases |xs|
  {
    var init := xs[..|xs| - 1];
    if i < |xs| - 1 {
      assert init[i] == xs[i] && init[..i] == xs[..i];
      BatchAsWrittenRaises(fs, figdir, subdir, varid, init, i);
    } else {
      assert xs[..i] == init;
      BatchAsWrittenBounds(fs, figdir, subdir, varid, init);
    }
  }

  /** A batch as written that raised nothing is the model's batch: the two
      calls differ only where the one as written raises. */
  lemma {:induction false} BatchAsWrittenNoRaise(fs: Fs, figdir: string, subdir: string, varid: string, xs: seq<Sweep>)
    requires BatchAsWritten(fs, figdir, subdir, varid, xs).raised.None?
    ensures BatchAsWritten(fs, figdir, subdir, varid, xs) == Batch(fs, figdir, subdir, varid, xs)
    decreases |xs|
  {
    if xs != [] {
      BatchAsWrittenNoRaise(fs, figdir, subdir, varid, xs[..|xs| - 1]);
    }
  }

  /** As written too, a readable listing whose images all exist does
      nothing at all. */
  lemma {:induction false} NothingToDoAsWritten(fs: Fs, figdir: string, subdir: string, varid: string, xs: seq<Sweep>)
    requires forall i :: 0 <= i < |xs| ==> xs[i].readable
    requires Drawn(figdir, subdir, varid, xs) <= fs.files
    ensures BatchAsWritten(fs, figdir, subdir, varid, xs) == Run(fs, None)
    decreases |xs|
  {
    if xs != [] {
      NothingToDoAsWritten(fs, figdir, subdir, varid, xs[..|xs| - 1]);
    }
  }

  /** An input that can be read and drawn. */
  predicate Clean(s: Sweep)
  {
    s.readable && s.renders
  }

  /** The images of the batch's inputs with a non-negative angle. */
  function Drawn(figdir: string, subdir: string, varid: string, xs: seq<Sweep>): (r: set<string>)
    ensures r <= Keys(figdir, subdir, varid, xs)
    decreases |xs|
  {
    if xs == [] then {}
    else
      var last := xs[|xs| - 1];
      Drawn(figdir, subdir, varid, xs[..|xs| - 1]) +
      (if last.angle >= 0 then {ArtifactKey(figdir, subdir, varid, last.angle, last.path)} else {})
  }

  /** What belongs to `Drawn`, input by input. */
  lemma {:induction false} DrawnMembers(figdir: string, subdir: string, varid: string, xs: seq<Sweep>)
    ensures forall k :: k in Drawn(figdir, subdir, varid, xs) <==>
      exists s :: s in xs && s.angle >= 0 && ArtifactKey(figdir, subdir, varid, s.angle, s.path) == k
    decreases |xs|
  {
    if xs != [] {
      var init, last := xs[..|xs| - 1], xs[|xs| - 1];
      DrawnMembers(figdir, subdir, varid, init);
      assert xs == init + [last];
      assert forall s :: s in xs <==> s in init || s == last;
    }
  }

  /** One clean input in a store with room for it raises nothing and adds
      its image exactly when its angle is non-negative. */
  lemma CleanStep(fs: Fs, figdir: string, subdir: string, varid: string, s: Sweep)
    requires Clean(s)
    requires Chain(FigPath(figdir, subdir, varid, s.angle)) !! fs.files
    requires ArtifactKey(figdir, subdir, varid, s.angle, s.path) !in fs.dirs + Chain(FigPath(figdir, subdir, varid, s.angle))
    ensures var r := Attempt(fs, figdir, subdir, varid, s);
      && r.raised.None?
      && r.fs.files == fs.files + (if s.angle >= 0 then {ArtifactKey(figdir, subdir, varid, s.angle, s.path)} else {})
  {
  }

  /** A listing of clean inputs in a store with room for all of them raises
      nothing and leaves the old images plus those of every input with a
      non-negative angle. */
  lemma {:induction false} BatchClean(fs: Fs, figdir: string, subdir: string, varid: string, xs: seq<Sweep>)
    requires forall i :: 0 <= i < |xs| ==> Clean(xs[i])
    requires Separate(fs, figdir, subdir, varid, xs)
    ensures var r := Batch(fs, figdir, subdir, varid, xs);
      r.raised.None? && r.fs.files == fs.files + Drawn(figdir, subdir, varid, xs)
    decreases |xs|
  {
    if xs != [] {
      var init, last := xs[..|xs| - 1], xs[|xs| - 1];
      var key := ArtifactKey(figdir, subdir, varid, last.angle, last.path);
      var chain := Chain(FigPath(figdir, subdir, varid, last.angle));
      var keys, dirs := Keys(figdir, subdir, varid, init), DirChains(figdir, subdir, varid, init);
      assert (fs.files + keys + {key}) !! (fs.dirs + dirs + chain);
      BatchClean(fs, figdir, subdir, varid, init);
      BatchBounds(fs, figdir, subdir, varid, init);
      var b := Batch(fs, figdir, subdir, varid, init).fs;
      assert chain !! b.files && key !in b.dirs + chain;
      CleanStep(b, figdir, subdir, varid, last);
    }
  }

  /** When every readable listing's images already exist, the batch does
      nothing at all. */
  lemma {:induction false} NothingToDo(fs: Fs, figdir: string, subdir: string, varid: string, xs: seq<Sweep>)
    requires forall i :: 0 <= i < |xs| ==> xs[i].readable
    requires Drawn(figdir, subdir, varid, xs) <= fs.files
    ensures Batch(fs, figdir, subdir, varid, xs) == Run(fs, None)
    decreases |xs|
  {
    if xs != [] {
      NothingToDo(fs, figdir, subdir, varid, xs[..|xs| - 1]);
    }
  }

  /** A second run over a clean listing changes nothing. */
  lemma BatchIdempotent(fs: Fs, figdir: string, subdir: string, varid: string, xs: seq<Sweep>)
    requires forall i :: 0 <= i < |xs| ==> Clean(xs[i])
    requires Separate(fs, figdir, subdir, varid, xs)
    ensures var once := Batch(fs, figdir, subdir, varid, xs);
      Batch(once.fs, figdir, subdir, varid, xs) == Run(once.fs, None)
  {
    BatchClean(fs, figdir, subdir, varid, xs);
    NothingToDo(Batch(fs, figdir, subdir, varid, xs).fs, figdir, subdir, varid, xs);
  }

  /** As written, a second run over a clean listing ends exactly as the
      first did: every input the first run drew now skips, and an input that
      raised meets the same store and raises the same error again. */
  lemma {:induction false} BatchAsWrittenIdempotent(fs: Fs, figdir: string, subdir: string, varid: string, xs: seq<Sweep>)
    requires forall i :: 0 <= i < |xs| ==> Clean(xs[i])
    requires Separate(fs, figdir, subdir, varid, xs)
    ensures var once := BatchAsWritten(fs, figdir, subdir, varid, xs);
      BatchAsWritten(once.fs, figdir, subdir, varid, xs) == once
    decreases |xs|
  {
    var once := BatchAsWritten(fs, figdir, subdir, varid, xs);
    if once.raised.None? {
      BatchAsWrittenNoRaise(fs, figdir, subdir, varid, xs);
      BatchClean(fs, figdir, subdir, varid, xs);
      NothingToDoAsWritten(once.fs, figdir, subdir, varid, xs);
    } else {
      var init, last := xs[..|xs| - 1], xs[|xs| - 1];
      var b := BatchAsWritten(fs, figdir, subdir, varid, init);
      if b.raised.Some? {
        BatchAsWrittenIdempotent(fs, figdir, subdir, varid, init);
      } else {
        BatchAsWrittenNoRaise(fs, figdir, subdir, varid, init);
        BatchClean(fs, figdir, subdir, varid, xs);
        BatchClean(fs, figdir, subdir, varid, init);
        assert once == Run(b.fs, Some(Unbound("gatefilter")));
        NothingToDoAsWritten(b.fs, figdir, subdir, varid, init);
      }
    }
  }

  /** Shuffling a clean listing gives the same images. */
  lemma BatchOrderIndependent(fs: Fs, figdir: string, subdir: string, varid: string, xs: seq<Sweep>, ys: seq<Sweep>)
    requires multiset(xs) == multiset(ys)
    requires forall i :: 0 <= i < |xs| ==> Clean(xs[i])
    requires Separate(fs, figdir, subdir, varid, xs)
    ensures Batch(fs, figdir, subdir, varid, ys).raised.None?
    ensures Batch(fs, figdir, subdir, varid, xs).fs.files == Batch(fs, figdir, subdir, varid, ys).fs.files
  {
    assert forall s :: s in xs <==> s in ys by {
      forall s ensures s in xs <==> s in ys {
        assert s in xs <==> s in multiset(xs);
        assert s in ys <==> s in multiset(ys);
      }
    }
    assert forall i :: 0 <= i < |ys| ==> Clean(ys[i]) by {
      forall i | 0 <= i < |ys| ensures Clean(ys[i]) {
        assert ys[i] in ys;
      }
    }
    SameMembersSameSets(figdir, subdir, varid, xs, ys);
    DrawnMembers(figdir, subdir, varid, xs);
    DrawnMembers(figdir, subdir, varid, ys);
    assert Drawn(figdir, subdir, varid, xs) == Drawn(figdir, subdir, varid, ys);
    BatchClean(fs, figdir, subdir, varid, xs);
    BatchClean(fs, figdir, subdir, varid, ys);
  }

  /** `p.map(wrapper, flist)` over the store, one file after another. */
  method RunBatch(store: FileStore, figdir: string, subdir: string, varid: string, xs: seq<Sweep>)
    returns (err: Option<Error>)
    modifies store
    ensures store.State() == Batch(old(store.State()), figdir, subdir, varid, xs).fs
    ensures err == Batch(old(store.State()), figdir, subdir, varid, xs).raised
  {
    ghost var start := store.State();
    var i := 0;
    while i < |xs|
      invariant i <= |xs|
      invariant Batch(start, figdir, subdir, varid, xs[..i]) == Run(store.State(), None)
    {
      assert xs[..i + 1][..i] == xs[..i];
      err := CreateSweep(store, figdir, subdir, varid, xs[i]);
      if err.Some? {
        BatchStops(start, figdir, subdir, varid, xs, i + 1);
        return;
      }
      i := i + 1;
    }
    assert xs[..|xs|] == xs;
    err := None;
  }

  /** The subdirectories holding plan-view scans. */
  const Subdirs := ["high/sur", "high/sec", "low/sur", "low/sec"]

  /** The batches over the subdirectories `dirs`, each over its filtered
      listing of `.nc` files in `ncpath + Dir`, stopping at the first error. */
  function AfterDirs(fs: Fs, ncpath: string, figpath: string, varid: string,
                     glob: string -> seq<Sweep>, dirs: seq<string>): (r: Run)
    ensures r.fs.logs == fs.logs
    decreases |dirs|
  {
    if dirs == [] then Run(fs, None)
    else
      var b := AfterDirs(fs, ncpath, figpath, varid, glob, dirs[..|dirs| - 1]);
      var d := dirs[|dirs| - 1];
      if b.raised.Some? then b else Batch(b.fs, figpath, d, varid, KeepFiles(glob(ncpath + d + "/*.nc")))
  }

  /** Once the batches over a prefix of the subdirectories have raised, the
      other subdirectories are never listed. */
  lemma {:induction false} DirsStop(fs: Fs, ncpath: string, figpath: string, varid: string,
                                    glob: string -> seq<Sweep>, dirs: seq<string>, k: nat)
    requires k <= |dirs|
    requires AfterDirs(fs, ncpath, figpath, varid, glob, dirs[..k]).raised.Some?
    ensures AfterDirs(fs, ncpath, figpath, varid, glob, dirs) == AfterDirs(fs, ncpath, figpath, varid, glob, dirs[..k])
    decreases |dirs|
  {
    if k < |dirs| {
      assert dirs[..|dirs| - 1][..k] == dirs[..k];
      DirsStop(fs, ncpath, figpath, varid, glob, dirs[..|dirs| - 1], k);
    } else {
      assert dirs[..k] == dirs;
    }
  }

  /** One pass of the `scriptvars` loop: the header, then every subdirectory
      until one raises. */
  function AfterVariable(fs: Fs, ncpath: string, figpath: string, logpath: string, varid: string,
                         glob: string -> seq<Sweep>, stamp: string): Run
  {
    AfterDirs(AppendHeader(fs, logpath, stamp), ncpath, figpath, varid, glob, Subdirs)
  }

  /** Whatever the batches do, the pass logs exactly the header and touches
      no other log. */
  lemma VariableLog(fs: Fs, ncpath: string, figpath: string, logpath: string, varid: string,
                    glob: string -> seq<Sweep>, stamp: string)
    ensures var r := AfterVariable(fs, ncpath, figpath, logpath, varid, glob, stamp);
      && LogOf(r.fs, logpath) == LogOf(fs, logpath) + LogHeader(stamp)
      && (forall q :: q != logpath ==> LogOf(r.fs, q) == LogOf(fs, q))
  {
  }

  /** The `for Dir in subdirs` loop: returns the error that ended it. */
  method RunDirs(store: FileStore, ncpath: string, figpath: string, varid: string,
                 glob: string -> seq<Sweep>, dirs: seq<string>)
    returns (err: Option<Error>)
    modifies store
    ensures store.State() == AfterDirs(old(store.State()), ncpath, figpath, varid, glob, dirs).fs
    ensures err == AfterDirs(old(store.State()), ncpath, figpath, varid, glob, dirs).raised
  {
    ghost var start := store.State();
    var k := 0;
    while k < |dirs|
      invariant k <= |dirs|
      invariant AfterDirs(start, ncpath, figpath, varid, glob, dirs[..k]) == Run(store.State(), None)
    {
      var dir := dirs[k];
      var flist := KeepFiles(glob(ncpath + dir + "/*.nc"));
      assert dirs[..k + 1][..k] == dirs[..k];
      if |flist| > 0 {
        err := RunBatch(store, figpath, dir, varid, flist);
        if err.Some? {
          DirsStop(start, ncpath, figpath, varid, glob, dirs, k + 1);
          return;
        }
      }
      k := k + 1;
    }
    assert dirs[..|dirs|] == dirs;
    err := None;
  }

  /** The body of the `scriptvars` loop for one variable. */
  method ProcessVariable(store: FileStore, ncpath: string, figpath: string, logpath: string, varid: string,
                         glob: string -> seq<Sweep>, stamp: string)
    returns (err: Option<Error>)
    modifies store
    ensures store.State() == AfterVariable(old(store.State()), ncpath, figpath, logpath, varid, glob, stamp).fs
    ensures err == AfterVariable(old(store.State()), ncpath, figpath, logpath, varid, glob, stamp).raised
  {
    WriteHeader(store, logpath, stamp);
    err := RunDirs(store, ncpath, figpath, varid, glob, Subdirs);
  }
}
