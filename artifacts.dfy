/** What both plotting scripts share: the input record that stands for one
    radar file, the short stem of its name, the directory and file name of the
    image drawn from it (the artifact key), and the filter applied to the
    listing of a scan directory. */
module Artifacts {
  import opened Strings
  import opened Store

  /** How the `VEL` gate-filter block of `sweep_plot.py` ends: the filter was
      built; something after `GateFilter(radar)` raised (the filter exists);
      or `GateFilter(radar)` itself raised (no filter was ever assigned). */
  datatype FilterOutcome = FilterBuilt | FilterRaisedAfterCreate | FilterNotCreated

  /** One input file as the radar reader would see it: its path, whether
      `read_cfradial` succeeds, the fixed angle rounded to an integer, whether
      the gate filtering, despeckling and drawing calls succeed, and the
      outcome of the `VEL` gate-filter block. */
  datatype Sweep = Sweep(
    path: string,
    readable: bool,
    angle: int,
    renders: bool,
    velFilter: FilterOutcome)

  /** `path.split("/")[-1]`. */
  function Basename(path: string): string
  {
    var parts := Split(path, '/');
    parts[|parts| - 1]
  }

  /** `'_'.join(Basename(path).split("_")[0:2])`: the first two
      `_`-separated fields of the file name. */
  function Stem(path: string): string
  {
    var fields := Split(Basename(path), '_');
    Join(fields[..if |fields| < 2 then |fields| else 2], '_')
  }

  /** The stem is a prefix of the base name, so it holds no `/`; it is the
      whole base name when that has no `_`; and it splits back into the first
      two fields of the base name (the whole name when there are fewer). */
  lemma StemShape(path: string)
    ensures var b, s := Basename(path), Stem(path);
      |s| <= |b| && s == b[..|s|]
    ensures '/' !in Basename(path) && '/' !in Stem(path)
    ensures '_' !in Basename(path) ==> Stem(path) == Basename(path)
    ensures var fields := Split(Basename(path), '_');
      Split(Stem(path), '_') == fields[..if |fields| < 2 then |fields| else 2]
  {
    var b := Basename(path);
    var fields := Split(b, '_');
    var k := if |fields| < 2 then |fields| else 2;
    SplitFields(path, '/');
    SplitFields(b, '_');
    JoinSplit(b, '_');
    JoinPrefix(fields, k, '_');
    var s := Stem(path);
    assert forall i :: 0 <= i < |s| ==> s[i] == b[i];
    if '_' !in b {
      SplitNoSep(b, '_');
      assert fields[..k] == fields;
    }
    SplitJoin(fields[..k], '_');
  }

  /** `"{}/{}/{}/{}".format(figdir, subdir, varid, angle)`. */
  function FigPath(figdir: string, subdir: string, varid: string, angle: int): string
  {
    figdir + "/" + subdir + "/" + varid + "/" + IntToString(angle)
  }

  /** `"{}_{}_{}.png".format(varid, angle, stem)`. */
  function FigName(varid: string, angle: int, stem: string): string
  {
    varid + "_" + IntToString(angle) + "_" + stem + ".png"
  }

  /** The image path for the input `path`: used both for the existence check
      and for the save. */
  function ArtifactKey(figdir: string, subdir: string, varid: string, angle: int, path: string): string
  {
    FigPath(figdir, subdir, varid, angle) + "/" + FigName(varid, angle, Stem(path))
  }

  /** Splitting `a + sep + b`, where `b` holds no separator, gives the fields of
      `a` followed by `b`. */
  lemma {:induction false} SplitSnoc(a: string, sep: char, b: string)
    requires sep !in b
    ensures Split(a + [sep] + b, sep) == Split(a, sep) + [b]
    decreases |a|
  {
    if |a| == 0 {
      assert a + [sep] + b == [sep] + b;
      assert ([sep] + b)[1..] == b;
      SplitNoSep(b, sep);
    } else {
      var s := a + [sep] + b;
      assert s[0] == a[0] && s[1..] == a[1..] + [sep] + b;
      SplitSnoc(a[1..], sep, b);
    }
  }

  /** Separator-free heads before a separator determine the split. */
  lemma SepSplitsUniquely(a1: string, t1: string, a2: string, t2: string, sep: char)
    requires sep !in a1 && sep !in a2
    requires a1 + [sep] + t1 == a2 + [sep] + t2
    ensures a1 == a2 && t1 == t2
  {
    var s := a1 + [sep] + t1;
    assert s[|a1|] == sep && s[|a2|] == sep;
    assert a1 == s[..|a1|] == a2;
    assert t1 == s[|a1| + 1..] == t2;
  }

  /** The key's last component is the image name, so the image lands inside
      the directory `mkdir_p` creates, and the key itself is not on that
      directory's chain. */
  lemma KeyInFigPath(figdir: string, subdir: string, varid: string, angle: int, path: string)
    requires '/' !in varid
    ensures var dir, key := FigPath(figdir, subdir, varid, angle), ArtifactKey(figdir, subdir, varid, angle, path);
      Split(key, '/') == Split(dir, '/') + [FigName(varid, angle, Stem(path))] &&
      Basename(key) == FigName(varid, angle, Stem(path)) &&
      |dir| < |key| && key[..|dir|] == dir
  {
    var dir := FigPath(figdir, subdir, varid, angle);
    var name := FigName(varid, angle, Stem(path));
    StemShape(path);
    IntToStringChars(angle);
    assert '/' !in IntToString(angle);
    assert '/' !in name;
    SplitSnoc(dir, '/', name);
    assert ArtifactKey(figdir, subdir, varid, angle, path) == dir + ['/'] + name;
  }

  /** Within one `figdir/subdir/varid`, the key determines the angle and the
      stem: two inputs share an image exactly when both agree. */
  lemma KeyInjective(figdir: string, subdir: string, varid: string,
                     a1: int, p1: string, a2: int, p2: string)
    requires '/' !in varid
    requires ArtifactKey(figdir, subdir, varid, a1, p1) == ArtifactKey(figdir, subdir, varid, a2, p2)
    ensures a1 == a2 && Stem(p1) == Stem(p2)
  {
    var x := figdir + "/" + subdir + "/" + varid + "/";
    var n1, n2 := IntToString(a1), IntToString(a2);
    var t1 := varid + "_" + n1 + "_" + Stem(p1) + ".png";
    var t2 := varid + "_" + n2 + "_" + Stem(p2) + ".png";
    var k1 := ArtifactKey(figdir, subdir, varid, a1, p1);
    var k2 := ArtifactKey(figdir, subdir, varid, a2, p2);
    assert k1 == x + (n1 + ['/'] + t1);
    assert k2 == x + (n2 + ['/'] + t2);
    assert k1[|x|..] == n1 + ['/'] + t1;
    assert k2[|x|..] == n2 + ['/'] + t2;
    IntToStringChars(a1);
    IntToStringChars(a2);
    assert '/' !in n1 && '/' !in n2;
    SepSplitsUniquely(n1, t1, n2, t2, '/');
    IntToStringInjective(a1, a2);
    var h := |varid + "_" + n1 + "_"|;
    assert t1[h..|t1| - 4] == Stem(p1);
    assert t2[h..|t2| - 4] == Stem(p2);
  }

  /** The directory marker of the files the scripts leave out. */
  const SurveillanceTag := "el-81.00_SUR"

  /** `[x for x in flist if 'el-81.00_SUR' not in x]`. */
  function KeepFiles(files: seq<Sweep>): (r: seq<Sweep>)
    ensures forall i :: 0 <= i < |r| ==> !Contains(r[i].path, SurveillanceTag)
    decreases |files|
  {
    if files == [] then []
    else (if Contains(files[0].path, SurveillanceTag) then [] else [files[0]]) + KeepFiles(files[1..])
  }

  /** The filter keeps every path without the marker as often as the listing
      has it, and drops every path with it. */
  lemma {:induction false} KeepFilesCounts(files: seq<Sweep>, x: Sweep)
    ensures multiset(KeepFiles(files))[x] ==
      (if Contains(x.path, SurveillanceTag) then 0 else multiset(files)[x])
    decreases |files|
  {
    if files != [] {
      KeepFilesCounts(files[1..], x);
      assert files == [files[0]] + files[1..];
    }
  }

  /** The filter keeps the original order: it works piecewise on a split list. */
  lemma {:induction false} KeepFilesConcat(a: seq<Sweep>, b: seq<Sweep>)
    ensures KeepFiles(a + b) == KeepFiles(a) + KeepFiles(b)
    decreases |a|
  {
    if a == [] {
      assert a + b == b;
    } else {
      var ab := a + b;
      assert ab[0] == a[0] && ab[1..] == a[1..] + b;
      KeepFilesConcat(a[1..], b);
      var head := if Contains(a[0].path, SurveillanceTag) then [] else [a[0]];
      assert KeepFiles(ab) == head + KeepFiles(a[1..] + b);
      assert KeepFiles(a) == head + KeepFiles(a[1..]);
    }
  }

  /** The images of the batch's inputs. */
  function Keys(figdir: string, subdir: string, varid: string, xs: seq<Sweep>): set<string>
    decreases |xs|
  {
    if xs == [] then {}
    else
      var last := xs[|xs| - 1];
      Keys(figdir, subdir, varid, xs[..|xs| - 1]) + {ArtifactKey(figdir, subdir, varid, last.angle, last.path)}
  }

  /** The directories the batch's inputs could create. */
  function DirChains(figdir: string, subdir: string, varid: string, xs: seq<Sweep>): set<string>
    decreases |xs|
  {
    if xs == [] then {}
    else DirChains(figdir, subdir, varid, xs[..|xs| - 1]) + Chain(FigPath(figdir, subdir, varid, xs[|xs| - 1].angle))
  }

  /** No file the batch could see or write lies where it needs a directory:
      the store is a tree the batch can finish in. */
  predicate Separate(fs: Fs, figdir: string, subdir: string, varid: string, xs: seq<Sweep>)
  {
    (fs.files + Keys(figdir, subdir, varid, xs)) !! (fs.dirs + DirChains(figdir, subdir, varid, xs))
  }

  /** What belongs to `Keys` and `DirChains`, input by input. */
  lemma {:induction false} Members(figdir: string, subdir: string, varid: string, xs: seq<Sweep>)
    ensures forall k :: k in Keys(figdir, subdir, varid, xs) <==>
      exists s :: s in xs && ArtifactKey(figdir, subdir, varid, s.angle, s.path) == k
    ensures forall d :: d in DirChains(figdir, subdir, varid, xs) <==>
      exists s :: s in xs && d in Chain(FigPath(figdir, subdir, varid, s.angle))
    decreases |xs|
  {
    if xs != [] {
      var init, last := xs[..|xs| - 1], xs[|xs| - 1];
      Members(figdir, subdir, varid, init);
      assert xs == init + [last];
      assert forall s :: s in xs <==> s in init || s == last;
    }
  }

  /** Two listings with the same members have the same images and chains. */
  lemma SameMembersSameSets(figdir: string, subdir: string, varid: string, xs: seq<Sweep>, ys: seq<Sweep>)
    requires forall s :: s in xs <==> s in ys
    ensures Keys(figdir, subdir, varid, xs) == Keys(figdir, subdir, varid, ys)
    ensures DirChains(figdir, subdir, varid, xs) == DirChains(figdir, subdir, varid, ys)
  {
    Members(figdir, subdir, varid, xs);
    Members(figdir, subdir, varid, ys);
  }

  /** The three lines written to the log file when a variable's pass begins;
      `stamp` is the formatted start time. */
  function LogHeader(stamp: string): seq<string>
  {
    ["------------------\n", "Log Start: " + stamp + "\n", "------------------\n"]
  }

  /** The three `write` calls of the header on the log file `logpath`. */
  function AppendHeader(fs: Fs, logpath: string, stamp: string): (r: Fs)
    ensures LogOf(r, logpath) == LogOf(fs, logpath) + LogHeader(stamp)
    ensures forall q :: q != logpath ==> LogOf(r, q) == LogOf(fs, q)
    ensures r.files == fs.files && r.dirs == fs.dirs && r.saved == fs.saved
  {
    var hd := LogHeader(stamp);
    Append(Append(Append(fs, logpath, hd[0]), logpath, hd[1]), logpath, hd[2])
  }

  /** The header written through the store. */
  method WriteHeader(store: FileStore, logpath: string, stamp: string)
    modifies store
    ensures store.State() == AppendHeader(old(store.State()), logpath, stamp)
  {
    store.AppendLog(logpath, "------------------\n");
    store.AppendLog(logpath, "Log Start: " + stamp + "\n");
    store.AppendLog(logpath, "------------------\n");
  }
}
