/** The DORADE to CfRadial conversion driver: for each campaign period
    (`iop`) it walks the days of its configured date range, and for each day
    the six scan subdirectories, enters the input directory, creates the
    matching output directory and issues one `RadxConvert` command line,
    logging each step to the period's log file. */
module RadxConvert {
  import opened Strings
  import opened Store

  // ---------------------------------------------------------------------
  // Calendar
  // ---------------------------------------------------------------------

  /** A calendar date, as `datetime` holds it at midnight. */
  datatype Date = Date(year: int, month: int, day: int)

  /** The Gregorian leap-year rule. */
  predicate Leap(y: int)
  {
    y % 4 == 0 && (y % 100 != 0 || y % 400 == 0)
  }

  /** The length of month `m` of year `y`. */
  function DaysInMonth(y: int, m: int): (n: int)
    ensures 28 <= n <= 31
  {
    if m == 2 then (if Leap(y) then 29 else 28)
    else if m == 4 || m == 6 || m == 9 || m == 11 then 30
    else 31
  }

  /** A date the converter can format: a real calendar day from 1900 (the
      first year `strftime` formats under Python 2) to 9999 (`datetime`'s
      last year). */
  predicate Valid(d: Date)
  {
    1900 <= d.year <= 9999 && 1 <= d.month <= 12 && 1 <= d.day <= DaysInMonth(d.year, d.month)
  }

  type ValidDate = d: Date | Valid(d) witness Date(1900, 1, 1)

  /** The last date `datetime` can hold; adding a day to it overflows. */
  const LastDate: ValidDate := Date(9999, 12, 31)

  /** The position of a date on the time line; comparing ranks is comparing
      dates. */
  function Rank(d: Date): int
  {
    d.year * 416 + d.month * 32 + d.day
  }

  /** Comparing ranks is the lexicographic comparison of (year, month, day)
      that `datetime`'s `<` performs, and equal ranks are equal dates. */
  lemma RankOrder(a: ValidDate, b: ValidDate)
    ensures Rank(a) < Rank(b) <==>
      a.year < b.year || (a.year == b.year && (a.month < b.month || (a.month == b.month && a.day < b.day)))
    ensures Rank(a) == Rank(b) <==> a == b
  {
    if a.year < b.year {
      assert Rank(a) <= a.year * 416 + 415 < (a.year + 1) * 416 + 33 <= Rank(b);
    } else if b.year < a.year {
      assert Rank(b) <= b.year * 416 + 415 < (b.year + 1) * 416 + 33 <= Rank(a);
    }
  }

  /** No date comes after `LastDate`. */
  lemma LastIsLatest(x: ValidDate)
    ensures Rank(x) <= Rank(LastDate)
  {
  }

  /** `d + timedelta(days=1)`. */
  function NextDay(d: ValidDate): (r: ValidDate)
    requires d != LastDate
    ensures Rank(d) < Rank(r)
  {
    if d.day < DaysInMonth(d.year, d.month) then d.(day := d.day + 1)
    else if d.month < 12 then Date(d.year, d.month + 1, 1)
    else Date(d.year + 1, 1, 1)
  }

  /** The next day is the next date: no valid date lies strictly between. */
  lemma NextDayIsNext(d: ValidDate, x: ValidDate)
    requires d != LastDate
    requires Rank(d) < Rank(x)
    ensures Rank(NextDay(d)) <= Rank(x)
  {
    RankOrder(d, x);
    RankOrder(NextDay(d), x);
  }

  /** The days `current_obj` takes while `current_obj <= end_obj`, starting
      from `cur`. The walk stops at `LastDate`, where the next increment
      overflows. */
  function DaysFrom(cur: ValidDate, end: ValidDate): seq<ValidDate>
    decreases Rank(end) - Rank(cur)
  {
    if Rank(end) < Rank(cur) then []
    else if cur == LastDate then [cur]
    else [cur] + DaysFrom(NextDay(cur), end)
  }

  /** The walk starts at the start date, is empty exactly when the start
      is after the end, moves one day at a time and stays in range. */
  lemma {:induction false} DaysSteps(cur: ValidDate, end: ValidDate)
    ensures var r := DaysFrom(cur, end);
      && (r == [] <==> Rank(end) < Rank(cur))
      && (r != [] ==> r[0] == cur)
      && (forall i :: 0 <= i < |r| ==> Rank(cur) <= Rank(r[i]) <= Rank(end))
      && (forall i :: 0 <= i < |r| - 1 ==> r[i] != LastDate && r[i + 1] == NextDay(r[i]))
    decreases Rank(end) - Rank(cur)
  {
    if Rank(cur) <= Rank(end) && cur != LastDate {
      DaysSteps(NextDay(cur), end);
    }
  }

  /** The walk is strictly ascending, so it repeats no day. */
  lemma {:induction false} DaysAscending(cur: ValidDate, end: ValidDate)
    ensures var r := DaysFrom(cur, end);
      forall i, j :: 0 <= i < j < |r| ==> Rank(r[i]) < Rank(r[j])
    decreases Rank(end) - Rank(cur)
  {
    if Rank(cur) <= Rank(end) && cur != LastDate {
      var next := NextDay(cur);
      DaysAscending(next, end);
      DaysSteps(next, end);
      var r := DaysFrom(cur, end);
      assert r == [cur] + DaysFrom(next, end);
      forall i, j | 0 <= i < j < |r|
        ensures Rank(r[i]) < Rank(r[j])
      {
        assert r[j] == DaysFrom(next, end)[j - 1];
        if i > 0 {
          assert r[i] == DaysFrom(next, end)[i - 1];
        }
      }
    }
  }

  /** Every day from the start to the end inclusive is visited, and no
      other. */
  lemma {:induction false} DaysMembers(cur: ValidDate, end: ValidDate, x: ValidDate)
    ensures x in DaysFrom(cur, end) <==> Rank(cur) <= Rank(x) <= Rank(end)
    decreases Rank(end) - Rank(cur)
  {
    DaysSteps(cur, end);
    if Rank(cur) <= Rank(x) <= Rank(end) {
      if x == cur {
        assert DaysFrom(cur, end)[0] == x;
      } else {
        RankOrder(cur, x);
        LastIsLatest(x);
        assert cur != LastDate;
        NextDayIsNext(cur, x);
        DaysMembers(NextDay(cur), end, x);
        assert DaysFrom(cur, end) == [cur] + DaysFrom(NextDay(cur), end);
      }
    }
  }

  /** The walk over a non-empty range ends on the end date. */
  lemma {:induction false} DaysEnd(cur: ValidDate, end: ValidDate)
    requires Rank(cur) <= Rank(end)
    ensures var r := DaysFrom(cur, end); r != [] && r[|r| - 1] == end
    decreases Rank(end) - Rank(cur)
  {
    if cur == LastDate {
      LastIsLatest(end);
      RankOrder(cur, end);
    } else if cur == end {
      assert DaysFrom(NextDay(cur), end) == [];
    } else {
      RankOrder(cur, end);
      NextDayIsNext(cur, end);
      DaysEnd(NextDay(cur), end);
    }
  }

  // ---------------------------------------------------------------------
  // Date text
  // ---------------------------------------------------------------------

  /** A number below 100 as two digits, with a leading zero: `%m`, `%d`. */
  function Digits2(n: nat): (r: string)
    requires n < 100
    ensures |r| == 2
  {
    [DigitChar(n / 10), DigitChar(n % 10)]
  }

  /** A number below 10000 as four digits: `%Y`. */
  function Digits4(n: nat): (r: string)
    requires n < 10000
    ensures |r| == 4
  {
    Digits2(n / 100) + Digits2(n % 100)
  }

  /** The two-digit text is `str(n)`, zero-padded to two characters. */
  lemma Digits2Pads(n: nat)
    requires n < 100
    ensures Digits2(n) == if n < 10 then "0" + NatToString(n) else NatToString(n)
  {
    if n >= 10 {
      assert NatToString(n / 10) == [DigitChar(n / 10)];
    }
  }

  /** Two numbers with the same two-digit text are equal. */
  lemma Digits2Injective(a: nat, b: nat)
    requires a < 100 && b < 100
    requires Digits2(a) == Digits2(b)
    ensures a == b
  {
    assert Digits2(a)[0] == Digits2(b)[0] && Digits2(a)[1] == Digits2(b)[1];
    assert a / 10 == b / 10 && a % 10 == b % 10;
  }

  /** `strftime('%Y%m%d')`. */
  function Ymd(d: ValidDate): (r: string)
    ensures |r| == 8
  {
    Digits4(d.year) + Digits2(d.month) + Digits2(d.day)
  }

  /** `strftime('%m%d')`. */
  function Md(d: ValidDate): (r: string)
    ensures |r| == 4
  {
    Digits2(d.month) + Digits2(d.day)
  }

  /** The month-day text is the last four characters of the full date
      text. */
  lemma MdIsYmdTail(d: ValidDate)
    ensures Md(d) == Ymd(d)[4..]
  {
    assert Ymd(d) == Digits4(d.year) + Md(d);
  }

  /** Distinct days have distinct date texts. */
  lemma YmdInjective(a: ValidDate, b: ValidDate)
    requires Ymd(a) == Ymd(b)
    ensures a == b
  {
    var ya, yb := Ymd(a), Ymd(b);
    assert ya[0..2] == Digits2(a.year / 100) && yb[0..2] == Digits2(b.year / 100);
    assert ya[2..4] == Digits2(a.year % 100) && yb[2..4] == Digits2(b.year % 100);
    assert ya[4..6] == Digits2(a.month) && yb[4..6] == Digits2(b.month);
    assert ya[6..8] == Digits2(a.day) && yb[6..8] == Digits2(b.day);
    Digits2Injective(a.year / 100, b.year / 100);
    Digits2Injective(a.year % 100, b.year % 100);
    Digits2Injective(a.month, b.month);
    Digits2Injective(a.day, b.day);
  }

  // ---------------------------------------------------------------------
  // The script's fixed strings, paths and the command line
  // ---------------------------------------------------------------------

  /** The fixed strings the script is written with: the campaign's input
      tree, the output tree, the converter binary (with the trailing space
      of `cmd_str`), the directory of parameter files, the scan
      subdirectories in visiting order, and the fixed parts of the log
      lines. The functions below take them as a value; `Oreo` holds the
      script's own. */
  datatype Script = Script(
    inputBase: string, outputBase: string, binary: string, paramsDir: string,
    dirs: seq<string>,
    cannotAccess: string, changedDir: string, success: string,
    header: string, footer: string, footerRule: string)

  const Oreo: Script := Script(
    "/uufs/chpc.utah.edu/common/home/steenburgh-group7/OREO/",
    "/uufs/chpc.utah.edu/common/home/horel-group3/horel_data/mewessler/oreo/radarX/",
    "/uufs/chpc.utah.edu/sys/pkg/radx/20140113/bin/RadxConvert ",
    "/uufs/chpc.utah.edu/common/home/u1070830/oreo/code/radx/params/",
    ["high/rhi", "high/sec", "high/sur", "low/rhi", "low/sec", "low/sur"],
    "Could not access ", "Changed Dir to ", " Success\n",
    "-----------------\nBegin Convert ", "Completed at ", "\n------------------------\n")

  /** The campaign periods, in the order they are converted. */
  const Iops := ["iop1", "iop5", "iop6", "iop7"]

  /** `indir`: where a period's DORADE moments live. */
  function InputRoot(s: Script, iop: string): string
  {
    s.inputBase + iop + "/dorade/moments"
  }

  /** `outdir`: where a period's CfRadial files go. */
  function OutputRoot(s: Script, iop: string): string
  {
    s.outputBase + iop + "/cfradial"
  }

  /** The period's log file. */
  function LogPath(s: Script, iop: string): string
  {
    OutputRoot(s, iop) + "/" + iop + "_convert.log"
  }

  /** Distinct periods write distinct log files. */
  lemma LogPathInjective(s: Script, a: string, b: string)
    requires LogPath(s, a) == LogPath(s, b)
    ensures a == b
  {
    var p := s.outputBase;
    assert |LogPath(s, a)| == |p| + 2 * |a| + |"/cfradial"| + |"/"| + |"_convert.log"|;
    assert |a| == |b|;
    assert LogPath(s, a)[|p|..|p| + |a|] == a;
    assert LogPath(s, b)[|p|..|p| + |b|] == b;
  }

  /** `_indir`: with `in_date_subdir` the day's own subdirectory, otherwise
      the scan directory itself (with a trailing `/`). */
  function InputDir(s: Script, iop: string, dir: string, d: ValidDate, inDateSubdir: bool): string
  {
    if inDateSubdir then InputRoot(s, iop) + "/" + dir + "/" + Ymd(d)
    else InputRoot(s, iop) + "/" + dir + "/"
  }

  /** With `in_date_subdir`, distinct (day, scan directory) pairs read
      distinct input directories; without it, every day of one scan
      directory reads the same one. */
  lemma InputDirDistinct(s: Script, iop: string, a: string, b: string, d1: ValidDate, d2: ValidDate, inDateSubdir: bool)
    ensures inDateSubdir ==>
      (InputDir(s, iop, a, d1, true) == InputDir(s, iop, b, d2, true) <==> a == b && d1 == d2)
    ensures !inDateSubdir ==>
      (InputDir(s, iop, a, d1, false) == InputDir(s, iop, b, d2, false) <==> a == b)
  {
    var root := InputRoot(s, iop) + "/";
    var p1, p2 := InputDir(s, iop, a, d1, inDateSubdir), InputDir(s, iop, b, d2, inDateSubdir);
    if p1 == p2 {
      assert |a| == |b|;
      assert p1[|root|..|root| + |a|] == a;
      assert p2[|root|..|root| + |b|] == b;
      if inDateSubdir {
        assert p1[|p1| - 8..] == Ymd(d1) && p2[|p2| - 8..] == Ymd(d2);
        YmdInjective(d1, d2);
      }
    }
  }

  /** The command line for one scan directory: the binary, the period's
      parameter file, no extra arguments, the files of the day (`swp*MMDD*`
      in the current directory) and the output directory. */
  function CommandLine(s: Script, iop: string, md: string, outdir: string, dir: string): string
  {
    s.binary
    + ("-params " + s.paramsDir + iop + "_params ")
    + ""
    + ("-f swp*" + md + "* -outdir " + outdir + "/" + dir)
  }

  /** The command line ends with the `-f` argument naming the last four
      characters of the day's date text, then the output directory. */
  lemma CommandNamesDay(s: Script, iop: string, d: ValidDate, dir: string)
    ensures var line := CommandLine(s, iop, Md(d), OutputRoot(s, iop), dir);
      var tail := "-f swp*" + Ymd(d)[4..] + "* -outdir " + OutputRoot(s, iop) + "/" + dir;
      |tail| <= |line| && line[|line| - |tail|..] == tail
  {
    MdIsYmdTail(d);
  }

  // ---------------------------------------------------------------------
  // Host state and one visit
  // ---------------------------------------------------------------------

  /** A command passed to `os.system`, with the working directory it runs
      in (the `swp*` pattern is relative to it). */
  datatype Command = Command(cwd: string, line: string)

  /** What the converter changes: the file store, the working directory and
      the commands issued so far. */
  datatype Host = Host(fs: Fs, cwd: string, issued: seq<Command>)

  /** Where a run of script code ends on the host. */
  datatype HostRun = HostRun(host: Host, raised: Option<Error>)

  /** One pass of the inner loop: a day and a scan directory. */
  datatype Visit = Visit(day: ValidDate, dir: string)

  /** What the inner loop reads besides the visit: the script's strings,
      the period and its `in_date_subdir` setting. */
  datatype Job = Job(script: Script, iop: string, inDateSubdir: bool)

  /** The visits for one day, in the order of `dirs`. */
  function DayVisits(dirs: seq<string>, d: ValidDate): (r: seq<Visit>)
    ensures |r| == |dirs|
    decreases |dirs|
  {
    if dirs == [] then [] else DayVisits(dirs[..|dirs| - 1], d) + [Visit(d, dirs[|dirs| - 1])]
  }

  /** Visit `j` of a day is the day with scan directory `j`. */
  lemma {:induction false} DayVisitsOrder(dirs: seq<string>, d: ValidDate)
    ensures forall j :: 0 <= j < |dirs| ==> DayVisits(dirs, d)[j] == Visit(d, dirs[j])
    decreases |dirs|
  {
    if dirs != [] {
      DayVisitsOrder(dirs[..|dirs| - 1], d);
    }
  }

  /** The visits of one more scan directory. */
  lemma DayVisitsSnoc(dirs: seq<string>, d: ValidDate, j: nat)
    requires j < |dirs|
    ensures DayVisits(dirs[..j + 1], d) == DayVisits(dirs[..j], d) + [Visit(d, dirs[j])]
  {
    assert dirs[..j + 1][..j] == dirs[..j];
  }

  /** The visits of a day, cut after scan directory `k`. */
  lemma DayVisitsSplit(dirs: seq<string>, d: ValidDate, k: nat)
    requires k <= |dirs|
    ensures DayVisits(dirs, d) == DayVisits(dirs[..k], d) + DayVisits(dirs[k..], d)
  {
    assert dirs == dirs[..k] + dirs[k..];
    DayVisitsConcat(dirs[..k], dirs[k..], d);
  }

  /** The visits of consecutive runs of scan directories are consecutive. */
  lemma {:induction false} DayVisitsConcat(xs: seq<string>, ys: seq<string>, d: ValidDate)
    ensures DayVisits(xs + ys, d) == DayVisits(xs, d) + DayVisits(ys, d)
    decreases |ys|
  {
    if ys != [] {
      var init := ys[..|ys| - 1];
      DayVisitsConcat(xs, init, d);
      var whole := xs + ys;
      assert whole[..|whole| - 1] == xs + init;
      assert whole[|whole| - 1] == ys[|ys| - 1];
    } else {
      assert xs + ys == xs;
    }
  }

  /** The visits for a list of days, day by day. */
  function Visits(dirs: seq<string>, days: seq<ValidDate>): seq<Visit>
    decreases |days|
  {
    if days == [] then [] else Visits(dirs, days[..|days| - 1]) + DayVisits(dirs, days[|days| - 1])
  }

  /** The visits of day `k` come, in the order of `dirs`, after those of
      the days before it and before those of the days after it. */
  lemma VisitsAt(dirs: seq<string>, days: seq<ValidDate>, k: nat)
    requires k < |days|
    ensures Visits(dirs, days) ==
      Visits(dirs, days[..k]) + DayVisits(dirs, days[k]) + Visits(dirs, days[k + 1..])
  {
    assert days == days[..k] + [days[k]] + days[k + 1..];
    VisitsConcat(dirs, days[..k] + [days[k]], days[k + 1..]);
    VisitsConcat(dirs, days[..k], [days[k]]);
    assert [days[k]][..0] == [];
  }

  /** Every visit is of one of the days and one of the scan directories. */
  lemma {:induction false} VisitsFrom(dirs: seq<string>, days: seq<ValidDate>)
    ensures forall v :: v in Visits(dirs, days) ==> v.dir in dirs && v.day in days
    decreases |days|
  {
    if days != [] {
      VisitsFrom(dirs, days[..|days| - 1]);
      DayVisitsOrder(dirs, days[|days| - 1]);
      assert forall d :: d in days[..|days| - 1] ==> d in days;
    }
  }

  /** The visits of consecutive runs of days are consecutive. */
  lemma {:induction false} VisitsConcat(dirs: seq<string>, xs: seq<ValidDate>, ys: seq<ValidDate>)
    ensures Visits(dirs, xs + ys) == Visits(dirs, xs) + Visits(dirs, ys)
    decreases |ys|
  {
    if ys != [] {
      var init := ys[..|ys| - 1];
      VisitsConcat(dirs, xs, init);
      var whole := xs + ys;
      assert whole[..|whole| - 1] == xs + init;
      assert whole[|whole| - 1] == ys[|ys| - 1];
    } else {
      assert xs + ys == xs;
    }
  }

  /** `_indir` for a visit. */
  function Source(job: Job, v: Visit): string
  {
    InputDir(job.script, job.iop, v.dir, v.day, job.inDateSubdir)
  }

  /** `outdir + '/' + Dir` for a visit. */
  function Target(job: Job, v: Visit): string
  {
    OutputRoot(job.script, job.iop) + "/" + v.dir
  }

  /** The command a visit issues once it has entered its input directory. */
  function CommandFor(job: Job, v: Visit): Command
  {
    Command(Source(job, v), CommandLine(job.script, job.iop, Md(v.day), OutputRoot(job.script, job.iop), v.dir))
  }

  /** The log lines of a visit. */
  function AccessFailed(s: Script, dir: string): string { s.cannotAccess + dir + "\n" }
  function Entered(s: Script, dir: string): string { s.changedDir + dir + "\n" }
  function Succeeded(s: Script, dir: string): string { dir + s.success }

  /** One pass of the inner loop. `enterable` holds the directories
      `os.chdir` can enter. A directory that cannot be entered is logged and
      skipped; otherwise the working directory changes, the output
      directory is created (an error there leaves the script) and the
      command is issued. `os.system` does not raise on a failing command,
      so the success line follows every issued command. */
  function VisitStep(h: Host, job: Job, enterable: set<string>, v: Visit): (r: HostRun)
    ensures r.host.fs.files == h.fs.files
  {
    var s := job.script;
    var dir := Source(job, v);
    var log := LogPath(s, job.iop);
    if dir !in enterable then
      HostRun(h.(fs := Append(h.fs, log, AccessFailed(s, dir))), None)
    else
      var entered := Host(Append(h.fs, log, Entered(s, dir)), dir, h.issued);
      var made := MakeDirs(entered.fs, Target(job, v));
      if made.Failed? then HostRun(entered, Some(made.error))
      else HostRun(Host(Append(made.fs, log, Succeeded(s, v.dir)), dir, h.issued + [CommandFor(job, v)]), None)
  }

  /** The lines a visit logs. */
  function VisitLines(job: Job, enterable: set<string>, v: Visit): seq<string>
  {
    var dir := Source(job, v);
    if dir in enterable then [Entered(job.script, dir), Succeeded(job.script, v.dir)]
    else [AccessFailed(job.script, dir)]
  }

  /** A directory that cannot be entered: exactly one line is logged, and
      no directory, command or working-directory change follows. */
  lemma SkipsInaccessible(h: Host, job: Job, enterable: set<string>, v: Visit)
    requires Source(job, v) !in enterable
    ensures var r := VisitStep(h, job, enterable, v);
      && r.raised.None?
      && r.host.fs.dirs == h.fs.dirs && r.host.cwd == h.cwd && r.host.issued == h.issued
      && LogOf(r.host.fs, LogPath(job.script, job.iop)) ==
         LogOf(h.fs, LogPath(job.script, job.iop)) + [AccessFailed(job.script, Source(job, v))]
  {
  }

  /** A directory that can be entered, with room for the output directory:
      the output directory's chain exists afterwards, the one command is
      issued from the input directory, and the two lines are logged. */
  lemma ConvertsAccessible(h: Host, job: Job, enterable: set<string>, v: Visit)
    requires Source(job, v) in enterable
    requires Chain(Target(job, v)) !! h.fs.files
    ensures var r := VisitStep(h, job, enterable, v);
      && r.raised.None?
      && r.host.fs.dirs == h.fs.dirs + Chain(Target(job, v))
      && r.host.cwd == Source(job, v)
      && r.host.issued == h.issued + [CommandFor(job, v)]
      && LogOf(r.host.fs, LogPath(job.script, job.iop)) ==
         LogOf(h.fs, LogPath(job.script, job.iop)) + VisitLines(job, enterable, v)
  {
    var log := LogPath(job.script, job.iop);
    var fs1 := Append(h.fs, log, Entered(job.script, Source(job, v)));
    assert MakeDirs(fs1, Target(job, v)).Done?;
    TwoLines(h.fs, MakeDirs(fs1, Target(job, v)).fs, log, Entered(job.script, Source(job, v)), Succeeded(job.script, v.dir));
  }

  /** A visit that raised nothing logged its lines and issued its
      command, if any. */
  lemma VisitLogged(h: Host, job: Job, enterable: set<string>, v: Visit)
    ensures var r := VisitStep(h, job, enterable, v);
      r.raised.None? ==>
        && LogOf(r.host.fs, LogPath(job.script, job.iop)) ==
           LogOf(h.fs, LogPath(job.script, job.iop)) + VisitLines(job, enterable, v)
        && r.host.issued == h.issued + (if Source(job, v) in enterable then [CommandFor(job, v)] else [])
  {
    var log := LogPath(job.script, job.iop);
    var fs1 := Append(h.fs, log, Entered(job.script, Source(job, v)));
    if Source(job, v) in enterable && MakeDirs(fs1, Target(job, v)).Done? {
      TwoLines(h.fs, MakeDirs(fs1, Target(job, v)).fs, log, Entered(job.script, Source(job, v)), Succeeded(job.script, v.dir));
    }
  }

  /** Two lines appended around a directory creation. */
  lemma TwoLines(fs: Fs, made: Fs, log: string, a: string, b: string)
    requires made.logs == Append(fs, log, a).logs
    ensures LogOf(Append(made, log, b), log) == LogOf(fs, log) + [a, b]
  {
    assert LogOf(made, log) == LogOf(fs, log) + [a];
    assert (LogOf(fs, log) + [a]) + [b] == LogOf(fs, log) + [a, b];
  }

  /** A visit writes only its period's log. */
  lemma VisitOtherLogs(h: Host, job: Job, enterable: set<string>, v: Visit, q: string)
    requires q != LogPath(job.script, job.iop)
    ensures LogOf(VisitStep(h, job, enterable, v).host.fs, q) == LogOf(h.fs, q)
  {
  }

  // ---------------------------------------------------------------------
  // The visits of a period
  // ---------------------------------------------------------------------

  /** The inner loops run over `vs`, up to the first exception. */
  function AfterVisits(h: Host, job: Job, enterable: set<string>, vs: seq<Visit>): (r: HostRun)
    ensures r.host.fs.files == h.fs.files
    decreases |vs|
  {
    if vs == [] then HostRun(h, None)
    else
      var before := AfterVisits(h, job, enterable, vs[..|vs| - 1]);
      if before.raised.Some? then before
      else VisitStep(before.host, job, enterable, vs[|vs| - 1])
  }

  /** After an exception nothing more happens. */
  lemma {:induction false} VisitsStop(h: Host, job: Job, enterable: set<string>, vs: seq<Visit>, ws: seq<Visit>)
    requires AfterVisits(h, job, enterable, vs).raised.Some?
    ensures AfterVisits(h, job, enterable, vs + ws) == AfterVisits(h, job, enterable, vs)
    decreases |ws|
  {
    if ws != [] {
      VisitsStop(h, job, enterable, vs, ws[..|ws| - 1]);
      var whole := vs + ws;
      assert whole[..|whole| - 1] == vs + ws[..|ws| - 1];
    } else {
      assert vs + ws == vs;
    }
  }

  /** One more visit after `vs`. */
  lemma VisitsSnoc(h: Host, job: Job, enterable: set<string>, vs: seq<Visit>, v: Visit)
    ensures AfterVisits(h, job, enterable, vs + [v]) ==
      var a := AfterVisits(h, job, enterable, vs);
      if a.raised.Some? then a else VisitStep(a.host, job, enterable, v)
  {
    assert (vs + [v])[..|vs|] == vs;
  }

  /** Running `vs` and then `ws` is running `vs + ws`. */
  lemma {:induction false} VisitsSplit(h: Host, job: Job, enterable: set<string>, vs: seq<Visit>, ws: seq<Visit>)
    ensures AfterVisits(h, job, enterable, vs + ws) ==
      var a := AfterVisits(h, job, enterable, vs);
      if a.raised.Some? then a else AfterVisits(a.host, job, enterable, ws)
    decreases |ws|
  {
    var a := AfterVisits(h, job, enterable, vs);
    if a.raised.Some? {
      VisitsStop(h, job, enterable, vs, ws);
    } else if ws != [] {
      VisitsSplit(h, job, enterable, vs, ws[..|ws| - 1]);
      var whole := vs + ws;
      assert whole[..|whole| - 1] == vs + ws[..|ws| - 1];
      assert whole[|whole| - 1] == ws[|ws| - 1];
    } else {
      assert vs + ws == vs;
    }
  }

  /** The log lines of a list of visits. */
  function Lines(job: Job, enterable: set<string>, vs: seq<Visit>): seq<string>
    decreases |vs|
  {
    if vs == [] then [] else Lines(job, enterable, vs[..|vs| - 1]) + VisitLines(job, enterable, vs[|vs| - 1])
  }

  /** The commands of a list of visits: one for each visit whose input
      directory can be entered. */
  function Commands(job: Job, enterable: set<string>, vs: seq<Visit>): seq<Command>
    decreases |vs|
  {
    if vs == [] then []
    else
      var v := vs[|vs| - 1];
      Commands(job, enterable, vs[..|vs| - 1]) + (if Source(job, v) in enterable then [CommandFor(job, v)] else [])
  }

  /** The commands issued are exactly those of the visits whose input
      directory can be entered. */
  lemma {:induction false} CommandsMembers(job: Job, enterable: set<string>, vs: seq<Visit>, c: Command)
    ensures c in Commands(job, enterable, vs) <==>
      exists v :: v in vs && Source(job, v) in enterable && c == CommandFor(job, v)
    decreases |vs|
  {
    if vs != [] {
      var init, last := vs[..|vs| - 1], vs[|vs| - 1];
      CommandsMembers(job, enterable, init, c);
      assert vs == init + [last];
      assert forall v :: v in vs <==> v in init || v == last;
    }
  }

  /** A run of visits that raised nothing wrote exactly their lines to the
      period's log and issued exactly their commands. */
  lemma {:induction false} VisitsLog(h: Host, job: Job, enterable: set<string>, vs: seq<Visit>)
    ensures var r := AfterVisits(h, job, enterable, vs);
      r.raised.None? ==>
        && LogOf(r.host.fs, LogPath(job.script, job.iop)) ==
           LogOf(h.fs, LogPath(job.script, job.iop)) + Lines(job, enterable, vs)
        && r.host.issued == h.issued + Commands(job, enterable, vs)
    decreases |vs|
  {
    if vs != [] {
      var init := vs[..|vs| - 1];
      VisitsLog(h, job, enterable, init);
      VisitLogged(AfterVisits(h, job, enterable, init).host, job, enterable, vs[|vs| - 1]);
    }
  }

  /** With room for every output directory, no visit raises. */
  lemma {:induction false} VisitsClean(h: Host, job: Job, enterable: set<string>, vs: seq<Visit>)
    requires forall v :: v in vs ==> Chain(Target(job, v)) !! h.fs.files
    ensures AfterVisits(h, job, enterable, vs).raised.None?
    decreases |vs|
  {
    if vs != [] {
      var init, last := vs[..|vs| - 1], vs[|vs| - 1];
      assert forall v :: v in init ==> v in vs;
      VisitsClean(h, job, enterable, init);
      var a := AfterVisits(h, job, enterable, init).host;
      assert Chain(Target(job, last)) !! a.fs.files;
      assert VisitStep(a, job, enterable, last).raised.None?;
    }
  }

  /** The visits write only their period's log. */
  lemma {:induction false} VisitsOtherLogs(h: Host, job: Job, enterable: set<string>, vs: seq<Visit>, q: string)
    requires q != LogPath(job.script, job.iop)
    ensures LogOf(AfterVisits(h, job, enterable, vs).host.fs, q) == LogOf(h.fs, q)
    decreases |vs|
  {
    if vs != [] {
      var init := vs[..|vs| - 1];
      VisitsOtherLogs(h, job, enterable, init, q);
      VisitOtherLogs(AfterVisits(h, job, enterable, init).host, job, enterable, vs[|vs| - 1], q);
    }
  }

  // ---------------------------------------------------------------------
  // One period
  // ---------------------------------------------------------------------

  /** A period's entry in the configuration table: `start_date` and
      `end_date` as `strptime` parsed them, and `in_date_subdir`. */
  datatype Period = Period(start: ValidDate, end: ValidDate, inDateSubdir: bool)

  /** The log header and footer around a clock reading. */
  function BeginText(s: Script, stamp: string): string { s.header + stamp + "\n" }
  function EndText(s: Script, stamp: string): string { s.footer + stamp + s.footerRule }

  /** The walk ends on the last date, where the increment after its visits
      overflows. */
  predicate Overflows(start: ValidDate, end: ValidDate)
  {
    var days := DaysFrom(start, end);
    days != [] && days[|days| - 1] == LastDate
  }

  /** The `while` loop over the days from `start` to `end`, each with the
      `for` loop over the scan directories, up to the first exception. */
  function Walk(h: Host, job: Job, enterable: set<string>, start: ValidDate, end: ValidDate): HostRun
  {
    var r := AfterVisits(h, job, enterable, Visits(job.script.dirs, DaysFrom(start, end)));
    if r.raised.Some? then r
    else if Overflows(start, end) then HostRun(r.host, Some(Overflow))
    else r
  }

  /** The state just after the header is written: `outdir` created (by
      `made`), the log opened with `w+`, which discards its old text, and
      the header written. */
  function Opened(h: Host, s: Script, iop: string, made: Fs, begun: string): Host
  {
    var log := LogPath(s, iop);
    h.(fs := Append(Truncate(made, log), log, BeginText(s, begun)))
  }

  /** One pass of the outer loop: create `outdir`, open the log, walk the
      days and their scan directories, write the footer. `begun` and
      `finished` are the clock readings formatted for the header and the
      footer. */
  function ConvertPeriod(h: Host, s: Script, iop: string, p: Period, enterable: set<string>,
                         begun: string, finished: string): HostRun
  {
    var made := MakeDirs(h.fs, OutputRoot(s, iop));
    if made.Failed? then HostRun(h, Some(made.error))
    else
      var r := Walk(Opened(h, s, iop, made.fs, begun), Job(s, iop, p.inDateSubdir), enterable, p.start, p.end);
      if r.raised.Some? then r
      else HostRun(r.host.(fs := Append(r.host.fs, LogPath(s, iop), EndText(s, finished))), None)
  }

  /** The text of a period's log after a run that raised nothing. */
  function PeriodLog(s: Script, iop: string, p: Period, enterable: set<string>, begun: string, finished: string): seq<string>
  {
    [BeginText(s, begun)] + Lines(Job(s, iop, p.inDateSubdir), enterable, Visits(s.dirs, DaysFrom(p.start, p.end)))
    + [EndText(s, finished)]
  }

  /** A period that raised nothing leaves its log holding the header, one
      group of lines per visit and the footer, whatever the log held
      before; the commands issued are those of the enterable visits. */
  lemma PeriodLogged(h: Host, s: Script, iop: string, p: Period, enterable: set<string>, begun: string, finished: string)
    ensures var r := ConvertPeriod(h, s, iop, p, enterable, begun, finished);
      r.raised.None? ==>
        && LogOf(r.host.fs, LogPath(s, iop)) == PeriodLog(s, iop, p, enterable, begun, finished)
        && r.host.issued == h.issued + Commands(Job(s, iop, p.inDateSubdir), enterable, Visits(s.dirs, DaysFrom(p.start, p.end)))
  {
    var made := MakeDirs(h.fs, OutputRoot(s, iop));
    if made.Done? {
      var start := Opened(h, s, iop, made.fs, begun);
      assert LogOf(start.fs, LogPath(s, iop)) == [BeginText(s, begun)];
      VisitsLog(start, Job(s, iop, p.inDateSubdir), enterable, Visits(s.dirs, DaysFrom(p.start, p.end)));
    }
  }

  /** A period writes only its own log. */
  lemma PeriodOtherLogs(h: Host, s: Script, iop: string, p: Period, enterable: set<string>, begun: string, finished: string, q: string)
    requires q != LogPath(s, iop)
    ensures LogOf(ConvertPeriod(h, s, iop, p, enterable, begun, finished).host.fs, q) == LogOf(h.fs, q)
  {
    var made := MakeDirs(h.fs, OutputRoot(s, iop));
    if made.Done? {
      var start := Opened(h, s, iop, made.fs, begun);
      assert LogOf(start.fs, q) == LogOf(h.fs, q);
      VisitsOtherLogs(start, Job(s, iop, p.inDateSubdir), enterable, Visits(s.dirs, DaysFrom(p.start, p.end)), q);
    }
  }

  /** With no file in the way of `outdir` or any of its scan directories,
      a period raises nothing, except the overflow after visiting the last
      date. */
  lemma PeriodClean(h: Host, s: Script, iop: string, p: Period, enterable: set<string>, begun: string, finished: string)
    requires Chain(OutputRoot(s, iop)) !! h.fs.files
    requires forall d :: d in s.dirs ==> Chain(OutputRoot(s, iop) + "/" + d) !! h.fs.files
    ensures ConvertPeriod(h, s, iop, p, enterable, begun, finished).raised ==
      if Overflows(p.start, p.end) then Some(Overflow) else None
  {
    var made := MakeDirs(h.fs, OutputRoot(s, iop));
    assert made.Done?;
    var start := Opened(h, s, iop, made.fs, begun);
    var job := Job(s, iop, p.inDateSubdir);
    var vs := Visits(s.dirs, DaysFrom(p.start, p.end));
    VisitsFrom(s.dirs, DaysFrom(p.start, p.end));
    assert forall v :: v in vs ==> Chain(Target(job, v)) !! start.fs.files;
    VisitsClean(start, job, enterable, vs);
  }

  // ---------------------------------------------------------------------
  // The whole campaign
  // ---------------------------------------------------------------------

  /** The outer loop over `iops`, up to the first exception. A period
      missing from the configuration table raises `KeyError`. */
  function ConvertAll(h: Host, s: Script, config: map<string, Period>, enterable: set<string>,
                      begun: string -> string, finished: string -> string, iops: seq<string>): HostRun
    decreases |iops|
  {
    if iops == [] then HostRun(h, None)
    else
      var before := ConvertAll(h, s, config, enterable, begun, finished, iops[..|iops| - 1]);
      if before.raised.Some? then before
      else PeriodStep(before.host, s, config, enterable, begun, finished, iops[|iops| - 1])
  }

  /** One pass of the outer loop: the period's configuration is looked up
      (a `KeyError` for an unlisted one) and the period converted. */
  function PeriodStep(h: Host, s: Script, config: map<string, Period>, enterable: set<string>,
                      begun: string -> string, finished: string -> string, iop: string): HostRun
  {
    if iop !in config then HostRun(h, Some(MissingKey(iop)))
    else ConvertPeriod(h, s, iop, config[iop], enterable, begun(iop), finished(iop))
  }

  /** One pass of the outer loop extends the campaign so far, or its
      exception ends the campaign. */
  lemma {:induction false} AllStep(h: Host, s: Script, config: map<string, Period>, enterable: set<string>,
                begun: string -> string, finished: string -> string, iops: seq<string>, i: nat, a: Host, b: HostRun)
    requires i < |iops|
    requires ConvertAll(h, s, config, enterable, begun, finished, iops[..i]) == HostRun(a, None)
    requires b == PeriodStep(a, s, config, enterable, begun, finished, iops[i])
    ensures b.raised.None? ==> ConvertAll(h, s, config, enterable, begun, finished, iops[..i + 1]) == b
    ensures b.raised.Some? ==> ConvertAll(h, s, config, enterable, begun, finished, iops) == b
  {
    assert iops[..i + 1][..i] == iops[..i];
    if b.raised.Some? {
      AllStop(h, s, config, enterable, begun, finished, iops, i + 1);
    }
  }

  /** After an exception no later period runs. */
  lemma {:induction false} AllStop(h: Host, s: Script, config: map<string, Period>, enterable: set<string>,
                                   begun: string -> string, finished: string -> string, iops: seq<string>, i: nat)
    requires i <= |iops|
    requires ConvertAll(h, s, config, enterable, begun, finished, iops[..i]).raised.Some?
    ensures ConvertAll(h, s, config, enterable, begun, finished, iops) ==
            ConvertAll(h, s, config, enterable, begun, finished, iops[..i])
    decreases |iops|
  {
    if i < |iops| {
      assert iops[..|iops| - 1][..i] == iops[..i];
      AllStop(h, s, config, enterable, begun, finished, iops[..|iops| - 1], i);
    } else {
      assert iops[..i] == iops;
    }
  }

  /** After a campaign that raised nothing, every period was configured
      and its log holds exactly its own header, lines and footer. */
  lemma {:induction false} CampaignLogs(h: Host, s: Script, config: map<string, Period>, enterable: set<string>,
                                        begun: string -> string, finished: string -> string, iops: seq<string>)
    requires forall i, j :: 0 <= i < j < |iops| ==> iops[i] != iops[j]
    ensures var r := ConvertAll(h, s, config, enterable, begun, finished, iops);
      r.raised.None? ==> forall iop :: iop in iops ==> HasPeriodLog(r.host.fs, s, config, enterable, begun, finished, iop)
    decreases |iops|
  {
    var r := ConvertAll(h, s, config, enterable, begun, finished, iops);
    if iops != [] && r.raised.None? {
      var init, iop := iops[..|iops| - 1], iops[|iops| - 1];
      var before := ConvertAll(h, s, config, enterable, begun, finished, init);
      DistinctLast(iops);
      CampaignLogs(h, s, config, enterable, begun, finished, init);
      CampaignLogsStep(before.host, s, config, enterable, begun, finished, init, iop);
    }
  }

  /** The periods before the last of a list of distinct periods are
      distinct, and the last is not among them. */
  lemma DistinctLast(iops: seq<string>)
    requires iops != []
    requires forall i, j :: 0 <= i < j < |iops| ==> iops[i] != iops[j]
    ensures var init := iops[..|iops| - 1];
      && (forall i, j :: 0 <= i < j < |init| ==> init[i] != init[j])
      && iops[|iops| - 1] !in init
      && iops == init + [iops[|iops| - 1]]
  {
  }

  /** The inductive step of `CampaignLogs`: one more period after periods
      whose logs are complete. */
  lemma CampaignLogsStep(a: Host, s: Script, config: map<string, Period>, enterable: set<string>,
                         begun: string -> string, finished: string -> string, init: seq<string>, iop: string)
    requires iop !in init
    requires forall x :: x in init ==> HasPeriodLog(a.fs, s, config, enterable, begun, finished, x)
    requires PeriodStep(a, s, config, enterable, begun, finished, iop).raised.None?
    ensures var r := PeriodStep(a, s, config, enterable, begun, finished, iop);
      forall x :: x in init + [iop] ==> HasPeriodLog(r.host.fs, s, config, enterable, begun, finished, x)
  {
    LastPeriodLog(a, s, config, enterable, begun, finished, iop);
    forall x | x in init
      ensures HasPeriodLog(PeriodStep(a, s, config, enterable, begun, finished, iop).host.fs, s, config, enterable, begun, finished, x)
    {
      EarlierPeriodLog(a, s, config, enterable, begun, finished, iop, x);
    }
  }

  /** A period that raised nothing leaves its own log complete. */
  lemma LastPeriodLog(a: Host, s: Script, config: map<string, Period>, enterable: set<string>,
                      begun: string -> string, finished: string -> string, iop: string)
    requires PeriodStep(a, s, config, enterable, begun, finished, iop).raised.None?
    ensures HasPeriodLog(PeriodStep(a, s, config, enterable, begun, finished, iop).host.fs, s, config, enterable, begun, finished, iop)
  {
    PeriodLogged(a, s, iop, config[iop], enterable, begun(iop), finished(iop));
  }

  /** A period leaves the log of every other period as it was. */
  lemma EarlierPeriodLog(a: Host, s: Script, config: map<string, Period>, enterable: set<string>,
                         begun: string -> string, finished: string -> string, iop: string, other: string)
    requires PeriodStep(a, s, config, enterable, begun, finished, iop).raised.None?
    requires other != iop
    requires HasPeriodLog(a.fs, s, config, enterable, begun, finished, other)
    ensures HasPeriodLog(PeriodStep(a, s, config, enterable, begun, finished, iop).host.fs, s, config, enterable, begun, finished, other)
  {
    if LogPath(s, other) == LogPath(s, iop) {
      LogPathInjective(s, other, iop);
    }
    PeriodOtherLogs(a, s, iop, config[iop], enterable, begun(iop), finished(iop), LogPath(s, other));
  }

  /** Period `iop` is configured and its log holds exactly its own header,
      lines and footer. */
  predicate HasPeriodLog(fs: Fs, s: Script, config: map<string, Period>, enterable: set<string>,
                         begun: string -> string, finished: string -> string, iop: string)
  {
    iop in config && LogOf(fs, LogPath(s, iop)) == PeriodLog(s, iop, config[iop], enterable, begun(iop), finished(iop))
  }

  /** The script's four periods are distinct, so each keeps its own log. */
  lemma IopsDistinct()
    ensures forall i, j :: 0 <= i < j < |Iops| ==> Iops[i] != Iops[j]
  {
  }

  // ---------------------------------------------------------------------
  // The script, on the store and the shell
  // ---------------------------------------------------------------------

  /** The process's working directory and the commands it has run. */
  class Shell {
    var cwd: string
    var issued: seq<Command>

    constructor (dir: string)
      ensures cwd == dir && issued == []
    {
      cwd, issued := dir, [];
    }

    /** `os.chdir(p)`, which succeeds exactly for the directories in
        `enterable`. */
    method Chdir(p: string, enterable: set<string>) returns (ok: bool)
      modifies this
      ensures ok <==> p in enterable
      ensures cwd == (if ok then p else old(cwd)) && issued == old(issued)
    {
      ok := p in enterable;
      if ok {
        cwd := p;
      }
    }

    /** `os.system(line)`: the command runs in the current directory; its
        exit status is not looked at. */
    method System(line: string)
      modifies this
      ensures issued == old(issued) + [Command(cwd, line)] && cwd == old(cwd)
    {
      issued := issued + [Command(cwd, line)];
    }
  }

  /** The host state held by a store and a shell. */
  function HostOf(store: FileStore, shell: Shell): Host
    reads store, shell
  {
    Host(store.State(), shell.cwd, shell.issued)
  }

  /** One pass of the inner loop. */
  method VisitDir(store: FileStore, shell: Shell, job: Job, enterable: set<string>, v: Visit) returns (err: Option<Error>)
    modifies store, shell
    ensures HostRun(HostOf(store, shell), err) == VisitStep(old(HostOf(store, shell)), job, enterable, v)
  {
    var s := job.script;
    var log := LogPath(s, job.iop);
    var dir := InputDir(s, job.iop, v.dir, v.day, job.inDateSubdir);
    var ok := shell.Chdir(dir, enterable);
    if !ok {
      store.AppendLog(log, AccessFailed(s, dir));
      return None;
    }
    store.AppendLog(log, Entered(s, dir));
    var outdir := OutputRoot(s, job.iop);
    var _, e := store.MkdirP(outdir + "/" + v.dir);
    if e.Some? {
      return e;
    }
    shell.System(CommandLine(s, job.iop, Md(v.day), outdir, v.dir));
    store.AppendLog(log, Succeeded(s, v.dir));
    return None;
  }

  /** One pass of the loop over the scan directories: either the next
      prefix of the day's visits has run, or the first exception ends the
      day. */
  lemma {:induction false} DayStep(h: Host, job: Job, enterable: set<string>, d: ValidDate, j: nat, a: Host, b: HostRun)
    requires j < |job.script.dirs|
    requires AfterVisits(h, job, enterable, DayVisits(job.script.dirs[..j], d)) == HostRun(a, None)
    requires b == VisitStep(a, job, enterable, Visit(d, job.script.dirs[j]))
    ensures b.raised.None? ==> AfterVisits(h, job, enterable, DayVisits(job.script.dirs[..j + 1], d)) == b
    ensures b.raised.Some? ==> AfterVisits(h, job, enterable, DayVisits(job.script.dirs, d)) == b
  {
    var dirs := job.script.dirs;
    var vs := DayVisits(dirs[..j], d);
    DayVisitsSnoc(dirs, d, j);
    VisitsSnoc(h, job, enterable, vs, Visit(d, dirs[j]));
    if b.raised.Some? {
      DayVisitsSplit(dirs, d, j + 1);
      VisitsStop(h, job, enterable, DayVisits(dirs[..j + 1], d), DayVisits(dirs[j + 1..], d));
    }
  }

  /** The `for` loop over the scan directories of one day. */
  method VisitDay(store: FileStore, shell: Shell, job: Job, enterable: set<string>, d: ValidDate) returns (err: Option<Error>)
    modifies store, shell
    ensures HostRun(HostOf(store, shell), err) ==
      AfterVisits(old(HostOf(store, shell)), job, enterable, DayVisits(job.script.dirs, d))
  {
    ghost var h := HostOf(store, shell);
    var dirs := job.script.dirs;
    for j := 0 to |dirs|
      invariant HostRun(HostOf(store, shell), None) == AfterVisits(h, job, enterable, DayVisits(dirs[..j], d))
    {
      ghost var a := HostOf(store, shell);
      err := VisitDir(store, shell, job, enterable, Visit(d, dirs[j]));
      DayStep(h, job, enterable, d, j, a, HostRun(HostOf(store, shell), err));
      if err.Some? {
        return err;
      }
    }
    assert dirs[..|dirs|] == dirs;
    return None;
  }

  /** One pass of the loop over the days: the day's visits extend the
      walk so far, an exception ends the walk, and so does the last date. */
  lemma {:induction false} WalkStep(h: Host, job: Job, enterable: set<string>, start: ValidDate, end: ValidDate,
                 done: seq<ValidDate>, cur: ValidDate, a: Host, b: HostRun)
    requires Rank(cur) <= Rank(end)
    requires DaysFrom(start, end) == done + DaysFrom(cur, end)
    requires AfterVisits(h, job, enterable, Visits(job.script.dirs, done)) == HostRun(a, None)
    requires b == AfterVisits(a, job, enterable, DayVisits(job.script.dirs, cur))
    ensures b.raised.None? ==> AfterVisits(h, job, enterable, Visits(job.script.dirs, done + [cur])) == b
    ensures b.raised.Some? ==> Walk(h, job, enterable, start, end) == b
    ensures b.raised.None? && cur == LastDate ==> Walk(h, job, enterable, start, end) == HostRun(b.host, Some(Overflow))
    ensures cur != LastDate ==> DaysFrom(start, end) == (done + [cur]) + DaysFrom(NextDay(cur), end)
  {
    var dirs := job.script.dirs;
    var rest := DaysFrom(cur, end)[1..];
    DaysHead(start, end, done, cur);
    VisitsSnocDay(dirs, done, cur);
    VisitsSplit(h, job, enterable, Visits(dirs, done), DayVisits(dirs, cur));
    if b.raised.Some? {
      VisitsConcat(dirs, done + [cur], rest);
      VisitsStop(h, job, enterable, Visits(dirs, done + [cur]), Visits(dirs, rest));
    }
  }

  /** The walk so far, the current day and the days after it. */
  lemma {:induction false} DaysHead(start: ValidDate, end: ValidDate, done: seq<ValidDate>, cur: ValidDate)
    requires Rank(cur) <= Rank(end)
    requires DaysFrom(start, end) == done + DaysFrom(cur, end)
    ensures DaysFrom(start, end) == (done + [cur]) + DaysFrom(cur, end)[1..]
    ensures DaysFrom(cur, end)[1..] == if cur == LastDate then [] else DaysFrom(NextDay(cur), end)
  {
    assert DaysFrom(cur, end) == [cur] + DaysFrom(cur, end)[1..];
  }

  /** The visits of one more day. */
  lemma VisitsSnocDay(dirs: seq<string>, done: seq<ValidDate>, cur: ValidDate)
    ensures Visits(dirs, done + [cur]) == Visits(dirs, done) + DayVisits(dirs, cur)
  {
    assert (done + [cur])[..|done|] == done;
  }

  /** The loop over the days left with no day to go: the walk is over. */
  lemma {:induction false} WalkDone(h: Host, job: Job, enterable: set<string>, start: ValidDate, end: ValidDate,
                 done: seq<ValidDate>, cur: ValidDate, a: Host)
    requires Rank(end) < Rank(cur)
    requires DaysFrom(start, end) == done + DaysFrom(cur, end)
    requires done != [] ==> done[|done| - 1] != LastDate
    requires AfterVisits(h, job, enterable, Visits(job.script.dirs, done)) == HostRun(a, None)
    ensures Walk(h, job, enterable, start, end) == HostRun(a, None)
  {
    assert DaysFrom(start, end) == done;
  }

  /** The `while` loop over the days of a period. */
  method WalkDays(store: FileStore, shell: Shell, job: Job, enterable: set<string>, start: ValidDate, end: ValidDate)
    returns (err: Option<Error>)
    modifies store, shell
    ensures HostRun(HostOf(store, shell), err) == Walk(old(HostOf(store, shell)), job, enterable, start, end)
  {
    ghost var h := HostOf(store, shell);
    var dirs := job.script.dirs;
    ghost var days := DaysFrom(start, end);
    ghost var done: seq<ValidDate> := [];
    var cur := start;
    while Rank(cur) <= Rank(end)
      invariant days == done + DaysFrom(cur, end)
      invariant done != [] ==> done[|done| - 1] != LastDate
      invariant HostRun(HostOf(store, shell), None) == AfterVisits(h, job, enterable, Visits(dirs, done))
      decreases Rank(end) - Rank(cur)
    {
      ghost var a := HostOf(store, shell);
      err := VisitDay(store, shell, job, enterable, cur);
      WalkStep(h, job, enterable, start, end, done, cur, a, HostRun(HostOf(store, shell), err));
      if err.Some? {
        return err;
      }
      done := done + [cur];
      if cur == LastDate {
        return Some(Overflow);
      }
      cur := NextDay(cur);
    }
    WalkDone(h, job, enterable, start, end, done, cur, HostOf(store, shell));
    return None;
  }

  /** One pass of the outer loop. */
  method ConvertPeriodOn(store: FileStore, shell: Shell, s: Script, iop: string, p: Period, enterable: set<string>,
                         begun: string, finished: string) returns (err: Option<Error>)
    modifies store, shell
    ensures HostRun(HostOf(store, shell), err) == ConvertPeriod(old(HostOf(store, shell)), s, iop, p, enterable, begun, finished)
  {
    ghost var h := HostOf(store, shell);
    var outdir, e := store.MkdirP(OutputRoot(s, iop));
    if e.Some? {
      return e;
    }
    ghost var made := store.State();
    var log := outdir + "/" + iop + "_convert.log";
    store.TruncateLog(log);
    store.AppendLog(log, BeginText(s, begun));
    assert HostOf(store, shell) == Opened(h, s, iop, made, begun);
    err := WalkDays(store, shell, Job(s, iop, p.inDateSubdir), enterable, p.start, p.end);
    if err.Some? {
      return err;
    }
    store.AppendLog(log, EndText(s, finished));
    return None;
  }

  /** One pass of the outer loop. */
  method ConvertIop(store: FileStore, shell: Shell, s: Script, config: map<string, Period>, enterable: set<string>,
                    begun: string -> string, finished: string -> string, iop: string) returns (err: Option<Error>)
    modifies store, shell
    ensures HostRun(HostOf(store, shell), err) ==
      PeriodStep(old(HostOf(store, shell)), s, config, enterable, begun, finished, iop)
  {
    if iop !in config {
      return Some(MissingKey(iop));
    }
    err := ConvertPeriodOn(store, shell, s, iop, config[iop], enterable, begun(iop), finished(iop));
  }

  /** The outer loop over the periods `iops`. */
  method ConvertIops(store: FileStore, shell: Shell, s: Script, config: map<string, Period>, enterable: set<string>,
                     begun: string -> string, finished: string -> string, iops: seq<string>) returns (err: Option<Error>)
    modifies store, shell
    ensures HostRun(HostOf(store, shell), err) ==
      ConvertAll(old(HostOf(store, shell)), s, config, enterable, begun, finished, iops)
  {
    ghost var h := HostOf(store, shell);
    for i := 0 to |iops|
      invariant HostRun(HostOf(store, shell), None) == ConvertAll(h, s, config, enterable, begun, finished, iops[..i])
    {
      ghost var a := HostOf(store, shell);
      err := ConvertIop(store, shell, s, config, enterable, begun, finished, iops[i]);
      AllStep(h, s, config, enterable, begun, finished, iops, i, a, HostRun(HostOf(store, shell), err));
      if err.Some? {
        return err;
      }
    }
    assert iops[..|iops|] == iops;
    return None;
  }

  /** The script: the outer loop over its four periods, each looked up in
      the configuration table `config`. */
  method ConvertCampaign(store: FileStore, shell: Shell, config: map<string, Period>, enterable: set<string>,
                         begun: string -> string, finished: string -> string) returns (err: Option<Error>)
    modifies store, shell
    ensures HostRun(HostOf(store, shell), err) == ConvertAll(old(HostOf(store, shell)), Oreo, config, enterable, begun, finished, Iops)
  {
    err := ConvertIops(store, shell, Oreo, config, enterable, begun, finished, Iops);
  }
}
