# Radar processing scripts of the OREO campaign, modelled in Dafny

The repository holds the processing scripts of a field campaign with a
truck-mounted Doppler radar. This project models three of them:

- `radx/Convert_DOW_dorade2cfradial.py`, the batch converter. For each
  campaign period (`iop`) it looks up the period's date range and layout in
  a configuration table. It creates the period's output tree and opens the
  period's log with `w+`, then writes a header. It walks the days from the
  start date to the end date inclusive. For each day it visits six scan
  subdirectories. Each visit enters the input directory with `os.chdir`
  (logging whether that worked), creates the output subdirectory with
  `mkdir_p`, and issues one `RadxConvert` command line with `os.system`
  before it logs success. A footer closes the log. The script's own code
  creates directories and writes its log but no other file; the CfRadial
  files are written by the `RadxConvert` program it calls.
- `plotting/rhi_plot.py`, the RHI thumbnail plotter. For every `.nc` file
  of two subdirectories (minus the vertical-pointing `el-81.00_SUR` scans)
  it draws a two-panel image: reflectivity over velocity. It skips a file
  whose image already exists. Every failure is caught and logged as one
  line, so a batch always runs to the end.
- `plotting/sweep_plot.py`, the plan-view sweep plotter. Same layout, with
  four subdirectories, one plotted variable per image and a gate that skips
  negative tilt angles. Its failure handler is commented out, so the first
  error ends the run.

Modules:

- `Strings` (`strings.dfy`): `str.split`, `str.join`, the substring test
  and `str()` of an integer, with their inverse properties.
- `Store` (`store.dfy`): the file system as a value `Fs` (files,
  directories, log texts, and the record of every `savefig` issued, in
  order) with `mkdir_p` (`MakeDirs`), `savefig` (`Save`)
  and log writes (`Append`, `Truncate`). The class `FileStore` holds the
  same state in fields. Each of its methods is proved to move the fields
  exactly as the value-level function says.
- `Artifacts` (`artifacts.dfy`): what both plotters share. This covers the
  input record `Sweep`, the stem of a file name, the image directory and
  the image path (the artifact key), which serve both the skip-if-exists
  check and the save. It also covers the listing filter and the
  three-line log header.
- `RhiPlot` and `SweepPlot` (`rhi_plot.dfy`, `sweep_plot.dfy`):
  `create_sweep` as a function on the store. Its method counterpart is
  proved equal to it. The batch over a listing is a `for`/`while` loop
  proved against a fold, and so is the loop over the subdirectories.
- `RadxConvert` (`radx_convert.dfy`): the calendar walk, the date texts,
  the paths and command line, and one visit (`VisitStep`). It also covers
  the folds over visits, days, a period and the whole campaign. Methods on
  a `FileStore` and a `Shell` (working directory and issued commands)
  carry the nested loops. Each loop is proved equal to its fold.

What the scripts read from outside is passed in as parameters:

- the radar reader and the drawing calls, as flags of `Sweep`;
- `glob`, as a function from a pattern to a listing;
- the directories `os.chdir` can enter, as a set;
- the clock readings;
- the converter's configuration table, as a `map`.

## Model

| member | source | states |
|---|---|---|
| Strings.Split | plotting/rhi_plot.py:59 | `str.split` with a one-character separator never returns an empty list |
| Strings.SplitFields | plotting/rhi_plot.py:59 | no field of a split contains the separator |
| Strings.JoinSplit | plotting/rhi_plot.py:59 | joining the fields of a split with the same separator gives back the string |
| Strings.SplitJoin | plotting/rhi_plot.py:59 | splitting a join of separator-free fields gives back the fields |
| Strings.JoinPrefix | plotting/rhi_plot.py:59 | joining the first k fields gives a prefix of the whole join |
| Strings.SplitNoSep | plotting/rhi_plot.py:59 | a string without the separator splits into itself alone |
| Strings.SplitCons | plotting/rhi_plot.py:59 | splitting `a + sep + b`, with no separator in `a`, has `a` as its first field, followed by the fields of `b` |
| Strings.ContainsIff | plotting/rhi_plot.py:200 | the substring test `pat in s` holds exactly when `pat` occurs at some index of `s` |
| Strings.NatToString | plotting/rhi_plot.py:58 | `str(n)` is non-empty and has at least two digits from 10 up |
| Strings.NatToStringDigits | plotting/rhi_plot.py:58 | `str(n)` consists of decimal digits |
| Strings.NatToStringInjective | plotting/rhi_plot.py:58 | distinct naturals have distinct texts |
| Strings.IntToStringChars | plotting/rhi_plot.py:58 | `str(n)` is digits after a `-` that is present exactly for negative n |
| Strings.IntToStringInjective | plotting/rhi_plot.py:58 | distinct angles have distinct texts |
| Store.Chain | plotting/rhi_plot.py:36 | every directory `os.makedirs(p)` leaves is a non-empty prefix of `p` |
| Store.ChainHasSelf | plotting/rhi_plot.py:36 | a path not ending in `/` is itself among the directories `makedirs` creates |
| Store.MakeDirsIdempotent | plotting/rhi_plot.py:29-42 | calling `mkdir_p` again on a path it just created succeeds and changes nothing |
| Store.MakeDirsCommute | plotting/rhi_plot.py:29-42 | two successful `mkdir_p` calls reach the same state in either order |
| Store.Append | plotting/rhi_plot.py:173-174 | a write on a log adds exactly that text at its end; other logs, files, directories and the save record stay unchanged |
| Store.Truncate | radx/Convert_DOW_dorade2cfradial.py:42 | opening a log with `w+` empties it; other logs, files, directories and the save record stay unchanged |
| Store.FileStore.IsFile | plotting/rhi_plot.py:62 | `os.path.isfile` holds exactly for the existing files |
| Store.FileStore.MkdirP | plotting/rhi_plot.py:29-42 | returns its argument; succeeds exactly when the path is non-empty and no file lies on its chain; on success adds the chain to the directories and changes no file, log or save record; equals `MakeDirs` on the old state |
| Store.FileStore.SaveFile | plotting/rhi_plot.py:160 | `savefig` succeeds exactly when the path is not a directory, and then adds that one file and records one save of it at the end of the save record; a failed call records nothing; equals `Save` on the old state |
| Store.FileStore.AppendLog | plotting/rhi_plot.py:173-174 | the log gains the text at its end; equals `Append` on the old state |
| Store.FileStore.TruncateLog | radx/Convert_DOW_dorade2cfradial.py:42 | the log is emptied; equals `Truncate` on the old state |
| Artifacts.StemShape | plotting/rhi_plot.py:59 | the stem is a prefix of the base name and holds no `/`; it is the whole base name when that has no `_`; it splits back into the base name's first two `_` fields |
| Artifacts.KeyInFigPath | plotting/rhi_plot.py:58-61 | the image path is the image directory plus one last component, the image name, so the save lands in the directory `mkdir_p` made |
| Artifacts.KeyInjective | plotting/rhi_plot.py:58-61 | within one figure directory, subdirectory and variable, two inputs share an image path only when angle and stem agree |
| Artifacts.KeepFiles | plotting/rhi_plot.py:200 | no kept path contains `el-81.00_SUR` |
| Artifacts.KeepFilesCounts | plotting/rhi_plot.py:200 | each path without the marker is kept exactly as often as it occurs; each path with it is dropped |
| Artifacts.KeepFilesConcat | plotting/rhi_plot.py:200 | the filter keeps the listing's order: it distributes over concatenation |
| Artifacts.Members | plotting/rhi_plot.py:58-61 | the batch's possible images and directory chains are exactly those of its inputs |
| Artifacts.SameMembersSameSets | plotting/rhi_plot.py:216 | listings with the same members have the same possible images and directories |
| Artifacts.AppendHeader | plotting/rhi_plot.py:190-193 | the log gains exactly the three header lines; no file, directory, save or other log changes |
| Artifacts.WriteHeader | plotting/rhi_plot.py:190-193 | the three writes on the store equal `AppendHeader` |
| RhiPlot.Panels | plotting/rhi_plot.py:77-105 | a panel table exists exactly for `DBZHC_VEL`, and it has two panels; the call consults it before drawing |
| RhiPlot.PanelFields | plotting/rhi_plot.py:77-105 | the two panels' fields are the two `_` fields of the variable id |
| RhiPlot.Attempt | plotting/rhi_plot.py:45-170 | the body of the `try` never writes a log |
| RhiPlot.AttemptBounds | plotting/rhi_plot.py:45-170 | a raising body adds no file; any body adds at most its image and its image directory's chain and removes nothing |
| RhiPlot.SkipsExisting | plotting/rhi_plot.py:67-69 | an existing image makes the call change nothing at all: no file, directory or log line, and no `savefig` is issued |
| RhiPlot.DrawsExactlyOne | plotting/rhi_plot.py:153-160 | a call that succeeds and finds no image adds exactly its image and directory chain, issues exactly one `savefig`, of that image, and leaves the logs alone |
| RhiPlot.FailureLogsOnce | plotting/rhi_plot.py:172-174 | a call whose body raises adds no file and exactly one `"<file> <varid> failed, skipping"` line, and touches no other log |
| RhiPlot.SweepBounds | plotting/rhi_plot.py:44-176 | whatever happens, a call adds at most its own image and its chain and removes nothing |
| RhiPlot.NoOverwrite | plotting/rhi_plot.py:61-160 | a call issues no `savefig`, or exactly one, of its own image, which did not exist before and exists after |
| RhiPlot.SweepLog | plotting/rhi_plot.py:44-176 | whatever happens, a call adds to its log nothing or exactly its failure line, and no other log changes |
| RhiPlot.UnconfiguredFails | plotting/rhi_plot.py:104-121 | for any variable id but `DBZHC_VEL`, no file or directory is made; a readable input without its image logs its failure line (the unassigned `varid1`) |
| RhiPlot.UnconfiguredOrBlankFails | plotting/rhi_plot.py:104-121 | a readable input that does not draw fails before `mkdir_p` and leaves the store as it was |
| RhiPlot.CreateSweep | plotting/rhi_plot.py:44-176 | the method's effect on the store is `AfterSweep`: the body's effect, plus the failure line when it raised |
| RhiPlot.RunBatch | plotting/rhi_plot.py:212-218 | the loop over the listing leaves the store as the fold of `AfterSweep` over the inputs |
| RhiPlot.Drawn | plotting/rhi_plot.py:212-218 | the images of drawing inputs are among the batch's possible images |
| RhiPlot.DrawnMembers | plotting/rhi_plot.py:212-218 | an image belongs to `Drawn` exactly when some input that draws has it as its key |
| RhiPlot.SweepFiles | plotting/rhi_plot.py:44-176 | with room in the tree, a call adds its image exactly when the input draws, at most its chain, and no log line when it draws |
| RhiPlot.BatchBounds | plotting/rhi_plot.py:212-218 | the batch adds only its inputs' images and chains, and removes nothing |
| RhiPlot.BatchFiles | plotting/rhi_plot.py:212-218 | with room in the tree, the files after the batch are the old files plus the image of every drawing input, whichever inputs fail |
| RhiPlot.BatchNoOverwrite | plotting/rhi_plot.py:212-218 | the batch's `savefig` calls come after the earlier ones; each saves an image that did not exist before the batch and exists after; no image is saved twice |
| RhiPlot.NoNewWork | plotting/rhi_plot.py:67-69 | when every drawing input's image exists, the batch adds no file and no directory and issues no `savefig` |
| RhiPlot.BatchIdempotent | plotting/rhi_plot.py:67-69 | a second batch over the same listing adds no file and no directory and issues no `savefig` |
| RhiPlot.BatchOrderIndependent | plotting/rhi_plot.py:216 | any permutation of the listing, as worker scheduling may produce, gives the same images |
| RhiPlot.BatchLog | plotting/rhi_plot.py:172-174 | the batch only appends to its log, at most one line per input, and no other log changes |
| RhiPlot.BatchLogLines | plotting/rhi_plot.py:172-174 | every line the batch logs is the failure line of one of its inputs |
| RhiPlot.ThreeFilesImages | plotting/rhi_plot.py:44-176 | three inputs whose middle one is unreadable yield exactly the first and the third images |
| RhiPlot.ThreeFilesOneLine | plotting/rhi_plot.py:172-174 | the same three inputs log exactly one line, the middle one's failure |
| RhiPlot.DirsLogPrefix | plotting/rhi_plot.py:197-218 | the batches over the subdirectories only append to the log |
| RhiPlot.VariableLogsHeaderFirst | plotting/rhi_plot.py:190-218 | the header's three lines come before anything the variable's pass logs |
| RhiPlot.RunDirs | plotting/rhi_plot.py:197-218 | the loop over the subdirectories equals `AfterDirs`: a batch over each filtered, non-empty listing in turn |
| RhiPlot.ProcessVariable | plotting/rhi_plot.py:190-218 | one pass of the `scriptvars` loop equals `AfterVariable`: the header, then the batch over `high/rhi` and `low/rhi` |
| SweepPlot.SweepSettings | plotting/sweep_plot.py:89-123 | colour map and limits are set exactly for `DBZHC` and `VEL`, with lower below upper, and symmetric for `VEL`; every other variable takes the library defaults |
| SweepPlot.Attempt | plotting/sweep_plot.py:45-178 | `create_sweep`, corrected, never writes a log |
| SweepPlot.AttemptBounds | plotting/sweep_plot.py:45-178 | a raising call adds no file; any call adds at most its image and its chain and removes nothing |
| SweepPlot.AttemptAsWritten | plotting/sweep_plot.py:120-133 | `create_sweep` as written never writes a log |
| SweepPlot.DefaultSettingsRaise | plotting/sweep_plot.py:120-133 | as written, a variable left to the defaults, or `VEL` whose `GateFilter` call raised, raises `UnboundLocalError` on `gatefilter` and changes nothing |
| SweepPlot.DrawsWhenRendered | plotting/sweep_plot.py:120-158 | corrected, every readable input with a missing image, a non-negative angle and working drawing calls gets exactly its image and chain, whatever the variable and the filter outcome |
| SweepPlot.AsWrittenAgrees | plotting/sweep_plot.py:89-133 | wherever `gatefilter` is bound, the code as written and the corrected model behave the same |
| SweepPlot.FilterErrorsSwallowed | plotting/sweep_plot.py:101-116 | an error after the `VEL` gate filter exists is swallowed: the call behaves as if the filter block succeeded |
| SweepPlot.NoOverwrite | plotting/sweep_plot.py:70-158 | as written and corrected, a call issues no `savefig`, or exactly one, of its own image, which did not exist before and exists after |
| SweepPlot.SkipsExisting | plotting/sweep_plot.py:76-78 | an existing image makes the call change nothing and raise nothing, and issue no `savefig`, both as written and corrected |
| SweepPlot.NegativeAngleSkips | plotting/sweep_plot.py:170-172 | a negative tilt angle draws nothing and creates no directory, both as written and corrected |
| SweepPlot.CreateSweep | plotting/sweep_plot.py:45-178 | the method's effect and the error it returns are those of `Attempt` |
| SweepPlot.Batch | plotting/sweep_plot.py:211-216 | the batch never writes a log |
| SweepPlot.BatchStops | plotting/sweep_plot.py:211-216 | once a prefix of the listing has raised, the remaining files are never touched |
| SweepPlot.BatchConcat | plotting/sweep_plot.py:211-216 | a batch over two joined listings is the first batch followed, unless it raised, by the second from where the first left off |
| SweepPlot.UnreadableRaises | plotting/sweep_plot.py:50 | a listing holding an unreadable file always ends in an error |
| SweepPlot.BatchBounds | plotting/sweep_plot.py:211-216 | the batch adds only its inputs' images and chains, and removes nothing |
| SweepPlot.BatchNoOverwrite | plotting/sweep_plot.py:211-216 | the batch's `savefig` calls come after the earlier ones; each saves an image that did not exist before the batch and exists after; no image is saved twice |
| SweepPlot.BatchAsWritten | plotting/sweep_plot.py:211-216 | the batch over the call as written never writes a log |
| SweepPlot.BatchAsWrittenAgrees | plotting/sweep_plot.py:120-133 | on a listing where every input has `gatefilter` bound, the batch as written equals the corrected batch |
| SweepPlot.BatchAsWrittenBounds | plotting/sweep_plot.py:211-216 | the batch as written adds only images of its inputs and removes none |
| SweepPlot.BatchAsWrittenRaises | plotting/sweep_plot.py:120-133 | as written, a listing ends in an error once it holds a readable input with a non-negative angle, an unbound `gatefilter` and an image that neither existed nor belongs to an earlier input |
| SweepPlot.BatchAsWrittenNoRaise | plotting/sweep_plot.py:120-133 | a batch as written that raises nothing is the corrected batch |
| SweepPlot.NothingToDoAsWritten | plotting/sweep_plot.py:76-78 | as written, a readable listing whose images all exist changes nothing, issues no `savefig` or `mkdir_p`, and raises nothing |
| SweepPlot.Drawn | plotting/sweep_plot.py:82 | the images of inputs with a non-negative angle are among the batch's possible images |
| SweepPlot.DrawnMembers | plotting/sweep_plot.py:82 | an image belongs to `Drawn` exactly when some input with a non-negative angle has it as its key |
| SweepPlot.CleanStep | plotting/sweep_plot.py:76-158 | a readable, drawable input with room in the tree raises nothing and adds its image exactly when its angle is non-negative |
| SweepPlot.BatchClean | plotting/sweep_plot.py:211-216 | a listing of clean inputs with room in the tree raises nothing and leaves the old files plus the images of every non-negative-angle input |
| SweepPlot.NothingToDo | plotting/sweep_plot.py:76-78 | when all those images exist, a readable listing changes nothing, issues no `savefig` or `mkdir_p`, and raises nothing |
| SweepPlot.BatchIdempotent | plotting/sweep_plot.py:76-78 | a second run over a clean listing changes nothing and issues no `savefig` |
| SweepPlot.BatchAsWrittenIdempotent | plotting/sweep_plot.py:76-78 | as written, a second run over a clean listing ends exactly as the first did: the same store, save record included, and the same error, if any |
| SweepPlot.BatchOrderIndependent | plotting/sweep_plot.py:214 | any permutation of a clean listing also raises nothing and gives the same images |
| SweepPlot.RunBatch | plotting/sweep_plot.py:211-216 | the loop over the listing leaves the store and returns the error exactly as `Batch` says |
| SweepPlot.AfterDirs | plotting/sweep_plot.py:196-216 | the subdirectory loop never writes a log |
| SweepPlot.DirsStop | plotting/sweep_plot.py:196-216 | once a subdirectory's batch has raised, no later subdirectory is listed |
| SweepPlot.VariableLog | plotting/sweep_plot.py:189-216 | whatever the batches do, the pass logs exactly the three header lines and touches no other log |
| SweepPlot.RunDirs | plotting/sweep_plot.py:196-216 | the loop over the subdirectories leaves the store and returns the error exactly as `AfterDirs` says |
| SweepPlot.ProcessVariable | plotting/sweep_plot.py:189-216 | one pass of the `scriptvars` loop equals `AfterVariable`: the header, then the four subdirectories until one raises |
| RadxConvert.DaysInMonth | radx/Convert_DOW_dorade2cfradial.py:82 | every month has 28 to 31 days |
| RadxConvert.RankOrder | radx/Convert_DOW_dorade2cfradial.py:47 | comparing ranks is the lexicographic `(year, month, day)` comparison of `datetime`, and equal ranks are equal dates |
| RadxConvert.LastIsLatest | radx/Convert_DOW_dorade2cfradial.py:82 | no valid date comes after 9999-12-31 |
| RadxConvert.NextDay | radx/Convert_DOW_dorade2cfradial.py:82 | adding a day moves strictly forward |
| RadxConvert.NextDayIsNext | radx/Convert_DOW_dorade2cfradial.py:82 | no valid date lies strictly between a day and the next |
| RadxConvert.DaysSteps | radx/Convert_DOW_dorade2cfradial.py:47-82 | the walk is empty exactly when start is after end; otherwise it begins on the start date, moves one day at a time and stays within the range |
| RadxConvert.DaysAscending | radx/Convert_DOW_dorade2cfradial.py:47-82 | the walk is strictly ascending and so visits no day twice |
| RadxConvert.DaysMembers | radx/Convert_DOW_dorade2cfradial.py:47-82 | a day is visited exactly when it lies between start and end inclusive |
| RadxConvert.DaysEnd | radx/Convert_DOW_dorade2cfradial.py:47-82 | a non-empty range's walk ends on the end date |
| RadxConvert.Digits2 | radx/Convert_DOW_dorade2cfradial.py:48-49 | `%m` and `%d` are two characters |
| RadxConvert.Digits4 | radx/Convert_DOW_dorade2cfradial.py:48 | `%Y` is four characters |
| RadxConvert.Digits2Pads | radx/Convert_DOW_dorade2cfradial.py:48-49 | the two-character text is `str(n)` zero-padded |
| RadxConvert.Digits2Injective | radx/Convert_DOW_dorade2cfradial.py:48-49 | distinct numbers have distinct two-character texts |
| RadxConvert.Ymd | radx/Convert_DOW_dorade2cfradial.py:48 | `%Y%m%d` is eight characters |
| RadxConvert.Md | radx/Convert_DOW_dorade2cfradial.py:49 | `%m%d` is four characters |
| RadxConvert.MdIsYmdTail | radx/Convert_DOW_dorade2cfradial.py:48-49 | `%m%d` is the last four characters of `%Y%m%d` |
| RadxConvert.YmdInjective | radx/Convert_DOW_dorade2cfradial.py:48 | distinct days have distinct `%Y%m%d` texts |
| RadxConvert.LogPathInjective | radx/Convert_DOW_dorade2cfradial.py:42 | distinct periods write distinct log files |
| RadxConvert.InputDirDistinct | radx/Convert_DOW_dorade2cfradial.py:53-56 | with `in_date_subdir` the input directory determines day and scan directory; without it, it depends on the scan directory alone |
| RadxConvert.CommandNamesDay | radx/Convert_DOW_dorade2cfradial.py:66-72 | the command line ends with `-f swp*MMDD* -outdir <outdir>/<Dir>`, with MMDD the last four characters of the day's date |
| RadxConvert.DayVisits | radx/Convert_DOW_dorade2cfradial.py:51 | a day has one visit per scan directory |
| RadxConvert.DayVisitsOrder | radx/Convert_DOW_dorade2cfradial.py:51 | a day's visit `j` is scan directory `j` of `dirs` |
| RadxConvert.DayVisitsConcat | radx/Convert_DOW_dorade2cfradial.py:51 | the visits of consecutive runs of scan directories are consecutive |
| RadxConvert.VisitsAt | radx/Convert_DOW_dorade2cfradial.py:47-82 | the visits of day k follow those of earlier days and precede those of later ones |
| RadxConvert.VisitsFrom | radx/Convert_DOW_dorade2cfradial.py:47-82 | every visit is of a walked day and a listed scan directory |
| RadxConvert.VisitsConcat | radx/Convert_DOW_dorade2cfradial.py:47-82 | the visits of consecutive runs of days are consecutive |
| RadxConvert.VisitStep | radx/Convert_DOW_dorade2cfradial.py:53-80 | the script's own code in a visit creates and removes no file (directories and log lines aside) |
| RadxConvert.SkipsInaccessible | radx/Convert_DOW_dorade2cfradial.py:58-62 | a directory that cannot be entered logs exactly `Could not access <dir>` and raises nothing; directories, working directory and commands stay unchanged |
| RadxConvert.ConvertsAccessible | radx/Convert_DOW_dorade2cfradial.py:58-80 | with room for the output directory, an enterable visit raises nothing, creates the output chain and issues its one command from the input directory; it logs `Changed Dir to <dir>` and `<Dir> Success` |
| RadxConvert.VisitLogged | radx/Convert_DOW_dorade2cfradial.py:58-80 | a visit that raised nothing logged exactly its lines and issued its command exactly when its directory could be entered |
| RadxConvert.VisitOtherLogs | radx/Convert_DOW_dorade2cfradial.py:58-80 | a visit writes only its period's log |
| RadxConvert.AfterVisits | radx/Convert_DOW_dorade2cfradial.py:47-82 | the script's own code in the visits creates and removes no file (directories and log lines aside) |
| RadxConvert.VisitsStop | radx/Convert_DOW_dorade2cfradial.py:64 | after an exception (from `mkdir_p`) no later visit happens |
| RadxConvert.VisitsSplit | radx/Convert_DOW_dorade2cfradial.py:47-82 | running two runs of visits in turn is running their concatenation |
| RadxConvert.CommandsMembers | radx/Convert_DOW_dorade2cfradial.py:71-72 | the commands are exactly those of the visits whose input directory could be entered |
| RadxConvert.VisitsLog | radx/Convert_DOW_dorade2cfradial.py:47-82 | visits that raised nothing logged exactly their lines and issued exactly their commands |
| RadxConvert.VisitsClean | radx/Convert_DOW_dorade2cfradial.py:64 | with room for every output directory, no visit raises |
| RadxConvert.VisitsOtherLogs | radx/Convert_DOW_dorade2cfradial.py:47-82 | the visits write only their period's log |
| RadxConvert.PeriodLogged | radx/Convert_DOW_dorade2cfradial.py:36-85 | a period that raised nothing leaves its log holding exactly the header, each visit's lines and the footer, whatever it held before; the commands issued are those of the enterable visits |
| RadxConvert.PeriodOtherLogs | radx/Convert_DOW_dorade2cfradial.py:36-85 | a period writes only its own log |
| RadxConvert.PeriodClean | radx/Convert_DOW_dorade2cfradial.py:36-85 | with no file in the way of the output tree, a period raises nothing, except `OverflowError` once a walk has visited 9999-12-31 |
| RadxConvert.AllStep | radx/Convert_DOW_dorade2cfradial.py:27-31 | one pass of the outer loop extends the campaign so far, or its exception ends the campaign |
| RadxConvert.AllStop | radx/Convert_DOW_dorade2cfradial.py:27 | after an exception no later period runs |
| RadxConvert.CampaignLogs | radx/Convert_DOW_dorade2cfradial.py:27-85 | after a campaign over distinct periods that raised nothing, every period was configured and its log holds exactly its own header, lines and footer |
| RadxConvert.CampaignLogsStep | radx/Convert_DOW_dorade2cfradial.py:27-85 | one more period after periods whose logs are complete leaves all of their logs and its own complete |
| RadxConvert.LastPeriodLog | radx/Convert_DOW_dorade2cfradial.py:29-85 | a configured period that raised nothing leaves its own log complete |
| RadxConvert.EarlierPeriodLog | radx/Convert_DOW_dorade2cfradial.py:42 | a period leaves every other period's log as it was |
| RadxConvert.IopsDistinct | radx/Convert_DOW_dorade2cfradial.py:27 | the four periods are distinct, so each keeps its own log |
| RadxConvert.Shell.Chdir | radx/Convert_DOW_dorade2cfradial.py:59 | `os.chdir` succeeds exactly for an enterable directory and then changes the working directory; no command is issued |
| RadxConvert.Shell.System | radx/Convert_DOW_dorade2cfradial.py:72 | `os.system` issues exactly one command, in the current directory |
| RadxConvert.VisitDir | radx/Convert_DOW_dorade2cfradial.py:53-80 | one pass of the inner loop on store and shell equals `VisitStep` |
| RadxConvert.DayStep | radx/Convert_DOW_dorade2cfradial.py:51 | one pass of the scan-directory loop extends the day so far, or its exception ends the day |
| RadxConvert.VisitDay | radx/Convert_DOW_dorade2cfradial.py:51-80 | the loop over a day's scan directories equals the fold over the day's visits |
| RadxConvert.WalkStep | radx/Convert_DOW_dorade2cfradial.py:47-82 | one day extends the walk, or its exception ends it, or on the last date the increment overflows |
| RadxConvert.WalkDone | radx/Convert_DOW_dorade2cfradial.py:47 | once the current date is past the end, the walk so far is the whole walk |
| RadxConvert.WalkDays | radx/Convert_DOW_dorade2cfradial.py:47-82 | the `while` loop over the days equals `Walk`: every visit of every day up to the first exception, then `OverflowError` if the walk reached 9999-12-31 |
| RadxConvert.ConvertPeriodOn | radx/Convert_DOW_dorade2cfradial.py:36-85 | one period on store and shell equals `ConvertPeriod`: `mkdir_p` of the output tree, the `w+` log and header, the walk, the footer |
| RadxConvert.ConvertIop | radx/Convert_DOW_dorade2cfradial.py:29-85 | a period missing from the configuration raises `KeyError`; otherwise it is converted as `ConvertPeriod` says |
| RadxConvert.ConvertIops | radx/Convert_DOW_dorade2cfradial.py:27-85 | the outer loop equals `ConvertAll` over the periods |
| RadxConvert.ConvertCampaign | radx/Convert_DOW_dorade2cfradial.py:27-85 | the script equals `ConvertAll` over `iop1`, `iop5`, `iop6`, `iop7` with the script's own paths and messages |

## Findings

| source | as written | input that shows it | evidently intended | confidence | as-written member | corrected member |
|---|---|---|---|---|---|---|
| plotting/sweep_plot.py:120-133 | Only the `DBZHC` branch and the `VEL` branch (after `GateFilter(radar)` returns) assign `gatefilter`. The plot call passes `gatefilter=gatefilter` unconditionally, so reading it raises `UnboundLocalError`. With no handler, the run ends. | `varid = 'ZDR'` (any variable but `DBZHC`/`VEL`) on a readable file with a non-negative angle and no image; or `VEL` where `GateFilter(radar)` raises inside the swallowed `try` | draw with the plotting library's default settings, as the comment on that branch says, and without a filter, as `gatefilter = None` would do | not executed | SweepPlot.DefaultSettingsRaise | SweepPlot.DrawsWhenRendered |

`SweepPlot.AttemptAsWritten` models the code as written, and
`SweepPlot.DefaultSettingsRaise` exhibits the error. `SweepPlot.Attempt`
is the corrected definition, and the batch and the loops use it.
`SweepPlot.DrawsWhenRendered` proves that a readable, drawable file gets
its image whatever the variable and the filter outcome.
`SweepPlot.AsWrittenAgrees` shows the two definitions coincide wherever
`gatefilter` is bound. `SweepPlot.BatchAsWritten` is the batch as
written: `SweepPlot.BatchAsWrittenRaises` shows the error ends it, and
`SweepPlot.BatchAsWrittenAgrees` shows it equals the corrected batch on a
listing where every input has `gatefilter` bound.

## Left out

- AttemptAsWritten: a failure of `RadarMapDisplay(radar)` (line 125),
  which comes before the plot call reads `gatefilter`, is not told apart:
  `renders == false` stands for a failure in or after `plot_ppi_map`, so
  where `gatefilter` is unbound the model reports `UnboundLocalError`.
  Both raise before `mkdir_p` and change nothing.
- The radar reader, `pyart` filtering and despeckling, the `matplotlib`
  figure and the coordinate and title arithmetic are abstracted as flags of
  `Sweep`: `readable`, `renders` and the `VEL` filter block's outcome. The
  fixed angle is taken already rounded to an integer, so floating-point
  rounding is not modelled.
- The `zoom` axis scaling of `rhi_plot.py` (lines 142-151) changes only the
  drawing, which is not modelled.
- `multiprocessing.Pool`: both batches are modelled as one worker taking
  the listing in order. `Pool(cpu_count()-1)` on a one-core machine (zero
  workers) is not modelled.
- SweepPlot.Batch: stops at the first error, as a single worker does. With
  several workers, Python 2's `Pool.map` re-raises as soon as the first
  chunk fails; how much of the chunks other workers had already taken
  completes is not determined and not modelled.
  `rhi_plot.py` catches every error, and there order independence is
  proved (`RhiPlot.BatchOrderIndependent`).
- CreateSweep: `SweepPlot.CreateSweep`, and with it `SweepPlot.RunBatch`,
  `SweepPlot.RunDirs` and `SweepPlot.ProcessVariable`, runs the corrected
  call, not the code as written. The batch as written is the function
  `SweepPlot.BatchAsWritten`. It equals the corrected batch when every
  input has `gatefilter` bound (`BatchAsWrittenAgrees`); otherwise it
  raises (`BatchAsWrittenRaises`).
- CleanStep: `SweepPlot.CleanStep` is proved for the corrected call only.
  As written it holds for an input with `gatefilter` bound
  (`AsWrittenAgrees`).
- BatchClean: `SweepPlot.BatchClean` is proved for the corrected batch
  only. As written it holds for a listing whose inputs all have
  `gatefilter` bound (`BatchAsWrittenAgrees`); otherwise the batch as
  written raises (`BatchAsWrittenRaises`).
- BatchIdempotent: `SweepPlot.BatchIdempotent` is proved for the corrected
  batch only. For the batch as written, `BatchAsWrittenIdempotent` proves
  that a second run over a clean listing ends exactly as the first did.
- BatchOrderIndependent: `SweepPlot.BatchOrderIndependent` is proved for
  the corrected batch only, and it carries over to the batch as written
  under the same condition as `BatchClean`.
- RhiPlot.VariableLogsHeaderFirst: assumes writes reach the log in program
  order. The header is written through a handle kept open (and buffered)
  while the workers append through handles of their own, so the order on
  disk is not modelled.
- The outer `for iopdir in iopdirs` loops of both plotters are not
  modelled, and neither are the `mkdir_p` of their thumbnail directories
  or their `ncpath`, `figpath` and `logpath` literals. The model starts at
  one pass of the `scriptvars` loop (`ProcessVariable`), with those paths
  as parameters.
- `glob`, `datetime.now()` and the set of directories `os.chdir` can enter
  are parameters. `glob` does not raise, so its `except` branch is not
  modelled. Console `print` output is left out.
- `datetime.strptime` is not modelled: `Period` holds dates already parsed
  and valid. A malformed date string (a `ValueError`) is not modelled.
- Dates before 1900 are not modelled, because Python 2's `strftime`
  rejects them. Past 9999-12-31, the day increment raises
  `OverflowError`, and that is modelled as `Overflow`.
- `os.system`'s exit status is not observed. It does not raise, so the
  `Failed to run RadxConvert` branch (lines 77-78) is unreachable and not
  modelled.
- The converter's configuration module `radx_config` is not part of this
  model. It is a table from period to `Period`, and a missing period
  raises `KeyError` (`MissingKey`). A missing field inside an entry is not
  modelled.
- Opening a log file can fail (missing directory, permissions). That is
  not modelled; the log directory exists because `mkdir_p` made it first.
- `mkdir_p`'s `errno` test is modelled by its outcome. A file anywhere on
  the chain raises (`NotADirectory`), an empty path raises (`NoPath`),
  and existing directories are no error. Permission errors are not
  modelled.
- VisitStep, AfterVisits: the CfRadial files that the `RadxConvert`
  command writes are not modelled. The command is recorded as text in the
  `Shell`, and what it does to the file system lies outside the script.
- Paths are compared as plain strings, with no normalisation: `a//b` and
  `a/b` are different keys. The plotters' `figpath` ends in `/`, so their
  image paths contain `//`. They are built the same way for the existence
  check and for the save, so the model stays consistent. An image written
  under a normalised spelling is not recognised as existing.
- `savefig` on a path that is an existing directory raises
  (`IsADirectory`); other I/O errors are not modelled.
- The converter's fixed paths, binary and message texts live in one
  `Script` value, `Oreo`. The other functions take it as a parameter.
