/** The part of the host file system the scripts touch: the set of regular
    files, the set of directories, and the text appended to log files. The
    spec functions give each operation's effect on an `Fs` value; the class
    `FileStore` holds the same state in fields and updates it in place. */
module Store {

  datatype Option<T> = None | Some(value: T)

  /** What a Python call raised. */
  datatype Error =
    | Unreadable                   // the radar reader raised
    | RenderFailed                 // a filtering, despeckle or drawing call raised
    | Unbound(name: string)        // a local variable was read before any assignment
    | NoPath                       // `os.makedirs("")`
    | NotADirectory(path: string)  // `mkdir_p` met an existing non-directory
    | IsADirectory(path: string)   // the file to save is an existing directory
    | Overflow                     // a date moved past the last one `datetime` holds
    | MissingKey(key: string)      // a dictionary lookup of an absent key

  /** A snapshot of the store. `logs` maps a log file's path to the texts of
      the `write` calls made on it, in order; `saved` lists the paths
      `savefig` has written, in order, so that overwriting an existing image
      is visible even though the set of files stays the same. */
  datatype Fs = Fs(files: set<string>, dirs: set<string>, logs: map<string, seq<string>>, saved: seq<string>)

  /** Where a run of script code ends: the state it reached and the exception
      it raised, if any. */
  datatype Run = Run(fs: Fs, raised: Option<Error>)

  /** The result of an operation that may raise. */
  datatype Outcome = Done(fs: Fs) | Failed(error: Error)
  {
    /** The exception raised, if any. */
    function Raised(): Option<Error>
    {
      if Failed? then Some(error) else None
    }

    /** The state after the operation, starting from `before`: a failed
        operation changes nothing. */
    function After(before: Fs): Fs
    {
      if Done? then fs else before
    }
  }

  /** The directories `os.makedirs(p)` leaves in place: every prefix of `p`
      that ends just before a `/` or at the end of `p`, leaving out empty
      components (so `a//b/` gives `a` and `a//b`). */
  function Chain(p: string): (r: set<string>)
    ensures forall d :: d in r ==> 0 < |d| <= |p| && d == p[..|d|]
  {
    set i | 0 < i <= |p| && (i == |p| || p[i] == '/') && p[i - 1] != '/' :: p[..i]
  }

  /** A path that does not end in `/` is one of its own chain. */
  lemma ChainHasSelf(p: string)
    requires p != "" && p[|p| - 1] != '/'
    ensures p in Chain(p)
  {
    assert p[..|p|] == p;
  }

  /** `mkdir_p(p)`: create `p` and all missing ancestors; an existing directory
      is not an error, an existing file anywhere on the chain is. */
  function MakeDirs(fs: Fs, p: string): Outcome
  {
    if p == "" then Failed(NoPath)
    else if !(Chain(p) !! fs.files) then Failed(NotADirectory(p))
    else Done(fs.(dirs := fs.dirs + Chain(p)))
  }

  /** `mkdir_p` is idempotent: a second call succeeds and changes nothing. */
  lemma MakeDirsIdempotent(fs: Fs, p: string)
    requires MakeDirs(fs, p).Done?
    ensures MakeDirs(MakeDirs(fs, p).fs, p) == MakeDirs(fs, p)
  {
  }

  /** Two `mkdir_p` calls, for instance from two workers creating the same
      parents, reach the same state in either order. */
  lemma MakeDirsCommute(fs: Fs, p: string, q: string)
    ensures MakeDirs(fs, p).Done? && MakeDirs(fs, q).Done? ==>
      MakeDirs(MakeDirs(fs, p).fs, q) == MakeDirs(MakeDirs(fs, q).fs, p)
  {
    if MakeDirs(fs, p).Done? && MakeDirs(fs, q).Done? {
      assert fs.dirs + Chain(p) + Chain(q) == fs.dirs + Chain(q) + Chain(p);
    }
  }

  /** `plt.savefig(p)`: create or overwrite the file `p`, recording the
      write; a directory there makes it raise. */
  function Save(fs: Fs, p: string): Outcome
  {
    if p in fs.dirs then Failed(IsADirectory(p)) else Done(fs.(files := fs.files + {p}, saved := fs.saved + [p]))
  }

  /** The text written so far to the log file `p`. */
  function LogOf(fs: Fs, p: string): seq<string>
  {
    if p in fs.logs then fs.logs[p] else []
  }

  /** One `write(text)` on the log file `p` opened for appending. */
  function Append(fs: Fs, p: string, text: string): (r: Fs)
    ensures LogOf(r, p) == LogOf(fs, p) + [text]
    ensures forall q :: q != p ==> LogOf(r, q) == LogOf(fs, q)
    ensures r.files == fs.files && r.dirs == fs.dirs && r.saved == fs.saved
  {
    fs.(logs := fs.logs[p := LogOf(fs, p) + [text]])
  }

  /** Opening the log file `p` with mode `w+`: its old text is discarded. */
  function Truncate(fs: Fs, p: string): (r: Fs)
    ensures LogOf(r, p) == []
    ensures forall q :: q != p ==> LogOf(r, q) == LogOf(fs, q)
    ensures r.files == fs.files && r.dirs == fs.dirs && r.saved == fs.saved
  {
    fs.(logs := fs.logs[p := []])
  }

  /** The store, updated in place. */
  class FileStore {
    var files: set<string>
    var dirs: set<string>
    var logs: map<string, seq<string>>
    var saved: seq<string>

    /** The current contents as a value. */
    function State(): Fs
      reads this
    {
      Fs(files, dirs, logs, saved)
    }

    constructor (fs: Fs)
      ensures State() == fs
    {
      files, dirs, logs, saved := fs.files, fs.dirs, fs.logs, fs.saved;
    }

    /** `os.path.isfile(p)`. */
    method IsFile(p: string) returns (b: bool)
      ensures b <==> p in files
    {
      b := p in files;
    }

    /** `mkdir_p(p)`: returns its argument, or raises. */
    method MkdirP(p: string) returns (r: string, err: Option<Error>)
      modifies this
      ensures r == p
      ensures err.None? <==> p != "" && Chain(p) !! old(files)
      ensures err.None? ==> dirs == old(dirs) + Chain(p)
      ensures err.Some? ==> dirs == old(dirs)
      ensures files == old(files) && logs == old(logs) && saved == old(saved)
      ensures err == MakeDirs(old(State()), p).Raised()
      ensures State() == MakeDirs(old(State()), p).After(old(State()))
    {
      r := p;
      if p == "" {
        err := Some(NoPath);
      } else if !(Chain(p) !! files) {
        err := Some(NotADirectory(p));
      } else {
        dirs := dirs + Chain(p);
        err := None;
      }
    }

    /** `plt.savefig(p)`. */
    method SaveFile(p: string) returns (err: Option<Error>)
      modifies this
      ensures err.None? <==> p !in old(dirs)
      ensures files == if err.None? then old(files) + {p} else old(files)
      ensures saved == if err.None? then old(saved) + [p] else old(saved)
      ensures dirs == old(dirs) && logs == old(logs)
      ensures err == Save(old(State()), p).Raised()
      ensures State() == Save(old(State()), p).After(old(State()))
    {
      if p in dirs {
        err := Some(IsADirectory(p));
      } else {
        files := files + {p};
        saved := saved + [p];
        err := None;
      }
    }

    /** `open(p, 'a+').write(text)`. */
    method AppendLog(p: string, text: string)
      modifies this
      ensures LogOf(State(), p) == LogOf(old(State()), p) + [text]
      ensures State() == Append(old(State()), p, text)
    {
      logs := logs[p := LogOf(State(), p) + [text]];
    }

    /** `open(p, 'w+')`. */
    method TruncateLog(p: string)
      modifies this
      ensures LogOf(State(), p) == []
      ensures State() == Truncate(old(State()), p)
    {
      logs := logs[p := []];
    }
  }
}
