/**
  The values the importer works with: errors, results, package descriptors,
  importers, and the two collaborators it consults (a stat oracle and the
  go/build directory scanner), gathered into one environment.
 */
module Types {

  /** The errors an import can end in. `ImportErr` is the importer's own
      `importErr{path, msg}`; the other two stand for whatever `os.Stat` and
      `build.Context.ImportDir` return, which the importer passes on as is. */
  datatype Error =
    | ImportErr(path: string, msg: string)
    | PathErr(op: string, path: string, reason: string)
    | BuildErr(dir: string, reason: string)

  datatype Result<T> = Ok(value: T) | Err(error: Error)

  datatype Option<T> = None | Some(value: T)

  /** The four fixed messages of `importErr`. */
  const InvalidImportPath := "invalid import path"
  const RelativeImport := "relative import not supported"
  const AbsoluteImport := "cannot import absolute path"
  const NotADirectory := "not a directory"

  /** A scanned package (`build.Package`): only `importPath` matters to the
      importer, the other fields stand for the rest of the descriptor. */
  datatype Package = Package(
    dir: string,
    name: string,
    importPath: string,
    goFiles: seq<string>,
    imports: seq<string>)

  /** What a successful stat reports: a directory, or anything else. */
  datatype Kind = Dir | File

  /** The `*build.Context` a srcdir importer carries; opaque to the importer,
      it only selects how the scanner reads a directory. */
  datatype BuildContext = BuildContext(goos: string, goarch: string, buildTags: seq<string>)

  /** The world outside the importer: `runtime.GOROOT()`, `os.Stat` and
      `build.Context.ImportDir` (called with mode 0). */
  datatype Env = Env(
    goroot: string,
    stat: string -> Result<Kind>,
    importDir: (BuildContext, string) -> Result<Package>)

  /** One call the importer makes on its environment. */
  datatype Call = StatCall(dir: string) | ScanCall(dir: string)

  /** The outcome of one `Import`: the returned package or error, and the calls
      made to the environment on the way, in order. */
  datatype Resolution = Resolution(result: Result<Package>, calls: seq<Call>)

  /** An `Importer`: a `srcdirImporter{Context, root}` or a
      `delegateImporter{Importer, subordinate}`. */
  datatype Importer =
    | Srcdir(ctx: BuildContext, root: string)
    | Delegate(primary: Importer, subordinate: Importer)

  /** Every scanner call is made on a directory that was stat-ed just before
      and reported as a directory. */
  ghost predicate ScansOnlyStatedDirs(env: Env, calls: seq<Call>)
  {
    forall i :: 0 <= i < |calls| ==> StatedBeforeScan(env, calls, i)
  }

  /** If the call at `i` is a scan, the call before it stat-ed the same
      directory and found a directory. */
  ghost predicate StatedBeforeScan(env: Env, calls: seq<Call>, i: nat)
    requires i < |calls|
  {
    calls[i].ScanCall? ==>
      0 < i && calls[i - 1] == StatCall(calls[i].dir) && env.stat(calls[i].dir) == Ok(Dir)
  }

  /** The number of scanner calls in a trace. */
  function ScanCount(calls: seq<Call>): nat
  {
    if calls == [] then 0
    else (if calls[0].ScanCall? then 1 else 0) + ScanCount(calls[1..])
  }

  /** The trace of a stat that found a directory followed by its scan. */
  lemma StatThenScan(env: Env, dir: string)
    requires env.stat(dir) == Ok(Dir)
    ensures ScansOnlyStatedDirs(env, [StatCall(dir), ScanCall(dir)])
    ensures ScanCount([StatCall(dir), ScanCall(dir)]) == 1
  {
    assert [StatCall(dir), ScanCall(dir)][1..] == [ScanCall(dir)] && [ScanCall(dir)][1..] == [];
    assert ScanCount([ScanCall(dir)]) == 1;
    assert StatedBeforeScan(env, [StatCall(dir), ScanCall(dir)], 1);
  }

  lemma {:induction false} ScansOnlyStatedDirsAppend(env: Env, a: seq<Call>, b: seq<Call>)
    requires ScansOnlyStatedDirs(env, a) && ScansOnlyStatedDirs(env, b)
    ensures ScansOnlyStatedDirs(env, a + b)
  {
    var c := a + b;
    forall i | 0 <= i < |c|
      ensures StatedBeforeScan(env, c, i)
    {
      if i < |a| {
        assert StatedBeforeScan(env, a, i);
        assert c[i] == a[i];
        if i > 0 { assert c[i - 1] == a[i - 1]; }
      } else {
        var j := i - |a|;
        assert StatedBeforeScan(env, b, j);
        assert c[i] == b[j];
        if j > 0 { assert c[i - 1] == b[j - 1]; }
      }
    }
  }
}
