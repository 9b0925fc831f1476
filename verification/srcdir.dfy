/**
  Root resolution: `srcdirImporter.Import`, which maps a validated import
  path to `root/src/<path>` (after trying `root/src/vendor/<path>` when the
  root is GOROOT), asks stat about it and hands directories to the scanner.
 */
module Srcdir {
  import opened Types
  import opened Validation

  /** `path.Join("vendor", p)` for a validated, already clean path. */
  function VendorPath(p: string): string
  {
    "vendor/" + p
  }

  /** `filepath.Join(root, "src", filepath.FromSlash(rel))` for a clean root
      and path on a host whose separator is '/'. */
  function SourceDir(root: string, rel: string): string
  {
    root + "/src/" + rel
  }

  /** The importer that `GOROOT(ctx)` builds. */
  function Goroot(env: Env, ctx: BuildContext): (imp: Importer)
    ensures imp.Srcdir? && imp.ctx == ctx && imp.root == env.goroot
  {
    Srcdir(ctx, env.goroot)
  }

  /** The `loadPackage` closure: scan `dir`, and on success overwrite the
      scanned package's import path with `importPath`. */
  function LoadPackage(env: Env, ctx: BuildContext, importPath: string, dir: string): (r: Result<Package>)
    ensures env.importDir(ctx, dir).Err? ==> r == env.importDir(ctx, dir)
    ensures env.importDir(ctx, dir).Ok? ==>
      && r.Ok?
      && r.value.importPath == importPath
      && r.value.(importPath := env.importDir(ctx, dir).value.importPath) == env.importDir(ctx, dir).value
  {
    match env.importDir(ctx, dir)
    case Err(e) => Err(e)
    case Ok(pkg) => Ok(pkg.(importPath := importPath))
  }

  /** The vendor branch is taken: the root is GOROOT and stat reports
      `root/src/vendor/<p>` as a directory. */
  predicate VendorHit(env: Env, root: string, p: string)
  {
    root == env.goroot && env.stat(SourceDir(root, VendorPath(p))) == Ok(Dir)
  }

  /** The plain lookup of `root/src/<p>`. */
  function PlainLookup(env: Env, ctx: BuildContext, root: string, p: string): (r: Resolution)
    ensures |r.calls| > 0 && r.calls[0] == StatCall(SourceDir(root, p))
    ensures ScanCall(SourceDir(root, p)) in r.calls <==> env.stat(SourceDir(root, p)) == Ok(Dir)
    ensures env.stat(SourceDir(root, p)).Err? ==> r.result == Err(env.stat(SourceDir(root, p)).error)
    ensures env.stat(SourceDir(root, p)) == Ok(File) ==> r.result == Err(ImportErr(p, NotADirectory))
    ensures env.stat(SourceDir(root, p)) == Ok(Dir) ==> r.result == LoadPackage(env, ctx, p, SourceDir(root, p))
    ensures ScansOnlyStatedDirs(env, r.calls) && ScanCount(r.calls) <= 1
    // Exactly one stat, then a scan if and only if stat reported a directory.
    ensures r.calls == [StatCall(SourceDir(root, p))]
                     + (if env.stat(SourceDir(root, p)) == Ok(Dir) then [ScanCall(SourceDir(root, p))] else [])
    ensures ScanCount(r.calls) == (if env.stat(SourceDir(root, p)) == Ok(Dir) then 1 else 0)
  {
    var dir := SourceDir(root, p);
    match env.stat(dir)
    case Err(e) =>
      assert [StatCall(dir)][1..] == [];
      Resolution(Err(e), [StatCall(dir)])
    case Ok(File) =>
      assert [StatCall(dir)][1..] == [];
      Resolution(Err(ImportErr(p, NotADirectory)), [StatCall(dir)])
    case Ok(Dir) =>
      StatThenScan(env, dir);
      Resolution(LoadPackage(env, ctx, p, dir), [StatCall(dir), ScanCall(dir)])
  }

  /** `srcdirImporter.Import`. */
  function SrcdirImport(env: Env, ctx: BuildContext, root: string, p: string): (r: Resolution)
    // A refused path ends in its validation error without any call.
    ensures Validate(p).Some? ==> r == Resolution(Err(Validate(p).value), [])
    // A vendor hit scans the vendor directory once and returns exactly that
    // outcome, recording "vendor/<p>" as the import path; no fallback.
    ensures Validate(p).None? && VendorHit(env, root, p) ==>
      var vdir := SourceDir(root, VendorPath(p));
      r == Resolution(LoadPackage(env, ctx, VendorPath(p), vdir), [StatCall(vdir), ScanCall(vdir)])
    // Otherwise the result is that of the plain lookup, after one probe of
    // the vendor candidate when (and only when) the root is GOROOT.
    ensures Validate(p).None? && !VendorHit(env, root, p) ==>
      var plain := PlainLookup(env, ctx, root, p);
      && r.result == plain.result
      && r.calls == (if root == env.goroot then [StatCall(SourceDir(root, VendorPath(p)))] else []) + plain.calls
    // Whatever happens: at most one scan, always of a directory stat just confirmed.
    ensures ScansOnlyStatedDirs(env, r.calls) && ScanCount(r.calls) <= 1
    ensures r.result.Ok? ==> r.result.value.importPath == (if VendorHit(env, root, p) then VendorPath(p) else p)
  {
    match Validate(p)
    case Some(e) => Resolution(Err(e), [])
    case None =>
      if root == env.goroot then
        var vdir := SourceDir(root, VendorPath(p));
        var probe := StatCall(vdir);
        if env.stat(vdir) == Ok(Dir) then
          StatThenScan(env, vdir);
          Resolution(LoadPackage(env, ctx, VendorPath(p), vdir), [probe, ScanCall(vdir)])
        else
          var plain := PlainLookup(env, ctx, root, p);
          assert ScanCount([probe] + plain.calls) == ScanCount(plain.calls);
          ScansOnlyStatedDirsAppend(env, [probe], plain.calls);
          Resolution(plain.result, [probe] + plain.calls)
      else
        PlainLookup(env, ctx, root, p)
  }
}
