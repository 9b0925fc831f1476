/**
  The cases the repository's tests exercise, stated for every environment
  that has the facts each test relies on, and the behaviour of `Before` on a
  chain that the general lemmas imply.
 */
module Examples {
  import opened Types
  import opened Validation
  import opened Srcdir
  import opened Chain

  /** The four refused paths of the srcdir importer test, on any
      environment: each ends in its own error carrying the path, and no call
      is made. */
  lemma RefusedPathsTouchNothing(env: Env, ctx: BuildContext, root: string)
    ensures SrcdirImport(env, ctx, root, "") == Resolution(Err(ImportErr("", InvalidImportPath)), [])
    ensures SrcdirImport(env, ctx, root, ".") == Resolution(Err(ImportErr(".", RelativeImport)), [])
    ensures SrcdirImport(env, ctx, root, "..") == Resolution(Err(ImportErr("..", RelativeImport)), [])
    ensures SrcdirImport(env, ctx, root, "/math") == Resolution(Err(ImportErr("/math", AbsoluteImport)), [])
  {
    assert HasPrefix("/math", "/");
  }

  /** The GOROOT test on "math": with no vendored math, a math directory
      and a scanner that accepts it, the GOROOT importer resolves "math" and
      records "math" as its import path. */
  lemma GorootMath(env: Env, ctx: BuildContext)
    requires env.stat(SourceDir(env.goroot, VendorPath("math"))).Err?
    requires env.stat(SourceDir(env.goroot, "math")) == Ok(Dir)
    requires env.importDir(ctx, SourceDir(env.goroot, "math")).Ok?
    ensures Import(env, Goroot(env, ctx), "math").result.Ok?
    ensures Import(env, Goroot(env, ctx), "math").result.value.importPath == "math"
  {
    PlainStartAccepted("math");
  }

  /** The GOROOT test on "math/abs.go": a file, not a directory, so the
      import fails with "not a directory" for that path, without a scan. */
  lemma GorootMathFile(env: Env, ctx: BuildContext)
    requires env.stat(SourceDir(env.goroot, VendorPath("math/abs.go"))).Err?
    requires env.stat(SourceDir(env.goroot, "math/abs.go")) == Ok(File)
    ensures Import(env, Goroot(env, ctx), "math/abs.go").result == Err(ImportErr("math/abs.go", NotADirectory))
    ensures Import(env, Goroot(env, ctx), "math/abs.go").calls
         == [StatCall(SourceDir(env.goroot, VendorPath("math/abs.go"))), StatCall(SourceDir(env.goroot, "math/abs.go"))]
  {
    var p := "math/abs.go";
    PlainStartAccepted(p);
    var vdir := SourceDir(env.goroot, VendorPath(p));
    var dir := SourceDir(env.goroot, p);
    assert !VendorHit(env, env.goroot, p);
    var plain := PlainLookup(env, ctx, env.goroot, p);
    assert plain == Resolution(Err(ImportErr(p, NotADirectory)), [StatCall(dir)]);
    var r := SrcdirImport(env, ctx, env.goroot, p);
    assert r.result == plain.result && r.calls == [StatCall(vdir)] + plain.calls;
    assert Import(env, Goroot(env, ctx), p) == r;
  }

  /** The GOROOT vendor test: when the vendored hpack directory exists and
      scans, it is what resolves, with the "vendor/" form as import path and
      one scan, of the vendor directory. */
  lemma GorootVendorHpack(env: Env, ctx: BuildContext)
    requires env.stat(SourceDir(env.goroot, VendorPath("golang_org/x/net/http2/hpack"))) == Ok(Dir)
    requires env.importDir(ctx, SourceDir(env.goroot, VendorPath("golang_org/x/net/http2/hpack"))).Ok?
    ensures var r := Import(env, Goroot(env, ctx), "golang_org/x/net/http2/hpack");
      var vdir := SourceDir(env.goroot, VendorPath("golang_org/x/net/http2/hpack"));
      && r.result.Ok?
      && r.result.value.importPath == VendorPath("golang_org/x/net/http2/hpack")
      && r.calls == [StatCall(vdir), ScanCall(vdir)]
  {
    var p := "golang_org/x/net/http2/hpack";
    PlainStartAccepted(p);
    assert VendorHit(env, env.goroot, p);
  }

  /** Calling `Before` on a chain loses the chain's subordinate: when `a`
      fails, `b` succeeds and `c` fails, `Delegate(a, b).Before(c)` fails
      although searching `Delegate(a, b)` before `c` succeeds. */
  lemma BeforeOnChainLosesSubordinate(env: Env, a: Importer, b: Importer, c: Importer, p: string)
    requires a.Srcdir?
    requires Import(env, a, p).result.Err? && Import(env, b, p).result.Ok? && Import(env, c, p).result.Err?
    ensures Before(Delegate(a, b), c) == Delegate(a, c)
    ensures Import(env, Before(Delegate(a, b), c), p).result.Err?
    ensures Import(env, Delegate(Delegate(a, b), c), p).result.Ok?
  {
  }

  /** A resolver that always fails placed before one that always succeeds:
      the chain succeeds with the second one's result for every path. */
  lemma FailingBeforeSucceeding(env: Env, a: Importer, b: Importer, p: string)
    requires a.Srcdir?
    requires Import(env, a, p).result.Err?
    ensures Import(env, Before(a, b), p).result == Import(env, b, p).result
  {
  }
}
