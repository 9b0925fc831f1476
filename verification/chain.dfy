/**
  Resolver chaining: `delegateImporter.Import` (primary first, subordinate
  on any error) and the `Before`/`After` constructors, including the ones a
  `delegateImporter` inherits from its embedded primary.
 */
module Chain {
  import opened Types
  import opened Validation
  import opened Srcdir

  /** The outcome of trying `first` and, because it failed, then `second`:
      only `second`'s result is kept, but both sets of calls were made. */
  function Fallback(first: Resolution, second: Resolution): Resolution
  {
    Resolution(second.result, first.calls + second.calls)
  }

  /** `Importer.Import` on either kind of importer. */
  function Import(env: Env, imp: Importer, p: string): (r: Resolution)
    decreases imp
    // A refused path fails in every link without any call, and the last
    // link's (identical) error is what the chain returns.
    ensures Validate(p).Some? ==> r == Resolution(Err(Validate(p).value), [])
    // Every scan anywhere in the chain is of a directory stat just confirmed.
    ensures ScansOnlyStatedDirs(env, r.calls)
    // A success records either the requested path or its vendor form.
    ensures r.result.Ok? ==> r.result.value.importPath == p || r.result.value.importPath == VendorPath(p)
  {
    match imp
    case Srcdir(ctx, root) => SrcdirImport(env, ctx, root, p)
    case Delegate(primary, subordinate) =>
      var first := Import(env, primary, p);
      if first.result.Ok? then first
      else
        var second := Import(env, subordinate, p);
        ScansOnlyStatedDirsAppend(env, first.calls, second.calls);
        Fallback(first, second)
  }

  /** If the primary succeeds, the chain returns exactly the primary's
      outcome: the subordinate is never called. */
  lemma DelegatePrimarySucceeds(env: Env, primary: Importer, subordinate: Importer, p: string)
    requires Import(env, primary, p).result.Ok?
    ensures Import(env, Delegate(primary, subordinate), p) == Import(env, primary, p)
  {
  }

  /** If the primary fails, whatever the error, the chain returns the
      subordinate's result verbatim and the primary's error is lost. */
  lemma DelegatePrimaryFails(env: Env, primary: Importer, subordinate: Importer, p: string)
    requires Import(env, primary, p).result.Err?
    ensures Import(env, Delegate(primary, subordinate), p).result == Import(env, subordinate, p).result
    ensures Import(env, Delegate(primary, subordinate), p).calls
         == Import(env, primary, p).calls + Import(env, subordinate, p).calls
  {
  }

  /** The first `srcdirImporter` reached by following primaries. */
  function Leftmost(imp: Importer): (r: Importer)
    ensures r.Srcdir?
  {
    match imp
    case Srcdir(_, _) => imp
    case Delegate(primary, _) => Leftmost(primary)
  }

  /** `Before`: on a `srcdirImporter`, a chain with it as primary; on a
      `delegateImporter`, the method promoted from its embedded primary. */
  function Before(imp: Importer, child: Importer): (r: Importer)
    ensures r == Delegate(Leftmost(imp), child)
  {
    match imp
    case Srcdir(_, _) => Delegate(imp, child)
    case Delegate(primary, _) => Before(primary, child)
  }

  /** `After`: like `Before` with the roles of the two swapped. */
  function After(imp: Importer, child: Importer): (r: Importer)
    ensures r == Delegate(child, Leftmost(imp))
  {
    match imp
    case Srcdir(_, _) => Delegate(child, imp)
    case Delegate(primary, _) => After(primary, child)
  }

  /** The outcomes of the chain's `srcdirImporter`s, each asked on its own,
      in the order the chain tries them. */
  function LeafOutcomes(env: Env, imp: Importer, p: string): (rs: seq<Resolution>)
    ensures |rs| > 0
    ensures rs[0] == Import(env, Leftmost(imp), p)
  {
    match imp
    case Srcdir(ctx, root) => [SrcdirImport(env, ctx, root, p)]
    case Delegate(primary, subordinate) => LeafOutcomes(env, primary, p) + LeafOutcomes(env, subordinate, p)
  }

  /** A reference for chains: take the outcomes one after another, stop at
      the first success, and otherwise end with the last outcome. */
  function FirstSuccess(rs: seq<Resolution>): Resolution
    requires |rs| > 0
  {
    if |rs| == 1 || rs[0].result.Ok? then rs[0]
    else Fallback(rs[0], FirstSuccess(rs[1..]))
  }

  lemma {:induction false} FirstSuccessAppend(xs: seq<Resolution>, ys: seq<Resolution>)
    requires |xs| > 0 && |ys| > 0
    ensures FirstSuccess(xs + ys)
         == (var a := FirstSuccess(xs); if a.result.Ok? then a else Fallback(a, FirstSuccess(ys)))
  {
    var zs := xs + ys;
    assert zs[0] == xs[0];
    if xs[0].result.Ok? {
    } else if |xs| > 1 {
      assert zs[1..] == xs[1..] + ys;
      FirstSuccessAppend(xs[1..], ys);
      assert xs[0].calls + (xs[1..][0].calls + ys[0].calls) == (xs[0].calls + xs[1..][0].calls) + ys[0].calls;
    } else {
      assert zs[1..] == ys;
    }
  }

  /** A chain, however its links are nested, behaves as trying its roots in
      order: its outcome, calls included, is `FirstSuccess` of its leaves. */
  lemma {:induction false} ImportIsFirstSuccess(env: Env, imp: Importer, p: string)
    ensures Import(env, imp, p) == FirstSuccess(LeafOutcomes(env, imp, p))
  {
    match imp
    case Srcdir(_, _) =>
    case Delegate(primary, subordinate) =>
      ImportIsFirstSuccess(env, primary, p);
      ImportIsFirstSuccess(env, subordinate, p);
      FirstSuccessAppend(LeafOutcomes(env, primary, p), LeafOutcomes(env, subordinate, p));
  }

  /** The first success wins: if the outcomes before position `k` all fail
      and the one at `k` succeeds (or is the last), `FirstSuccess` gives the
      one at `k`. */
  lemma {:induction false} FirstSuccessWins(rs: seq<Resolution>, k: nat)
    requires k < |rs|
    requires forall j :: 0 <= j < k ==> rs[j].result.Err?
    requires rs[k].result.Ok? || k == |rs| - 1
    ensures FirstSuccess(rs).result == rs[k].result
    decreases k
  {
    if k > 0 {
      var rest := rs[1..];
      assert forall j :: 0 <= j < k - 1 ==> rest[j] == rs[j + 1];
      FirstSuccessWins(rest, k - 1);
    }
  }

  /** `FirstSuccess` succeeds exactly when one of the outcomes does. */
  lemma {:induction false} FirstSuccessOk(rs: seq<Resolution>)
    requires |rs| > 0
    ensures FirstSuccess(rs).result.Ok? <==> exists i :: 0 <= i < |rs| && rs[i].result.Ok?
  {
    if |rs| > 1 && rs[0].result.Err? {
      var rest := rs[1..];
      FirstSuccessOk(rest);
      if exists i :: 0 <= i < |rest| && rest[i].result.Ok? {
        var i :| 0 <= i < |rest| && rest[i].result.Ok?;
        assert rs[i + 1] == rest[i];
      }
      if exists i :: 0 <= i < |rs| && rs[i].result.Ok? {
        var i :| 0 <= i < |rs| && rs[i].result.Ok?;
        assert rest[i - 1] == rs[i];
      }
    }
  }

  /** A chain succeeds exactly when one of its `srcdirImporter`s, asked on
      its own, succeeds. */
  lemma ChainOkIffSomeRootOk(env: Env, imp: Importer, p: string)
    ensures Import(env, imp, p).result.Ok?
        <==> exists i :: 0 <= i < |LeafOutcomes(env, imp, p)| && LeafOutcomes(env, imp, p)[i].result.Ok?
  {
    ImportIsFirstSuccess(env, imp, p);
    FirstSuccessOk(LeafOutcomes(env, imp, p));
  }

  /** The first root of a chain that succeeds wins: if the roots before
      position `k` all fail and the one at `k` succeeds (or is the last),
      the chain's result is that root's. */
  lemma ChainFirstRootWins(env: Env, imp: Importer, p: string, k: nat)
    requires k < |LeafOutcomes(env, imp, p)|
    requires forall j :: 0 <= j < k ==> LeafOutcomes(env, imp, p)[j].result.Err?
    requires LeafOutcomes(env, imp, p)[k].result.Ok? || k == |LeafOutcomes(env, imp, p)| - 1
    ensures Import(env, imp, p).result == LeafOutcomes(env, imp, p)[k].result
  {
    ImportIsFirstSuccess(env, imp, p);
    FirstSuccessWins(LeafOutcomes(env, imp, p), k);
  }

  /** One delegation step on two outcomes: the first if it succeeded,
      otherwise the fallback to the second. */
  function Then(first: Resolution, second: Resolution): Resolution
  {
    if first.result.Ok? then first else Fallback(first, second)
  }

  lemma ImportDelegate(env: Env, primary: Importer, subordinate: Importer, p: string)
    ensures Import(env, Delegate(primary, subordinate), p) == Then(Import(env, primary, p), Import(env, subordinate, p))
  {
  }

  lemma ThenAssociative(x: Resolution, y: Resolution, z: Resolution)
    ensures Then(Then(x, y), z) == Then(x, Then(y, z))
  {
    assert (x.calls + y.calls) + z.calls == x.calls + (y.calls + z.calls);
  }

  /** Nesting is associative in effect: `(a then b) then c` and
      `a then (b then c)` have the same outcome and make the same calls. */
  lemma ChainAssociative(env: Env, a: Importer, b: Importer, c: Importer, p: string)
    ensures Import(env, Delegate(Delegate(a, b), c), p) == Import(env, Delegate(a, Delegate(b, c)), p)
  {
    var ra, rb, rc := Import(env, a, p), Import(env, b, p), Import(env, c, p);
    ImportDelegate(env, a, b, p);
    ImportDelegate(env, b, c, p);
    ImportDelegate(env, Delegate(a, b), c, p);
    ImportDelegate(env, a, Delegate(b, c), p);
    ThenAssociative(ra, rb, rc);
  }

  /** `Before` on a chain keeps only its leftmost root: the chain's outcome
      is that root's, then `child`'s; every other link is dropped. */
  lemma {:induction false} BeforeOnChain(env: Env, imp: Importer, child: Importer, p: string)
    ensures Import(env, Before(imp, child), p) == Import(env, Delegate(Leftmost(imp), child), p)
    ensures Import(env, After(imp, child), p) == Import(env, Delegate(child, Leftmost(imp)), p)
  {
  }
}
