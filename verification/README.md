# importer: resolving Go import paths to package directories

This project models the `importer` package, which turns a Go import path
(`net/http`, `golang_org/x/net/http2/hpack`) into a scanned `build.Package`.
It works in three steps:

- **Validation.** `srcdirImporter.Import` refuses the empty path, relative
  paths (`.`, `..`, `./…`, `../…`) and absolute paths (`/…`). Each refusal is an
  `importErr` that carries the path unchanged. The filesystem is not touched.
- **Root resolution.** A `srcdirImporter` maps the path to `root/src/<path>`.
  When its root is GOROOT, it first tries `root/src/vendor/<path>`. If that is a
  directory, the importer commits to it, with no fallback. Otherwise it stats
  the plain directory:
  - a stat error is returned unchanged;
  - a non-directory is refused with "not a directory";
  - a directory goes to the go/build scanner (`ImportDir`), and the scanned
    package gets the import path overwritten.
- **Chaining.** A `delegateImporter` asks its primary importer first. On any
  error it returns the subordinate's outcome verbatim. `Before` and `After`
  build such chains.

The model is written as functions over values. The outside world is a
datatype `Env`: the GOROOT string, a stat oracle and a scanner oracle, all
parameters. `Import` returns a `Resolution`: the result (`Ok(package)` or
`Err(error)`) and the sequence of calls made to the two oracles, in order.
That trace is how the contracts say that a refused path makes no call, that
the scanner is called at most once per root and only on a directory stat has
just confirmed, and that a subordinate is not called when the primary
succeeds.

Two behaviours of the code are modelled as written:

- On a vendor hit, the recorded import path is the joined `vendor/<path>`,
  not the requested path. The inner `importpath` at importer.go:78 shadows the
  outer one, and that inner value is what `loadPackage` receives at
  importer.go:82. So a vendor hit does not record the requested path
  (`Srcdir.SrcdirImport`, `Examples.GorootVendorHpack`).
- `delegateImporter` has no `Before`/`After` of its own, so the methods of its
  embedded primary are promoted (importer.go:113-116). On a chain, `Before(c)`
  and `After(c)` therefore pair `c` with the chain's leftmost `srcdirImporter`
  and drop every other link. `Chain.Before`/`Chain.After` state this, and
  `Examples.BeforeOnChainLosesSubordinate` shows a case where the result
  differs from searching the whole chain first.

Modules: `Types` (data model), `Validation`, `Srcdir` (root resolution),
`Chain` (delegation and composition), `ErrorText` (`importErr.Error`),
`Examples` (the repository's test cases).

## Model

| member | source | states |
|---|---|---|
| `Validation.Validate` | importer.go:51-61 | A path is accepted exactly when its first slash-separated element is not empty, `.` or `..`. A refused path yields `importErr{path, msg}` with the path unchanged and the reason read off that first element. |
| `Validation.RelativeByFirstElement` | importer.go:55 | The four string tests of the relative check (`.`, `..`, `./` prefix, `../` prefix) hold exactly when the first path element is `.` or `..`. |
| `Validation.PlainStartAccepted` | importer.go:51-61 | Every path whose first character is neither `.` nor `/` passes validation. |
| `Validation.RefusalReasons` | importer.go:51-61 | Each refusal carries the input path. "invalid import path" is given exactly for the empty path, "cannot import absolute path" exactly for a `/` prefix, and "relative import not supported" only for paths starting with `.`. |
| `Srcdir.Goroot` | importer.go:38-43 | `GOROOT(ctx)` is a srcdir importer with that context, rooted at the GOROOT value. |
| `Srcdir.LoadPackage` | importer.go:65-73 | A scanner error is returned as is. On success, the package is the scanned one with only its import path replaced by the given one. |
| `Srcdir.PlainLookup` | importer.go:87-96 | Exactly one stat is made, of `root/src/<path>`, followed by one scan of that directory if and only if stat reports a directory; no other call is made. A stat error comes back unchanged. A non-directory yields `importErr{path, "not a directory"}`. A directory gives `LoadPackage` with the requested path. |
| `Srcdir.SrcdirImport` | importer.go:50-97 | A refused path returns its validation error with no call made. A vendor hit (root is GOROOT and `vendor/<path>` is a directory) returns exactly the vendor scan's outcome, with import path `vendor/<path>` and no fallback. Otherwise the result is the plain lookup's, after a vendor probe only under GOROOT. The scanner is called at most once, and only on a directory stat just confirmed. |
| `Chain.Import` | importer.go:118-124 | Through any chain: a refused path returns its validation error with no call made; every scan is of a stat-confirmed directory; a success records the requested path or its `vendor/` form. |
| `Chain.DelegatePrimarySucceeds` | importer.go:118-124 | When the primary succeeds, the chain's outcome, calls included, is the primary's: the subordinate is never called. |
| `Chain.DelegatePrimaryFails` | importer.go:118-124 | When the primary fails with any error, the chain returns the subordinate's result verbatim and the primary's error is lost. |
| `Chain.Before` | importer.go:99-104 | `Before(c)` is a chain with the receiver's leftmost srcdir importer as primary and `c` as subordinate. On a srcdir importer that is the importer itself. |
| `Chain.After` | importer.go:106-111 | `After(c)` is a chain with `c` as primary and the receiver's leftmost srcdir importer as subordinate. |
| `Chain.BeforeOnChain` | importer.go:113-116 | On a chain, `Before`/`After` behave as if applied to its leftmost srcdir importer alone. |
| `Chain.ImportIsFirstSuccess` | importer.go:118-124 | However the delegates are nested, the chain's outcome, calls included, is that of trying its srcdir importers left to right and stopping at the first success. |
| `Chain.FirstSuccessWins` | importer.go:118-124 | Over the reference `FirstSuccess`: if the outcomes before position k all fail and the one at k succeeds (or is the last), the result is the one at k. |
| `Chain.FirstSuccessOk` | importer.go:118-124 | Over the reference `FirstSuccess`: it succeeds exactly when one of the outcomes does. |
| `Chain.ChainFirstRootWins` | importer.go:118-124 | For any chain: if its srcdir importers before position k all fail and the one at k succeeds (or is the last), the chain's result is that importer's. |
| `Chain.ChainOkIffSomeRootOk` | importer.go:118-124 | A chain succeeds exactly when one of its srcdir importers, asked on its own, succeeds. |
| `Chain.ChainAssociative` | importer.go:118-124 | `(a then b) then c` and `a then (b then c)` have the same result and make the same calls. |
| `ErrorText.EscapePlain` | importer.go:131-133 | A path with no `"` and no `\` appears between the quotes unchanged. |
| `ErrorText.ErrorString` | importer.go:131-133 | For a path with no `"` and no `\`, the message is exactly `import "<path>": <msg>`. In every case it starts with `import "`. |
| `ErrorText.ErrorStringRoundTrip` | importer.go:131-133 | Reading `import "<path>": <msg>` back gives the original error, for any path and reason. |
| `ErrorText.ErrorStringInjective` | importer.go:131-133 | Two distinct errors never have the same message. |
| `Examples.RefusedPathsTouchNothing` | importer_test.go:22-49 | On any environment, `""`, `.`, `..` and `/math` give the expected `importErr` with no call made. |
| `Examples.GorootMath` | importer_test.go:75-78 | With a `math` directory, no vendored math and a scanner that accepts it, the GOROOT importer resolves `math` with import path `math`. |
| `Examples.GorootMathFile` | importer_test.go:79-84 | When `math/abs.go` is a file, the GOROOT importer fails with `importErr{"math/abs.go", "not a directory"}`. Only two stats are made, with no scan. |
| `Examples.GorootVendorHpack` | importer17_test.go:19-22 | When the vendored hpack directory exists and scans, the import resolves through it. The recorded import path is the `vendor/` form, and exactly one stat and one scan are made. |
| `Examples.BeforeOnChainLosesSubordinate` | importer.go:113-116 | If `a` fails, `b` succeeds and `c` fails, then `Delegate(a, b).Before(c)` fails, while searching `Delegate(a, b)` before `c` succeeds. |
| `Examples.FailingBeforeSucceeding` | importer.go:99-104 | A failing srcdir importer placed before any importer `b` yields `b`'s result. |

## Left out

- `ImporterFn` (importer.go:30-35) is not modelled. It is a one-line adapter, and without `Before`/`After` it is not an `Importer`.
- `os.Stat` and `build.Context.ImportDir` are not modelled; they are the oracles `Env.stat` and `Env.importDir`. The build context (tags, OS, architecture) is an opaque `BuildContext` value that only selects the scanner's behaviour.
- `runtime.GOROOT()` is the parameter `Env.goroot`. The cleaning `filepath.Join` applies to the root at importer.go:41 is not modelled, so `Srcdir.Goroot` uses the value as given. In Go, importer.go:77 compares the cleaned root with the raw `runtime.GOROOT()`. When GOROOT is not already clean (a trailing slash, say), the importer built by `GOROOT()` never probes `vendor/`. The model always probes it for that importer, so `Srcdir.Goroot` and `Examples.GorootVendorHpack` hold on every `Env`, including ones where the Go code would skip the vendor branch.
- `Srcdir.VendorPath` and `Srcdir.SourceDir` are plain concatenations (`"vendor/" + p`, `root + "/src/" + p`). They do not model `path.Join`/`filepath.Join` cleaning or `filepath.FromSlash`. For paths with interior `..`, `.` or repeated or trailing slashes, the Go code probes a cleaned directory (`a/../b` gives `vendor/b`), and the model does not.
- `errors.WithStack` and `errors.Cause` are not modelled: an error in the model is its cause.
- `ErrorText.ErrorString`: only the `%q` escaping of `"` and `\` is modelled. Escapes of non-printable characters are not.
- `Srcdir.LoadPackage` models the in-place write to the scanned `*build.Package` as a record update on a value. Aliasing of that pointer by the scanner, if any, is not modelled.
- Importers other than the two in this package (a user's own `Importer` implementation) are not modelled.
- Repeated imports with the same inputs give equal outcomes by construction, since every operation is a function of its inputs. A clock, caching or a filesystem that changes between calls is not modelled.
- The code has no concurrency, and none is modelled.
