/** The collaborators the generation engine talks to, as pure values: an
    output store (files and directories, with injectable failures) and a
    template catalog (embedded raw contents, parsing and execution). The
    shapes follow pkg/interfaces/interfaces.go; the concrete operating-system
    and text/template backends are not part of this model. */
module Interfaces {
  import opened Text
  import opened ChartErrors

  /** The output tree: file contents by path, and the set of directories.
      Paths are plain strings joined with "/". */
  datatype Store = Store(files: map<string, string>, dirs: set<string>)

  /** One call into the store, identified by its kind and path. */
  datatype FsOp =
    | MkdirOp(path: string)       // FileSystem.MkdirAll
    | CreateOp(path: string)      // FileSystem.Create (create or truncate)
    | WriteFileOp(path: string)   // FileSystem.WriteFile
    | ReadFileOp(path: string)    // FileSystem.ReadFile
    | OpenAppendOp(path: string)  // FileSystem.OpenFile(O_APPEND|O_CREATE|O_WRONLY)
    | AppendOp(path: string)      // File.WriteString on an append handle
    | WalkEntryOp(path: string)   // the error Walk hands to its callback for one entry

  /** The calls that fail, and the error each one reports. */
  type Faults = map<FsOp, Err>

  /** The state of the store after a step, and the error the step returned
      (None is Go's nil). Failed steps keep what they already wrote. */
  datatype Run = Run(store: Store, err: Option<Err>)

  /** Reading an embedded template file. */
  datatype Fetch = Found(bytes: string) | Missing(cause: Err)

  /** Executing a parsed template: text/template streams its output, so a
      failed execution may leave a partial result behind. */
  datatype Rendering = Rendered(text: string) | ExecFailed(partial: string, cause: Err)

  /** The embedded template catalog with the template processor around it:
      `Raw` reads a file verbatim, `Parse` reports a parse failure (None when
      the template parses), `Render` executes a parsed template against the
      data value `D`. */
  datatype Catalog<!D> = Catalog(
    Raw: string -> Fetch,
    Parse: string -> Option<Err>,
    Render: (string, D) -> Rendering)

  /** The bytes a read returns when it succeeds. */
  function RawText<D>(cat: Catalog<D>, template: string): string {
    match cat.Raw(template)
    case Found(b) => b
    case Missing(_) => ""
  }

  /** The bytes an execution writes, complete or partial. */
  function RenderedText<D>(cat: Catalog<D>, template: string, data: D): string {
    match cat.Render(template, data)
    case Rendered(t) => t
    case ExecFailed(p, _) => p
  }

  /** `a` and `b` agree at `p`: both lack it, or both hold the same content. */
  predicate SameAt(a: map<string, string>, b: map<string, string>, p: string) {
    (p in a <==> p in b) && (p in a ==> a[p] == b[p])
  }

  /** `path` joined under `root` with the separator "/". */
  function Path(root: string, rel: string): string {
    root + "/" + rel
  }

  /** Distinct relative paths under one root are distinct paths. */
  lemma PathInjective(root: string, a: string, b: string)
    requires a != b
    ensures Path(root, a) != Path(root, b)
  {
    PathIsUnderRoot(root, a);
    PathIsUnderRoot(root, b);
  }

  /** `p` is the root itself or lies beneath it. */
  predicate UnderRoot(p: string, root: string) {
    p == root || root + "/" <= p
  }

  lemma PathIsUnderRoot(root: string, rel: string)
    ensures UnderRoot(Path(root, rel), root)
    ensures Path(root, rel)[|root| + 1..] == rel
  {
    assert Path(root, rel) == (root + "/") + rel;
  }
}
