/** The chart generation engine of pkg/app/app.go. An immutable options
    record drives five fail-fast steps against the output store: directories,
    the four mandatory files, the flag-selected resource templates, the
    assembled NOTES.txt, and the final rewrite of every literal "example"
    under the chart root into the chart name. Every step is a pure function
    from a store to a Run (the store afterwards plus the error returned);
    the final rewrite walks the tree in a loop. */
module App {
  import opened Text
  import opened ChartErrors
  import opened Interfaces

  /** The options record: the chart name and one flag per resource kind. */
  datatype Options = Options(
    ChartName: string,
    Deployment: bool,
    Cronjob: bool,
    StatefulSet: bool,
    DaemonSet: bool,
    Configmap: bool,
    Service: bool,
    Ingress: bool,
    Volumes: bool,
    Hpa: bool,
    ServiceAccount: bool)

  /** The embedded templates, executed against the options record. */
  type Templates = Catalog<Options>

  const HelpersTemplate: string := "chartTemplate/templates/helpers.tpl"
  const HelmignoreTemplate: string := "chartTemplate/helmignore"
  const ChartYamlTemplate: string := "chartTemplate/Chart.yaml"
  const ValuesTemplate: string := "chartTemplate/values.yaml"
  const TestConnectionTemplate: string := "chartTemplate/templates/tests/test-connection.yaml"
  const NotesObjectsTemplate: string := "chartTemplate/templates/NOTES-objects-created.txt"
  const NotesDefaultTemplate: string := "chartTemplate/templates/NOTES-DEFAULT.txt"
  const NotesIngressTemplate: string := "chartTemplate/templates/NOTES-INGRESS.txt"
  const NotesServiceTemplate: string := "chartTemplate/templates/NOTES-SERVICE.txt"

  /** Output locations relative to the chart root. */
  const TemplatesDir: string := "templates"
  const TestsDir: string := "templates/tests"
  const TestConnectionFile: string := "templates/tests/test-connection.yaml"
  const HelpersFile: string := "templates/_helpers.tpl"
  const HelmignoreFile: string := ".helmignore"
  const ChartYamlFile: string := "Chart.yaml"
  const ValuesFile: string := "values.yaml"
  const NotesFile: string := "templates/NOTES.txt"

  // ================================================================ file primitives

  /** Creating `output` from `template` fails: the output cannot be created,
      the template does not parse, or its execution fails. */
  predicate RenderFails(faults: Faults, cat: Templates, opts: Options, template: string, output: string) {
    CreateOp(output) in faults || cat.Parse(template).Some? || cat.Render(template, opts).ExecFailed?
  }

  /** The error createFileFromTemplate returns. It depends only on the
      collaborators, never on what the store already holds. */
  function TemplateFailure(faults: Faults, cat: Templates, opts: Options, template: string, output: string): (r: Option<Err>)
    ensures r.Some? <==> RenderFails(faults, cat, opts, template, output)
    ensures CreateOp(output) in faults ==>
      r.Some? && r.value.Chart? && r.value.ce.Type == FileSystemError && r.value.ce.Operation == "create-file"
      && r.value.ce.Underlying == Some(faults[CreateOp(output)])
      && ContextHas(r.value.ce, "file", output) && ContextHas(r.value.ce, "template", template)
    ensures CreateOp(output) !in faults && cat.Parse(template).Some? ==>
      r.Some? && r.value.Chart? && r.value.ce.Type == TemplateError && r.value.ce.Operation == "parse-template"
      && r.value.ce.Underlying == cat.Parse(template)
      && ContextHas(r.value.ce, "file", template) && "template" !in ContextOf(r.value.ce)
    ensures CreateOp(output) !in faults && cat.Parse(template).None? && cat.Render(template, opts).ExecFailed? ==>
      r.Some? && r.value.Chart? && r.value.ce.Type == TemplateError && r.value.ce.Operation == "execute-template"
      && r.value.ce.Underlying == Some(cat.Render(template, opts).cause)
      && ContextHas(r.value.ce, "file", output) && ContextHas(r.value.ce, "template", template)
    ensures r.Some? ==> r.value.Chart? && ContextHas(r.value.ce, "chart", opts.ChartName)
  {
    if CreateOp(output) in faults then
      Some(Chart(WithContext(WithFile(WithChart(
        NewFileSystemError("create-file", "failed to create output file", Some(faults[CreateOp(output)])),
        opts.ChartName), output), "template", template)))
    else if cat.Parse(template).Some? then
      Some(Chart(WithFile(WithChart(
        NewTemplateError("parse-template", "failed to parse template", cat.Parse(template)),
        opts.ChartName), template)))
    else
      match cat.Render(template, opts)
      case Rendered(_) => None
      case ExecFailed(_, cause) =>
        Some(Chart(WithContext(WithFile(WithChart(
          NewTemplateError("execute-template", "failed to execute template", Some(cause)),
          opts.ChartName), output), "template", template)))
  }

  /** What createFileFromTemplate leaves at `output`, whether it succeeds or
      not: nothing changes when the output cannot be created; otherwise the
      output exists and holds "" after a parse failure, or the executed text
      (partial if execution failed). */
  predicate AfterCreate(before: map<string, string>, after: map<string, string>, faults: Faults, cat: Templates,
                        opts: Options, template: string, output: string) {
    && (CreateOp(output) in faults ==> SameAt(before, after, output))
    && (CreateOp(output) !in faults ==>
          && output in after
          && after[output] == (if cat.Parse(template).Some? then "" else RenderedText(cat, template, opts)))
  }

  /** createFileFromTemplate: create (truncate) the output first, then parse
      and execute the template into it. A parse failure leaves the output
      present and empty; an execution failure leaves what was streamed. */
  function CreateFileFromTemplate(st: Store, faults: Faults, cat: Templates, opts: Options, template: string, output: string): (r: Run)
    ensures r.err == TemplateFailure(faults, cat, opts, template, output)
    ensures r.store.dirs == st.dirs
    ensures forall p :: p != output ==> SameAt(st.files, r.store.files, p)
    ensures CreateOp(output) in faults ==> r.store == st
    ensures CreateOp(output) !in faults ==> output in r.store.files
    ensures CreateOp(output) !in faults && cat.Parse(template).Some? ==> r.store.files[output] == ""
    ensures CreateOp(output) !in faults && cat.Parse(template).None? ==>
      r.store.files[output] == RenderedText(cat, template, opts)
    ensures AfterCreate(st.files, r.store.files, faults, cat, opts, template, output)
  {
    var err := TemplateFailure(faults, cat, opts, template, output);
    if CreateOp(output) in faults then Run(st, err)
    else if cat.Parse(template).Some? then Run(st.(files := st.files[output := ""]), err)
    else Run(st.(files := st.files[output := RenderedText(cat, template, opts)]), err)
  }

  /** copyFileFromTemplate: the raw template bytes, written without rendering. */
  function CopyFileFromTemplate(st: Store, faults: Faults, cat: Templates, template: string, output: string): (r: Run)
    ensures r.store.dirs == st.dirs
    ensures forall p :: p != output ==> SameAt(st.files, r.store.files, p)
    ensures r.err.None? <==> cat.Raw(template).Found? && WriteFileOp(output) !in faults
    ensures r.err.None? ==> output in r.store.files && r.store.files[output] == RawText(cat, template)
    ensures r.err.Some? ==> r.store == st
    ensures cat.Raw(template).Missing? ==> r.err == Some(Wrapped("error opening template " + template, cat.Raw(template).cause))
    ensures cat.Raw(template).Found? && WriteFileOp(output) in faults ==>
      r.err == Some(Wrapped("failed to write file", faults[WriteFileOp(output)]))
  {
    match cat.Raw(template)
    case Missing(cause) => Run(st, Some(Wrapped("error opening template " + template, cause)))
    case Found(bytes) =>
      if WriteFileOp(output) in faults then Run(st, Some(Wrapped("failed to write file", faults[WriteFileOp(output)])))
      else Run(st.(files := st.files[output := bytes]), None)
  }

  /** The raw template can be read and written to `output`. */
  predicate CopyOk(faults: Faults, cat: Templates, template: string, output: string) {
    cat.Raw(template).Found? && WriteFileOp(output) !in faults
  }

  /** The error copyFileFromTemplate returns when the read or the write fails. */
  function CopyError(faults: Faults, cat: Templates, template: string, output: string): Err
    requires !CopyOk(faults, cat, template, output)
  {
    match cat.Raw(template)
    case Missing(cause) => Wrapped("error opening template " + template, cause)
    case Found(_) => Wrapped("failed to write file", faults[WriteFileOp(output)])
  }

  /** The three calls appendToFile makes all succeed for this pair. */
  predicate AppendSucceeds(faults: Faults, cat: Templates, template: string, output: string) {
    cat.Raw(template).Found? && OpenAppendOp(output) !in faults && AppendOp(output) !in faults
  }

  /** What a file holds before an append: nothing if it does not exist yet. */
  function Current(files: map<string, string>, p: string): string {
    if p in files then files[p] else ""
  }

  /** The error appendToFile returns from the first of its three calls that
      fails: the template read, the open, or the write. */
  function AppendError(faults: Faults, cat: Templates, template: string, output: string): Err
    requires !AppendSucceeds(faults, cat, template, output)
  {
    match cat.Raw(template)
    case Missing(cause) => Wrapped("error opening template " + template, cause)
    case Found(_) =>
      if OpenAppendOp(output) in faults then Wrapped("failed to open file for append", faults[OpenAppendOp(output)])
      else Wrapped("failed to write to file", faults[AppendOp(output)])
  }

  /** appendToFile: open for append (creating the file when absent) and add
      the raw template bytes at the end. */
  function AppendToFile(st: Store, faults: Faults, cat: Templates, template: string, output: string): (r: Run)
    ensures r.store.dirs == st.dirs
    ensures forall p :: p != output ==> SameAt(st.files, r.store.files, p)
    ensures r.err.None? <==> AppendSucceeds(faults, cat, template, output)
    ensures r.err.None? ==> output in r.store.files && r.store.files[output] == Current(st.files, output) + RawText(cat, template)
    ensures cat.Raw(template).Missing? || OpenAppendOp(output) in faults ==> r.store == st
    ensures cat.Raw(template).Missing? ==> r.err == Some(Wrapped("error opening template " + template, cat.Raw(template).cause))
    ensures cat.Raw(template).Found? && OpenAppendOp(output) in faults ==>
      r.err == Some(Wrapped("failed to open file for append", faults[OpenAppendOp(output)]))
    ensures cat.Raw(template).Found? && OpenAppendOp(output) !in faults && AppendOp(output) in faults ==>
      && r.err == Some(Wrapped("failed to write to file", faults[AppendOp(output)]))
      && output in r.store.files && r.store.files[output] == Current(st.files, output)
    ensures r.err.Some? ==> r.err == Some(AppendError(faults, cat, template, output))
    ensures r.err.Some? && output in st.files ==> output in r.store.files && r.store.files[output] == st.files[output]
  {
    match cat.Raw(template)
    case Missing(cause) => Run(st, Some(Wrapped("error opening template " + template, cause)))
    case Found(bytes) =>
      if OpenAppendOp(output) in faults then
        Run(st, Some(Wrapped("failed to open file for append", faults[OpenAppendOp(output)])))
      else
        var reopened := st.(files := st.files[output := Current(st.files, output)]);
        if AppendOp(output) in faults then
          Run(reopened, Some(Wrapped("failed to write to file", faults[AppendOp(output)])))
        else
          Run(st.(files := st.files[output := Current(st.files, output) + bytes]), None)
  }

  // ================================================================ step 1: directories

  /** createDirectoryStructure: the templates directory always; with Service,
      also templates/tests and the rendered connection test inside it. */
  function CreateDirectoryStructure(st: Store, faults: Faults, cat: Templates, root: string, opts: Options): (r: Run)
    ensures r.err.None? <==>
      MkdirOp(Path(root, TemplatesDir)) !in faults
      && (opts.Service ==> MkdirOp(Path(root, TestsDir)) !in faults
                           && !RenderFails(faults, cat, opts, TestConnectionTemplate, Path(root, TestConnectionFile)))
    ensures r.err.None? ==>
      r.store.dirs == st.dirs + {Path(root, TemplatesDir)} + (if opts.Service then {Path(root, TestsDir)} else {})
    ensures r.err.None? && opts.Service ==>
      Path(root, TestConnectionFile) in r.store.files
      && r.store.files[Path(root, TestConnectionFile)] == RenderedText(cat, TestConnectionTemplate, opts)
    ensures forall p :: p != Path(root, TestConnectionFile) ==> SameAt(st.files, r.store.files, p)
    ensures !opts.Service ==> r.store.files == st.files
    ensures r.err.Some? ==> r.err.value.Chart? && ContextHas(r.err.value.ce, "chart", opts.ChartName)
    ensures MkdirOp(Path(root, TemplatesDir)) in faults ==>
      && r.store == st && r.err.Some? && r.err.value.Chart?
      && r.err.value.ce.Type == FileSystemError && r.err.value.ce.Operation == "create-directory"
      && r.err.value.ce.Message == "failed to create templates directory"
      && r.err.value.ce.Underlying == Some(faults[MkdirOp(Path(root, TemplatesDir))])
      && ContextHas(r.err.value.ce, "file", Path(root, TemplatesDir))
    ensures MkdirOp(Path(root, TemplatesDir)) !in faults && opts.Service && MkdirOp(Path(root, TestsDir)) in faults ==>
      && r.store.files == st.files && r.store.dirs == st.dirs + {Path(root, TemplatesDir)}
      && r.err.Some? && r.err.value.Chart?
      && r.err.value.ce.Type == FileSystemError && r.err.value.ce.Operation == "create-directory"
      && r.err.value.ce.Message == "failed to create tests directory"
      && r.err.value.ce.Underlying == Some(faults[MkdirOp(Path(root, TestsDir))])
      && ContextHas(r.err.value.ce, "file", Path(root, TestsDir))
    ensures MkdirOp(Path(root, TemplatesDir)) !in faults && opts.Service && MkdirOp(Path(root, TestsDir)) !in faults
            && RenderFails(faults, cat, opts, TestConnectionTemplate, Path(root, TestConnectionFile)) ==>
      && r.store.dirs == st.dirs + {Path(root, TemplatesDir), Path(root, TestsDir)}
      && r.err.Some? && r.err.value.Chart?
      && r.err.value.ce.Type == TemplateError && r.err.value.ce.Operation == "create-test-file"
      && r.err.value.ce.Message == "failed to create test connection file"
      && r.err.value.ce.Underlying == TemplateFailure(faults, cat, opts, TestConnectionTemplate, Path(root, TestConnectionFile))
      && ContextHas(r.err.value.ce, "file", Path(root, TestConnectionFile))
    ensures MkdirOp(Path(root, TemplatesDir)) !in faults && opts.Service && MkdirOp(Path(root, TestsDir)) !in faults ==>
      AfterCreate(st.files, r.store.files, faults, cat, opts, TestConnectionTemplate, Path(root, TestConnectionFile))
  {
    var templatesDir := Path(root, TemplatesDir);
    if MkdirOp(templatesDir) in faults then
      Run(st, Some(Chart(WithFile(WithChart(
        NewFileSystemError("create-directory", "failed to create templates directory", Some(faults[MkdirOp(templatesDir)])),
        opts.ChartName), templatesDir))))
    else
      var withTemplates := st.(dirs := st.dirs + {templatesDir});
      if !opts.Service then Run(withTemplates, None)
      else
        var testsDir := Path(root, TestsDir);
        if MkdirOp(testsDir) in faults then
          Run(withTemplates, Some(Chart(WithFile(WithChart(
            NewFileSystemError("create-directory", "failed to create tests directory", Some(faults[MkdirOp(testsDir)])),
            opts.ChartName), testsDir))))
        else
          var withTests := withTemplates.(dirs := withTemplates.dirs + {testsDir});
          var testFile := Path(root, TestConnectionFile);
          var created := CreateFileFromTemplate(withTests, faults, cat, opts, TestConnectionTemplate, testFile);
          if created.err.Some? then
            Run(created.store, Some(Chart(WithFile(WithChart(
              WrapError(created.err, TemplateError, "create-test-file", "failed to create test connection file"),
              opts.ChartName), testFile))))
          else created
  }

  // ================================================================ step 2: mandatory files

  predicate BasicFilesSucceed(faults: Faults, cat: Templates, root: string, opts: Options) {
    && cat.Raw(HelpersTemplate).Found? && WriteFileOp(Path(root, HelpersFile)) !in faults
    && cat.Raw(HelmignoreTemplate).Found? && WriteFileOp(Path(root, HelmignoreFile)) !in faults
    && !RenderFails(faults, cat, opts, ChartYamlTemplate, Path(root, ChartYamlFile))
    && !RenderFails(faults, cat, opts, ValuesTemplate, Path(root, ValuesFile))
  }

  /** The four files generateBasicFiles writes. */
  function BasicOutputs(root: string): set<string> {
    {Path(root, HelpersFile), Path(root, HelmignoreFile), Path(root, ChartYamlFile), Path(root, ValuesFile)}
  }

  /** generateBasicFiles: helpers and .helmignore copied verbatim, Chart.yaml
      and values.yaml rendered, stopping at the first failure. */
  function GenerateBasicFiles(st: Store, faults: Faults, cat: Templates, root: string, opts: Options): (r: Run)
    ensures r.store.dirs == st.dirs
  {
    var helpers := CopyFileFromTemplate(st, faults, cat, HelpersTemplate, Path(root, HelpersFile));
    if helpers.err.Some? then helpers else
    var ignore := CopyFileFromTemplate(helpers.store, faults, cat, HelmignoreTemplate, Path(root, HelmignoreFile));
    if ignore.err.Some? then ignore else
    var chart := CreateFileFromTemplate(ignore.store, faults, cat, opts, ChartYamlTemplate, Path(root, ChartYamlFile));
    if chart.err.Some? then chart else
    CreateFileFromTemplate(chart.store, faults, cat, opts, ValuesTemplate, Path(root, ValuesFile))
  }

  /** Where generateBasicFiles stops when one of its calls fails: the files
      of the earlier calls hold their contents, the failing call's output is
      as that call leaves it, later outputs are untouched, and the error is
      the failing call's own. */
  predicate BasicFailure(st: Store, r: Run, faults: Faults, cat: Templates, root: string, opts: Options) {
    var hp, ip, cp, vp := Path(root, HelpersFile), Path(root, HelmignoreFile), Path(root, ChartYamlFile), Path(root, ValuesFile);
    && (!CopyOk(faults, cat, HelpersTemplate, hp) ==>
          r.store == st && r.err == Some(CopyError(faults, cat, HelpersTemplate, hp)))
    && (CopyOk(faults, cat, HelpersTemplate, hp) && !CopyOk(faults, cat, HelmignoreTemplate, ip) ==>
          && r.store.files == st.files[hp := RawText(cat, HelpersTemplate)]
          && r.err == Some(CopyError(faults, cat, HelmignoreTemplate, ip)))
    && (CopyOk(faults, cat, HelpersTemplate, hp) && CopyOk(faults, cat, HelmignoreTemplate, ip)
        && RenderFails(faults, cat, opts, ChartYamlTemplate, cp) ==>
          && hp in r.store.files && r.store.files[hp] == RawText(cat, HelpersTemplate)
          && ip in r.store.files && r.store.files[ip] == RawText(cat, HelmignoreTemplate)
          && AfterCreate(st.files, r.store.files, faults, cat, opts, ChartYamlTemplate, cp)
          && SameAt(st.files, r.store.files, vp)
          && r.err == TemplateFailure(faults, cat, opts, ChartYamlTemplate, cp))
    && (CopyOk(faults, cat, HelpersTemplate, hp) && CopyOk(faults, cat, HelmignoreTemplate, ip)
        && !RenderFails(faults, cat, opts, ChartYamlTemplate, cp) && RenderFails(faults, cat, opts, ValuesTemplate, vp) ==>
          && hp in r.store.files && r.store.files[hp] == RawText(cat, HelpersTemplate)
          && ip in r.store.files && r.store.files[ip] == RawText(cat, HelmignoreTemplate)
          && cp in r.store.files && r.store.files[cp] == RenderedText(cat, ChartYamlTemplate, opts)
          && AfterCreate(st.files, r.store.files, faults, cat, opts, ValuesTemplate, vp)
          && r.err == TemplateFailure(faults, cat, opts, ValuesTemplate, vp))
  }

  /** The step succeeds exactly when every read, write and render it makes
      succeeds, and then the four files hold the template contents: the two
      copies verbatim, the two renders executed against the options. */
  lemma BasicFilesOutcome(st: Store, faults: Faults, cat: Templates, root: string, opts: Options)
    ensures var r := GenerateBasicFiles(st, faults, cat, root, opts);
      && (forall p :: p !in BasicOutputs(root) ==> SameAt(st.files, r.store.files, p))
      && (r.err.None? <==> BasicFilesSucceed(faults, cat, root, opts))
      && (r.err.None? ==>
        && Path(root, HelpersFile) in r.store.files && r.store.files[Path(root, HelpersFile)] == RawText(cat, HelpersTemplate)
        && Path(root, HelmignoreFile) in r.store.files && r.store.files[Path(root, HelmignoreFile)] == RawText(cat, HelmignoreTemplate)
        && Path(root, ChartYamlFile) in r.store.files && r.store.files[Path(root, ChartYamlFile)] == RenderedText(cat, ChartYamlTemplate, opts)
        && Path(root, ValuesFile) in r.store.files && r.store.files[Path(root, ValuesFile)] == RenderedText(cat, ValuesTemplate, opts))
    ensures BasicFailure(st, GenerateBasicFiles(st, faults, cat, root, opts), faults, cat, root, opts)
  {
    BasicFilesFailure(st, faults, cat, root, opts);
    var hp, ip, cp, vp := Path(root, HelpersFile), Path(root, HelmignoreFile), Path(root, ChartYamlFile), Path(root, ValuesFile);
    PathInjective(root, HelpersFile, HelmignoreFile);
    PathInjective(root, HelpersFile, ChartYamlFile);
    PathInjective(root, HelpersFile, ValuesFile);
    PathInjective(root, HelmignoreFile, ChartYamlFile);
    PathInjective(root, HelmignoreFile, ValuesFile);
    PathInjective(root, ChartYamlFile, ValuesFile);
    var helpers := CopyFileFromTemplate(st, faults, cat, HelpersTemplate, hp);
    var ignore := CopyFileFromTemplate(helpers.store, faults, cat, HelmignoreTemplate, ip);
    var chart := CreateFileFromTemplate(ignore.store, faults, cat, opts, ChartYamlTemplate, cp);
    var values := CreateFileFromTemplate(chart.store, faults, cat, opts, ValuesTemplate, vp);
    forall p | p !in BasicOutputs(root)
      ensures SameAt(st.files, GenerateBasicFiles(st, faults, cat, root, opts).store.files, p)
    {
      assert SameAt(st.files, helpers.store.files, p);
      assert SameAt(helpers.store.files, ignore.store.files, p);
      assert SameAt(ignore.store.files, chart.store.files, p);
      assert SameAt(chart.store.files, values.store.files, p);
    }
    if helpers.err.None? {
      if ignore.err.None? {
        if chart.err.None? {
          assert SameAt(helpers.store.files, values.store.files, hp) by {
            assert SameAt(helpers.store.files, ignore.store.files, hp);
            assert SameAt(ignore.store.files, chart.store.files, hp);
            assert SameAt(chart.store.files, values.store.files, hp);
          }
          assert SameAt(ignore.store.files, values.store.files, ip) by {
            assert SameAt(ignore.store.files, chart.store.files, ip);
            assert SameAt(chart.store.files, values.store.files, ip);
          }
          assert SameAt(chart.store.files, values.store.files, cp);
        }
      }
    }
  }

  /** When a call of generateBasicFiles fails, the files stand as
      `BasicFailure` describes. */
  lemma BasicFilesFailure(st: Store, faults: Faults, cat: Templates, root: string, opts: Options)
    ensures BasicFailure(st, GenerateBasicFiles(st, faults, cat, root, opts), faults, cat, root, opts)
  {
    var hp, ip, cp, vp := Path(root, HelpersFile), Path(root, HelmignoreFile), Path(root, ChartYamlFile), Path(root, ValuesFile);
    PathInjective(root, HelpersFile, HelmignoreFile);
    PathInjective(root, HelpersFile, ChartYamlFile);
    PathInjective(root, HelpersFile, ValuesFile);
    PathInjective(root, HelmignoreFile, ChartYamlFile);
    PathInjective(root, HelmignoreFile, ValuesFile);
    PathInjective(root, ChartYamlFile, ValuesFile);
    if CopyOk(faults, cat, HelpersTemplate, hp) && CopyOk(faults, cat, HelmignoreTemplate, ip) {
      CopiesThenCreate(st, faults, cat, opts, HelpersTemplate, hp, HelmignoreTemplate, ip, ChartYamlTemplate, cp, vp);
      if !RenderFails(faults, cat, opts, ChartYamlTemplate, cp) {
        CopiesThenTwoCreates(st, faults, cat, opts, HelpersTemplate, hp, HelmignoreTemplate, ip, ChartYamlTemplate, cp, ValuesTemplate, vp);
      }
    }
  }

  /** Two copies and a render into four distinct outputs: the copies hold
      their templates, the render's output is as its call leaves it, and the
      fourth output is untouched. */
  lemma CopiesThenCreate(st: Store, faults: Faults, cat: Templates, opts: Options,
                         ht: string, hp: string, it: string, ip: string, ct: string, cp: string, vp: string)
    requires hp != ip && hp != cp && hp != vp && ip != cp && ip != vp && cp != vp
    requires CopyOk(faults, cat, ht, hp) && CopyOk(faults, cat, it, ip)
    ensures var h := CopyFileFromTemplate(st, faults, cat, ht, hp);
      var i := CopyFileFromTemplate(h.store, faults, cat, it, ip);
      var c := CreateFileFromTemplate(i.store, faults, cat, opts, ct, cp);
      && hp in c.store.files && c.store.files[hp] == RawText(cat, ht)
      && ip in c.store.files && c.store.files[ip] == RawText(cat, it)
      && AfterCreate(st.files, c.store.files, faults, cat, opts, ct, cp)
      && SameAt(st.files, c.store.files, vp)
  {
    var h := CopyFileFromTemplate(st, faults, cat, ht, hp);
    var i := CopyFileFromTemplate(h.store, faults, cat, it, ip);
    var c := CreateFileFromTemplate(i.store, faults, cat, opts, ct, cp);
    assert SameAt(h.store.files, i.store.files, hp);
    assert SameAt(st.files, h.store.files, cp);
    assert SameAt(h.store.files, i.store.files, cp);
    assert SameAt(st.files, h.store.files, vp);
    assert SameAt(h.store.files, i.store.files, vp);
  }

  /** The same four outputs after the second render: the first three hold
      their contents and the fourth is as the render leaves it. */
  lemma CopiesThenTwoCreates(st: Store, faults: Faults, cat: Templates, opts: Options,
                             ht: string, hp: string, it: string, ip: string, ct: string, cp: string, vt: string, vp: string)
    requires hp != ip && hp != cp && hp != vp && ip != cp && ip != vp && cp != vp
    requires CopyOk(faults, cat, ht, hp) && CopyOk(faults, cat, it, ip) && !RenderFails(faults, cat, opts, ct, cp)
    ensures var h := CopyFileFromTemplate(st, faults, cat, ht, hp);
      var i := CopyFileFromTemplate(h.store, faults, cat, it, ip);
      var c := CreateFileFromTemplate(i.store, faults, cat, opts, ct, cp);
      var v := CreateFileFromTemplate(c.store, faults, cat, opts, vt, vp);
      && hp in v.store.files && v.store.files[hp] == RawText(cat, ht)
      && ip in v.store.files && v.store.files[ip] == RawText(cat, it)
      && cp in v.store.files && v.store.files[cp] == RenderedText(cat, ct, opts)
      && AfterCreate(st.files, v.store.files, faults, cat, opts, vt, vp)
  {
    CopiesThenCreate(st, faults, cat, opts, ht, hp, it, ip, ct, cp, vp);
    var h := CopyFileFromTemplate(st, faults, cat, ht, hp);
    var i := CopyFileFromTemplate(h.store, faults, cat, it, ip);
    var c := CreateFileFromTemplate(i.store, faults, cat, opts, ct, cp);
    var v := CreateFileFromTemplate(c.store, faults, cat, opts, vt, vp);
    assert SameAt(c.store.files, v.store.files, hp);
    assert SameAt(c.store.files, v.store.files, ip);
    assert SameAt(c.store.files, v.store.files, cp);
  }

  // ================================================================ step 3: conditional resources

  /** The resource kinds that have an entry in the table. Volumes has none. */
  datatype Kind = Cronjob | Deployment | DaemonSet | Service | Ingress | Configmap | ServiceAccount | StatefulSet | Hpa

  function Enabled(opts: Options, k: Kind): bool {
    match k
    case Cronjob => opts.Cronjob
    case Deployment => opts.Deployment
    case DaemonSet => opts.DaemonSet
    case Service => opts.Service
    case Ingress => opts.Ingress
    case Configmap => opts.Configmap
    case ServiceAccount => opts.ServiceAccount
    case StatefulSet => opts.StatefulSet
    case Hpa => opts.Hpa
  }

  /** One row of the table: the flag's kind, the template, the output
      relative to the chart root. */
  datatype Resource = Resource(kind: Kind, template: string, output: string)

  /** The fixed, ordered table generateConditionalFiles walks. */
  const Resources: seq<Resource> := [
    Resource(Cronjob, "chartTemplate/templates/cronjob.yaml", "templates/cronjob.yaml"),
    Resource(Deployment, "chartTemplate/templates/deployment.yaml", "templates/deployment.yaml"),
    Resource(DaemonSet, "chartTemplate/templates/daemonset.yaml", "templates/daemonset.yaml"),
    Resource(Service, "chartTemplate/templates/service.yaml", "templates/service.yaml"),
    Resource(Ingress, "chartTemplate/templates/ingress.yaml", "templates/ingress.yaml"),
    Resource(Configmap, "chartTemplate/templates/configmap.yaml", "templates/configmap.yaml"),
    Resource(ServiceAccount, "chartTemplate/templates/serviceaccount.yaml", "templates/serviceaccount.yaml"),
    Resource(StatefulSet, "chartTemplate/templates/statefulset.yaml", "templates/statefulset.yaml"),
    Resource(Hpa, "chartTemplate/templates/hpa.yaml", "templates/hpa.yaml")
  ]

  predicate DistinctOutputs(table: seq<Resource>) {
    forall i, j :: 0 <= i < j < |table| ==> table[i].output != table[j].output
  }

  predicate ResourceFails(faults: Faults, cat: Templates, root: string, opts: Options, res: Resource) {
    RenderFails(faults, cat, opts, res.template, Path(root, res.output))
  }

  /** The index of the first enabled row whose rendering fails, or the table
      length when there is none. */
  function FirstFailing(faults: Faults, cat: Templates, root: string, opts: Options, table: seq<Resource>): (f: nat)
    ensures f <= |table|
    ensures forall i :: 0 <= i < f && Enabled(opts, table[i].kind) ==> !ResourceFails(faults, cat, root, opts, table[i])
    ensures f < |table| ==> Enabled(opts, table[f].kind) && ResourceFails(faults, cat, root, opts, table[f])
    decreases |table|
  {
    if table == [] then 0
    else if Enabled(opts, table[0].kind) && ResourceFails(faults, cat, root, opts, table[0]) then 0
    else 1 + FirstFailing(faults, cat, root, opts, table[1..])
  }

  /** The absolute outputs of a table's rows. */
  function Outputs(root: string, table: seq<Resource>): set<string>
    decreases |table|
  {
    if table == [] then {} else {Path(root, table[0].output)} + Outputs(root, table[1..])
  }

  lemma {:induction false} NotInOutputs(root: string, table: seq<Resource>, p: string)
    requires forall i :: 0 <= i < |table| ==> p != Path(root, table[i].output)
    ensures p !in Outputs(root, table)
    decreases |table|
  {
    if table != [] {
      forall i | 0 <= i < |table[1..]|
        ensures p != Path(root, table[1..][i].output)
      {
        assert table[1..][i] == table[i + 1];
      }
      NotInOutputs(root, table[1..], p);
    }
  }

  /** The loop of generateConditionalFiles over a table suffix: render each
      enabled row in order, returning the first error unchanged. */
  function RenderResources(st: Store, faults: Faults, cat: Templates, root: string, opts: Options, table: seq<Resource>): (r: Run)
    ensures r.store.dirs == st.dirs
    ensures forall p :: p !in Outputs(root, table) ==> SameAt(st.files, r.store.files, p)
    decreases |table|
  {
    if table == [] then Run(st, None)
    else if !Enabled(opts, table[0].kind) then RenderResources(st, faults, cat, root, opts, table[1..])
    else
      var created := CreateFileFromTemplate(st, faults, cat, opts, table[0].template, Path(root, table[0].output));
      if created.err.Some? then created
      else RenderResources(created.store, faults, cat, root, opts, table[1..])
  }

  /** The row's output holds its rendered template. */
  predicate RenderedAt(files: map<string, string>, cat: Templates, root: string, opts: Options, res: Resource) {
    Path(root, res.output) in files && files[Path(root, res.output)] == RenderedText(cat, res.template, opts)
  }

  /** What the loop leaves behind, with f the first failing row: the rows
      before f that are enabled hold their rendered output; the error is f's
      error unchanged and f's output is as createFileFromTemplate leaves it
      (untouched, empty, or partial); rows after f and disabled rows are
      untouched. */
  predicate LoopOutcome(st: Store, r: Run, faults: Faults, cat: Templates, root: string, opts: Options, table: seq<Resource>) {
    var f := FirstFailing(faults, cat, root, opts, table);
    && (r.err.Some? <==> f < |table|)
    && (f < |table| ==> r.err == TemplateFailure(faults, cat, opts, table[f].template, Path(root, table[f].output)))
    && (f < |table| ==> AfterCreate(st.files, r.store.files, faults, cat, opts, table[f].template, Path(root, table[f].output)))
    && (forall i :: 0 <= i < f && Enabled(opts, table[i].kind) ==> RenderedAt(r.store.files, cat, root, opts, table[i]))
    && (forall i :: 0 <= i < |table| && (f < i || !Enabled(opts, table[i].kind)) ==>
          SameAt(st.files, r.store.files, Path(root, table[i].output)))
  }

  /** A disabled first row adds nothing to the outcome of the rest. */
  lemma SkipKeepsOutcome(st: Store, r: Run, faults: Faults, cat: Templates, root: string, opts: Options, table: seq<Resource>)
    requires table != [] && !Enabled(opts, table[0].kind)
    requires SameAt(st.files, r.store.files, Path(root, table[0].output))
    requires LoopOutcome(st, r, faults, cat, root, opts, table[1..])
    ensures LoopOutcome(st, r, faults, cat, root, opts, table)
  {
    var f := FirstFailing(faults, cat, root, opts, table);
    assert f == 1 + FirstFailing(faults, cat, root, opts, table[1..]);
    forall i | 0 < i < |table|
      ensures table[1..][i - 1] == table[i]
    {
    }
  }

  /** A first row rendered into `mid` joins the outcome of the rest, which
      started from `mid`. */
  lemma RenderKeepsOutcome(st: Store, mid: Store, r: Run, faults: Faults, cat: Templates, root: string, opts: Options, table: seq<Resource>)
    requires table != [] && Enabled(opts, table[0].kind) && !ResourceFails(faults, cat, root, opts, table[0])
    requires forall i :: 1 <= i < |table| ==> Path(root, table[i].output) != Path(root, table[0].output)
    requires RenderedAt(mid.files, cat, root, opts, table[0])
    requires forall p :: p != Path(root, table[0].output) ==> SameAt(st.files, mid.files, p)
    requires SameAt(mid.files, r.store.files, Path(root, table[0].output))
    requires LoopOutcome(mid, r, faults, cat, root, opts, table[1..])
    ensures LoopOutcome(st, r, faults, cat, root, opts, table)
  {
    var f := FirstFailing(faults, cat, root, opts, table);
    assert f == 1 + FirstFailing(faults, cat, root, opts, table[1..]);
    forall i | 0 < i < |table| && (f < i || !Enabled(opts, table[i].kind))
      ensures SameAt(st.files, r.store.files, Path(root, table[i].output))
    {
      assert table[1..][i - 1] == table[i];
      assert SameAt(st.files, mid.files, Path(root, table[i].output));
    }
    forall i | 0 < i < |table|
      ensures table[1..][i - 1] == table[i]
    {
    }
    if f < |table| {
      assert table[1..][f - 1] == table[f];
      AfterCreateThrough(st.files, mid.files, r.store.files, faults, cat, opts, table[f].template, Path(root, table[f].output));
    }
  }

  /** An output no earlier step touched has the state its create call left. */
  lemma AfterCreateThrough(a: map<string, string>, b: map<string, string>, c: map<string, string>, faults: Faults,
                           cat: Templates, opts: Options, template: string, output: string)
    requires SameAt(a, b, output) && AfterCreate(b, c, faults, cat, opts, template, output)
    ensures AfterCreate(a, c, faults, cat, opts, template, output)
  {
  }

  /** The loop's outcome, by induction over the table. */
  lemma {:induction false} RenderResourcesOutcome(st: Store, faults: Faults, cat: Templates, root: string, opts: Options, table: seq<Resource>)
    requires DistinctOutputs(table)
    ensures LoopOutcome(st, RenderResources(st, faults, cat, root, opts, table), faults, cat, root, opts, table)
    decreases |table|
  {
    if table == [] {
      return;
    }
    var r := RenderResources(st, faults, cat, root, opts, table);
    var out0 := Path(root, table[0].output);
    assert DistinctOutputs(table[1..]);
    forall i | 1 <= i < |table|
      ensures Path(root, table[i].output) != out0
    {
      PathInjective(root, table[0].output, table[i].output);
    }
    forall j | 0 <= j < |table[1..]|
      ensures out0 != Path(root, table[1..][j].output)
    {
      assert table[1..][j] == table[j + 1];
    }
    NotInOutputs(root, table[1..], out0);
    if !Enabled(opts, table[0].kind) {
      RenderResourcesOutcome(st, faults, cat, root, opts, table[1..]);
      SkipKeepsOutcome(st, r, faults, cat, root, opts, table);
    } else if ResourceFails(faults, cat, root, opts, table[0]) {
      assert FirstFailing(faults, cat, root, opts, table) == 0;
    } else {
      var created := CreateFileFromTemplate(st, faults, cat, opts, table[0].template, out0);
      RenderResourcesOutcome(created.store, faults, cat, root, opts, table[1..]);
      RenderKeepsOutcome(st, created.store, r, faults, cat, root, opts, table);
    }
  }

  /** generateConditionalFiles: the resource table, in its fixed order. */
  function GenerateConditionalFiles(st: Store, faults: Faults, cat: Templates, root: string, opts: Options): (r: Run)
    ensures r.store.dirs == st.dirs
    ensures forall p :: p !in Outputs(root, Resources) ==> SameAt(st.files, r.store.files, p)
  {
    RenderResources(st, faults, cat, root, opts, Resources)
  }

  lemma ResourceOutputsDistinct()
    ensures DistinctOutputs(Resources)
  {
  }

  /** With no resource flag set (Volumes aside, which has no row) the step
      writes nothing and succeeds. */
  lemma {:induction false} NoFlagsWriteNothing(st: Store, faults: Faults, cat: Templates, root: string, opts: Options, table: seq<Resource>)
    requires forall i :: 0 <= i < |table| ==> !Enabled(opts, table[i].kind)
    ensures RenderResources(st, faults, cat, root, opts, table) == Run(st, None)
    decreases |table|
  {
    if table != [] {
      NoFlagsWriteNothing(st, faults, cat, root, opts, table[1..]);
    }
  }

  // ================================================================ step 4: NOTES.txt

  predicate NotesSucceed(faults: Faults, cat: Templates, root: string, opts: Options) {
    && !RenderFails(faults, cat, opts, NotesObjectsTemplate, Path(root, NotesFile))
    && AppendSucceeds(faults, cat, NotesDefaultTemplate, Path(root, NotesFile))
    && (opts.Ingress ==> AppendSucceeds(faults, cat, NotesIngressTemplate, Path(root, NotesFile)))
    && (opts.Service ==> AppendSucceeds(faults, cat, NotesServiceTemplate, Path(root, NotesFile)))
  }

  /** generateNotesFiles: render the objects-created notes, then append the
      default fragment, the ingress fragment when Ingress is set and the
      service fragment when Service is set, always in that order. */
  function GenerateNotesFiles(st: Store, faults: Faults, cat: Templates, root: string, opts: Options): (r: Run)
    ensures r.store.dirs == st.dirs
  {
    var notes := Path(root, NotesFile);
    var created := CreateFileFromTemplate(st, faults, cat, opts, NotesObjectsTemplate, notes);
    if created.err.Some? then created else
    var base := AppendToFile(created.store, faults, cat, NotesDefaultTemplate, notes);
    if base.err.Some? then base else
    var ingress := if opts.Ingress then AppendToFile(base.store, faults, cat, NotesIngressTemplate, notes) else base;
    if ingress.err.Some? then ingress else
    if opts.Service then AppendToFile(ingress.store, faults, cat, NotesServiceTemplate, notes) else ingress
  }

  /** Where generateNotesFiles stops when a call fails: a failed render
      leaves NOTES.txt as createFileFromTemplate leaves it; a failed append
      leaves it holding the text accumulated before that append. The error is
      the failing call's own. */
  predicate NotesFailure(st: Store, r: Run, faults: Faults, cat: Templates, root: string, opts: Options) {
    var notes := Path(root, NotesFile);
    var objects := RenderedText(cat, NotesObjectsTemplate, opts);
    var withDefault := objects + RawText(cat, NotesDefaultTemplate);
    var withIngress := withDefault + (if opts.Ingress then RawText(cat, NotesIngressTemplate) else "");
    var rendered := !RenderFails(faults, cat, opts, NotesObjectsTemplate, notes);
    var defaulted := rendered && AppendSucceeds(faults, cat, NotesDefaultTemplate, notes);
    var ingressed := defaulted && (opts.Ingress ==> AppendSucceeds(faults, cat, NotesIngressTemplate, notes));
    && (!rendered ==>
          && r.err == TemplateFailure(faults, cat, opts, NotesObjectsTemplate, notes)
          && AfterCreate(st.files, r.store.files, faults, cat, opts, NotesObjectsTemplate, notes))
    && (rendered && !defaulted ==>
          && r.err == Some(AppendError(faults, cat, NotesDefaultTemplate, notes))
          && notes in r.store.files && r.store.files[notes] == objects)
    && (defaulted && !ingressed ==>
          && r.err == Some(AppendError(faults, cat, NotesIngressTemplate, notes))
          && notes in r.store.files && r.store.files[notes] == withDefault)
    && (ingressed && opts.Service && !AppendSucceeds(faults, cat, NotesServiceTemplate, notes) ==>
          && r.err == Some(AppendError(faults, cat, NotesServiceTemplate, notes))
          && notes in r.store.files && r.store.files[notes] == withIngress)
  }

  /** Only NOTES.txt is touched; the step succeeds exactly when the render and
      every append it makes succeed, and NOTES.txt then holds the fragments
      concatenated in their fixed order. */
  lemma NotesOutcome(st: Store, faults: Faults, cat: Templates, root: string, opts: Options)
    ensures var r := GenerateNotesFiles(st, faults, cat, root, opts);
      && (forall p :: p != Path(root, NotesFile) ==> SameAt(st.files, r.store.files, p))
      && (r.err.None? <==> NotesSucceed(faults, cat, root, opts))
      && (r.err.None? ==>
        Path(root, NotesFile) in r.store.files
        && r.store.files[Path(root, NotesFile)] ==
             RenderedText(cat, NotesObjectsTemplate, opts)
             + RawText(cat, NotesDefaultTemplate)
             + (if opts.Ingress then RawText(cat, NotesIngressTemplate) else "")
             + (if opts.Service then RawText(cat, NotesServiceTemplate) else ""))
    ensures NotesFailure(st, GenerateNotesFiles(st, faults, cat, root, opts), faults, cat, root, opts)
  {
    NotesFrame(st, faults, cat, root, opts);
    NotesContents(st, faults, cat, root, opts);
    NotesFailures(st, faults, cat, root, opts);
  }

  /** When a call of generateNotesFiles fails, NOTES.txt stands as
      `NotesFailure` describes. */
  lemma NotesFailures(st: Store, faults: Faults, cat: Templates, root: string, opts: Options)
    ensures NotesFailure(st, GenerateNotesFiles(st, faults, cat, root, opts), faults, cat, root, opts)
  {
    var notes := Path(root, NotesFile);
    var created := CreateFileFromTemplate(st, faults, cat, opts, NotesObjectsTemplate, notes);
    var base := AppendToFile(created.store, faults, cat, NotesDefaultTemplate, notes);
    var ingress := if opts.Ingress then AppendToFile(base.store, faults, cat, NotesIngressTemplate, notes) else base;
    var objects := RenderedText(cat, NotesObjectsTemplate, opts);
    if created.err.None? {
      assert created.store.files[notes] == objects;
      if base.err.None? {
        var withDefault := objects + RawText(cat, NotesDefaultTemplate);
        assert base.store.files[notes] == withDefault;
        if ingress.err.None? {
          var ingressText := if opts.Ingress then RawText(cat, NotesIngressTemplate) else "";
          assert ingress.store.files[notes] == withDefault + ingressText;
        }
      }
    }
  }

  lemma NotesFrame(st: Store, faults: Faults, cat: Templates, root: string, opts: Options)
    ensures forall p :: p != Path(root, NotesFile) ==>
      SameAt(st.files, GenerateNotesFiles(st, faults, cat, root, opts).store.files, p)
  {
    var notes := Path(root, NotesFile);
    var created := CreateFileFromTemplate(st, faults, cat, opts, NotesObjectsTemplate, notes);
    var base := AppendToFile(created.store, faults, cat, NotesDefaultTemplate, notes);
    var ingress := if opts.Ingress then AppendToFile(base.store, faults, cat, NotesIngressTemplate, notes) else base;
    var service := if opts.Service then AppendToFile(ingress.store, faults, cat, NotesServiceTemplate, notes) else ingress;
    forall p | p != notes
      ensures SameAt(st.files, GenerateNotesFiles(st, faults, cat, root, opts).store.files, p)
    {
      assert SameAt(st.files, created.store.files, p);
      assert SameAt(created.store.files, base.store.files, p);
      assert SameAt(base.store.files, ingress.store.files, p);
      assert SameAt(ingress.store.files, service.store.files, p);
    }
  }

  lemma NotesContents(st: Store, faults: Faults, cat: Templates, root: string, opts: Options)
    ensures var r := GenerateNotesFiles(st, faults, cat, root, opts);
      && (r.err.None? <==> NotesSucceed(faults, cat, root, opts))
      && (r.err.None? ==>
        Path(root, NotesFile) in r.store.files
        && r.store.files[Path(root, NotesFile)] ==
             RenderedText(cat, NotesObjectsTemplate, opts)
             + RawText(cat, NotesDefaultTemplate)
             + (if opts.Ingress then RawText(cat, NotesIngressTemplate) else "")
             + (if opts.Service then RawText(cat, NotesServiceTemplate) else ""))
  {
    var notes := Path(root, NotesFile);
    var created := CreateFileFromTemplate(st, faults, cat, opts, NotesObjectsTemplate, notes);
    var base := AppendToFile(created.store, faults, cat, NotesDefaultTemplate, notes);
    var ingress := if opts.Ingress then AppendToFile(base.store, faults, cat, NotesIngressTemplate, notes) else base;
    if created.err.None? && base.err.None? && ingress.err.None? {
      var objects := RenderedText(cat, NotesObjectsTemplate, opts);
      assert created.store.files[notes] == objects;
      assert base.store.files[notes] == objects + RawText(cat, NotesDefaultTemplate);
      var ingressText := if opts.Ingress then RawText(cat, NotesIngressTemplate) else "";
      assert ingress.store.files[notes] == objects + RawText(cat, NotesDefaultTemplate) + ingressText;
    }
  }

  // ================================================================ step 5: placeholder rewrite

  /** The entries the walk visits: the root itself and every stored file or
      directory beneath it. */
  function WalkEntries(st: Store, root: string): set<string> {
    {root} + (set p | p in st.files.Keys + st.dirs && root + "/" <= p)
  }

  /** An entry the walk callback rewrites: a stored file that is not a directory. */
  predicate Rewritable(st: Store, root: string, p: string) {
    p in st.files && p !in st.dirs && UnderRoot(p, root)
  }

  /** Visiting `p` fails: the walk reports an error for it, or it is a file
      that cannot be read or written back. */
  predicate EntryFails(st: Store, faults: Faults, p: string) {
    WalkEntryOp(p) in faults
    || (p in st.files && p !in st.dirs && (ReadFileOp(p) in faults || WriteFileOp(p) in faults))
  }

  /** The error the walk callback reports for a failing entry: the walk's own
      error as it is, or the read or write failure wrapped with the path. */
  function EntryError(st: Store, faults: Faults, p: string): Err
    requires EntryFails(st, faults, p)
  {
    if WalkEntryOp(p) in faults then faults[WalkEntryOp(p)]
    else if ReadFileOp(p) in faults then Wrapped("failed to read file " + p, faults[ReadFileOp(p)])
    else Wrapped("failed to write file " + p, faults[WriteFileOp(p)])
  }

  /** replaceExampleInAllFiles: every file under the root becomes
      ReplaceAll(content, "example", name); directories are skipped. The
      entries are taken in an arbitrary order. */
  method ReplaceExampleInAllFiles(st: Store, faults: Faults, root: string, name: string) returns (r: Run)
    ensures r.store.dirs == st.dirs
    ensures r.store.files.Keys == st.files.Keys
    ensures forall p :: p in st.files && !Rewritable(st, root, p) ==> r.store.files[p] == st.files[p]
    ensures forall p :: p in st.files ==>
      r.store.files[p] == st.files[p] || r.store.files[p] == ReplacePlaceholder(st.files[p], name)
    ensures r.err.None? <==> forall p :: p in WalkEntries(st, root) ==> !EntryFails(st, faults, p)
    ensures r.err.None? ==>
      forall p :: Rewritable(st, root, p) ==> r.store.files[p] == ReplacePlaceholder(st.files[p], name)
    ensures r.err.Some? ==> r.err.value.Wrapped? && r.err.value.prefix == "failed to walk directory"
    ensures r.err.Some? ==>
      (exists p :: p in WalkEntries(st, root) && EntryFails(st, faults, p)
                   && r.err.value == Wrapped("failed to walk directory", EntryError(st, faults, p)))
    ensures r.err.None? && (forall p :: Rewritable(st, root, p) ==> !Contains(st.files[p], Placeholder)) ==>
      r.store == st
  {
    var files := st.files;
    var todo := WalkEntries(st, root);
    while todo != {}
      invariant todo <= WalkEntries(st, root)
      invariant files.Keys == st.files.Keys
      invariant forall p :: p in files && (p in todo || !Rewritable(st, root, p)) ==> files[p] == st.files[p]
      invariant forall p :: p in files && p !in todo && Rewritable(st, root, p) ==>
        files[p] == ReplacePlaceholder(st.files[p], name)
      invariant forall p :: p in WalkEntries(st, root) && p !in todo ==> !EntryFails(st, faults, p)
      decreases todo
    {
      var p :| p in todo;
      if WalkEntryOp(p) in faults {
        assert EntryFails(st, faults, p);
        return Run(Store(files, st.dirs), Some(Wrapped("failed to walk directory", faults[WalkEntryOp(p)])));
      }
      if p in files && p !in st.dirs {
        if ReadFileOp(p) in faults {
          assert EntryFails(st, faults, p);
          return Run(Store(files, st.dirs), Some(Wrapped("failed to walk directory",
            Wrapped("failed to read file " + p, faults[ReadFileOp(p)]))));
        }
        var rewritten := ReplacePlaceholder(files[p], name);
        if WriteFileOp(p) in faults {
          assert EntryFails(st, faults, p);
          return Run(Store(files, st.dirs), Some(Wrapped("failed to walk directory",
            Wrapped("failed to write file " + p, faults[WriteFileOp(p)]))));
        }
        files := files[p := rewritten];
      }
      todo := todo - {p};
    }
    r := Run(Store(files, st.dirs), None);
  }

  // ================================================================ the whole generation

  /** generateFiles: the four generation steps in order. The first error is
      returned as it is and no later step runs. */
  function GenerateFiles(st: Store, faults: Faults, cat: Templates, root: string, opts: Options): (r: Run)
    ensures r.store.dirs == CreateDirectoryStructure(st, faults, cat, root, opts).store.dirs
  {
    var dirs := CreateDirectoryStructure(st, faults, cat, root, opts);
    if dirs.err.Some? then dirs else
    var basic := GenerateBasicFiles(dirs.store, faults, cat, root, opts);
    if basic.err.Some? then basic else
    var resources := GenerateConditionalFiles(basic.store, faults, cat, root, opts);
    if resources.err.Some? then resources else
    GenerateNotesFiles(resources.store, faults, cat, root, opts)
  }

  /** The steps run in order and the first error ends the generation: a
      directory failure writes at most the connection test; a failure among
      the mandatory files writes nothing beyond them; a failing resource row
      leaves the later rows and NOTES.txt untouched and is reported as the
      row's own error. */
  lemma GenerationStopsAtFirstError(st: Store, faults: Faults, cat: Templates, root: string, opts: Options)
    ensures var d := CreateDirectoryStructure(st, faults, cat, root, opts);
            var r := GenerateFiles(st, faults, cat, root, opts);
      && (d.err.Some? ==>
            r.err == d.err && forall p :: p != Path(root, TestConnectionFile) ==> SameAt(st.files, r.store.files, p))
      && (d.err.None? && !BasicFilesSucceed(faults, cat, root, opts) ==>
            && r.err.Some? && r.err == GenerateBasicFiles(d.store, faults, cat, root, opts).err
            && forall p :: p !in BasicOutputs(root) ==> SameAt(d.store.files, r.store.files, p))
    ensures var d := CreateDirectoryStructure(st, faults, cat, root, opts);
            var b := GenerateBasicFiles(d.store, faults, cat, root, opts);
            var c := GenerateConditionalFiles(b.store, faults, cat, root, opts);
            var r := GenerateFiles(st, faults, cat, root, opts);
      && (d.err.None? && b.err.None? ==> BasicFilesSucceed(faults, cat, root, opts))
      && (d.err.None? && b.err.None? && c.err.Some? ==> r == c)
      && (d.err.None? && b.err.None? && c.err.None? ==> r == GenerateNotesFiles(c.store, faults, cat, root, opts))
  {
    var d := CreateDirectoryStructure(st, faults, cat, root, opts);
    if d.err.None? {
      BasicFilesOutcome(d.store, faults, cat, root, opts);
    }
  }

  /** Once the mandatory files are written, a failing resource row is
      reported as that row's own error, and neither the later rows nor
      NOTES.txt are written. */
  lemma ResourceFailureStopsGeneration(st: Store, faults: Faults, cat: Templates, root: string, opts: Options)
    requires CreateDirectoryStructure(st, faults, cat, root, opts).err.None?
    requires BasicFilesSucceed(faults, cat, root, opts)
    requires FirstFailing(faults, cat, root, opts, Resources) < |Resources|
    ensures var b := GenerateBasicFiles(CreateDirectoryStructure(st, faults, cat, root, opts).store, faults, cat, root, opts);
            var r := GenerateFiles(st, faults, cat, root, opts);
            var f := FirstFailing(faults, cat, root, opts, Resources);
      && r.err == TemplateFailure(faults, cat, opts, Resources[f].template, Path(root, Resources[f].output))
      && (forall i :: f < i < |Resources| ==> SameAt(b.store.files, r.store.files, Path(root, Resources[i].output)))
      && SameAt(b.store.files, r.store.files, Path(root, NotesFile))
  {
    var d := CreateDirectoryStructure(st, faults, cat, root, opts);
    var b := GenerateBasicFiles(d.store, faults, cat, root, opts);
    BasicFilesOutcome(d.store, faults, cat, root, opts);
    ResourceOutputsDistinct();
    RenderResourcesOutcome(b.store, faults, cat, root, opts, Resources);
    NotesOutsideTable(root);
  }

  lemma NotesOutsideTable(root: string)
    ensures Path(root, NotesFile) !in Outputs(root, Resources)
  {
    NamesApart();
    OutputsNamed();
    forall i | 0 <= i < |Resources|
      ensures Path(root, NotesFile) != Path(root, Resources[i].output)
    {
      PathInjective(root, NotesFile, Resources[i].output);
    }
    NotInOutputs(root, Resources, Path(root, NotesFile));
  }

  /** What the final walk promises about the tree `g` it starts from and the
      run `r` it ends with: no file appears or disappears, every file is
      either as generated or rewritten, files the walk does not rewrite are
      kept, the walk fails exactly when one of its entries fails and then
      with that entry's error under the "failed to walk directory" wrap, and a successful walk
      rewrites every file under the root. */
  ghost predicate RewroteTree(g: Store, r: Run, faults: Faults, root: string, name: string) {
    && r.store.files.Keys == g.files.Keys
    && (forall p :: p in g.files && !Rewritable(g, root, p) ==> r.store.files[p] == g.files[p])
    && (forall p :: p in g.files ==>
          r.store.files[p] == g.files[p] || r.store.files[p] == ReplacePlaceholder(g.files[p], name))
    && (r.err.None? <==> forall p :: p in WalkEntries(g, root) ==> !EntryFails(g, faults, p))
    && (r.err.None? ==> forall p :: Rewritable(g, root, p) ==> r.store.files[p] == ReplacePlaceholder(g.files[p], name))
    && (r.err.Some? ==> r.err.value.Wrapped? && r.err.value.prefix == "failed to walk directory")
    && (r.err.Some? ==>
          (exists p :: p in WalkEntries(g, root) && EntryFails(g, faults, p)
                       && r.err.value == Wrapped("failed to walk directory", EntryError(g, faults, p))))
  }

  /** GenerateChart: generate every file, then rewrite the placeholder under
      the chart root. A generation error is returned as it is, before any
      rewrite. */
  method GenerateChart(st: Store, faults: Faults, cat: Templates, root: string, opts: Options) returns (r: Run)
    ensures GenerateFiles(st, faults, cat, root, opts).err.Some? ==> r == GenerateFiles(st, faults, cat, root, opts)
    ensures r.store.dirs == GenerateFiles(st, faults, cat, root, opts).store.dirs
    ensures r.err.None? ==> GenerateFiles(st, faults, cat, root, opts).err.None?
    ensures GenerateFiles(st, faults, cat, root, opts).err.None? ==>
      RewroteTree(GenerateFiles(st, faults, cat, root, opts).store, r, faults, root, opts.ChartName)
    ensures faults == map[] && Healthy(cat, opts) && Fresh(st, root) ==> ChartAsExpected(st, r, cat, root, opts)
  {
    var prepared := GenerateFiles(st, faults, cat, root, opts);
    if prepared.err.Some? {
      if faults == map[] && Healthy(cat, opts) {
        GenerateFilesHealthy(st, cat, root, opts);
        assert false;
      }
      return prepared;
    }
    r := ReplaceExampleInAllFiles(prepared.store, faults, root, opts.ChartName);
    assert RewroteTree(prepared.store, r, faults, root, opts.ChartName);
    if faults == map[] && Healthy(cat, opts) && Fresh(st, root) {
      GenerateFilesHealthy(st, cat, root, opts);
      HealthyChart(st, prepared.store, r, faults, cat, root, opts);
    }
  }

  // ---------------------------------------------------------------- the expected chart

  /** The template yields its text: it parses and executes to completion. */
  predicate Renders(cat: Templates, template: string, opts: Options) {
    cat.Parse(template).None? && cat.Render(template, opts).Rendered?
  }

  /** Every enabled row of the table renders. */
  predicate TableRenders(cat: Templates, opts: Options, table: seq<Resource>) {
    forall i :: 0 <= i < |table| && Enabled(opts, table[i].kind) ==> Renders(cat, table[i].template, opts)
  }

  /** Every template the options call for can be read or rendered. */
  predicate Healthy(cat: Templates, opts: Options) {
    && cat.Raw(HelpersTemplate).Found? && cat.Raw(HelmignoreTemplate).Found?
    && Renders(cat, ChartYamlTemplate, opts) && Renders(cat, ValuesTemplate, opts)
    && Renders(cat, NotesObjectsTemplate, opts) && cat.Raw(NotesDefaultTemplate).Found?
    && (opts.Ingress ==> cat.Raw(NotesIngressTemplate).Found?)
    && (opts.Service ==> Renders(cat, TestConnectionTemplate, opts) && cat.Raw(NotesServiceTemplate).Found?)
    && TableRenders(cat, opts, Resources)
  }

  /** Nothing exists at or beneath the chart root yet. */
  predicate Fresh(st: Store, root: string) {
    && (forall p :: p in st.files ==> !UnderRoot(p, root))
    && (forall p :: p in st.dirs ==> !UnderRoot(p, root))
  }

  /** `p` is the location under `root` of one of the relative paths `rels`. */
  predicate Written(root: string, rels: set<string>, p: string) {
    root + "/" <= p && p[|root| + 1..] in rels
  }

  /** Every relative path of `m` holds its content under `root`. */
  predicate Holds(files: map<string, string>, root: string, m: map<string, string>) {
    forall rel :: rel in m ==> Path(root, rel) in files && files[Path(root, rel)] == m[rel]
  }

  /** `a` and `b` differ at most at the locations of `rels` under `root`. */
  ghost predicate FramedBy(a: map<string, string>, b: map<string, string>, root: string, rels: set<string>) {
    forall p :: !Written(root, rels, p) ==> SameAt(a, b, p)
  }

  function NotesText(cat: Templates, opts: Options): string {
    RenderedText(cat, NotesObjectsTemplate, opts)
    + RawText(cat, NotesDefaultTemplate)
    + (if opts.Ingress then RawText(cat, NotesIngressTemplate) else "")
    + (if opts.Service then RawText(cat, NotesServiceTemplate) else "")
  }

  function TestFiles(cat: Templates, opts: Options): map<string, string> {
    if opts.Service then map[TestConnectionFile := RenderedText(cat, TestConnectionTemplate, opts)] else map[]
  }

  function BasicFiles(cat: Templates, opts: Options): map<string, string> {
    map[HelpersFile := RawText(cat, HelpersTemplate),
        HelmignoreFile := RawText(cat, HelmignoreTemplate),
        ChartYamlFile := RenderedText(cat, ChartYamlTemplate, opts),
        ValuesFile := RenderedText(cat, ValuesTemplate, opts)]
  }

  /** The enabled rows' outputs with their rendered text. */
  function TableFiles(cat: Templates, opts: Options, table: seq<Resource>): map<string, string>
    requires DistinctOutputs(table)
  {
    map i | 0 <= i < |table| && Enabled(opts, table[i].kind) :: table[i].output := RenderedText(cat, table[i].template, opts)
  }

  function NotesFiles(cat: Templates, opts: Options): map<string, string> {
    map[NotesFile := NotesText(cat, opts)]
  }

  /** The chart before the placeholder rewrite, by path relative to the root. */
  function Expected(cat: Templates, opts: Options): map<string, string> {
    ResourceOutputsDistinct();
    TestFiles(cat, opts) + BasicFiles(cat, opts) + TableFiles(cat, opts, Resources) + NotesFiles(cat, opts)
  }

  /** The directories the chart gets. */
  function ExpectedDirs(root: string, opts: Options): set<string> {
    {Path(root, TemplatesDir)} + (if opts.Service then {Path(root, TestsDir)} else {})
  }

  /** The finished chart: the directories, every expected file with the
      placeholder rewritten to the chart name, nothing else new under the
      root, and everything outside it untouched. */
  predicate ChartAsExpected(st: Store, r: Run, cat: Templates, root: string, opts: Options) {
    Finished(st, r, root, ExpectedDirs(root, opts), Expected(cat, opts), opts.ChartName)
  }

  predicate Finished(st: Store, r: Run, root: string, dirs: set<string>, files: map<string, string>, name: string) {
    && r.err.None?
    && r.store.dirs == st.dirs + dirs
    && (forall rel :: rel in files ==>
          Path(root, rel) in r.store.files && r.store.files[Path(root, rel)] == ReplacePlaceholder(files[rel], name))
    && (forall p :: p in r.store.files ==> p in st.files || Written(root, files.Keys, p))
    && (forall p :: p in st.files ==> p in r.store.files && r.store.files[p] == st.files[p])
  }

  // ---------------------------------------------------------------- proof of the end-to-end contract

  lemma WrittenPath(root: string, rel: string, rels: set<string>)
    ensures Written(root, rels, Path(root, rel)) <==> rel in rels
    ensures UnderRoot(Path(root, rel), root)
  {
    PathIsUnderRoot(root, rel);
  }

  lemma WrittenIsUnderRoot(root: string, rels: set<string>, p: string)
    requires Written(root, rels, p)
    ensures UnderRoot(p, root)
  {
  }

  /** Two steps in sequence write the union of what each writes. */
  lemma Compose(a: map<string, string>, b: map<string, string>, c: map<string, string>, root: string,
                m1: map<string, string>, m2: map<string, string>)
    requires Holds(b, root, m1) && FramedBy(a, b, root, m1.Keys)
    requires Holds(c, root, m2) && FramedBy(b, c, root, m2.Keys)
    requires m1.Keys !! m2.Keys
    ensures Holds(c, root, m1 + m2) && FramedBy(a, c, root, (m1 + m2).Keys)
  {
    forall rel | rel in m1
      ensures Path(root, rel) in c && c[Path(root, rel)] == m1[rel]
    {
      WrittenPath(root, rel, m2.Keys);
    }
    forall p | !Written(root, (m1 + m2).Keys, p)
      ensures SameAt(a, c, p)
    {
      assert !Written(root, m1.Keys, p) && !Written(root, m2.Keys, p);
    }
  }

  /** The relative outputs of the resource table. */
  const ResourceNames: set<string> := {
    "templates/cronjob.yaml", "templates/deployment.yaml", "templates/daemonset.yaml",
    "templates/service.yaml", "templates/ingress.yaml", "templates/configmap.yaml",
    "templates/serviceaccount.yaml", "templates/statefulset.yaml", "templates/hpa.yaml"}

  lemma TableKeys(cat: Templates, opts: Options)
    ensures DistinctOutputs(Resources)
    ensures TableFiles(cat, opts, Resources).Keys <= ResourceNames
  {
    ResourceOutputsDistinct();
    OutputsNamed();
    TableKeysWithin(cat, opts, Resources, ResourceNames);
  }

  lemma OutputsNamed()
    ensures forall i | 0 <= i < |Resources| :: Resources[i].output in ResourceNames
  {
  }

  /** A table whose outputs all lie in `names` renders only paths in `names`. */
  lemma TableKeysWithin(cat: Templates, opts: Options, table: seq<Resource>, names: set<string>)
    requires DistinctOutputs(table)
    requires forall i | 0 <= i < |table| :: table[i].output in names
    ensures TableFiles(cat, opts, table).Keys <= names
  {
    forall rel | rel in TableFiles(cat, opts, table)
      ensures rel in names
    {
      var i :| 0 <= i < |table| && Enabled(opts, table[i].kind) && table[i].output == rel;
    }
  }

  /** No resource output is a directory, a mandatory file, the connection
      test or the notes. */
  lemma ExpectedKeysApart(cat: Templates, opts: Options)
    ensures TestFiles(cat, opts).Keys !! BasicFiles(cat, opts).Keys
    ensures (TestFiles(cat, opts) + BasicFiles(cat, opts)).Keys !! TableFiles(cat, opts, Resources).Keys
    ensures (TestFiles(cat, opts) + BasicFiles(cat, opts) + TableFiles(cat, opts, Resources)).Keys !! NotesFiles(cat, opts).Keys
    ensures TemplatesDir !in Expected(cat, opts) && TestsDir !in Expected(cat, opts)
  {
    TableKeys(cat, opts);
    KeysApart(TestFiles(cat, opts), BasicFiles(cat, opts), TableFiles(cat, opts, Resources), NotesFiles(cat, opts));
  }

  lemma KeysApart(t: map<string, string>, b: map<string, string>, r: map<string, string>, n: map<string, string>)
    requires t.Keys <= {TestConnectionFile}
    requires b.Keys == {HelpersFile, HelmignoreFile, ChartYamlFile, ValuesFile}
    requires r.Keys <= ResourceNames
    requires n.Keys == {NotesFile}
    ensures t.Keys !! b.Keys && (t + b).Keys !! r.Keys && (t + b + r).Keys !! n.Keys
    ensures TemplatesDir !in t + b + r + n && TestsDir !in t + b + r + n
  {
    NamesApart();
    forall x | x in r.Keys
      ensures x !in t.Keys + b.Keys
    {
      assert x in ResourceNames;
    }
  }

  lemma NamesApart()
    ensures TemplatesDir !in ResourceNames && TestsDir !in ResourceNames
    ensures TestConnectionFile !in ResourceNames && HelpersFile !in ResourceNames
    ensures HelmignoreFile !in ResourceNames && ChartYamlFile !in ResourceNames
    ensures ValuesFile !in ResourceNames && NotesFile !in ResourceNames
  {
  }

  lemma {:induction false} OutputsIndex(root: string, table: seq<Resource>, p: string)
    requires p in Outputs(root, table)
    ensures exists i :: 0 <= i < |table| && p == Path(root, table[i].output)
    decreases |table|
  {
    if p != Path(root, table[0].output) {
      OutputsIndex(root, table[1..], p);
      var i :| 0 <= i < |table[1..]| && p == Path(root, table[1..][i].output);
      assert table[1..][i] == table[i + 1];
    }
  }

  lemma DirsHealthy(st: Store, cat: Templates, root: string, opts: Options)
    requires Healthy(cat, opts)
    ensures var d := CreateDirectoryStructure(st, map[], cat, root, opts);
      && d.err.None?
      && d.store.dirs == st.dirs + ExpectedDirs(root, opts)
      && Holds(d.store.files, root, TestFiles(cat, opts))
      && FramedBy(st.files, d.store.files, root, TestFiles(cat, opts).Keys)
  {
    WrittenPath(root, TestConnectionFile, TestFiles(cat, opts).Keys);
  }

  lemma BasicHealthy(st: Store, cat: Templates, root: string, opts: Options)
    requires Healthy(cat, opts)
    ensures var b := GenerateBasicFiles(st, map[], cat, root, opts);
      && b.err.None?
      && Holds(b.store.files, root, BasicFiles(cat, opts))
      && FramedBy(st.files, b.store.files, root, BasicFiles(cat, opts).Keys)
  {
    BasicFilesOutcome(st, map[], cat, root, opts);
    var keys := BasicFiles(cat, opts).Keys;
    WrittenPath(root, HelpersFile, keys);
    WrittenPath(root, HelmignoreFile, keys);
    WrittenPath(root, ChartYamlFile, keys);
    WrittenPath(root, ValuesFile, keys);
  }

  lemma TableHealthy(st: Store, cat: Templates, root: string, opts: Options, table: seq<Resource>)
    requires DistinctOutputs(table) && TableRenders(cat, opts, table)
    ensures var c := RenderResources(st, map[], cat, root, opts, table);
      && c.err.None?
      && Holds(c.store.files, root, TableFiles(cat, opts, table))
      && FramedBy(st.files, c.store.files, root, TableFiles(cat, opts, table).Keys)
  {
    var c := RenderResources(st, map[], cat, root, opts, table);
    var m := TableFiles(cat, opts, table);
    RenderResourcesOutcome(st, map[], cat, root, opts, table);
    var f := FirstFailing(map[], cat, root, opts, table);
    forall rel | rel in m
      ensures Path(root, rel) in c.store.files && c.store.files[Path(root, rel)] == m[rel]
    {
      var i :| 0 <= i < |table| && Enabled(opts, table[i].kind) && table[i].output == rel;
      assert RenderedAt(c.store.files, cat, root, opts, table[i]);
    }
    forall p | !Written(root, m.Keys, p)
      ensures SameAt(st.files, c.store.files, p)
    {
      if p in Outputs(root, table) {
        OutputsIndex(root, table, p);
        var i :| 0 <= i < |table| && p == Path(root, table[i].output);
        WrittenPath(root, table[i].output, m.Keys);
        assert !Enabled(opts, table[i].kind);
      }
    }
  }

  lemma NotesHealthy(st: Store, cat: Templates, root: string, opts: Options)
    requires Healthy(cat, opts)
    ensures var n := GenerateNotesFiles(st, map[], cat, root, opts);
      && n.err.None?
      && Holds(n.store.files, root, NotesFiles(cat, opts))
      && FramedBy(st.files, n.store.files, root, NotesFiles(cat, opts).Keys)
  {
    NotesOutcome(st, map[], cat, root, opts);
    WrittenPath(root, NotesFile, NotesFiles(cat, opts).Keys);
  }

  /** With no failing store call and every needed template readable and
      renderable, generation succeeds, creates exactly the chart's
      directories, and writes exactly the expected files. */
  lemma GenerateFilesHealthy(st: Store, cat: Templates, root: string, opts: Options)
    requires Healthy(cat, opts)
    ensures var r := GenerateFiles(st, map[], cat, root, opts);
      && r.err.None?
      && r.store.dirs == st.dirs + ExpectedDirs(root, opts)
      && Holds(r.store.files, root, Expected(cat, opts))
      && FramedBy(st.files, r.store.files, root, Expected(cat, opts).Keys)
  {
    var d := CreateDirectoryStructure(st, map[], cat, root, opts);
    DirsHealthy(st, cat, root, opts);
    var b := GenerateBasicFiles(d.store, map[], cat, root, opts);
    BasicHealthy(d.store, cat, root, opts);
    ResourceOutputsDistinct();
    var c := RenderResources(b.store, map[], cat, root, opts, Resources);
    TableHealthy(b.store, cat, root, opts, Resources);
    var n := GenerateNotesFiles(c.store, map[], cat, root, opts);
    NotesHealthy(c.store, cat, root, opts);
    ExpectedKeysApart(cat, opts);
    var t, bf, rf, nf := TestFiles(cat, opts), BasicFiles(cat, opts), TableFiles(cat, opts, Resources), NotesFiles(cat, opts);
    Compose(st.files, d.store.files, b.store.files, root, t, bf);
    Compose(st.files, b.store.files, c.store.files, root, t + bf, rf);
    Compose(st.files, c.store.files, n.store.files, root, t + bf + rf, nf);
  }

  /** A fault-free rewrite after a healthy generation gives the expected chart. */
  lemma HealthyChart(st: Store, prepared: Store, r: Run, faults: Faults, cat: Templates, root: string, opts: Options)
    requires faults == map[] && Fresh(st, root)
    requires prepared.dirs == st.dirs + ExpectedDirs(root, opts)
    requires Holds(prepared.files, root, Expected(cat, opts))
    requires FramedBy(st.files, prepared.files, root, Expected(cat, opts).Keys)
    requires r.store.dirs == prepared.dirs && RewroteTree(prepared, r, faults, root, opts.ChartName)
    ensures ChartAsExpected(st, r, cat, root, opts)
  {
    ExpectedKeysApart(cat, opts);
    assert r.err.None?;
    forall rel | rel in Expected(cat, opts)
      ensures Path(root, rel) !in ExpectedDirs(root, opts)
    {
      PathInjective(root, rel, TemplatesDir);
      PathInjective(root, rel, TestsDir);
    }
    RewriteFinishesChart(st, prepared, r, root, ExpectedDirs(root, opts), Expected(cat, opts), opts.ChartName);
  }

  /** The rewrite over a freshly generated tree finishes the chart. */
  lemma RewriteFinishesChart(st: Store, prepared: Store, r: Run, root: string, dirs: set<string>, e: map<string, string>, name: string)
    requires Fresh(st, root)
    requires forall rel :: rel in e ==> Path(root, rel) !in dirs
    requires prepared.dirs == st.dirs + dirs
    requires Holds(prepared.files, root, e)
    requires FramedBy(st.files, prepared.files, root, e.Keys)
    requires r.err.None? && r.store.dirs == prepared.dirs && r.store.files.Keys == prepared.files.Keys
    requires forall p :: p in prepared.files && !Rewritable(prepared, root, p) ==> r.store.files[p] == prepared.files[p]
    requires forall p :: Rewritable(prepared, root, p) ==> r.store.files[p] == ReplacePlaceholder(prepared.files[p], name)
    ensures Finished(st, r, root, dirs, e, name)
  {
    forall rel | rel in e
      ensures Path(root, rel) in r.store.files
      ensures r.store.files[Path(root, rel)] == ReplacePlaceholder(e[rel], name)
    {
      var p := Path(root, rel);
      WrittenPath(root, rel, e.Keys);
      assert p !in st.dirs;
      assert Rewritable(prepared, root, p);
    }
    forall p | p in r.store.files
      ensures p in st.files || Written(root, e.Keys, p)
    {
      assert p in prepared.files;
      if !Written(root, e.Keys, p) {
        assert SameAt(st.files, prepared.files, p);
      }
    }
    forall p | p in st.files
      ensures p in r.store.files && r.store.files[p] == st.files[p]
    {
      if Written(root, e.Keys, p) {
        WrittenIsUnderRoot(root, e.Keys, p);
      }
      assert SameAt(st.files, prepared.files, p);
    }
  }
}
