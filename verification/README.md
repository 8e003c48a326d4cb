# helmchart-helper, modelled in Dafny

A model of the core of helmchart-helper. This command-line tool scaffolds a Helm chart: a
directory tree of Kubernetes manifest templates plus the chart's metadata
files. The model covers three components.

- **The generation engine** (`App`, pkg/app/app.go). An immutable options
  record (a chart name and ten resource flags) drives five fail-fast steps
  against an output store:
  1. create the `templates` directory, plus `templates/tests` and the
     rendered connection test when Service is on;
  2. write the four mandatory files: `templates/_helpers.tpl` and
     `.helmignore` copied verbatim, `Chart.yaml` and `values.yaml` rendered;
  3. render the resource templates whose flag is set, from a fixed table of
     nine rows in a fixed order;
  4. assemble `templates/NOTES.txt` from one rendered template and up to
     three appended fragments;
  5. walk the chart root and replace every literal `example` in every file
     with the chart name.
- **The structured error value** (`ChartErrors`, pkg/errors/errors.go). This
  is `ChartError` with its constructors, its context map, the `errors.Is`
  equality rule, `Unwrap` and the rendered `Error()` text.
- **The command-line checks** (`Cli`, pkg/cli/config.go). These are `Validate`
  and the return value and branch order of `HandleEarlyExit`.

The collaborators are values, not code (module `Interfaces`):

- The output store is a map from path to content plus a set of directories.
- Failures are injected as a map from store call (kind and path) to the error
  that call reports.
- A step returns a `Run`: the store afterwards and the error it returned.
  A failed step keeps whatever it already wrote.
- The embedded templates and the template processor are three uninterpreted
  functions:
  - `Raw` reads a template's bytes;
  - `Parse` reports a parse failure;
  - `Render` executes a template against the options. It may fail after
    streaming part of its output.
- Go's `error` is `Err`, which is one of three things:
  - a `ChartError`;
  - a `fmt.Errorf("…: %w")` wrap, kept as prefix and inner error;
  - an opaque error text.

The placeholder token is the literal `example`. `Text.ReplacePlaceholder` is
`strings.ReplaceAll(s, "example", name)`.

The main theorem is `App.GenerateChart`'s last `ensures`. It applies when no
store call fails, every template the options need can be read or rendered, and
nothing exists under the chart root yet. Then the run succeeds and leaves:

- exactly the chart's directories;
- exactly the expected files, each holding its template's text with the
  placeholder rewritten;
- every file outside the root untouched.

The expected files are `templates/_helpers.tpl`, `.helmignore`, `Chart.yaml`,
`values.yaml`, `templates/NOTES.txt`, the connection test when Service is on,
and one output per enabled resource row.

Three facts about the code that a reader might not expect:

- With every resource flag off, `templates/NOTES.txt` still holds two
  pieces: the objects-created template's output, then the default fragment
  (pkg/app/app.go:222-226).
- One `strings.ReplaceAll` pass can leave a token behind: a chart name can
  complete a partial token in front of it. `Text.RewriteCanFormToken` gives
  such an input.
- The token is `example` (pkg/app/app.go:329).

## Model

| member | source | states |
|---|---|---|
| `Text.ReplacePlaceholder` | pkg/app/app.go:329 | A text that does not contain `example` comes back byte-identical from the rewrite. |
| `Text.ReplaceLength` | pkg/app/app.go:329 | The rewrite replaces every non-overlapping occurrence: the length changes by (name length − 7) for each occurrence `strings.Count` finds. |
| `Text.OccurrencesPositiveIffContains` | pkg/app/app.go:329 | The occurrence count is positive exactly when the token occurs in the text. |
| `Text.ReplaceMentionsName` | pkg/app/app.go:329 | When the token occurs, the rewritten text contains the chart name. |
| `Text.ReplaceWithPlaceholderIsIdentity` | pkg/app/app.go:329 | Renaming to `example` itself leaves every text unchanged. |
| `Text.ReplaceIdempotentWhenClean` | pkg/app/app.go:329 | A second rewrite of a result that holds no token changes nothing. |
| `Text.RewriteCanFormToken` | pkg/app/app.go:329 | One pass can leave a token behind: `exaexample` renamed to `mple` becomes `example`. |
| `Text.JoinContainsPart` | pkg/errors/errors.go:102 | Every part given to `strings.Join` appears in the joined text. |
| `Text.JoinStartsWithFirst` | pkg/errors/errors.go:102 | The joined text starts with the first part. |
| `Text.JoinNeighbours` | pkg/errors/errors.go:102 | Neighbouring parts appear in the joined text with the separator between them. |
| `ChartErrors.NewValidationError` | pkg/errors/errors.go:33-40 | The result has type `validation`, the given operation and message, no cause, and an allocated empty context. |
| `ChartErrors.NewFileSystemError` | pkg/errors/errors.go:43-51 | The result has type `filesystem`, the given operation, message and cause, and an allocated empty context. |
| `ChartErrors.NewTemplateError` | pkg/errors/errors.go:54-62 | The result has type `template`, the given operation, message and cause, and an allocated empty context. |
| `ChartErrors.NewConfigurationError` | pkg/errors/errors.go:65-72 | The result has type `configuration`, the given operation and message, no cause, and an allocated empty context. |
| `ChartErrors.WrapError` | pkg/errors/errors.go:138-146 | The result keeps the given type, operation and message with an empty context, and `Unwrap` returns exactly the wrapped error. |
| `ChartErrors.WithContext` | pkg/errors/errors.go:119-125 | The key maps to the value and the map is allocated even if it was nil. Every other key keeps its presence and value. Type, operation, message and cause are unchanged. |
| `ChartErrors.WithFile` | pkg/errors/errors.go:128-130 | Records `file = path`: other keys and all other fields are unchanged, and the result is `Is`-equal to the input. |
| `ChartErrors.WithChart` | pkg/errors/errors.go:133-135 | Records `chart = name`: other keys and all other fields are unchanged, and the result is `Is`-equal to the input. |
| `ChartErrors.Is` | pkg/errors/errors.go:111-116 | Only a `ChartError` target can match. A `ChartError` target matches iff its type and operation equal the receiver's. |
| `ChartErrors.UnwrapReturnsCause` | pkg/errors/errors.go:106-108 | `Unwrap` returns the cause each constructor was given: nil for validation and configuration errors, the given cause for filesystem and template errors. Adding context never changes it. |
| `ChartErrors.IsIgnoresPayload` | pkg/errors/errors.go:111-116 | `Is` holds exactly when type and operation are equal. Message, cause and context never change the answer. |
| `ChartErrors.IsOnlyChartErrors` | pkg/errors/errors.go:111-116 | `Is` is false for any target that is not a `ChartError`. |
| `ChartErrors.IsEquivalence` | pkg/errors/errors.go:111-116 | Between `ChartError`s, `Is` is reflexive, symmetric and transitive. |
| `ChartErrors.ConstructorsMatchByKindAndOperation` | pkg/errors/errors.go:111-116 | For every pair of constructor kinds (validation, filesystem, template, configuration), with any messages and causes, the two errors match iff the kinds are the same and the operations are equal. |
| `ChartErrors.ContextEntries` | pkg/errors/errors.go:94-98 | Each context key the enumeration visits yields its `key=value` entry. |
| `ChartErrors.Parts` | pkg/errors/errors.go:75-100 | There is one part per field that is set, in the fixed order operation, type, message, `caused by: <cause>`, context. Each present part sits at the index given by the parts before it, the context section comes last, and no part is empty. |
| `ChartErrors.ErrorText` | pkg/errors/errors.go:75-103 | When an operation is set, the message starts with `operation: <op>`. |
| `ChartErrors.ErrorKeepsPartOrder` | pkg/errors/errors.go:102 | Every two neighbouring parts appear in the `Error()` text as `<part>; <next part>`, so the text keeps the parts' order and their `; ` separator. |
| `ChartErrors.ErrText` | pkg/errors/errors.go:91 | The `%v` text of a cause: an opaque error's own text; a `%w` wrap starts with `<prefix>: `; a `ChartError` with an operation starts with `operation: <op>`. |
| `ChartErrors.EntriesFollowListing` | pkg/errors/errors.go:94-98 | When every listed key is in the map, there is exactly one `key=value` entry per listed key, in listing order. |
| `ChartErrors.ErrorMentionsFields` | pkg/errors/errors.go:75-103 | Every field that is set appears under its label in the `Error()` text. This covers operation, type, message and `caused by: <cause>`. |
| `ChartErrors.ErrorMentionsContext` | pkg/errors/errors.go:94-100 | Every context entry appears as `key=value` after `context: `, whatever order the map is enumerated in. |
| `ChartErrors.ErrorEmptyIffBlank` | pkg/errors/errors.go:75-103 | The `Error()` text is empty exactly when no field is set. |
| `Cli.Validate` | pkg/cli/config.go:65-77 | No error iff both name and output directory are non-empty. The name is checked first: `chart name is required` with `flag=-n`, otherwise `chart path is required` with `flag=-o`. Both are `validation` errors from `validate-config` with no cause. |
| `Cli.ValidateIgnoresFlags` | pkg/cli/config.go:65-77 | The verdict depends only on the name and output directory. Resource, version and help flags never change it. |
| `Cli.ValidateMessageNamesFlag` | pkg/cli/config.go:66-74 | The rendered validation error contains the missing value's message, `flag=-n` or `flag=-o`, `operation: validate-config` and `type: validation`. |
| `Cli.EarlyExitAction` | pkg/cli/config.go:90-102 | The version branch is taken whenever Version is set. The help branch is taken only when Version is off and Help is on. Otherwise the run proceeds. |
| `Cli.HandleEarlyExit` | pkg/cli/config.go:90-102 | Returns true iff Version or Help is set, exactly when a print branch is taken. |
| `Cli.EarlyExitIgnoresOtherFields` | pkg/cli/config.go:90-102 | The early-exit decision depends on the version and help flags only. |
| `App.TemplateFailure` | pkg/app/app.go:250-277 | Classifies a failure of `createFileFromTemplate`: a failed create is filesystem `create-file`, then a parse failure is template `parse-template`, then an execution failure is template `execute-template`. Each keeps its cause and carries `chart`. `file` is the output path, or the template path for a parse failure. There is an error iff one of the three calls fails. |
| `App.CreateFileFromTemplate` | pkg/app/app.go:250-277 | The output is created or truncated before parsing. A failed create changes nothing. After a parse failure the output exists and is empty. Otherwise it holds the executed text, partial if execution failed. No other path or directory changes. |
| `App.CopyFileFromTemplate` | pkg/app/app.go:279-290 | On success the output holds the raw template bytes, unrendered. A missing template gives `error opening template <path>: …` and a failed write gives `failed to write file: …`. Either failure changes nothing. |
| `App.AppendToFile` | pkg/app/app.go:292-310 | On success the file holds its previous content, empty if it did not exist, followed by the raw template bytes. It succeeds iff the read, the open and the write all succeed. The errors are `error opening template <path>: …` for a missing template, `failed to open file for append: …` for a failed open, and `failed to write to file: …` for a failed write. The first two leave the store unchanged. After a failed write the file exists and keeps its previous content. Nothing else changes. |
| `App.CreateDirectoryStructure` | pkg/app/app.go:138-167 | On success `templates` is always created, and `templates/tests` iff Service is on. The connection test is rendered iff Service is on, and no other file changes. Every error carries the chart name. A failed `templates` mkdir is filesystem `create-directory` (`failed to create templates directory`), with its cause and `file=<dir>`, and touches nothing. With Service on, a failed `templates/tests` mkdir is filesystem `create-directory` (`failed to create tests directory`), with its cause and `file=<tests dir>`. It leaves only `templates` created and no file changed. When both mkdirs succeed but the test render fails, the error is template `create-test-file`, with the render's own error as its cause and `file=<test path>`, and both directories exist. Whenever both mkdirs succeed, the test file is left as its create call leaves it: untouched if it cannot be created, empty after a parse failure, otherwise the executed text, partial if execution failed. |
| `App.BasicFilesOutcome` | pkg/app/app.go:169-188 | Succeeds iff both copies and both renders succeed. Then `_helpers.tpl` and `.helmignore` equal the raw bytes, and `Chart.yaml` and `values.yaml` the rendered text. Only those four paths change. When a call fails, the step stops there and returns that call's own error. Each earlier file holds its content. The failing output is unchanged after a failed copy; after a failed render it is left as its create call leaves it (untouched, empty or partial). Later outputs are untouched. |
| `App.GenerateBasicFiles` | pkg/app/app.go:169-188 | Writing the mandatory files never creates a directory. |
| `App.FirstFailing` | pkg/app/app.go:210-216 | Finds the first enabled table row whose render fails. Every enabled row before it renders. |
| `App.RenderResources` | pkg/app/app.go:210-216 | The loop writes no path outside the table's outputs and creates no directory. |
| `App.RenderResourcesOutcome` | pkg/app/app.go:197-216 | The loop fails iff some enabled row fails, and it returns the first such row's error unchanged. Every enabled row before that row holds its rendered template. Disabled rows and all later rows are untouched. The failing row's output is untouched if it cannot be created, empty after a parse failure, or holds the partial executed text after an execution failure. |
| `App.GenerateConditionalFiles` | pkg/app/app.go:190-219 | The step writes only the nine table outputs and creates no directory. |
| `App.NoFlagsWriteNothing` | pkg/app/app.go:210-216 | With every resource flag off, including when only Volumes is set (it has no row), the step succeeds and the store is unchanged. |
| `App.TableHealthy` | pkg/app/app.go:197-216 | When every enabled row renders, the step succeeds. Each enabled row's output holds its rendered text, and no other path changes. |
| `App.GenerateNotesFiles` | pkg/app/app.go:221-243 | The notes step never creates a directory. Its effect on files and its error are stated by `App.NotesOutcome`. |
| `App.NotesOutcome` | pkg/app/app.go:221-243 | Only `templates/NOTES.txt` changes, and the step succeeds iff the render and every append it makes succeed. On success the file holds the objects-created text, then the default, ingress (if Ingress) and service (if Service) fragments, whatever flags are set. A failed render returns the render's error and leaves the file as its create call leaves it. A failed append returns that append's error and leaves the file holding the text accumulated before it: the objects text, then the default fragment, then the ingress fragment. |
| `App.ReplaceExampleInAllFiles` | pkg/app/app.go:312-339 | On success, every file under the root that is not a directory is rewritten. Directories and files outside the root always stay the same. An error happens iff some visited entry fails. It is `failed to walk directory` wrapping that entry's error: the walk error as it is, `failed to read file <path>: …` or `failed to write file <path>: …`. Files already free of the token come through unchanged. |
| `App.GenerateFiles` | pkg/app/app.go:114-130 | Only the directory step creates directories. |
| `App.GenerationStopsAtFirstError` | pkg/app/app.go:114-130 | Each step's error is returned unchanged and ends generation. A directory failure is returned with at most the connection test written. A mandatory-files failure returns that step's own error, with nothing written beyond those four files. A resource failure returns the resource step's run. Once all earlier steps succeed, the result is exactly the notes step's run. |
| `App.ResourceFailureStopsGeneration` | pkg/app/app.go:119-129 | A failing resource row ends generation with that row's own error, and neither later rows nor `NOTES.txt` are written. |
| `App.NotesOutsideTable` | pkg/app/app.go:197-222 | `templates/NOTES.txt` is not among the resource table's outputs. |
| `App.DirsHealthy` | pkg/app/app.go:138-167 | With no failures, the step creates the chart's directories and writes the connection test exactly when Service is on. |
| `App.BasicHealthy` | pkg/app/app.go:169-188 | With no failures, exactly the four mandatory files are written, with their expected contents. |
| `App.NotesHealthy` | pkg/app/app.go:221-243 | With no failures, exactly `templates/NOTES.txt` is written, holding the notes layout. |
| `App.GenerateFilesHealthy` | pkg/app/app.go:114-130 | With no failures and every needed template usable, generation succeeds. It creates exactly the chart's directories and writes exactly the expected files with their contents. |
| `App.HealthyChart` | pkg/app/app.go:245-248 | A fault-free rewrite after a healthy generation gives the finished chart: every expected file rewritten, nothing else new, everything outside the root unchanged. |
| `App.GenerateChart` | pkg/app/app.go:114-136 | A generation error is returned unchanged, with no rewrite. After a successful generation the result is the rewrite of the generated tree: no file appears or disappears, and each file is either its generated content or that content rewritten. Files the walk does not rewrite are unchanged. The run fails iff some walk entry fails, with that entry's error under the `failed to walk directory` wrap, and on success every file under the root is rewritten. Under no failures, usable templates and a fresh root, the result is the finished chart. |

## Left out

- pkg/filesystem/filesystem.go (the `os`, `filepath.Walk` and `text/template` wrappers) is not part of this model. The store and the template catalog stand in for it.
- Store semantics:
  - `MkdirAll` records only the named directory, not its parents;
  - a failed `Create` or `WriteFile` writes nothing;
  - an open handle that fails on write still created the file;
  - file permissions (0755, 0644, and 0 on the rewrite) are not modelled.
- The template language and the embedded `chartTemplate` contents. `Raw`, `Parse` and `Render` are uninterpreted, so nothing is claimed about what a rendered file says.
- OS path separators and `PathManager`: paths are strings joined with `/`.
- pkg/mocks/mocks.go, cmd/main.go, `ParseFlags`, `ParseFlagsFromArgs`, `PrintVersion`, `PrintHelp`, `ExitWithError` and `ExitSuccess`. These are test doubles, flag parsing, and process I/O and exit.
- The `Set*` option setters and `NewApp` (pkg/app/app.go:49-111). They only fill the options record, which the model takes whole.
- App.ReplaceExampleInAllFiles: visits entries in an arbitrary order rather than `filepath.Walk`'s lexical order. So after a failure it says only that each file is either original or rewritten, not which ones.
- App.GenerateChart: the exact final chart is stated only for a fresh chart root with no failures. Every other run is stated for each step: which step's error is returned, and what the rewrite does to the generated tree. Which files a failing walk reached first is left open, as for `App.ReplaceExampleInAllFiles`.
- ChartErrors.ErrorMentionsContext: asserts that context entries are present, not their order. The order comes from Go map iteration, which is unspecified, and is a parameter of the model.
- ChartErrors.ErrorText: the `%v` text of a non-`ChartError` cause is the opaque text or the `prefix: inner` form of a `%w` wrap. Other formatting is not modelled.
- The Go `*ChartError` pointer: `WithContext` mutates and returns the same value in Go. The model returns an updated copy, which agrees for the chains the code builds.
- Text.ReplaceLength: strings are sequences of characters, while Go's `strings.ReplaceAll` works on bytes. The rewritten text is the same for UTF-8 text, because the token is ASCII. The length lemma counts characters, not bytes.
- Faults are keyed by (call kind, path). So a `WriteFile` fault on a copied file such as `templates/_helpers.tpl` fails both the mandatory-files step and the rewrite's write-back. A fault in the rewrite alone, on a path an earlier step also wrote with `WriteFile`, cannot be expressed.
