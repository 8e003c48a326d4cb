/** The command-line configuration record of pkg/cli/config.go and its two
    decisions: whether the required values are present, and whether the
    version or help flag ends the run before any generation. */
module Cli {
  import opened Text
  import opened ChartErrors

  datatype Config = Config(
    ChartName: string,
    OutputDir: string,
    Deployment: bool,
    Hpa: bool,
    StatefulSet: bool,
    DaemonSet: bool,
    Cronjob: bool,
    Configmap: bool,
    Service: bool,
    ServiceAccount: bool,
    Ingress: bool,
    Volumes: bool,
    Version: bool,
    Help: bool)

  /** Validate: the chart name (-n) is checked before the output directory
      (-o); the first missing one is reported, nothing else is looked at.
      `None` is Go's nil error. */
  function Validate(c: Config): (r: Option<ChartError>)
    ensures r.None? <==> c.ChartName != "" && c.OutputDir != ""
    ensures c.ChartName == "" ==>
      r.Some? && r.value.Message == "chart name is required" && r.value.Context == Some(map["flag" := "-n"])
    ensures c.ChartName != "" && c.OutputDir == "" ==>
      r.Some? && r.value.Message == "chart path is required" && r.value.Context == Some(map["flag" := "-o"])
    ensures r.Some? ==>
      r.value.Type == ValidationError && r.value.Operation == "validate-config" && r.value.Underlying.None?
  {
    if c.ChartName == "" then
      Some(WithContext(NewValidationError("validate-config", "chart name is required"), "flag", "-n"))
    else if c.OutputDir == "" then
      Some(WithContext(NewValidationError("validate-config", "chart path is required"), "flag", "-o"))
    else
      None
  }

  /** The verdict depends on the name and the directory only: resource,
      version and help flags never change it. */
  lemma ValidateIgnoresFlags(c: Config, d: Config)
    requires c.ChartName == d.ChartName && c.OutputDir == d.OutputDir
    ensures Validate(c) == Validate(d)
  {
  }

  /** The rendered error names what is missing and the flag to set, so a
      caller printing it tells the user which option to supply. */
  lemma ValidateMessageNamesFlag(c: Config, e: ChartError, order: KeyOrder)
    requires Validate(c) == Some(e)
    requires ListsKeys(order(ContextOf(e)), ContextOf(e))
    ensures Contains(ErrorText(e, order), e.Message)
    ensures e.Message == (if c.ChartName == "" then "chart name is required" else "chart path is required")
    ensures Contains(ErrorText(e, order), "flag=" + ContextOf(e)["flag"])
    ensures ContextOf(e)["flag"] == (if c.ChartName == "" then "-n" else "-o")
    ensures Contains(ErrorText(e, order), "operation: " + e.Operation) && e.Operation == "validate-config"
    ensures Contains(ErrorText(e, order), "type: " + e.Type) && e.Type == "validation"
  {
    ErrorMentionsFields(e, order);
    ErrorMentionsContext(e, order, "flag");
    assert "flag" + "=" + ContextOf(e)["flag"] == "flag=" + ContextOf(e)["flag"];
  }

  /** What HandleEarlyExit prints before reporting an early exit. */
  datatype EarlyExit = PrintVersion | PrintHelp | Proceed

  /** The branch HandleEarlyExit takes: the version flag is tested first. */
  function EarlyExitAction(c: Config): (a: EarlyExit)
    ensures a == PrintVersion <==> c.Version
    ensures a == PrintHelp <==> !c.Version && c.Help
    ensures a == Proceed <==> !c.Version && !c.Help
  {
    if c.Version then PrintVersion
    else if c.Help then PrintHelp
    else Proceed
  }

  /** HandleEarlyExit's return value: true when the run should stop. */
  function HandleEarlyExit(c: Config): (exit: bool)
    ensures exit <==> c.Version || c.Help
    ensures exit <==> EarlyExitAction(c) != Proceed
  {
    EarlyExitAction(c) != Proceed
  }

  /** The early-exit decision looks at the version and help flags only. */
  lemma EarlyExitIgnoresOtherFields(c: Config, d: Config)
    requires c.Version == d.Version && c.Help == d.Help
    ensures EarlyExitAction(c) == EarlyExitAction(d)
    ensures HandleEarlyExit(c) == HandleEarlyExit(d)
  {
  }
}
