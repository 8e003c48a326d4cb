/** The structured error value of pkg/errors/errors.go: a ChartError record
    with a type, an operation, a message, an optional underlying error and a
    string-to-string context, together with its constructors, the context
    builders, the equality rule used by errors.Is, Unwrap, and the rendered
    message. */
module ChartErrors {
  import opened Text

  /** Go's `ErrorType` is a named string; the four predefined values follow. */
  type ErrorType = string

  const ValidationError: ErrorType := "validation"
  const FileSystemError: ErrorType := "filesystem"
  const TemplateError: ErrorType := "template"
  const ConfigurationError: ErrorType := "configuration"

  /** A Go `error` value as far as this program produces or inspects one: a
      ChartError, an error that `fmt.Errorf("<prefix>: %w", inner)` wraps
      around another, or an opaque error whose text is all that is known. */
  datatype Err =
    | Chart(ce: ChartError)
    | Wrapped(prefix: string, inner: Err)
    | Opaque(text: string)

  /** `Underlying == None` is Go's nil error; `Context == None` is a nil map,
      which reads like an empty one but must be allocated before a write. */
  datatype ChartError = ChartError(
    Type: ErrorType,
    Operation: string,
    Message: string,
    Underlying: Option<Err>,
    Context: Option<map<string, string>>)

  /** The context as a reader sees it: a nil map reads as empty. */
  function ContextOf(e: ChartError): map<string, string> {
    match e.Context
    case None => map[]
    case Some(m) => m
  }

  /** The context records `key = value`. */
  predicate ContextHas(e: ChartError, key: string, value: string) {
    key in ContextOf(e) && ContextOf(e)[key] == value
  }

  // ---------------------------------------------------------------- constructors

  function NewValidationError(operation: string, message: string): (r: ChartError)
    ensures r.Type == ValidationError && r.Operation == operation && r.Message == message
    ensures r.Underlying == None && r.Context == Some(map[])
  {
    ChartError(ValidationError, operation, message, None, Some(map[]))
  }

  function NewFileSystemError(operation: string, message: string, underlying: Option<Err>): (r: ChartError)
    ensures r.Type == FileSystemError && r.Operation == operation && r.Message == message
    ensures r.Underlying == underlying && r.Context == Some(map[])
  {
    ChartError(FileSystemError, operation, message, underlying, Some(map[]))
  }

  function NewTemplateError(operation: string, message: string, underlying: Option<Err>): (r: ChartError)
    ensures r.Type == TemplateError && r.Operation == operation && r.Message == message
    ensures r.Underlying == underlying && r.Context == Some(map[])
  {
    ChartError(TemplateError, operation, message, underlying, Some(map[]))
  }

  function NewConfigurationError(operation: string, message: string): (r: ChartError)
    ensures r.Type == ConfigurationError && r.Operation == operation && r.Message == message
    ensures r.Underlying == None && r.Context == Some(map[])
  {
    ChartError(ConfigurationError, operation, message, None, Some(map[]))
  }

  /** Wraps an existing error (possibly nil) under a chosen type and operation. */
  function WrapError(err: Option<Err>, errorType: ErrorType, operation: string, message: string): (r: ChartError)
    ensures r.Type == errorType && r.Operation == operation && r.Message == message
    ensures Unwrap(r) == err && r.Context == Some(map[])
  {
    ChartError(errorType, operation, message, err, Some(map[]))
  }

  /** The error this one wraps, nil when there is none. */
  function Unwrap(e: ChartError): Option<Err> {
    e.Underlying
  }

  /** Unwrap hands back the cause each constructor was given, and adding
      context never changes it. */
  lemma UnwrapReturnsCause(op: string, msg: string, u: Option<Err>, e: ChartError, key: string, value: string)
    ensures Unwrap(NewValidationError(op, msg)).None? && Unwrap(NewConfigurationError(op, msg)).None?
    ensures Unwrap(NewFileSystemError(op, msg, u)) == u && Unwrap(NewTemplateError(op, msg, u)) == u
    ensures Unwrap(WithContext(e, key, value)) == Unwrap(e)
    ensures Unwrap(WithFile(e, value)) == Unwrap(e) && Unwrap(WithChart(e, value)) == Unwrap(e)
  {
  }

  // ---------------------------------------------------------------- context

  /** Records `key = value` in the context, allocating a nil map first. */
  function WithContext(e: ChartError, key: string, value: string): (r: ChartError)
    ensures r.Context.Some?
    ensures key in ContextOf(r) && ContextOf(r)[key] == value
    ensures forall k :: k != key ==> (k in ContextOf(r) <==> k in ContextOf(e))
    ensures forall k :: k != key && k in ContextOf(e) ==> ContextOf(r)[k] == ContextOf(e)[k]
    ensures r.Type == e.Type && r.Operation == e.Operation && r.Message == e.Message
    ensures r.Underlying == e.Underlying
  {
    var m := if e.Context.None? then map[] else e.Context.value;
    e.(Context := Some(m[key := value]))
  }

  function WithFile(e: ChartError, filePath: string): (r: ChartError)
    ensures "file" in ContextOf(r) && ContextOf(r)["file"] == filePath
    ensures forall k :: k != "file" ==> (k in ContextOf(r) <==> k in ContextOf(e))
    ensures forall k :: k != "file" && k in ContextOf(e) ==> ContextOf(r)[k] == ContextOf(e)[k]
    ensures r.Type == e.Type && r.Operation == e.Operation && r.Message == e.Message
    ensures r.Underlying == e.Underlying && Is(r, Chart(e))
  {
    WithContext(e, "file", filePath)
  }

  function WithChart(e: ChartError, chartName: string): (r: ChartError)
    ensures "chart" in ContextOf(r) && ContextOf(r)["chart"] == chartName
    ensures forall k :: k != "chart" ==> (k in ContextOf(r) <==> k in ContextOf(e))
    ensures forall k :: k != "chart" && k in ContextOf(e) ==> ContextOf(r)[k] == ContextOf(e)[k]
    ensures r.Type == e.Type && r.Operation == e.Operation && r.Message == e.Message
    ensures r.Underlying == e.Underlying && Is(r, Chart(e))
  {
    WithContext(e, "chart", chartName)
  }

  // ---------------------------------------------------------------- equality rule

  /** errors.Is support: the target must itself be a ChartError with the same
      type and operation; message, context and underlying error are ignored. */
  function Is(e: ChartError, target: Err): (r: bool)
    ensures r ==> target.Chart?
    ensures target.Chart? ==> (r <==> target.ce.Type == e.Type && target.ce.Operation == e.Operation)
  {
    match target
    case Chart(t) => e.Type == t.Type && e.Operation == t.Operation
    case _ => false
  }

  /** Two ChartErrors match exactly when their type and operation agree,
      whatever their messages, causes and contexts. */
  lemma IsIgnoresPayload(e: ChartError, t: ChartError, message: string, underlying: Option<Err>, context: Option<map<string, string>>)
    ensures Is(e, Chart(t)) == Is(e, Chart(t.(Message := message, Underlying := underlying, Context := context)))
    ensures Is(e, Chart(t)) <==> e.Type == t.Type && e.Operation == t.Operation
  {
  }

  /** Only ChartErrors can match: wrapped and opaque errors never do. */
  lemma IsOnlyChartErrors(e: ChartError, target: Err)
    ensures Is(e, target) ==> target.Chart?
  {
  }

  /** Matching is an equivalence on ChartErrors. */
  lemma IsEquivalence(a: ChartError, b: ChartError, c: ChartError)
    ensures Is(a, Chart(a))
    ensures Is(a, Chart(b)) ==> Is(b, Chart(a))
    ensures Is(a, Chart(b)) && Is(b, Chart(c)) ==> Is(a, Chart(c))
  {
  }

  /** The four constructors, named. */
  datatype ErrorKind = Validation | FileSystem | Template | Configuration

  /** The constructor of kind `k`; the validation and configuration
      constructors take no cause and ignore `underlying`. */
  function Construct(k: ErrorKind, operation: string, message: string, underlying: Option<Err>): (r: ChartError)
    ensures r.Operation == operation && r.Message == message && r.Context == Some(map[])
    ensures k.Validation? <==> r.Type == ValidationError
    ensures k.FileSystem? <==> r.Type == FileSystemError
    ensures k.Template? <==> r.Type == TemplateError
    ensures k.Configuration? <==> r.Type == ConfigurationError
    ensures r.Underlying == (if k.FileSystem? || k.Template? then underlying else None)
  {
    match k
    case Validation => NewValidationError(operation, message)
    case FileSystem => NewFileSystemError(operation, message, underlying)
    case Template => NewTemplateError(operation, message, underlying)
    case Configuration => NewConfigurationError(operation, message)
  }

  /** Errors built by two constructors match iff the constructors are of the
      same kind and the operations agree, whatever the messages and causes. */
  lemma ConstructorsMatchByKindAndOperation(op1: string, m1: string, op2: string, m2: string, u: Option<Err>,
                                            k1: ErrorKind, k2: ErrorKind, u1: Option<Err>, u2: Option<Err>)
    ensures Is(NewValidationError(op1, m1), Chart(NewValidationError(op2, m2))) <==> op1 == op2
    ensures Is(NewFileSystemError(op1, m1, u), Chart(NewTemplateError(op2, m2, u))) == false
    ensures Is(NewValidationError(op1, m1), Chart(NewConfigurationError(op2, m2))) == false
    ensures Is(NewTemplateError(op1, m1, u), Chart(NewTemplateError(op2, m2, None))) <==> op1 == op2
    ensures Is(Construct(k1, op1, m1, u1), Chart(Construct(k2, op2, m2, u2))) <==> k1 == k2 && op1 == op2
  {
  }

  // ---------------------------------------------------------------- message

  /** How a Go map of context entries is enumerated. Go's map iteration order
      is unspecified, so the model takes the enumeration as a parameter. A Go
      `range` lists every key exactly once; the lemmas below need only that
      every key is listed (ListsKeys), so they cover Go's enumerations too. */
  type KeyOrder = map<string, string> -> seq<string>

  /** The enumeration visits every key of `m`. */
  predicate ListsKeys(keys: seq<string>, m: map<string, string>) {
    forall k :: k in m ==> k in keys
  }

  /** "k=v" for each listed key of the map, in listing order. */
  function ContextEntries(m: map<string, string>, keys: seq<string>): (r: seq<string>)
    ensures forall k :: k in m && k in keys ==> k + "=" + m[k] in r
    decreases |keys|
  {
    if keys == [] then []
    else
      var rest := ContextEntries(m, keys[1..]);
      assert forall k :: k in keys && k != keys[0] ==> k in keys[1..];
      if keys[0] in m then [keys[0] + "=" + m[keys[0]]] + rest else rest
  }

  /** Under an enumeration of keys that are all in the map, the entries are
      exactly one `key=value` per listed key, in listing order. */
  lemma {:induction false} EntriesFollowListing(m: map<string, string>, keys: seq<string>)
    requires forall i :: 0 <= i < |keys| ==> keys[i] in m
    ensures |ContextEntries(m, keys)| == |keys|
    ensures forall i :: 0 <= i < |keys| ==> ContextEntries(m, keys)[i] == keys[i] + "=" + m[keys[i]]
    decreases |keys|
  {
    if keys != [] {
      EntriesFollowListing(m, keys[1..]);
      assert forall i :: 1 <= i < |keys| ==> keys[1..][i - 1] == keys[i];
    }
  }

  /** The Go %v text of an arbitrary error. */
  function ErrText(err: Err, order: KeyOrder): (r: string)
    ensures err.Opaque? ==> r == err.text
    ensures err.Wrapped? ==> err.prefix + ": " <= r
    ensures err.Chart? && err.ce.Operation != "" ==> "operation: " + err.ce.Operation <= r
    decreases err, 0
  {
    match err
    case Chart(ce) => ErrorText(ce, order)
    case Wrapped(prefix, inner) => prefix + ": " + ErrText(inner, order)
    case Opaque(text) => text
  }

  /** 1 for a part that is present, 0 for one that is left out. */
  function Present(b: bool): nat {
    if b then 1 else 0
  }

  /** The pieces Error() joins, each present iff its field is non-empty. */
  function Parts(e: ChartError, order: KeyOrder): (ps: seq<string>)
    ensures |ps| == Present(e.Operation != "") + Present(e.Type != "") + Present(e.Message != "")
                    + Present(e.Underlying.Some?) + Present(|ContextOf(e)| > 0)
    ensures e.Operation != "" ==> ps[0] == "operation: " + e.Operation
    ensures e.Type != "" ==> ps[Present(e.Operation != "")] == "type: " + e.Type
    ensures e.Message != "" ==> ps[Present(e.Operation != "") + Present(e.Type != "")] == e.Message
    ensures e.Underlying.Some? ==>
      ps[Present(e.Operation != "") + Present(e.Type != "") + Present(e.Message != "")]
        == "caused by: " + ErrText(e.Underlying.value, order)
    ensures |ContextOf(e)| > 0 ==> ps[|ps| - 1] == "context: " + Join(ContextEntries(ContextOf(e), order(ContextOf(e))), ", ")
    ensures forall i :: 0 <= i < |ps| ==> ps[i] != ""
    decreases e, 1
  {
    var cause := "caused by: " + CauseText(e, order);
    var context := "context: " + Join(ContextEntries(ContextOf(e), order(ContextOf(e))), ", ");
    FiveParts(e.Operation != "", "operation: " + e.Operation, e.Type != "", "type: " + e.Type,
              e.Message != "", e.Message, e.Underlying.Some?, cause, |ContextOf(e)| > 0, context);
    Labelled(e.Operation != "", "operation: " + e.Operation)
    + (Labelled(e.Type != "", "type: " + e.Type)
       + (Labelled(e.Message != "", e.Message)
          + (Labelled(e.Underlying.Some?, cause) + Labelled(|ContextOf(e)| > 0, context))))
  }

  /** Where each of five optional parts lands once they are concatenated. */
  lemma FiveParts(b1: bool, t1: string, b2: bool, t2: string, b3: bool, t3: string, b4: bool, t4: string, b5: bool, t5: string)
    requires (b1 ==> t1 != "") && (b2 ==> t2 != "") && (b3 ==> t3 != "") && (b4 ==> t4 != "") && (b5 ==> t5 != "")
    ensures var ps := Labelled(b1, t1) + (Labelled(b2, t2) + (Labelled(b3, t3) + (Labelled(b4, t4) + Labelled(b5, t5))));
      && |ps| == Present(b1) + Present(b2) + Present(b3) + Present(b4) + Present(b5)
      && (b1 ==> ps[0] == t1)
      && (b2 ==> ps[Present(b1)] == t2)
      && (b3 ==> ps[Present(b1) + Present(b2)] == t3)
      && (b4 ==> ps[Present(b1) + Present(b2) + Present(b3)] == t4)
      && (b5 ==> ps[|ps| - 1] == t5)
      && (forall i :: 0 <= i < |ps| ==> ps[i] != "")
  {
  }

  /** `[text]` when the part is present, nothing otherwise. */
  function Labelled(present: bool, text: string): (ps: seq<string>)
    ensures |ps| == Present(present)
    ensures forall i :: 0 <= i < |ps| ==> ps[i] == text
  {
    if present then [text] else []
  }

  /** The text of the cause, when there is one. */
  function CauseText(e: ChartError, order: KeyOrder): string
    decreases e, 0
  {
    match e.Underlying
    case Some(u) => ErrText(u, order)
    case None => ""
  }

  /** Error(): the present parts joined with "; ". */
  function ErrorText(e: ChartError, order: KeyOrder): (r: string)
    ensures e.Operation != "" ==> "operation: " + e.Operation <= r
    decreases e, 2
  {
    var ps := Parts(e, order);
    assert |ps| > 0 ==> ps[0] <= Join(ps, "; ") by {
      if |ps| > 0 { JoinStartsWithFirst(ps, "; "); }
    }
    Join(ps, "; ")
  }

  /** The parts appear in their fixed order (operation, type, message, cause,
      context), each pair of neighbours separated by "; ". */
  lemma ErrorKeepsPartOrder(e: ChartError, order: KeyOrder, i: nat)
    requires i + 1 < |Parts(e, order)|
    ensures Contains(ErrorText(e, order), Parts(e, order)[i] + "; " + Parts(e, order)[i + 1])
  {
    JoinNeighbours(Parts(e, order), "; ", i);
  }

  /** Each field that is set shows up in the message, under its label. */
  lemma ErrorMentionsFields(e: ChartError, order: KeyOrder)
    ensures e.Operation != "" ==> Contains(ErrorText(e, order), "operation: " + e.Operation)
    ensures e.Type != "" ==> Contains(ErrorText(e, order), "type: " + e.Type)
    ensures e.Message != "" ==> Contains(ErrorText(e, order), e.Message)
    ensures e.Underlying.Some? ==> Contains(ErrorText(e, order), "caused by: " + ErrText(e.Underlying.value, order))
  {
    var ps := Parts(e, order);
    if e.Operation != "" { JoinContainsMember(ps, "; ", "operation: " + e.Operation); }
    if e.Type != "" { JoinContainsMember(ps, "; ", "type: " + e.Type); }
    if e.Message != "" { JoinContainsMember(ps, "; ", e.Message); }
    if e.Underlying.Some? { JoinContainsMember(ps, "; ", "caused by: " + ErrText(e.Underlying.value, order)); }
  }

  /** Every context entry shows up as "key=value", whatever order the map is
      enumerated in, provided the enumeration lists every key. */
  lemma ErrorMentionsContext(e: ChartError, order: KeyOrder, key: string)
    requires key in ContextOf(e)
    requires ListsKeys(order(ContextOf(e)), ContextOf(e))
    ensures Contains(ErrorText(e, order), "context: ")
    ensures Contains(ErrorText(e, order), key + "=" + ContextOf(e)[key])
  {
    var m := ContextOf(e);
    var entries := ContextEntries(m, order(m));
    var section := "context: " + Join(entries, ", ");
    var ps := Parts(e, order);
    assert ps[|ps| - 1] == section;
    JoinContainsPart(ps, "; ", |ps| - 1);
    JoinContainsMember(entries, ", ", key + "=" + m[key]);
    ContainsInRight("context: ", Join(entries, ", "), key + "=" + m[key]);
    ContainsTransitive(ErrorText(e, order), section, key + "=" + m[key]);
    ContainsSelf("context: ");
    ContainsInLeft("context: ", Join(entries, ", "), "context: ");
    ContainsTransitive(ErrorText(e, order), section, "context: ");
  }

  /** The message is empty exactly when no field is set. */
  lemma ErrorEmptyIffBlank(e: ChartError, order: KeyOrder)
    ensures ErrorText(e, order) == "" <==>
      e.Operation == "" && e.Type == "" && e.Message == "" && e.Underlying.None? && |ContextOf(e)| == 0
  {
    var ps := Parts(e, order);
    if |ps| > 0 {
      JoinStartsWithFirst(ps, "; ");
    }
  }
}
