/**
 * The candidate configuration is Python source that the editor runs with
 * `exec` in a fresh globals dictionary.  Running Python is outside the model:
 * the outcome of one `exec` is an input, either the exception it raised or the
 * names the candidate bound.  What the editor itself decides about that
 * outcome (the two checks on `DATA`) is modelled here.
 */
module Evaluation {

  /** A Python value as far as the editor can tell them apart. */
  datatype Value =
    | VNone
    | VBool(b: bool)
    | VInt(i: int)
    | VStr(s: string)
    | VList(items: seq<Value>)
    | VTuple(items: seq<Value>)
    | VDict(entries: map<Value, Value>)  // any `dict`, including subclasses
    | VFunc(name: string)                // a lambda, a function or a helper constructor
    | VObject(typeName: string)          // anything else (floats, helper instances, sets, ...)

  /**
   * What one `exec` of the candidate produced.  The candidate's code is taken
   * to have no effect outside its own globals dictionary: it writes or removes
   * no file, changes no directory, rebinds no module or builtin name, and
   * raises only `Exception` subclasses whose `str()` returns normally.
   */
  datatype EvalOutcome =
    | EvalRaised(msg: string)                  // `str(e)` of the exception
    | Bindings(bound: map<string, Value>)   // top-level names the candidate bound (not `__builtins__`)

  /** The verdict of the two checks on the `DATA` binding. */
  datatype Verdict = Accepted(data: map<Value, Value>) | Rejected(reason: string)

  const DataName: string := "DATA"
  const MissingDataText: string := "Configuration must define a DATA dictionary"
  const NotDictText: string := "DATA must be a dictionary"

  /** The five helper names the globals dictionary is seeded with. */
  const HelperNames: set<string> :=
    {"octet_string", "integer", "counter32", "ip_address", "timeticks"}

  /** The globals dictionary before the candidate runs. */
  function SeedGlobals(): (g: map<string, Value>)
    ensures g.Keys == HelperNames
    ensures DataName !in g
    ensures forall n :: n in g ==> g[n] == VFunc(n)
  {
    map[
      "octet_string" := VFunc("octet_string"),
      "integer" := VFunc("integer"),
      "counter32" := VFunc("counter32"),
      "ip_address" := VFunc("ip_address"),
      "timeticks" := VFunc("timeticks")
    ]
  }

  /**
   * The globals dictionary after the candidate ran: the seed, with every name
   * the candidate bound taking the candidate's value.
   */
  function GlobalsAfter(bound: map<string, Value>): (g: map<string, Value>)
    ensures g.Keys == HelperNames + bound.Keys
    ensures forall n :: n in bound ==> g[n] == bound[n]
    ensures forall n :: n in HelperNames && n !in bound ==> g[n] == VFunc(n)
  {
    SeedGlobals() + bound
  }

  /** `DATA` is bound after the run exactly when the candidate itself bound it. */
  lemma DataOnlyFromCandidate(bound: map<string, Value>)
    ensures DataName in GlobalsAfter(bound) <==> DataName in bound
    ensures DataName in bound ==> GlobalsAfter(bound)[DataName] == bound[DataName]
  {
  }

  /**
   * The presence check, then the type check.  The accepted verdict records the
   * `DATA` mapping; the editor itself goes on to save the candidate's text.
   */
  function CheckData(globals: map<string, Value>): (v: Verdict)
    ensures v.Accepted? <==> DataName in globals && globals[DataName].VDict?
    ensures v.Accepted? ==> v.data == globals[DataName].entries
    ensures DataName !in globals ==> v == Rejected(MissingDataText)
    ensures DataName in globals && !globals[DataName].VDict? ==> v == Rejected(NotDictText)
  {
    if DataName !in globals then Rejected(MissingDataText)
    else if !globals[DataName].VDict? then Rejected(NotDictText)
    else Accepted(globals[DataName].entries)
  }

  /** Whether an evaluation outcome gets past both checks. */
  predicate Passes(outcome: EvalOutcome) {
    outcome.Bindings? && CheckData(GlobalsAfter(outcome.bound)).Accepted?
  }

  /**
   * An outcome passes exactly when the candidate ran without raising and bound
   * `DATA` to a dictionary; the helper names can never stand in for it.
   */
  lemma PassesIff(outcome: EvalOutcome)
    ensures Passes(outcome) <==>
      outcome.Bindings? && DataName in outcome.bound && outcome.bound[DataName].VDict?
  {
  }
}
