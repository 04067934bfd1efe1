/**
 * Transitions, their functional options and the choice of the callback
 * to run (fsm.go:12-38, 91-145).
 */
module Transitions {
  import opened States

  datatype Option<T> = None | Some(value: T)

  /**
   * A callback is identified by an opaque id; what it returns is given by
   * an `Invoker`. `None` stands for Go's nil func value.
   */
  type CallbackId = nat

  /** The error values a dispatch can return. */
  datatype Error =
    | NotValidTransition(from: State, to: State)   // built by doTransition
    | CallbackError(message: string)               // any error a callback reports

  /** A Go `error` result: nil or an error value. */
  datatype Outcome = Ok | Fail(error: Error)

  /** The transition record: name, source states, destination, declared callback. */
  datatype Transition = Transition(name: string, from: seq<State>, to: State, callback: Option<CallbackId>)

  /** What callback `id` returns when called with (transition, from, to). */
  type Invoker = (CallbackId, Transition, State, State) -> Outcome

  /** The two functional options, WithCallback and WithName. */
  datatype TransitionConfig = WithCallback(cb: Option<CallbackId>) | WithName(name: string)

  /** The config struct that the options write into. */
  datatype Config = Config(name: string, callback: Option<CallbackId>)

  /** The text of an error value, as fmt prints it. */
  function Message(e: Error): string {
    match e
    case NotValidTransition(from, to) =>
      "\"" + Display(from) + "\" -> \"" + Display(to) + "\" is not a valid transition"
    case CallbackError(m) => m
  }

  // ---------------------------------------------------------------------
  // getConfig: the options are applied in order, so the last one wins
  // ---------------------------------------------------------------------

  /** The name given by the last WithName option, "" when there is none. */
  function LastName(options: seq<TransitionConfig>): string
    decreases |options|
  {
    if options == [] then ""
    else if options[|options| - 1].WithName? then options[|options| - 1].name
    else LastName(options[..|options| - 1])
  }

  /** The callback given by the last WithCallback option, nil when there is none. */
  function LastCallback(options: seq<TransitionConfig>): Option<CallbackId>
    decreases |options|
  {
    if options == [] then None
    else if options[|options| - 1].WithCallback? then options[|options| - 1].cb
    else LastCallback(options[..|options| - 1])
  }

  /** The configuration that a list of options produces. */
  function ConfigOf(options: seq<TransitionConfig>): Config {
    Config(LastName(options), LastCallback(options))
  }

  /** A WithName option that no later WithName follows decides the name. */
  lemma {:induction false} LastNameWins(options: seq<TransitionConfig>, k: nat)
    requires k < |options| && options[k].WithName?
    requires forall j :: k < j < |options| ==> !options[j].WithName?
    ensures LastName(options) == options[k].name
    decreases |options|
  {
    if k < |options| - 1 {
      var p := options[..|options| - 1];
      assert forall j :: k < j < |p| ==> p[j] == options[j];
      LastNameWins(p, k);
    }
  }

  /** Without a WithName option the name is empty. */
  lemma {:induction false} LastNameDefault(options: seq<TransitionConfig>)
    requires forall j :: 0 <= j < |options| ==> !options[j].WithName?
    ensures LastName(options) == ""
    decreases |options|
  {
    if options != [] {
      var p := options[..|options| - 1];
      assert forall j :: 0 <= j < |p| ==> p[j] == options[j];
      LastNameDefault(p);
    }
  }

  /** A WithCallback option that no later WithCallback follows decides the callback. */
  lemma {:induction false} LastCallbackWins(options: seq<TransitionConfig>, k: nat)
    requires k < |options| && options[k].WithCallback?
    requires forall j :: k < j < |options| ==> !options[j].WithCallback?
    ensures LastCallback(options) == options[k].cb
    decreases |options|
  {
    if k < |options| - 1 {
      var p := options[..|options| - 1];
      assert forall j :: k < j < |p| ==> p[j] == options[j];
      LastCallbackWins(p, k);
    }
  }

  /** Without a WithCallback option the callback is nil. */
  lemma {:induction false} LastCallbackDefault(options: seq<TransitionConfig>)
    requires forall j :: 0 <= j < |options| ==> !options[j].WithCallback?
    ensures LastCallback(options) == None
    decreases |options|
  {
    if options != [] {
      var p := options[..|options| - 1];
      assert forall j :: 0 <= j < |p| ==> p[j] == options[j];
      LastCallbackDefault(p);
    }
  }

  /** getConfig: starts from the zero config and lets every option write into it. */
  method GetConfig(options: seq<TransitionConfig>) returns (c: Config)
    ensures c.name == LastName(options)
    ensures c.callback == LastCallback(options)
  {
    c := Config("", None);
    for i := 0 to |options|
      invariant c == ConfigOf(options[..i])
    {
      assert options[..i + 1][..i] == options[..i];
      match options[i]
      case WithCallback(cb) =>
        c := c.(callback := cb);
      case WithName(name) =>
        c := c.(name := name);
    }
    assert options[..|options|] == options;
  }

  // ---------------------------------------------------------------------
  // NewTransition
  // ---------------------------------------------------------------------

  /** NewTransition: stores the states unchanged and the configured name and callback. */
  function NewTransition(from: seq<State>, to: State, options: seq<TransitionConfig>): (t: Transition)
    ensures t.from == from && t.to == to
    ensures t.name == LastName(options) && t.callback == LastCallback(options)
  {
    var c := ConfigOf(options);
    Transition(c.name, from, to, c.callback)
  }

  // ---------------------------------------------------------------------
  // getCallback and calling the chosen callback
  // ---------------------------------------------------------------------

  /** The callback that a dispatch runs. */
  datatype Callback = NoOp | Invoke(id: CallbackId)

  /** getCallback: the per-call callback, else the declared one, else the no-op. */
  function GetCallback(t: Transition, c: Config): Callback {
    if c.callback.Some? then Invoke(c.callback.value)
    else if t.callback.Some? then Invoke(t.callback.value)
    else NoOp
  }

  /** Calls `cb`; the no-op returns nil. */
  function Run(cb: Callback, invoke: Invoker, t: Transition, from: State, to: State): Outcome {
    match cb
    case NoOp => Ok
    case Invoke(id) => invoke(id, t, from, to)
  }

  /**
   * The precedence of callbacks, stated on the call's option list: the last
   * WithCallback of the call, if it is not nil, wins; otherwise the declared
   * callback; otherwise the no-op.
   */
  lemma CallbackPrecedence(t: Transition, options: seq<TransitionConfig>, k: nat)
    requires k < |options| && options[k].WithCallback?
    requires forall j :: k < j < |options| ==> !options[j].WithCallback?
    ensures options[k].cb.Some? ==> GetCallback(t, ConfigOf(options)) == Invoke(options[k].cb.value)
    ensures options[k].cb.None? && t.callback.Some? ==> GetCallback(t, ConfigOf(options)) == Invoke(t.callback.value)
    ensures options[k].cb.None? && t.callback.None? ==> GetCallback(t, ConfigOf(options)) == NoOp
  {
    LastCallbackWins(options, k);
  }

  /** Without a per-call WithCallback the declared callback runs, or the no-op. */
  lemma DeclaredCallbackPrecedence(t: Transition, options: seq<TransitionConfig>)
    requires forall j :: 0 <= j < |options| ==> !options[j].WithCallback?
    ensures t.callback.Some? ==> GetCallback(t, ConfigOf(options)) == Invoke(t.callback.value)
    ensures t.callback.None? ==> GetCallback(t, ConfigOf(options)) == NoOp
  {
    LastCallbackDefault(options);
  }
}
