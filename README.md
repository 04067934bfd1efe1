# yafsm transition registry, modelled in Dafny

yafsm is a small Go library that checks state changes against a table of
declared transitions. A transition has one or more source states, one
destination state, an optional name and an optional callback. From a list of
transitions `CreateTransitionHandler` builds an index keyed by the string
`"(from,to)"`. It panics when a transition has no source state, or when a key
is produced twice. The handler then answers a call `(from, to)` in one of two
ways. If the key is missing it returns the error
`"<From>" -> "<To>" is not a valid transition`. If the key is present it runs
one callback and returns that callback's result unchanged. The callback is the
one given in the call's options, else the one declared on the transition,
else a no-op.

The model lives in four modules:

- `States` (states.dfy): the `State` label, `NewStates`, `Has`,
  `AsSortedStrings` with the in-place sort behind it, and `Display`, the
  rendering of a state that `strings.Title` gives.
- `Transitions` (transitions.dfy): the `Transition` record, the two
  functional options, `getConfig` (`GetConfig` and its specification
  `ConfigOf`), `NewTransition`, `getCallback` and calling the chosen
  callback.
- `Registry` (registry.dfy): the key encoding, `createEdges` (the loop
  `CreateEdges` and its specification `Index`), what a successful build means
  (`WellFormed`, `Indexes`), `doTransition`, `TransitionFrom`, and the handler
  class with `CreateTransitionHandler`.
- `Examples` (examples.dfy): the scenarios of the repository's tests, stated
  as lemmas about the model.

Modelling choices:

- A callback is an opaque identifier (`CallbackId`). What callback `id`
  returns when it is called with `(transition, from, to)` is given by a
  parameter `invoke: Invoker`. So "the dispatch returns exactly the result of
  this callback" is the equation `result == invoke(id, t, from, to)`. A Go
  nil func is `None`. `WithCallback(None)` is `WithCallback(nil)`, which
  resets the callback set by an earlier option.
- The panics of `createEdges` are explicit results: `Panicked(NoSources)` and
  `Panicked(DuplicateKey(key))`. `CreateTransitionHandler` returns
  `Fatal(panic)`, and `TransitionFrom` returns `Aborted(panic)`.
- A Go `error` is `Outcome`: `Ok` for nil, or `Fail(e)`. The invalid-transition
  error keeps its two states, and `Message` gives the text that fmt prints.
- The handler closure is the class `Handler`. Its constructor sets the index
  once in a `const` field, and `Handle` only reads it.
- `createEdges`, `getConfig`, `NewStates`, `Has`, `AsSortedStrings` and
  `sort.Strings` are loops (methods). Each is proved equal to a specification
  function, or proved to meet the property the source promises. The other
  operations are functions.

Behaviour of the code worth knowing:

- One transition that lists the same source state twice makes the build
  panic: the second insert finds its own key (fsm.go:47-51).
- The display form upper-cases the first letter of every word:
  `"in progress"` is rendered `In Progress`.
- Keys are strings, and the encoding is not injective. `("a,b", "c")` and
  `("a", "b,c")` both give `(a,b,c)` (`Registry.KeyCollision`). Two such
  transitions make the build panic (`Registry.CollidingEdgesPanic`). A handler
  built only from `a -> b,c` accepts the undeclared pair `("a,b", "c")`
  (`Registry.CollidingKeyDispatches`). Refusal of every undeclared pair is
  therefore proved only for comma-free source labels
  (`Registry.DispatchRejectsUndeclared`). Refusal of every pair whose key is
  undeclared needs no such condition (`Registry.DispatchRejectsUnknownKey`).
  For a fixed destination the key is injective, so `TransitionFrom` needs no
  such condition either.

## Model

| member | source | states |
|---|---|---|
| `States.NewStates` | fsm.go:63-70 | the new slice holds exactly the given states, in order |
| `States.Has` | fsm.go:72-80 | true exactly when the state occurs in the list |
| `States.AsSortedStrings` | fsm.go:82-89 | the result is sorted in string order and is a permutation of the labels |
| `States.SortStrings` | fsm.go:87 | sorts an array in place: each element is at most its successor, and the multiset of elements is unchanged |
| `States.SortedPermutationUnique` | fsm.go:87 | two sorted permutations of the same labels are equal, so any correct sort gives the result of sort.Strings |
| `States.AdjacentSortedIsSorted` | fsm.go:87 | a list whose neighbours are in order is sorted in full |
| `States.DisplayAt` | fsm.go:59-61 | the display form has the label's length; a character changes only at the start of a word, to its title case |
| `States.DisplayIdempotent` | fsm.go:59-61 | rendering a rendered label changes nothing |
| `Transitions.GetConfig` | fsm.go:20-26 | the config's name is that of the last WithName and its callback that of the last WithCallback |
| `Transitions.LastNameWins` | fsm.go:134-139 | a WithName that no later WithName follows decides the name |
| `Transitions.LastNameDefault` | fsm.go:20-26 | without a WithName the name is empty |
| `Transitions.LastCallbackWins` | fsm.go:127-132 | a WithCallback that no later WithCallback follows decides the callback, nil included |
| `Transitions.LastCallbackDefault` | fsm.go:20-26 | without a WithCallback the callback is nil |
| `Transitions.NewTransition` | fsm.go:141-145 | stores the states unchanged, and the name and callback of the last options |
| `Transitions.CallbackPrecedence` | fsm.go:28-38 | a non-nil per-call callback wins; a nil one gives way to the declared callback, else to the no-op |
| `Transitions.DeclaredCallbackPrecedence` | fsm.go:28-38 | without a per-call callback the declared callback runs, else the no-op |
| `Registry.KeyInjectiveInSource` | fsm.go:48 | for a fixed destination, equal keys mean equal sources |
| `Registry.KeyInjective` | fsm.go:48 | equal keys mean equal pairs when the source labels contain no comma |
| `Registry.KeyCollision` | fsm.go:48 | two different pairs give the same key |
| `Registry.CreateEdges` | fsm.go:40-57 | the nested loop returns the index, or the first panic, that the specification `Index` gives |
| `Registry.AddSourcesSpec` | fsm.go:47-54 | inserting a transition's sources succeeds exactly when no source repeats and no key is present yet; it then adds exactly those keys, each mapped to the transition |
| `Registry.IndexSpec` | fsm.go:40-57 | the build succeeds exactly when every transition has a source, none repeats a source and no key comes from two transitions; the index then maps every declared key to its transition and holds no other key |
| `Registry.EmptySourcesPanic` | fsm.go:43-45 | a transition without sources makes the build panic |
| `Registry.RepeatedSourcePanics` | fsm.go:47-51 | a transition that names a source twice makes the build panic |
| `Registry.SharedEdgePanics` | fsm.go:47-51 | two transitions declaring the same (from, to) edge make the build panic |
| `Registry.DisjointKeysIsDisjointEdges` | fsm.go:47-51 | with comma-free sources, distinct keys across transitions means distinct edges across transitions |
| `Registry.CollidingEdgesPanic` | fsm.go:47-51 | the different edges a,b -> c and a -> b,c make the build panic |
| `Registry.PanicMessageNamesCause` | fsm.go:43-51 | a build that panics either has a transition without sources and gives the fixed no-source text, or gives the key of a declared edge followed by " is a duplicate transition" |
| `Registry.DispatchRejectsUnknownKey` | fsm.go:158-162 | a key that no declared edge produces gives the invalid-transition error for (from, to) |
| `Registry.DispatchRejectsUndeclared` | fsm.go:158-162 | with comma-free labels, a pair that no transition declares gives the invalid-transition error |
| `Registry.DispatchRunsDeclared` | fsm.go:164-165 | a declared edge runs the callback chosen for its transition, on that transition, and returns its result |
| `Registry.CollidingKeyDispatches` | fsm.go:158-165 | an undeclared pair whose key collides with a declared one is dispatched |
| `Registry.TransitionFromSpec` | fsm.go:123-125 | panics without sources or with a repeated source; otherwise runs the chosen callback exactly when the state is a source, else gives the invalid-transition error |
| `Registry.Handler.constructor` | fsm.go:149-151 | the handler captures the index built from the list |
| `Registry.Handler.Handle` | fsm.go:150-152 | a call is doTransition on the captured index: an undeclared key is refused, a declared edge runs its chosen callback |
| `Registry.CreateTransitionHandler` | fsm.go:147-153 | returns a handler exactly when the list is well formed, else the build's panic |
| `Examples.KanbanWellFormed` | fsm_test.go:21-29 | the kanban table builds |
| `Examples.KanbanAccepts` | fsm_test.go:54-57 | todo -> in progress, in progress -> todo, verify -> done and the self-loop verify -> verify succeed |
| `Examples.KanbanRefuses` | fsm_test.go:58-61 | todo -> done, done -> verify, done -> done and todo -> foo are refused |
| `Examples.LightsMessage` | example_test.go:21-27 | the refusal of green -> red prints "Green" -> "Red" is not a valid transition |
| `Examples.LightsDispatch` | example_test.go:15-25 | green -> red is refused and green -> yellow succeeds |
| `Examples.SingleTransition` | fsm_test.go:77-124 | the declared callback runs for the declared source, a per-call callback replaces it, and another source is refused |

## Left out

- graph.go (`CreateDOTString`, `CreateTransitionsFromDOT`) is not part of this model. It only forwards to the gographviz library, whose DOT parsing and printing are not available. The importer also iterates Go maps, so its order is not determined.
- examples/trafficlight.go is a demo whose only behaviour is printing. Its edges are those of `Examples.Lights`; each of its transitions also carries a printing callback.
- Side effects of callbacks, and concurrent calls into a handler, are not modelled. A callback is a pure function of its arguments, given by `invoke`.
- A Go panic aborts the program unless it is recovered. The model returns the panic as a value and does not model `recover`.
- Transitions are compared as values. Go stores pointers, so two transitions with equal fields are distinct objects there. A nil `Transition` in the list, which makes Go fail with a nil dereference, is not modelled.
- The accessors `Name`, `From`, `To` and `GetCallback` are the fields of the `Transition` datatype. `From` returning the stored slice itself, so that callers could alias it, is not modelled.
- A nil `TransitionConfig` in the options of `NewTransition`, `TransitionFrom` or a handler call makes Go's `getConfig` panic when it calls the option (fsm.go:23). The `TransitionConfig` datatype has only the two options, so this panic is not modelled.
- A Go `State` is a byte string, while the model's `State` is a sequence of Unicode scalar values. Labels that are not valid UTF-8 cannot be represented. Go sorts those byte by byte and `strings.Title` reads their invalid bytes as U+FFFD; `States.LessEq` and `States.Display` agree with Go only for valid UTF-8 labels.
- `States.Display`: `unicode.ToTitle` is modelled for ASCII letters only. Other characters are left unchanged, since Unicode case tables are not available. The word boundaries (`isSeparator`) are modelled exactly.
- `States.SortStrings`: sort.Strings is implemented in the Go standard library, which is not shown. The model sorts by insertion. `States.SortedPermutationUnique` shows that the result does not depend on the algorithm.
- `Registry.DispatchRejectsUndeclared`: states the refusal of undeclared pairs only for comma-free labels, because the string key does not separate other pairs (see `Registry.CollidingKeyDispatches`).
