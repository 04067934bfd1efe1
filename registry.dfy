/**
 * The edge index built from a list of transitions, the dispatch through it
 * and the handler that CreateTransitionHandler returns (fsm.go:40-57,
 * 123-125, 147-166).
 */
module Registry {
  import opened States
  import opened Transitions

  // ---------------------------------------------------------------------
  // Keys
  // ---------------------------------------------------------------------

  /** The index key of the edge from `from` to `to`: "(" from "," to ")". */
  function Key(from: State, to: State): string {
    "(" + from + "," + to + ")"
  }

  /** For a fixed destination, different sources give different keys. */
  lemma KeyInjectiveInSource(f1: State, f2: State, to: State)
    requires Key(f1, to) == Key(f2, to)
    ensures f1 == f2
  {
    assert |f1| == |f2|;
    assert Key(f1, to)[1..|f1| + 1] == f1;
    assert Key(f2, to)[1..|f2| + 1] == f2;
  }

  /** In the key of a comma-free source, the first comma follows the source. */
  lemma FirstComma(f: State, to: State)
    requires ',' !in f
    ensures Key(f, to)[|f| + 1] == ','
    ensures forall i :: 1 <= i <= |f| ==> Key(f, to)[i] != ','
  {
    forall i | 1 <= i <= |f| ensures Key(f, to)[i] != ',' {
      assert Key(f, to)[i] == f[i - 1];
    }
  }

  /** Keys determine the pair when the source labels contain no comma. */
  lemma KeyInjective(f1: State, t1: State, f2: State, t2: State)
    requires ',' !in f1 && ',' !in f2
    requires Key(f1, t1) == Key(f2, t2)
    ensures f1 == f2 && t1 == t2
  {
    var k := Key(f1, t1);
    FirstComma(f1, t1);
    FirstComma(f2, t2);
    assert |f1| == |f2|;
    assert k[1..|f1| + 1] == f1;
    assert Key(f2, t2)[1..|f2| + 1] == f2;
    assert k[|f1| + 2..|k| - 1] == t1;
    assert Key(f2, t2)[|f2| + 2..|k| - 1] == t2;
  }

  /** Without that condition two different pairs can share a key. */
  lemma KeyCollision()
    ensures Key("a,b", "c") == Key("a", "b,c")
    ensures ("a,b", "c") != ("a", "b,c")
  {
    assert |"a,b"| != |"a"|;
  }

  // ---------------------------------------------------------------------
  // createEdges, as a specification
  // ---------------------------------------------------------------------

  /** The two panics of createEdges. */
  datatype Panic = NoSources | DuplicateKey(key: string)

  /** The text that createEdges panics with. */
  function PanicMessage(p: Panic): string {
    match p
    case NoSources => "Transition must have at least one from states"
    case DuplicateKey(key) => key + " is a duplicate transition"
  }

  /** The outcome of building the index: the map, or the panic that aborted it. */
  datatype Edges = Built(edges: map<string, Transition>) | Panicked(panic: Panic)

  /** Inserts the keys of the sources `fs` of `t`, in order, refusing a key already present. */
  function AddSources(m: map<string, Transition>, t: Transition, fs: seq<State>): Edges
    decreases |fs|
  {
    if fs == [] then Built(m)
    else
      match AddSources(m, t, fs[..|fs| - 1])
      case Panicked(p) => Panicked(p)
      case Built(m1) =>
        var key := Key(fs[|fs| - 1], t.to);
        if key in m1 then Panicked(DuplicateKey(key)) else Built(m1[key := t])
  }

  /** Processes one transition: it must have a source, then its keys are inserted. */
  function AddTransition(m: map<string, Transition>, t: Transition): Edges {
    if |t.from| == 0 then Panicked(NoSources) else AddSources(m, t, t.from)
  }

  /** The index that createEdges builds from `trans`, processed in order. */
  function Index(trans: seq<Transition>): Edges
    decreases |trans|
  {
    if trans == [] then Built(map[])
    else
      match Index(trans[..|trans| - 1])
      case Panicked(p) => Panicked(p)
      case Built(m) => AddTransition(m, trans[|trans| - 1])
  }

  lemma {:induction false} AddSourcesPanicStays(m: map<string, Transition>, t: Transition, fs: seq<State>, j: nat)
    requires j <= |fs| && AddSources(m, t, fs[..j]).Panicked?
    ensures AddSources(m, t, fs) == AddSources(m, t, fs[..j])
    decreases |fs| - j
  {
    if j < |fs| {
      var p := fs[..|fs| - 1];
      assert p[..j] == fs[..j];
      AddSourcesPanicStays(m, t, p, j);
    } else {
      assert fs[..j] == fs;
    }
  }

  lemma {:induction false} IndexPanicStays(trans: seq<Transition>, i: nat)
    requires i <= |trans| && Index(trans[..i]).Panicked?
    ensures Index(trans) == Index(trans[..i])
    decreases |trans| - i
  {
    if i < |trans| {
      var p := trans[..|trans| - 1];
      assert p[..i] == trans[..i];
      IndexPanicStays(p, i);
    } else {
      assert trans[..i] == trans;
    }
  }

  // ---------------------------------------------------------------------
  // createEdges, the loop
  // ---------------------------------------------------------------------

  /** createEdges: fills the map in nested loops, checking before every insert. */
  method CreateEdges(trans: seq<Transition>) returns (r: Edges)
    ensures r == Index(trans)
  {
    var edges: map<string, Transition> := map[];
    for i := 0 to |trans|
      invariant Index(trans[..i]) == Built(edges)
    {
      var t := trans[i];
      assert trans[..i + 1][..i] == trans[..i];
      if |t.from| == 0 {
        IndexPanicStays(trans, i + 1);
        return Panicked(NoSources);
      }
      ghost var before := edges;
      for j := 0 to |t.from|
        invariant AddSources(before, t, t.from[..j]) == Built(edges)
      {
        assert t.from[..j + 1][..j] == t.from[..j];
        var key := Key(t.from[j], t.to);
        if key in edges {
          AddSourcesPanicStays(before, t, t.from, j + 1);
          IndexPanicStays(trans, i + 1);
          return Panicked(DuplicateKey(key));
        }
        edges := edges[key := t];
      }
      assert t.from[..|t.from|] == t.from;
    }
    assert trans[..|trans|] == trans;
    return Built(edges);
  }

  // ---------------------------------------------------------------------
  // What a successful build means
  // ---------------------------------------------------------------------

  /** Every transition has at least one source state and lists none twice. */
  predicate ProperSources(trans: seq<Transition>) {
    forall i :: 0 <= i < |trans| ==> trans[i].from != [] && NoRepeats(trans[i].from)
  }

  /** No key is produced by two different transitions. */
  predicate DisjointKeys(trans: seq<Transition>) {
    forall i, j, f, g :: 0 <= i < j < |trans| && f in trans[i].from && g in trans[j].from ==>
      Key(f, trans[i].to) != Key(g, trans[j].to)
  }

  /** The condition under which createEdges returns instead of panicking. */
  predicate WellFormed(trans: seq<Transition>) {
    ProperSources(trans) && DisjointKeys(trans)
  }

  /** Key `k` is produced by some source of some transition of `trans`. */
  ghost predicate Declared(trans: seq<Transition>, k: string) {
    exists i, f :: 0 <= i < |trans| && f in trans[i].from && k == Key(f, trans[i].to)
  }

  /** `m` maps the key of each declared edge to its transition and holds nothing else. */
  ghost predicate Indexes(trans: seq<Transition>, m: map<string, Transition>) {
    (forall i, f :: 0 <= i < |trans| && f in trans[i].from ==>
      Key(f, trans[i].to) in m && m[Key(f, trans[i].to)] == trans[i])
    && (forall k :: k in m ==> Declared(trans, k))
  }

  /** `m'` extends `m` by the keys of the sources `fs` of `t`, each mapped to `t`. */
  ghost predicate AddsExactly(m: map<string, Transition>, t: Transition, fs: seq<State>, m': map<string, Transition>) {
    (forall k :: k in m ==> k in m' && m'[k] == m[k])
    && (forall f :: f in fs ==> Key(f, t.to) in m' && m'[Key(f, t.to)] == t)
    && (forall k :: k in m' ==> k in m || exists f :: f in fs && k == Key(f, t.to))
  }

  lemma {:induction false} AddSourcesSpec(m: map<string, Transition>, t: Transition, fs: seq<State>)
    ensures AddSources(m, t, fs).Built? <==> NoRepeats(fs) && forall f :: f in fs ==> Key(f, t.to) !in m
    ensures AddSources(m, t, fs).Built? ==> AddsExactly(m, t, fs, AddSources(m, t, fs).edges)
    ensures AddSources(m, t, fs).Panicked? ==> AddSources(m, t, fs).panic.DuplicateKey?
    decreases |fs|
  {
    if fs != [] {
      var p, x := fs[..|fs| - 1], fs[|fs| - 1];
      assert fs == p + [x];
      AddSourcesSpec(m, t, p);
      NoRepeatsSnoc(p, x);
      var key := Key(x, t.to);
      match AddSources(m, t, p)
      case Panicked(_) =>
      case Built(m1) =>
        if key in m1 {
          if key !in m {
            var f :| f in p && key == Key(f, t.to);
            KeyInjectiveInSource(f, x, t.to);
          }
        } else {
          var m2 := m1[key := t];
          assert AddSources(m, t, fs) == Built(m2);
          forall k | k in m2 ensures k in m || exists f :: f in fs && k == Key(f, t.to) {
            if k != key && k !in m {
              var f :| f in p && k == Key(f, t.to);
              assert f in fs;
            } else if k == key {
              assert x in fs;
            }
          }
        }
    }
  }

  lemma WellFormedSnoc(p: seq<Transition>, t: Transition)
    ensures WellFormed(p + [t]) <==>
      WellFormed(p) && t.from != [] && NoRepeats(t.from)
      && forall i, f, g :: 0 <= i < |p| && f in p[i].from && g in t.from ==> Key(f, p[i].to) != Key(g, t.to)
  {
    var s := p + [t];
    assert forall i :: 0 <= i < |p| ==> s[i] == p[i];
    assert s[|p|] == t;
  }

  /** Against an index of `p`, the keys of `t` are fresh exactly when no transition of `p` produces one. */
  lemma FreshKeys(p: seq<Transition>, m: map<string, Transition>, t: Transition)
    requires Indexes(p, m)
    ensures (forall i, f, g :: 0 <= i < |p| && f in p[i].from && g in t.from ==> Key(f, p[i].to) != Key(g, t.to))
        <==> forall g :: g in t.from ==> Key(g, t.to) !in m
  {
  }

  /** Adding the keys of `t` to an index of `p` gives an index of p + [t]. */
  lemma IndexesSnoc(p: seq<Transition>, m: map<string, Transition>, t: Transition, m': map<string, Transition>)
    requires Indexes(p, m) && AddsExactly(m, t, t.from, m')
    ensures Indexes(p + [t], m')
  {
    var trans := p + [t];
    forall i, f | 0 <= i < |trans| && f in trans[i].from
      ensures Key(f, trans[i].to) in m' && m'[Key(f, trans[i].to)] == trans[i]
    {
      if i < |p| {
        assert trans[i] == p[i];
      }
    }
    forall k | k in m' ensures Declared(trans, k) {
      if k in m {
        var i, f :| 0 <= i < |p| && f in p[i].from && k == Key(f, p[i].to);
        assert trans[i] == p[i];
      } else {
        var f :| f in t.from && k == Key(f, t.to);
        assert trans[|p|] == t;
      }
    }
  }

  /**
   * Building the index succeeds exactly when every transition has a source,
   * none names a source twice and no key comes from two transitions; the
   * index then maps every declared edge's key to its transition and holds
   * no other key.
   */
  lemma {:induction false} IndexSpec(trans: seq<Transition>)
    ensures Index(trans).Built? <==> WellFormed(trans)
    ensures Index(trans).Built? ==> Indexes(trans, Index(trans).edges)
    decreases |trans|
  {
    if trans != [] {
      var p, t := trans[..|trans| - 1], trans[|trans| - 1];
      assert trans == p + [t];
      IndexSpec(p);
      WellFormedSnoc(p, t);
      match Index(p)
      case Panicked(_) =>
      case Built(m) =>
        if t.from != [] {
          AddSourcesSpec(m, t, t.from);
          FreshKeys(p, m, t);
          if Index(trans).Built? {
            IndexesSnoc(p, m, t, Index(trans).edges);
          }
        }
    }
  }

  /** A well-formed list always builds. */
  lemma WellFormedBuilds(trans: seq<Transition>)
    requires WellFormed(trans)
    ensures Index(trans).Built?
  {
    IndexSpec(trans);
  }

  /** A transition without source states makes the build panic. */
  lemma EmptySourcesPanic(trans: seq<Transition>, i: nat)
    requires i < |trans| && trans[i].from == []
    ensures Index(trans).Panicked?
  {
    IndexSpec(trans);
  }

  /** A transition that names one source state twice makes the build panic. */
  lemma RepeatedSourcePanics(trans: seq<Transition>, i: nat, j1: nat, j2: nat)
    requires i < |trans| && j1 < j2 < |trans[i].from| && trans[i].from[j1] == trans[i].from[j2]
    ensures Index(trans).Panicked?
  {
    IndexSpec(trans);
  }

  /** Two transitions that share an edge make the build panic. */
  lemma SharedEdgePanics(trans: seq<Transition>, i: nat, j: nat, f: State)
    requires i < j < |trans| && f in trans[i].from && f in trans[j].from && trans[i].to == trans[j].to
    ensures Index(trans).Panicked?
  {
    IndexSpec(trans);
  }

  /** The source labels of `trans` contain no comma. */
  predicate CommaFreeSources(trans: seq<Transition>) {
    forall i, f :: 0 <= i < |trans| && f in trans[i].from ==> ',' !in f
  }

  /** With comma-free source labels, distinct keys mean distinct (from, to) edges. */
  lemma DisjointKeysIsDisjointEdges(trans: seq<Transition>)
    requires CommaFreeSources(trans)
    ensures DisjointKeys(trans) <==>
      forall i, j, f :: 0 <= i < j < |trans| && f in trans[i].from && f in trans[j].from ==> trans[i].to != trans[j].to
  {
    if forall i, j, f :: 0 <= i < j < |trans| && f in trans[i].from && f in trans[j].from ==> trans[i].to != trans[j].to {
      forall i, j, f, g | 0 <= i < j < |trans| && f in trans[i].from && g in trans[j].from
        ensures Key(f, trans[i].to) != Key(g, trans[j].to)
      {
        if Key(f, trans[i].to) == Key(g, trans[j].to) {
          KeyInjective(f, trans[i].to, g, trans[j].to);
        }
      }
    }
  }

  /** Two edges (a,b -> c) and (a -> b,c) are different but collide, so the build panics. */
  lemma CollidingEdgesPanic()
    ensures Index([Transition("", ["a,b"], "c", None), Transition("", ["a"], "b,c", None)]).Panicked?
  {
    var trans := [Transition("", ["a,b"], "c", None), Transition("", ["a"], "b,c", None)];
    KeyCollision();
    assert "a,b" in trans[0].from && "a" in trans[1].from;
    IndexSpec(trans);
  }

  /** Inserting `fs` can only panic on a duplicate key, and that key is the key of one of them. */
  lemma {:induction false} AddSourcesDuplicateIsKey(m: map<string, Transition>, t: Transition, fs: seq<State>)
    requires AddSources(m, t, fs).Panicked?
    ensures AddSources(m, t, fs).panic.DuplicateKey?
    ensures exists f :: f in fs && AddSources(m, t, fs).panic.key == Key(f, t.to)
    decreases |fs|
  {
    var p := fs[..|fs| - 1];
    var last := fs[|fs| - 1];
    match AddSources(m, t, p)
    case Panicked(_) =>
      AddSourcesDuplicateIsKey(m, t, p);
      var f :| f in p && AddSources(m, t, p).panic.key == Key(f, t.to);
      assert f in fs;
    case Built(_) =>
      assert last in fs;
  }

  /**
   * The text of the panic that stops a build names its cause: the fixed
   * message for a transition without sources, or the key of a declared edge
   * followed by " is a duplicate transition".
   */
  lemma {:induction false} PanicMessageNamesCause(trans: seq<Transition>)
    requires Index(trans).Panicked?
    ensures Index(trans).panic.NoSources? ==>
      (exists i :: 0 <= i < |trans| && trans[i].from == [])
      && PanicMessage(Index(trans).panic) == "Transition must have at least one from states"
    ensures Index(trans).panic.DuplicateKey? ==>
      exists i, f :: 0 <= i < |trans| && f in trans[i].from
        && PanicMessage(Index(trans).panic) == Key(f, trans[i].to) + " is a duplicate transition"
    decreases |trans|
  {
    var p := trans[..|trans| - 1];
    var t := trans[|trans| - 1];
    var k := |trans| - 1;
    match Index(p)
    case Panicked(_) =>
      PanicMessageNamesCause(p);
      assert forall i :: 0 <= i < |p| ==> p[i] == trans[i];
    case Built(m) =>
      if |t.from| != 0 {
        AddSourcesDuplicateIsKey(m, t, t.from);
        var f :| f in t.from && Index(trans).panic.key == Key(f, t.to);
        assert 0 <= k < |trans| && f in trans[k].from;
      } else {
        assert trans[k].from == [];
      }
  }

  // ---------------------------------------------------------------------
  // doTransition
  // ---------------------------------------------------------------------

  /**
   * doTransition: looks the key up; a missing key is the invalid-transition
   * error, a present one runs the callback that getCallback picks.
   */
  function DoTransition(edges: map<string, Transition>, from: State, to: State,
                        options: seq<TransitionConfig>, invoke: Invoker): Outcome
  {
    var c := ConfigOf(options);
    var key := Key(from, to);
    if key !in edges then Fail(NotValidTransition(from, to))
    else Run(GetCallback(edges[key], c), invoke, edges[key], from, to)
  }

  /** A key that no declared edge produces is refused with the invalid-transition error. */
  lemma DispatchRejectsUnknownKey(trans: seq<Transition>, from: State, to: State,
                                  options: seq<TransitionConfig>, invoke: Invoker)
    requires Index(trans).Built?
    requires forall i, f :: 0 <= i < |trans| && f in trans[i].from ==> Key(f, trans[i].to) != Key(from, to)
    ensures DoTransition(Index(trans).edges, from, to, options, invoke) == Fail(NotValidTransition(from, to))
  {
    IndexSpec(trans);
  }

  /** With comma-free labels, a pair that no transition declares is refused. */
  lemma DispatchRejectsUndeclared(trans: seq<Transition>, from: State, to: State,
                                  options: seq<TransitionConfig>, invoke: Invoker)
    requires Index(trans).Built?
    requires ',' !in from && CommaFreeSources(trans)
    requires forall i :: 0 <= i < |trans| && from in trans[i].from ==> trans[i].to != to
    ensures DoTransition(Index(trans).edges, from, to, options, invoke) == Fail(NotValidTransition(from, to))
  {
    forall i, f | 0 <= i < |trans| && f in trans[i].from ensures Key(f, trans[i].to) != Key(from, to) {
      if Key(f, trans[i].to) == Key(from, to) {
        KeyInjective(f, trans[i].to, from, to);
      }
    }
    DispatchRejectsUnknownKey(trans, from, to, options, invoke);
  }

  /**
   * A declared edge, self-loops included, runs the callback chosen for its
   * transition on that transition and returns exactly that callback's result.
   */
  lemma DispatchRunsDeclared(trans: seq<Transition>, i: nat, from: State,
                             options: seq<TransitionConfig>, invoke: Invoker)
    requires Index(trans).Built?
    requires i < |trans| && from in trans[i].from
    ensures DoTransition(Index(trans).edges, from, trans[i].to, options, invoke)
         == Run(GetCallback(trans[i], ConfigOf(options)), invoke, trans[i], from, trans[i].to)
  {
    IndexSpec(trans);
  }

  /** A colliding key dispatches a pair that no transition declares. */
  lemma CollidingKeyDispatches(invoke: Invoker)
    ensures Index([Transition("", ["a"], "b,c", None)]).Built?
    ensures DoTransition(Index([Transition("", ["a"], "b,c", None)]).edges, "a,b", "c", [], invoke) == Ok
  {
    var t := Transition("", ["a"], "b,c", None);
    IndexSpec([t]);
    KeyCollision();
    assert "a" in [t][0].from;
  }

  // ---------------------------------------------------------------------
  // Transition.TransitionFrom
  // ---------------------------------------------------------------------

  /** What a call returns, or the panic that aborted it. */
  datatype Dispatch = Returned(outcome: Outcome) | Aborted(panic: Panic)

  /** TransitionFrom: builds the index of `t` alone and dispatches (from, t.to) through it. */
  function TransitionFrom(t: Transition, from: State, options: seq<TransitionConfig>, invoke: Invoker): Dispatch {
    match Index([t])
    case Panicked(p) => Aborted(p)
    case Built(edges) => Returned(DoTransition(edges, from, t.to, options, invoke))
  }

  /**
   * The single-transition check panics when `t` has no source or repeats
   * one; otherwise it runs the chosen callback exactly when `from` is a
   * source of `t`, and refuses every other state.
   */
  lemma TransitionFromSpec(t: Transition, from: State, options: seq<TransitionConfig>, invoke: Invoker)
    ensures t.from == [] ==> TransitionFrom(t, from, options, invoke) == Aborted(NoSources)
    ensures t.from != [] && !NoRepeats(t.from) ==>
      TransitionFrom(t, from, options, invoke).Aborted? && TransitionFrom(t, from, options, invoke).panic.DuplicateKey?
    ensures t.from != [] && NoRepeats(t.from) && from in t.from ==>
      TransitionFrom(t, from, options, invoke) == Returned(Run(GetCallback(t, ConfigOf(options)), invoke, t, from, t.to))
    ensures t.from != [] && NoRepeats(t.from) && from !in t.from ==>
      TransitionFrom(t, from, options, invoke) == Returned(Fail(NotValidTransition(from, t.to)))
  {
    var trans := [t];
    IndexSpec(trans);
    assert trans[..0] == [];
    if t.from != [] {
      AddSourcesSpec(map[], t, t.from);
    }
    if Index(trans).Built? {
      var m := Index(trans).edges;
      if Key(from, t.to) in m {
        var i, f :| 0 <= i < 1 && f in trans[i].from && Key(from, t.to) == Key(f, trans[i].to);
        KeyInjectiveInSource(from, f, t.to);
      }
    }
  }

  // ---------------------------------------------------------------------
  // CreateTransitionHandler
  // ---------------------------------------------------------------------

  /** The closure that CreateTransitionHandler returns: an index built once and only read. */
  class Handler {
    const edges: map<string, Transition>
    ghost const trans: seq<Transition>

    ghost predicate Valid() {
      Index(trans) == Built(edges)
    }

    constructor (trans: seq<Transition>, edges: map<string, Transition>)
      requires Index(trans) == Built(edges)
      ensures this.trans == trans && this.edges == edges && Valid()
    {
      this.trans := trans;
      this.edges := edges;
    }

    /** Calling the handler: doTransition on the captured index. */
    method Handle(from: State, to: State, options: seq<TransitionConfig>, invoke: Invoker) returns (r: Outcome)
      requires Valid()
      ensures r == DoTransition(edges, from, to, options, invoke)
      ensures (forall i, f :: 0 <= i < |trans| && f in trans[i].from ==> Key(f, trans[i].to) != Key(from, to)) ==>
        r == Fail(NotValidTransition(from, to))
      ensures forall i :: 0 <= i < |trans| && from in trans[i].from && to == trans[i].to ==>
        r == Run(GetCallback(trans[i], ConfigOf(options)), invoke, trans[i], from, to)
    {
      var c := GetConfig(options);
      var key := Key(from, to);
      if key !in edges {
        r := Fail(NotValidTransition(from, to));
      } else {
        var t := edges[key];
        r := Run(GetCallback(t, c), invoke, t, from, to);
      }
      IndexSpec(trans);
    }
  }

  /** The handler, or the panic raised while building its index. */
  datatype Creation = Ready(handler: Handler) | Fatal(panic: Panic)

  /** CreateTransitionHandler: builds the index eagerly and captures it in a handler. */
  method CreateTransitionHandler(trans: seq<Transition>) returns (r: Creation)
    ensures r.Ready? <==> WellFormed(trans)
    ensures r.Ready? ==> fresh(r.handler) && r.handler.trans == trans && r.handler.Valid()
    ensures r.Fatal? ==> Index(trans) == Panicked(r.panic)
  {
    var e := CreateEdges(trans);
    IndexSpec(trans);
    match e
    case Panicked(p) =>
      r := Fatal(p);
    case Built(edges) =>
      var h := new Handler(trans, edges);
      r := Ready(h);
  }
}
