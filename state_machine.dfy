/** The state-machine compiler and its runtime (roguelike/sources/stateMachine.cpp).
    A machine is a YAML map `machine -> { state -> [ {target: expression}, ... ] }`.
    Loading registers one transition rule per listed transition and one applier per
    machine; an entity's current state per machine is a map entry, so it is exclusive. */
module StateMachine {
  import opened Yaml
  import opened EventExpressions

  /** "When in `from` of machine `sm` and `pred` holds, move to `to`." */
  datatype Rule = Rule(sm: string, from: string, to: string, pred: Expr)

  /** What addSmToEntity does for a machine: enter `initial` and tag `tracked`. */
  datatype Applier = Applier(initial: string, tracked: set<string>)

  /** The tracker's registrations: appliers by machine name and rules in load order. */
  datatype Registry = Registry(appliers: map<string, Applier>, rules: seq<Rule>)

  /** Load-time errors; all are fatal in the source. */
  datatype LoadError =
    | RootNotMap
    | StatesNotMap(sm: string)
    | TransitionsNotSequence(sm: string, state: string)
    | TransitionNotMap(sm: string, state: string)
    | BadExpression(error: ParseError)

  datatype Outcome<A> = Done(value: A) | Failed(error: LoadError)

  /** Left fold over a sequence that stops at the first error. Defined on the
      last element so that a loop over a prefix follows it step by step. */
  function Fold<A, X>(step: (A, X) -> Outcome<A>, a: A, xs: seq<X>): Outcome<A>
    decreases |xs|
  {
    if xs == [] then Done(a)
    else
      match Fold(step, a, xs[..|xs| - 1])
      case Failed(err) => Failed(err)
      case Done(b) => step(b, xs[|xs| - 1])
  }

  lemma FoldExtend<A, X>(step: (A, X) -> Outcome<A>, a: A, xs: seq<X>, i: nat)
    requires i < |xs|
    ensures Fold(step, a, xs[..i + 1]) ==
            match Fold(step, a, xs[..i])
            case Failed(err) => Failed(err)
            case Done(b) => step(b, xs[i])
  {
    assert xs[..i + 1][..i] == xs[..i];
  }

  /** Once a step fails, the whole fold fails with that error. */
  lemma {:induction false} FoldStops<A, X>(step: (A, X) -> Outcome<A>, a: A, xs: seq<X>, i: nat, err: LoadError)
    requires i < |xs| && Fold(step, a, xs[..i]).Done?
    requires step(Fold(step, a, xs[..i]).value, xs[i]) == Failed(err)
    ensures Fold(step, a, xs) == Failed(err)
    decreases |xs| - i
  {
    if i == |xs| - 1 {
      assert xs[..i] == xs[..|xs| - 1];
    } else {
      assert xs[..|xs| - 1][..i] == xs[..i];
      FoldStops(step, a, xs[..|xs| - 1], i, err);
    }
  }

  /** Accumulated rules and the events tracked so far for the machine being compiled. */
  datatype Acc = Acc(rules: seq<Rule>, tracked: set<string>)

  /** One transition `{target: expression}`: only the map's first entry is read. */
  function TransitionStep(sm: string, state: string, acc: Acc, t: Node): Outcome<Acc> {
    if !t.Mapping? || |t.entries| == 0 then Failed(TransitionNotMap(sm, state))
    else
      match Parse(t.entries[0].value)
      case Err(pe) => Failed(BadExpression(pe))
      case Ok(e) => Done(Acc(acc.rules + [Rule(sm, state, t.entries[0].key, e)], acc.tracked + Tracked(e)))
  }

  function TransitionStepFor(sm: string, state: string): (Acc, Node) -> Outcome<Acc> {
    (acc, t) => TransitionStep(sm, state, acc, t)
  }

  /** One state `state: [transitions]`; its value must be a sequence. */
  function StateStep(sm: string, acc: Acc, s: Entry): Outcome<Acc> {
    if !s.value.Sequence? then Failed(TransitionsNotSequence(sm, s.key))
    else Fold(TransitionStepFor(sm, s.key), acc, s.value.items)
  }

  function StateStepFor(sm: string): (Acc, Entry) -> Outcome<Acc> {
    (acc, s) => StateStep(sm, acc, s)
  }

  /** One machine: skipped when already loaded or empty; otherwise its states are
      compiled and the applier enters the first declared state. */
  function MachineStep(reg: Registry, m: Entry): Outcome<Registry> {
    if m.key in reg.appliers || Size(m.value) == 0 then Done(reg)
    else if !m.value.Mapping? then Failed(StatesNotMap(m.key))
    else
      match Fold(StateStepFor(m.key), Acc(reg.rules, {}), m.value.entries)
      case Failed(err) => Failed(err)
      case Done(acc) =>
        Done(Registry(reg.appliers[m.key := Applier(m.value.entries[0].key, acc.tracked)], acc.rules))
  }

  /** The registrations after loading `root` on top of `reg`. */
  function LoadSpec(reg: Registry, root: Node): Outcome<Registry> {
    if !root.Mapping? then Failed(RootNotMap)
    else Fold(MachineStep, reg, root.entries)
  }

  /** The events mentioned by a list of rules. */
  function TrackedRules(rs: seq<Rule>): set<string> {
    if rs == [] then {} else TrackedRules(rs[..|rs| - 1]) + Tracked(rs[|rs| - 1].pred)
  }

  /** `b` is `a` with rules of machine `sm` appended, and exactly their events added
      to the tracked set. */
  ghost predicate Extends(sm: string, a: Acc, b: Acc) {
    && |a.rules| <= |b.rules| && b.rules[..|a.rules|] == a.rules
    && b.tracked == a.tracked + TrackedRules(b.rules[|a.rules|..])
    && forall i :: |a.rules| <= i < |b.rules| ==> b.rules[i].sm == sm
  }

  lemma TrackedRulesAppend(rs: seq<Rule>, r: Rule)
    ensures TrackedRules(rs + [r]) == TrackedRules(rs) + Tracked(r.pred)
  {
    assert (rs + [r])[..|rs|] == rs;
  }

  lemma ExtendsTrans(sm: string, a: Acc, b: Acc, c: Acc)
    requires Extends(sm, a, b) && Extends(sm, b, c)
    ensures Extends(sm, a, c)
  {
    var ab := b.rules[|a.rules|..];
    var bc := c.rules[|b.rules|..];
    assert c.rules[|a.rules|..] == ab + bc;
    TrackedRulesConcat(ab, bc);
  }

  lemma {:induction false} TrackedRulesConcat(xs: seq<Rule>, ys: seq<Rule>)
    ensures TrackedRules(xs + ys) == TrackedRules(xs) + TrackedRules(ys)
    decreases |ys|
  {
    if ys == [] {
      assert xs + ys == xs;
    } else {
      var init := ys[..|ys| - 1];
      assert xs + ys == (xs + init) + [ys[|ys| - 1]];
      TrackedRulesAppend(xs + init, ys[|ys| - 1]);
      TrackedRulesConcat(xs, init);
    }
  }

  lemma {:induction false} TransitionsExtend(sm: string, state: string, a: Acc, ts: seq<Node>)
    requires Fold(TransitionStepFor(sm, state), a, ts).Done?
    ensures Extends(sm, a, Fold(TransitionStepFor(sm, state), a, ts).value)
    decreases |ts|
  {
    if ts == [] {
      assert a.rules[|a.rules|..] == [];
    } else {
      var init := ts[..|ts| - 1];
      TransitionsExtend(sm, state, a, init);
      var b := Fold(TransitionStepFor(sm, state), a, init).value;
      var c := Fold(TransitionStepFor(sm, state), a, ts).value;
      assert c.rules == b.rules + [c.rules[|b.rules|]];
      assert c.rules[|b.rules|..] == [c.rules[|b.rules|]];
      TrackedRulesAppend([], c.rules[|b.rules|]);
      ExtendsTrans(sm, a, b, c);
    }
  }

  lemma {:induction false} StatesExtend(sm: string, a: Acc, ss: seq<Entry>)
    requires Fold(StateStepFor(sm), a, ss).Done?
    ensures Extends(sm, a, Fold(StateStepFor(sm), a, ss).value)
    decreases |ss|
  {
    if ss == [] {
      assert a.rules[|a.rules|..] == [];
    } else {
      var init := ss[..|ss| - 1];
      StatesExtend(sm, a, init);
      var b := Fold(StateStepFor(sm), a, init).value;
      var last := ss[|ss| - 1];
      TransitionsExtend(sm, last.key, b, last.value.items);
      ExtendsTrans(sm, a, b, Fold(StateStepFor(sm), a, ss).value);
    }
  }

  /** Compiling a new machine appends only rules of that machine, and its applier enters
      the first declared state and tracks exactly the events those rules mention. */
  lemma MachineApplier(reg: Registry, m: Entry)
    requires m.key !in reg.appliers && Size(m.value) != 0
    requires MachineStep(reg, m).Done?
    ensures var after := MachineStep(reg, m).value;
      && |reg.rules| <= |after.rules| && after.rules[..|reg.rules|] == reg.rules
      && (forall i :: |reg.rules| <= i < |after.rules| ==> after.rules[i].sm == m.key)
      && after.appliers == reg.appliers[m.key := Applier(m.value.entries[0].key, TrackedRules(after.rules[|reg.rules|..]))]
  {
    StatesExtend(m.key, Acc(reg.rules, {}), m.value.entries);
    var acc := Fold(StateStepFor(m.key), Acc(reg.rules, {}), m.value.entries).value;
    assert acc.tracked == TrackedRules(acc.rules[|reg.rules|..]);
    assert MachineStep(reg, m).value == Registry(reg.appliers[m.key := Applier(m.value.entries[0].key, acc.tracked)], acc.rules);
  }

  class StateMachineTracker {
    var appliers: map<string, Applier>
    var rules: seq<Rule>

    function Registered(): Registry
      reads this
    {
      Registry(appliers, rules)
    }

    constructor ()
      ensures appliers == map[] && rules == []
    {
      appliers := map[];
      rules := [];
    }

    /** StateMachineTracker::load on an already-parsed document. */
    method Load(root: Node) returns (r: Outcome<()>)
      modifies this
      ensures LoadSpec(old(Registered()), root).Done? ==> r == Done(()) && Registered() == LoadSpec(old(Registered()), root).value
      ensures LoadSpec(old(Registered()), root).Failed? ==> r == Failed(LoadSpec(old(Registered()), root).error)
    {
      if !root.Mapping? {
        return Failed(RootNotMap);
      }
      var machines := root.entries;
      ghost var reg0 := Registered();
      var k := 0;
      while k < |machines|
        invariant 0 <= k <= |machines|
        invariant Fold(MachineStep, reg0, machines[..k]) == Done(Registered())
      {
        FoldExtend(MachineStep, reg0, machines, k);
        var sm := machines[k].key;
        var desc := machines[k].value;
        if sm in appliers || Size(desc) == 0 {
          k := k + 1;
          continue;
        }
        if !desc.Mapping? {
          FoldStops(MachineStep, reg0, machines, k, StatesNotMap(sm));
          return Failed(StatesNotMap(sm));
        }
        ghost var regK := Registered();
        var states := desc.entries;
        var tracked: set<string> := {};
        var j := 0;
        while j < |states|
          invariant 0 <= j <= |states|
          invariant appliers == regK.appliers
          invariant Fold(StateStepFor(sm), Acc(regK.rules, {}), states[..j]) == Done(Acc(rules, tracked))
        {
          FoldExtend(StateStepFor(sm), Acc(regK.rules, {}), states, j);
          var state := states[j].key;
          var transitions := states[j].value;
          if !transitions.Sequence? {
            var err := TransitionsNotSequence(sm, state);
            FoldStops(StateStepFor(sm), Acc(regK.rules, {}), states, j, err);
            FoldStops(MachineStep, reg0, machines, k, err);
            return Failed(err);
          }
          ghost var accJ := Acc(rules, tracked);
          var i := 0;
          while i < |transitions.items|
            invariant 0 <= i <= |transitions.items|
            invariant appliers == regK.appliers
            invariant Fold(TransitionStepFor(sm, state), accJ, transitions.items[..i]) == Done(Acc(rules, tracked))
          {
            FoldExtend(TransitionStepFor(sm, state), accJ, transitions.items, i);
            var t := transitions.items[i];
            if !t.Mapping? || |t.entries| == 0 {
              var err := TransitionNotMap(sm, state);
              FoldStops(TransitionStepFor(sm, state), accJ, transitions.items, i, err);
              FoldStops(StateStepFor(sm), Acc(regK.rules, {}), states, j, err);
              FoldStops(MachineStep, reg0, machines, k, err);
              return Failed(err);
            }
            var pred := Parse(t.entries[0].value);
            if pred.Err? {
              var err := BadExpression(pred.error);
              FoldStops(TransitionStepFor(sm, state), accJ, transitions.items, i, err);
              FoldStops(StateStepFor(sm), Acc(regK.rules, {}), states, j, err);
              FoldStops(MachineStep, reg0, machines, k, err);
              return Failed(err);
            }
            tracked := tracked + Tracked(pred.value);
            rules := rules + [Rule(sm, state, t.entries[0].key, pred.value)];
            i := i + 1;
          }
          assert transitions.items[..i] == transitions.items;
          j := j + 1;
        }
        assert states[..j] == states;
        appliers := appliers[sm := Applier(states[0].key, tracked)];
        k := k + 1;
      }
      assert machines[..k] == machines;
      r := Done(());
    }

    /** StateMachineTracker::addSmToEntity: an unknown machine is fatal (`false`). */
    method AddSmToEntity(agent: Agent, sm: string) returns (ok: bool)
      modifies agent
      ensures ok <==> sm in appliers
      ensures ok ==> agent.Snapshot() == Apply(appliers[sm], sm, old(agent.Snapshot()))
      ensures !ok ==> agent.Snapshot() == old(agent.Snapshot())
    {
      if sm !in appliers {
        return false;
      }
      var applier := appliers[sm];
      agent.current := agent.current[sm := applier.initial];
      if !agent.hasEventList {
        agent.events := {};
        agent.hasEventList := true;
      }
      agent.tags := agent.tags + applier.tracked;
      ok := true;
    }
  }

  /** The parts of an entity the state machines read and write. */
  datatype AgentState = AgentState(
    current: map<string, string>,
    events: set<string>,
    tags: set<string>,
    hasEventList: bool)

  /** The applier: enter the initial state, make sure an event list exists (an existing
      one is kept), and tag the tracked events. */
  function Apply(a: Applier, sm: string, s: AgentState): AgentState {
    AgentState(s.current[sm := a.initial], if s.hasEventList then s.events else {}, s.tags + a.tracked, true)
  }

  /** One transition system run on one entity. */
  function Fire(r: Rule, s: AgentState): AgentState {
    if s.hasEventList && r.sm in s.current && s.current[r.sm] == r.from && Eval(r.pred, s.events)
    then s.(current := s.current[r.sm := r.to])
    else s
  }

  /** The transition phase: each registered system in registration order. */
  function FirePhase(rules: seq<Rule>, s: AgentState): AgentState {
    if rules == [] then s else Fire(rules[|rules| - 1], FirePhase(rules[..|rules| - 1], s))
  }

  /** The event cache cleaner; it runs on every entity that has an event list. */
  function Clean(s: AgentState): AgentState {
    if s.hasEventList then s.(events := {}) else s
  }

  /** An entity: its current state per machine, its event list and its tags. */
  class Agent {
    var current: map<string, string>
    var events: set<string>
    var tags: set<string>
    var hasEventList: bool

    function Snapshot(): AgentState
      reads this
    {
      AgentState(current, events, tags, hasEventList)
    }

    constructor ()
      ensures Snapshot() == AgentState(map[], {}, {}, false)
    {
      current := map[];
      events := {};
      tags := {};
      hasEventList := false;
    }

    /** The body of one transition system. */
    method Transition(r: Rule)
      modifies this
      ensures Snapshot() == Fire(r, old(Snapshot()))
    {
      if hasEventList && r.sm in current && current[r.sm] == r.from && Eval(r.pred, events) {
        current := current[r.sm := r.to];
      }
    }

    /** The event cache cleaner run on this entity. */
    method ClearEvents()
      modifies this
      ensures Snapshot() == Clean(old(Snapshot()))
    {
      if hasEventList {
        events := {};
      }
    }
  }

  /** A rule changes nothing but its own machine's state, and changes it exactly when
      the entity is in the rule's source state and the predicate holds this turn. */
  lemma FireChangesOnlyItsMachine(r: Rule, s: AgentState)
    ensures Fire(r, s).events == s.events && Fire(r, s).tags == s.tags
    ensures Fire(r, s).current.Keys == s.current.Keys
    ensures forall m :: m in s.current && m != r.sm ==> Fire(r, s).current[m] == s.current[m]
    ensures Fire(r, s) != s <==>
      s.hasEventList && r.sm in s.current && s.current[r.sm] == r.from && r.to != r.from && Eval(r.pred, s.events)
  {
  }

  /** The phase never adds or removes a machine, and a machine no rule names keeps its state. */
  lemma {:induction false} FirePhaseFrame(rules: seq<Rule>, s: AgentState, m: string)
    requires m in s.current
    requires forall i :: 0 <= i < |rules| ==> rules[i].sm != m
    ensures FirePhase(rules, s).current.Keys == s.current.Keys
    ensures FirePhase(rules, s).current[m] == s.current[m]
    ensures FirePhase(rules, s).events == s.events
  {
    if rules != [] {
      FirePhaseFrame(rules[..|rules| - 1], s, m);
    }
  }

  /** After a successful load every non-empty machine of the document has an applier. */
  lemma {:induction false} LoadRegistersAll(reg: Registry, ms: seq<Entry>, k: nat)
    requires k < |ms| && Size(ms[k].value) != 0
    requires Fold(MachineStep, reg, ms).Done?
    ensures ms[k].key in Fold(MachineStep, reg, ms).value.appliers
    decreases |ms|
  {
    var last := |ms| - 1;
    FoldExtend(MachineStep, reg, ms, last);
    assert ms[..last + 1] == ms;
    var before := Fold(MachineStep, reg, ms[..last]);
    if k < last {
      assert ms[..last][k] == ms[k];
      LoadRegistersAll(reg, ms[..last], k);
    }
  }

  /** A fold of machines that are all already loaded or empty changes nothing. */
  lemma {:induction false} FoldAllSkipped(reg: Registry, ms: seq<Entry>)
    requires forall k :: 0 <= k < |ms| ==> ms[k].key in reg.appliers || Size(ms[k].value) == 0
    ensures Fold(MachineStep, reg, ms) == Done(reg)
    decreases |ms|
  {
    if ms != [] {
      FoldAllSkipped(reg, ms[..|ms| - 1]);
    }
  }

  /** Loading a document a second time is a no-op: no duplicate rules, no new appliers. */
  lemma LoadIdempotent(reg: Registry, root: Node)
    requires LoadSpec(reg, root).Done?
    ensures LoadSpec(LoadSpec(reg, root).value, root) == LoadSpec(reg, root)
  {
    var once := LoadSpec(reg, root).value;
    var ms := root.entries;
    forall k | 0 <= k < |ms| && Size(ms[k].value) != 0
      ensures ms[k].key in once.appliers
    {
      LoadRegistersAll(reg, ms, k);
    }
    FoldAllSkipped(once, ms);
  }

  /** The document `m: {A: [{B: e}], B: []}`. */
  function TwoStateDoc(): Node {
    Mapping([Entry("m", Mapping([
      Entry("A", Sequence([Mapping([Entry("B", Scalar("e"))])])),
      Entry("B", Sequence([]))]))])
  }

  /** Loading the two-state document yields one rule and an applier that enters A and
      tracks `e`; an entity in A stays there on a quiet turn, moves to B on a turn in
      which `e` fired, and its event list is empty after the clean-up. */
  lemma TwoStateScenario()
    ensures LoadSpec(Registry(map[], []), TwoStateDoc()) ==
      Done(Registry(map["m" := Applier("A", {"e"})], [Rule("m", "A", "B", Event("e"))]))
    ensures var rules := [Rule("m", "A", "B", Event("e"))];
      var s0 := Apply(Applier("A", {"e"}), "m", AgentState(map[], {}, {}, false));
      var s1 := Clean(FirePhase(rules, s0));
      var s2 := FirePhase(rules, s1.(events := {"e"}));
      && s0.tags == {"e"}
      && s1.current["m"] == "A"
      && s2.current["m"] == "B"
      && Clean(s2).events == {}
  {
    var doc := TwoStateDoc();
    var states := doc.entries[0].value.entries;
    var t := Mapping([Entry("B", Scalar("e"))]);
    assert Parse(t.entries[0].value) == Ok(Event("e"));
    assert Tracked(Event("e")) == {"e"};
    var step := TransitionStep("m", "A", Acc([], {}), t);
    assert step.Done?;
    assert step.value.rules == [Rule("m", "A", "B", Event("e"))];
    assert step.value.tracked == {"e"};
    assert TransitionStep("m", "A", Acc([], {}), t) == Done(Acc([Rule("m", "A", "B", Event("e"))], {"e"}));
    assert [t][..0] == [];
    assert Fold(TransitionStepFor("m", "A"), Acc([], {}), [t]) == Done(Acc([Rule("m", "A", "B", Event("e"))], {"e"}));
    assert states[..1] == [states[0]];
    assert Fold(StateStepFor("m"), Acc([], {}), states[..1]) == Done(Acc([Rule("m", "A", "B", Event("e"))], {"e"}));
    assert Fold(StateStepFor("m"), Acc([], {}), states) == Done(Acc([Rule("m", "A", "B", Event("e"))], {"e"}));
    assert doc.entries[..0] == [];
  }
}
