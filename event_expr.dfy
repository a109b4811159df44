/** An already-parsed YAML document: the state-machine compiler's input. Reading and
    tokenising the file is outside this model. */
module Yaml {
  datatype Node =
    | Null
    | Scalar(text: string)
    | Sequence(items: seq<Node>)
    | Mapping(entries: seq<Entry>)

  /** A map entry; keys are read as strings (`first.as<std::string>()`). */
  datatype Entry = Entry(key: string, value: Node)

  /** yaml-cpp's size(): element count of a sequence or map, 0 for anything else. */
  function Size(n: Node): nat {
    match n
    case Sequence(items) => |items|
    case Mapping(entries) => |entries|
    case _ => 0
  }
}

/** Event expressions of transitions: `not`, `and`, `or` over event names
    (parseEventExpression in roguelike/sources/stateMachine.cpp). */
module EventExpressions {
  import opened Yaml

  datatype Expr =
    | Event(name: string)
    | Not(operand: Expr)
    | And(operands: seq<Expr>)
    | Or(operands: seq<Expr>)

  /** Why an expression was rejected; every one of these is fatal in the source. */
  datatype ParseError = MapNotSingleKey | OperandsNotSequence | InvalidOperator | NotScalar

  datatype Result<T> = Ok(value: T) | Err(error: ParseError)

  /** The events that fired this turn. */
  type EventSet = set<string>

  /** Truth of an expression against the events of this turn. */
  function Eval(e: Expr, events: EventSet): bool
    decreases e, 1
  {
    match e
    case Event(name) => name in events
    case Not(operand) => !Eval(operand, events)
    case And(operands) => EvalAnd(operands, events)
    case Or(operands) => EvalOr(operands, events)
  }

  /** `result = result && op(evs)` folded left from `true`. */
  function EvalAnd(ops: seq<Expr>, events: EventSet): (r: bool)
    decreases ops, 0
    ensures r <==> forall i :: 0 <= i < |ops| ==> Eval(ops[i], events)
  {
    if ops == [] then true
    else EvalAnd(ops[..|ops| - 1], events) && Eval(ops[|ops| - 1], events)
  }

  /** `result = result || op(evs)` folded left from `false`. */
  function EvalOr(ops: seq<Expr>, events: EventSet): (r: bool)
    decreases ops, 0
    ensures r <==> exists i :: 0 <= i < |ops| && Eval(ops[i], events)
  {
    if ops == [] then false
    else EvalOr(ops[..|ops| - 1], events) || Eval(ops[|ops| - 1], events)
  }

  /** The event names an expression mentions; compiling it tags them as tracked. */
  function Tracked(e: Expr): set<string>
    decreases e, 1
  {
    match e
    case Event(name) => {name}
    case Not(operand) => Tracked(operand)
    case And(operands) => TrackedAll(operands)
    case Or(operands) => TrackedAll(operands)
  }

  function TrackedAll(ops: seq<Expr>): (r: set<string>)
    decreases ops, 0
    ensures forall i :: 0 <= i < |ops| ==> Tracked(ops[i]) <= r
  {
    if ops == [] then {} else TrackedAll(ops[..|ops| - 1]) + Tracked(ops[|ops| - 1])
  }

  /** Compiles a YAML node into an expression. A map needs exactly one key; `not` takes
      any node; every other operator needs a sequence, whose elements are compiled
      before the operator name is checked; a non-map must be a scalar. */
  function Parse(node: Node): (r: Result<Expr>)
    decreases node, 1
    ensures node.Scalar? ==> r == Ok(Event(node.text))
    ensures node.Null? || node.Sequence? ==> r == Err(NotScalar)
    ensures node.Mapping? && |node.entries| != 1 ==> r == Err(MapNotSingleKey)
  {
    match node
    case Mapping(entries) =>
      if |entries| != 1 then Err(MapNotSingleKey)
      else
        var op := entries[0].key;
        var data := entries[0].value;
        if op == "not" then
          (match Parse(data)
           case Ok(operand) => Ok(Not(operand))
           case Err(err) => Err(err))
        else if !data.Sequence? then Err(OperandsNotSequence)
        else
          (match ParseAll(data.items)
           case Err(err) => Err(err)
           case Ok(ops) =>
             if op == "and" then Ok(And(ops))
             else if op == "or" then Ok(Or(ops))
             else Err(InvalidOperator))
    case Scalar(text) => Ok(Event(text))
    case _ => Err(NotScalar)
  }

  /** Compiles the operands in order; the first failure is the result. */
  function ParseAll(items: seq<Node>): (r: Result<seq<Expr>>)
    decreases items, 0
    ensures r.Ok? ==> |r.value| == |items|
    ensures r.Ok? <==> forall i :: 0 <= i < |items| ==> Parse(items[i]).Ok?
    ensures r.Ok? ==> forall i :: 0 <= i < |items| ==> r.value[i] == Parse(items[i]).value
  {
    if items == [] then Ok([])
    else
      match ParseAll(items[..|items| - 1])
      case Err(err) => Err(err)
      case Ok(front) =>
        match Parse(items[|items| - 1])
        case Err(err) => Err(err)
        case Ok(last) => Ok(front + [last])
  }

  /** The YAML form of an expression (the inverse of Parse). */
  function ToYaml(e: Expr): Node
    decreases e, 1
  {
    match e
    case Event(name) => Scalar(name)
    case Not(operand) => Mapping([Entry("not", ToYaml(operand))])
    case And(operands) => Mapping([Entry("and", Sequence(ToYamlAll(operands)))])
    case Or(operands) => Mapping([Entry("or", Sequence(ToYamlAll(operands)))])
  }

  function ToYamlAll(ops: seq<Expr>): (r: seq<Node>)
    decreases ops, 0
    ensures |r| == |ops|
    ensures forall i :: 0 <= i < |ops| ==> r[i] == ToYaml(ops[i])
  {
    if ops == [] then [] else ToYamlAll(ops[..|ops| - 1]) + [ToYaml(ops[|ops| - 1])]
  }

  /** `and` over no operands is true, `or` over none is false. */
  lemma EmptyOperands(events: EventSet)
    ensures Eval(And([]), events) && !Eval(Or([]), events)
  {
  }

  /** Any unknown operator name with a well-formed operand list is rejected. */
  lemma UnknownOperatorRejected(op: string, items: seq<Node>)
    requires op != "not" && op != "and" && op != "or"
    requires ParseAll(items).Ok?
    ensures Parse(Mapping([Entry(op, Sequence(items))])) == Err(InvalidOperator)
  {
  }

  /** `and`/`or` with operands that are not a sequence are rejected. */
  lemma OperandsMustBeSequence(op: string, data: Node)
    requires op != "not" && !data.Sequence?
    ensures Parse(Mapping([Entry(op, data)])) == Err(OperandsNotSequence)
  {
  }

  /** Compiling the YAML form of an expression gives the expression back. */
  lemma {:induction false} ParseToYaml(e: Expr)
    ensures Parse(ToYaml(e)) == Ok(e)
    decreases e, 1
  {
    match e
    case Event(_) =>
    case Not(operand) => ParseToYaml(operand);
    case And(operands) => ParseToYamlAll(operands);
    case Or(operands) => ParseToYamlAll(operands);
  }

  lemma {:induction false} ParseToYamlAll(ops: seq<Expr>)
    ensures ParseAll(ToYamlAll(ops)) == Ok(ops)
    decreases ops, 0
  {
    var ys := ToYamlAll(ops);
    forall i | 0 <= i < |ops| ensures Parse(ys[i]) == Ok(ops[i]) {
      ParseToYaml(ops[i]);
    }
    assert ParseAll(ys).value == ops;
  }

  /** Every expression Parse accepts is exactly the one its YAML form denotes. */
  lemma {:induction false} ToYamlParse(node: Node)
    requires Parse(node).Ok?
    ensures ToYaml(Parse(node).value) == node
    decreases node, 1
  {
    match node
    case Scalar(_) =>
    case Mapping(entries) =>
      var data := entries[0].value;
      assert entries == [Entry(entries[0].key, data)];
      if entries[0].key == "not" {
        ToYamlParse(data);
      } else {
        var ops := ParseAll(data.items).value;
        forall i | 0 <= i < |data.items| ensures ToYaml(ops[i]) == data.items[i] {
          assert data.items[i] < data;
          ToYamlParse(data.items[i]);
        }
        assert ToYamlAll(ops) == data.items;
      }
  }

  /** Only tracked events matter: the truth of an expression is decided by the events
      it mentions. */
  lemma {:induction false} EvalOnlyTracked(e: Expr, events: EventSet)
    ensures Eval(e, events) == Eval(e, events * Tracked(e))
    decreases e, 1
  {
    match e
    case Event(_) =>
    case Not(operand) => EvalOnlyTracked(operand, events);
    case And(operands) => EvalAllOnlyTracked(operands, events);
    case Or(operands) => EvalAllOnlyTracked(operands, events);
  }

  lemma {:induction false} EvalAllOnlyTracked(ops: seq<Expr>, events: EventSet)
    ensures forall i :: 0 <= i < |ops| ==> Eval(ops[i], events) == Eval(ops[i], events * TrackedAll(ops))
    decreases ops, 0
  {
    forall i | 0 <= i < |ops|
      ensures Eval(ops[i], events) == Eval(ops[i], events * TrackedAll(ops))
    {
      var t := Tracked(ops[i]);
      EvalOnlyTracked(ops[i], events);
      EvalOnlyTracked(ops[i], events * TrackedAll(ops));
      assert (events * TrackedAll(ops)) * t == events * t;
    }
  }
}
