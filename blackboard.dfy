/** The per-agent blackboard and the string interner that names its slots
    (roguelike/sources/blackboard.hpp). */
module Blackboard {
  import opened Actions

  datatype Result<T> = Ok(value: T) | OutOfRange

  /** The slot vector after `set(idx, v)`: grown with `dflt` so that idx is a valid
      index, then slot idx overwritten; every other slot keeps its value. */
  function Assign<T>(data: seq<T>, dflt: T, idx: nat, v: T): (r: seq<T>)
    ensures |r| == if idx < |data| then |data| else idx + 1
    ensures r[idx] == v
    ensures forall i :: 0 <= i < |data| && i != idx ==> r[i] == data[i]
    ensures forall i :: |data| <= i < |r| && i != idx ==> r[i] == dflt
  {
    (if idx < |data| then data else data + seq(idx + 1 - |data|, _ => dflt))[idx := v]
  }

  /** Interns slot names to dense indices. The source keeps one process-wide instance;
      here it is an explicit object. */
  class NameMap {
    var nameIndices: map<string, nat>
    /** The names in the order they were interned: names[i] received index i. */
    ghost var names: seq<string>

    ghost predicate Valid()
      reads this
    {
      && |nameIndices| == |names|
      && (forall i :: 0 <= i < |names| ==> names[i] in nameIndices && nameIndices[names[i]] == i)
      && (forall n :: n in nameIndices ==> nameIndices[n] < |names| && names[nameIndices[n]] == n)
    }

    constructor ()
      ensures Valid() && nameIndices == map[] && names == []
    {
      nameIndices := map[];
      names := [];
    }

    /** Index of `name`; a name seen for the first time gets the next unused index. */
    method GetId(name: string) returns (id: nat)
      requires Valid()
      modifies this
      ensures Valid()
      ensures name in old(nameIndices) ==> id == old(nameIndices)[name] && nameIndices == old(nameIndices) && names == old(names)
      ensures name !in old(nameIndices) ==> id == |old(names)| && names == old(names) + [name]
      ensures nameIndices == old(nameIndices)[name := id]
      ensures id < |names| && names[id] == name
    {
      if name in nameIndices {
        id := nameIndices[name];
      } else {
        id := |nameIndices|;
        nameIndices := nameIndices[name := id];
        names := names + [name];
      }
    }
  }

  /** A growable vector of values of one type, one per interned slot. `default` is what
      a slot holds between being grown and being set (value initialisation in C++). */
  class NamedDataPool<T> {
    var data: seq<T>
    const default: T

    constructor (default: T)
      ensures data == [] && this.default == default
    {
      data := [];
      this.default := default;
    }

    /** Const access: an index past the end is an error (std::vector::at). */
    method Get(idx: nat) returns (r: Result<T>)
      ensures idx < |data| ==> r == Ok(data[idx])
      ensures idx >= |data| ==> r == OutOfRange
    {
      if idx < |data| {
        r := Ok(data[idx]);
      } else {
        r := OutOfRange;
      }
    }

    /** Grows the pool so that `maxIdx` is a valid index; never shrinks it. */
    method Expand(maxIdx: nat)
      modifies this
      ensures |data| == if maxIdx < |old(data)| then |old(data)| else maxIdx + 1
      ensures data[..|old(data)|] == old(data)
      ensures forall i :: |old(data)| <= i < |data| ==> data[i] == default
    {
      if maxIdx >= |data| {
        data := data + seq(maxIdx + 1 - |data|, _ => default);
      }
    }

    /** Blackboard::set for this pool's type: grow, then overwrite one slot. */
    method Set(idx: nat, v: T)
      modifies this
      ensures data == Assign(old(data), default, idx, v)
    {
      Expand(idx);
      data := data[idx := v];
    }
  }

  /** One pool per supported type: floats, ints, entity handles and integer vectors.
      Floats are opaque values here (`real`); entity handles are ids with 0 the null entity. */
  class Blackboard {
    const floats: NamedDataPool<real>
    const ints: NamedDataPool<int>
    const entities: NamedDataPool<nat>
    const positions: NamedDataPool<Vec2>

    ghost predicate Valid()
      reads this
    {
      && floats as object != ints as object && floats as object != entities as object
      && floats as object != positions as object && ints as object != entities as object
      && ints as object != positions as object && entities as object != positions as object
    }

    constructor ()
      ensures Valid()
      ensures fresh(floats) && fresh(ints) && fresh(entities) && fresh(positions)
      ensures floats.data == [] && ints.data == [] && entities.data == [] && positions.data == []
      ensures floats.default == 0.0 && ints.default == 0 && entities.default == 0
      ensures positions.default == Vec2(0, 0)
    {
      floats := new NamedDataPool(0.0);
      ints := new NamedDataPool(0);
      entities := new NamedDataPool(0);
      positions := new NamedDataPool(Vec2(0, 0));
    }

    /** set<glm::ivec2>: touches the vector pool only. */
    method SetPosition(idx: nat, v: Vec2)
      requires Valid()
      modifies positions
      ensures positions.data == Assign(old(positions.data), positions.default, idx, v)
      ensures unchanged(floats, ints, entities)
    {
      positions.Set(idx, v);
    }

    /** get<glm::ivec2>: const read of the vector pool. */
    method GetPosition(idx: nat) returns (r: Result<Vec2>)
      ensures idx < |positions.data| ==> r == Ok(positions.data[idx])
      ensures idx >= |positions.data| ==> r == OutOfRange
    {
      r := positions.Get(idx);
    }
  }
}
