/**
 * The dataset store of `useDataStore`: a single list of whole numbers in
 * [-1000, 1000], at most 50 long, changed by adding one value, removing the
 * value at a position, clearing, and replacing the whole list.
 *
 * Each operation is first given as a pure transition (`Apply`), so that
 * properties of any sequence of operations can be proved by induction; the
 * class `Store` then performs the same transitions in place.
 */
module DataStore {
  import opened Numbers

  /** The store never holds more than this many values. */
  const MaxPoints: nat := 50
  /** Stored values are clamped into [MinValue, MaxValue]. */
  const MinValue: int := -1000
  const MaxValue: int := 1000

  /** `Math.round`: the nearest integer, halves rounded up. */
  function Round(x: real): (n: int)
    ensures n as real - 0.5 <= x < n as real + 0.5
  {
    (x + 0.5).Floor
  }

  /** `Math.max(-1000, Math.min(1000, Math.round(value)))`. */
  function Constrain(value: real): (r: int)
    ensures MinValue <= r <= MaxValue
    ensures MinValue <= Round(value) <= MaxValue ==> r == Round(value)
    ensures Round(value) < MinValue ==> r == MinValue
    ensures Round(value) > MaxValue ==> r == MaxValue
  {
    Max(MinValue, Min(MaxValue, Round(value)))
  }

  /** A whole number already in range is stored as it is. */
  lemma ConstrainKeepsStored(v: int)
    requires MinValue <= v <= MaxValue
    ensures Constrain(v as real) == v
  {
    assert Round(v as real) == v;
  }

  /** Constraining never reverses the order of two inputs. */
  lemma ConstrainMonotone(x: real, y: real)
    requires x <= y
    ensures Constrain(x) <= Constrain(y)
  {
    assert Round(x) <= Round(y);
  }

  /** What is in the store: at most 50 values, each in [MinValue, MaxValue]. */
  predicate Bounded(data: seq<int>) {
    && |data| <= MaxPoints
    && forall i :: 0 <= i < |data| ==> MinValue <= data[i] <= MaxValue
  }

  /** `prev.filter((_, i) => i !== index)`: keeps every element whose position is not `index`. */
  function KeepOthers(s: seq<int>, index: int): (r: seq<int>) {
    if |s| == 0 then
      []
    else
      KeepOthers(s[..|s| - 1], index) + (if index == |s| - 1 then [] else [s[|s| - 1]])
  }

  /**
   * Removing an index in range deletes exactly that position and keeps the
   * others in order; an index out of range changes nothing.
   */
  lemma {:induction false} RemoveAt(s: seq<int>, index: int)
    ensures 0 <= index < |s| ==> KeepOthers(s, index) == s[..index] + s[index + 1..]
    ensures !(0 <= index < |s|) ==> KeepOthers(s, index) == s
  {
    if |s| > 0 {
      var init := s[..|s| - 1];
      RemoveAt(init, index);
      if index == |s| - 1 {
        assert s[..index] == init;
      } else if 0 <= index < |s| - 1 {
        assert init[..index] == s[..index];
        assert init[index + 1..] + [s[|s| - 1]] == s[index + 1..];
      } else {
        assert init + [s[|s| - 1]] == s;
      }
    }
  }

  /** `newData.map(constrain)`. */
  function ConstrainAll(newData: seq<real>): (r: seq<int>)
    ensures |r| == |newData|
    ensures forall i :: 0 <= i < |newData| ==> r[i] == Constrain(newData[i])
  {
    if newData == [] then [] else [Constrain(newData[0])] + ConstrainAll(newData[1..])
  }

  /** `setValidatedData`'s list: the constrained images of the first 50 inputs, in order. */
  function ValidatedData(newData: seq<real>): (r: seq<int>)
    ensures |r| == Min(|newData|, MaxPoints)
    ensures forall i :: 0 <= i < |r| ==> r[i] == Constrain(newData[i])
    ensures Bounded(r)
  {
    ConstrainAll(newData)[..Min(|newData|, MaxPoints)]
  }

  /** Validating one more input appends its constrained image, unless 50 values are already kept. */
  lemma ValidatedDataExtend(newData: seq<real>, value: real)
    ensures |newData| < MaxPoints ==> ValidatedData(newData + [value]) == ValidatedData(newData) + [Constrain(value)]
    ensures |newData| >= MaxPoints ==> ValidatedData(newData + [value]) == ValidatedData(newData)
  {
    var longer := newData + [value];
    assert forall i :: 0 <= i < |newData| ==> longer[i] == newData[i];
  }

  /** The four operations of the store. */
  datatype Op =
    | AddCandy(value: real)
    | RemoveDataPoint(index: int)
    | ClearData
    | SetData(newData: seq<real>)

  /** The list after one operation. */
  function Apply(data: seq<int>, op: Op): (r: seq<int>) {
    match op
    case AddCandy(value) => if |data| >= MaxPoints then data else data + [Constrain(value)]
    case RemoveDataPoint(index) => KeepOthers(data, index)
    case ClearData => []
    case SetData(newData) => ValidatedData(newData)
  }

  /** The list after a sequence of operations, applied left to right. */
  function Run(data: seq<int>, ops: seq<Op>): (r: seq<int>)
    decreases |ops|
  {
    if ops == [] then data else Run(Apply(data, ops[0]), ops[1..])
  }

  /**
   * Adding leaves a full list as it is; otherwise it appends one value in
   * range and keeps every earlier value.
   */
  lemma AddCandyEffect(data: seq<int>, value: real)
    ensures |data| >= MaxPoints ==> Apply(data, AddCandy(value)) == data
    ensures |data| < MaxPoints ==>
      var r := Apply(data, AddCandy(value));
      && |r| == |data| + 1 && r[..|data|] == data
      && MinValue <= r[|data|] <= MaxValue
      && r[|data|] == Constrain(value)
  {
    if |data| < MaxPoints {
      assert (data + [Constrain(value)])[..|data|] == data;
    }
  }

  /** Removing at a position in range deletes exactly that position; any other index changes nothing. */
  lemma RemoveDataPointEffect(data: seq<int>, index: int)
    ensures 0 <= index < |data| ==> Apply(data, RemoveDataPoint(index)) == data[..index] + data[index + 1..]
    ensures !(0 <= index < |data|) ==> Apply(data, RemoveDataPoint(index)) == data
  {
    RemoveAt(data, index);
  }

  /** Every operation keeps the list bounded: at most 50 values, each in range. */
  lemma ApplyKeepsBounded(data: seq<int>, op: Op)
    requires Bounded(data)
    ensures Bounded(Apply(data, op))
  {
    match op
    case AddCandy(value) =>
      AddCandyEffect(data, value);
    case RemoveDataPoint(index) =>
      RemoveAt(data, index);
      if 0 <= index < |data| {
        var r := data[..index] + data[index + 1..];
        forall i | 0 <= i < |r| ensures MinValue <= r[i] <= MaxValue {
          if i >= index {
            assert r[i] == data[i + 1];
          }
        }
      }
    case ClearData =>
    case SetData(newData) =>
  }

  /** No sequence of operations ever makes the list longer than 50 or puts a value out of range in it. */
  lemma {:induction false} RunKeepsBounded(data: seq<int>, ops: seq<Op>)
    requires Bounded(data)
    ensures Bounded(Run(data, ops))
    decreases |ops|
  {
    if ops != [] {
      ApplyKeepsBounded(data, ops[0]);
      RunKeepsBounded(Apply(data, ops[0]), ops[1..]);
    }
  }

  /** The store: the `data` state of `useDataStore` and its four callbacks. */
  class Store {
    var data: seq<int>

    ghost predicate Valid()
      reads this
    {
      Bounded(data)
    }

    /** The store starts empty. */
    constructor ()
      ensures data == [] && Valid()
    {
      data := [];
    }

    /** `addCandy`. */
    method AddCandy(value: real)
      requires Valid()
      modifies this
      ensures data == Apply(old(data), Op.AddCandy(value))
      ensures Valid()
    {
      var constrainedValue := Constrain(value);
      if |data| >= MaxPoints {
        return;
      }
      data := data + [constrainedValue];
      ApplyKeepsBounded(old(data), Op.AddCandy(value));
    }

    /** `removeDataPoint`. */
    method RemoveDataPoint(index: int)
      requires Valid()
      modifies this
      ensures data == Apply(old(data), Op.RemoveDataPoint(index))
      ensures Valid()
    {
      ApplyKeepsBounded(data, Op.RemoveDataPoint(index));
      data := KeepOthers(data, index);
    }

    /** `clearData`. */
    method ClearData()
      modifies this
      ensures data == Apply(old(data), Op.ClearData)
      ensures Valid()
    {
      data := [];
    }

    /** `setValidatedData`, exposed as `setData`. */
    method SetData(newData: seq<real>)
      modifies this
      ensures data == Apply(old(data), Op.SetData(newData))
      ensures Valid()
    {
      data := ValidatedData(newData);
    }
  }
}
