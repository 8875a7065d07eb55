/**
 * `handleAddData` of the control panel: a typed value is checked against the
 * value range and then against the size of the dataset before it is handed
 * to the store; a refused value sets the panel's error message instead.
 */
module ControlPanel {
  import opened Wrappers
  import opened DataStore

  const RangeError: string := "Please enter a value between -1000 and 1000 for meaningful statistics"
  const SizeError: string := "Maximum 50 data points allowed for clear visualization"

  /** The message `handleAddData` shows for `value` when the dataset holds `count` values; None accepts the value. */
  function AddError(value: real, count: nat): (r: Option<string>)
    ensures r == Some(RangeError) <==> value < MinValue as real || value > MaxValue as real
    ensures r == Some(SizeError) <==> MinValue as real <= value <= MaxValue as real && count >= MaxPoints
    ensures r.None? <==> MinValue as real <= value <= MaxValue as real && count < MaxPoints
  {
    if value < MinValue as real || value > MaxValue as real then
      Some(RangeError)
    else if count >= MaxPoints then
      Some(SizeError)
    else
      None
  }

  /** The panel's `inputError` state. */
  class Panel {
    var inputError: string

    constructor ()
      ensures inputError == ""
    {
      inputError := "";
    }

    /**
     * `handleAddData`: `forwarded` lists the values passed to `onAddData`
     * (none or exactly the typed value), and the error is set or cleared.
     */
    method HandleAddData(value: real, data: seq<int>) returns (forwarded: seq<real>)
      modifies this
      ensures AddError(value, |data|).None? ==> forwarded == [value] && inputError == ""
      ensures AddError(value, |data|).Some? ==> forwarded == [] && inputError == AddError(value, |data|).value
    {
      if value < MinValue as real || value > MaxValue as real {
        inputError := RangeError;
        return [];
      }
      if |data| >= MaxPoints {
        inputError := SizeError;
        return [];
      }
      forwarded := [value];
      inputError := "";
    }
  }

  /**
   * A value the panel forwards is stored rounded: it is already in range, and
   * the list has room, so the store neither clamps it nor refuses it.
   */
  lemma ForwardedValueIsStoredRounded(value: real, data: seq<int>)
    requires AddError(value, |data|).None?
    ensures Apply(data, AddCandy(value)) == data + [Round(value)]
  {
    assert MinValue <= Round(value) <= MaxValue;
  }
}
