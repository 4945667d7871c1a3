/**
 * A building's production state: its type name, whether it is built,
 * and a FIFO buffer of produced items with a cap.
 */
module BuildingComponents {

  import opened Common

  class BuildingComponent {
    var buildingType: string
    var built: bool
    var outputBuffer: seq<Item>
    var timer: real
    var productionInterval: real
    var maxOutput: int
    var producedItemType: ItemType
    /** Pollution emitted per second while built (not declared in the shown class). */
    var pollutionRate: real

    constructor (kind: string, interval: real, max: int, produced: ItemType)
      ensures buildingType == kind && productionInterval == interval && maxOutput == max
      ensures producedItemType == produced
      ensures built && outputBuffer == [] && timer == 0.0 && pollutionRate == 0.0
    {
      buildingType := kind;
      built := true;
      outputBuffer := [];
      timer := 0.0;
      productionInterval := interval;
      maxOutput := max;
      producedItemType := produced;
      pollutionRate := 0.0;
    }

    predicate HasOutput()
      reads this
    {
      outputBuffer != []
    }

    /** Removes and returns the oldest buffered item; None on an empty buffer. */
    method TakeOutput() returns (item: Option<Item>)
      modifies this`outputBuffer
      ensures old(outputBuffer) == [] ==> item == None && outputBuffer == []
      ensures old(outputBuffer) != [] ==> item == Some(old(outputBuffer)[0]) && outputBuffer == old(outputBuffer)[1..]
      ensures item.Some? ==> [item.value] + outputBuffer == old(outputBuffer)
      ensures |outputBuffer| == if item.Some? then |old(outputBuffer)| - 1 else |old(outputBuffer)|
    {
      if outputBuffer == [] {
        item := None;
      } else {
        item := Some(outputBuffer[0]);
        outputBuffer := outputBuffer[1..];
      }
    }

    function GetOutputCount(): (n: nat)
      reads this
      ensures n == 0 <==> !HasOutput()
    {
      |outputBuffer|
    }
  }
}
