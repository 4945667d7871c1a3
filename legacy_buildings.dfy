/**
 * The two producing buildings of the pre-component world: a miner that
 * makes one stone every 5 seconds and a food grower that makes one food
 * every 10 seconds, each holding at most 5 items in a FIFO buffer.
 */
module LegacyBuildings {

  import opened Common

  const MINER_INTERVAL: real := 5.0
  const GROWER_INTERVAL: real := 10.0
  /** The buffer cap shared by both buildings. */
  const MAX_OUTPUT: nat := 5

  /** Whether a tick of delta seconds produces: the timer reaches the interval and the buffer has room. */
  predicate Produces(timer: real, delta: real, interval: real, count: nat, max: nat)
  {
    timer + delta >= interval && count < max
  }

  /**
   * One production tick of a miner, compared with the state before: it
   * either produced one stone and restarted its timer, or only advanced
   * its timer by delta.
   */
  twostate predicate MinerStepped(m: Miner, delta: real)
    reads m
  {
    if Produces(old(m.timer), delta, MINER_INTERVAL, |old(m.outputBuffer)|, MAX_OUTPUT) then
      m.timer == 0.0 && m.outputBuffer == old(m.outputBuffer) + [Item(ItemType.Stone)]
    else
      m.timer == old(m.timer) + delta && m.outputBuffer == old(m.outputBuffer)
  }

  /** One production tick of a food grower: one food and a restarted timer, or only an advanced timer. */
  twostate predicate GrowerStepped(g: FoodGrower, delta: real)
    reads g
  {
    if Produces(old(g.timer), delta, GROWER_INTERVAL, |old(g.outputBuffer)|, MAX_OUTPUT) then
      g.timer == 0.0 && g.outputBuffer == old(g.outputBuffer) + [Item(ItemType.Food)]
    else
      g.timer == old(g.timer) + delta && g.outputBuffer == old(g.outputBuffer)
  }

  class Miner {
    const x: int
    const y: int
    var outputBuffer: seq<Item>
    var timer: real

    /** The buffer never holds more than MAX_OUTPUT items. */
    ghost predicate Valid()
      reads this
    {
      |outputBuffer| <= MAX_OUTPUT
    }

    constructor (x0: int, y0: int)
      ensures x == x0 && y == y0 && outputBuffer == [] && timer == 0.0
      ensures Valid()
    {
      x, y := x0, y0;
      outputBuffer := [];
      timer := 0.0;
    }

    /** Adds one stone when the timer reaches the interval and the buffer has room; the timer then restarts. */
    method Update(delta: real)
      modifies this
      ensures MinerStepped(this, delta)
      ensures old(Valid()) ==> Valid()
    {
      timer := timer + delta;
      if timer >= MINER_INTERVAL && |outputBuffer| < MAX_OUTPUT {
        timer := 0.0;
        outputBuffer := outputBuffer + [Item(ItemType.Stone)];
      }
    }

    predicate HasOutput()
      reads this
    {
      outputBuffer != []
    }

    /** Removes and returns the oldest item; None on an empty buffer. */
    method TakeOutput() returns (item: Option<Item>)
      modifies this`outputBuffer
      ensures old(outputBuffer) == [] ==> item == None && outputBuffer == []
      ensures old(outputBuffer) != [] ==> item == Some(old(outputBuffer)[0]) && outputBuffer == old(outputBuffer)[1..]
      ensures old(Valid()) ==> Valid()
    {
      if outputBuffer == [] {
        item := None;
      } else {
        item := Some(outputBuffer[0]);
        outputBuffer := outputBuffer[1..];
      }
    }

    function GetOutputCount(): (n: nat)
      reads this
      ensures n == 0 <==> !HasOutput()
    {
      |outputBuffer|
    }
  }

  class FoodGrower {
    const x: int
    const y: int
    var outputBuffer: seq<Item>
    var timer: real

    ghost predicate Valid()
      reads this
    {
      |outputBuffer| <= MAX_OUTPUT
    }

    constructor (x0: int, y0: int)
      ensures x == x0 && y == y0 && outputBuffer == [] && timer == 0.0
      ensures Valid()
    {
      x, y := x0, y0;
      outputBuffer := [];
      timer := 0.0;
    }

    /** Adds one food when the timer reaches the interval and the buffer has room; the timer then restarts. */
    method Update(delta: real)
      modifies this
      ensures GrowerStepped(this, delta)
      ensures old(Valid()) ==> Valid()
    {
      timer := timer + delta;
      if timer >= GROWER_INTERVAL && |outputBuffer| < MAX_OUTPUT {
        timer := 0.0;
        outputBuffer := outputBuffer + [Item(ItemType.Food)];
      }
    }

    predicate HasOutput()
      reads this
    {
      outputBuffer != []
    }

    method TakeOutput() returns (item: Option<Item>)
      modifies this`outputBuffer
      ensures old(outputBuffer) == [] ==> item == None && outputBuffer == []
      ensures old(outputBuffer) != [] ==> item == Some(old(outputBuffer)[0]) && outputBuffer == old(outputBuffer)[1..]
      ensures old(Valid()) ==> Valid()
    {
      if outputBuffer == [] {
        item := None;
      } else {
        item := Some(outputBuffer[0]);
        outputBuffer := outputBuffer[1..];
      }
    }

    function GetOutputCount(): (n: nat)
      reads this
      ensures n == 0 <==> !HasOutput()
    {
      |outputBuffer|
    }

    function GetTimer(): real
      reads this
    {
      timer
    }

    /** Setting the timer is read back unchanged, and nothing else moves. */
    method SetTimer(t: real)
      modifies this`timer
      ensures GetTimer() == t
    {
      timer := t;
    }
  }
}
