/** One planned straight-line move (planner.rs:172-251). */
module Blocks {
  import opened Base

  datatype Block = Block(
    steps: Steps,
    stepEventCount: nat,
    unitVec: Vec,
    millimeters: real,
    acceleration: real,
    nominalSq: real,
    maxEntrySq: real,
    entrySq: real,
    rapid: bool,
    jog: bool)
  {
    /** How far the squared speed can change over this block: `2 * a * d`. */
    function Reach(): real { 2.0 * acceleration * millimeters }
  }
}
