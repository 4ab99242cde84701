/**
 `main` as a whole: resolve the run parameters, allocate and initialise the
 two host grids, run the ping-pong loop on the device, read buffer B back
 into the second host grid and, if asked to, dump it.

 What `malloc` leaves in memory is a parameter (`nat -> real`, the value at
 each offset), and so is the kernel.
 */
module Driver {
  import opened Arguments
  import opened GridModel
  import opened PingPong
  import opened Printing

  /** A fresh block of `n` cells holding whatever the memory held. */
  function Allocate(n: nat, memory: nat -> real): (g: Grid)
    ensures |g| == n
    ensures forall i :: 0 <= i < n ==> g[i] == memory(i)
  {
    seq(n, i requires 0 <= i < n => memory(i))
  }

  /** The grid a run starts from: fresh memory with the heat row written. */
  function StartGrid(p: Params, memory: nat -> real): (g: Grid)
    requires Valid(p)
    ensures |g| == p.width * p.height
  {
    InitialGrid(Allocate(p.width * p.height, memory), p.width, p.height)
  }

  /** The condition under which an OpenCL 1.x device accepts the dispatch
      of `main`: the `width` by `height` global size splits into whole
      `workGroupSize` by `workGroupSize` tiles. Other devices may impose
      further limits or pad, so acceptance is a parameter of the run. */
  predicate TilesEvenly(p: Params)
    requires Valid(p)
  {
    p.width % p.workGroupSize == 0 && p.height % p.workGroupSize == 0
  }

  /** A width given alone keeps the default tile of 16, so a width such as
      100 does not tile evenly and such a device rejects every dispatch. */
  lemma WidthAloneMayNotTile()
    ensures Resolve([100]).width == 100 && Resolve([100]).workGroupSize == 16
    ensures !TilesEvenly(Resolve([100]))
  {
  }

  /** Because the resolved iteration count is never zero, the buffer read
      back at the end of a run whose dispatches are accepted has been
      written by the kernel; when they are rejected, it is the unwritten
      buffer B. */
  lemma ReadBackIsDefined(args: seq<Int32>, k: Kernel, host: Grid, accepted: bool)
    ensures var p := Resolve(args);
      accepted ==>
        Loop(Create(host), k, p.width, accepted, p.iterations).current == Holds(Iterate(k, host, p.width, p.iterations))
    ensures var p := Resolve(args);
      !accepted ==> Loop(Create(host), k, p.width, accepted, p.iterations).current == Uninitialized
  {
    var p := Resolve(args);
    ReadBackAfterLoop(k, host, p.width, accepted, p.iterations);
  }

  /** The run `main` performs. When the device accepts the dispatches, the
      read-back grid is the kernel applied exactly `iterations` times to the
      initial grid, whatever the second host grid held before; otherwise it
      is whatever device memory held under buffer B. The dump is printed
      only when asked for. */
  method Simulate(
    args: seq<Int32>,
    lastMemory: nat -> real,
    currentMemory: nat -> real,
    deviceMemory: nat -> real,
    k: Kernel,
    accepted: bool)
    returns (p: Params, result: Grid, output: seq<seq<real>>)
    requires PreservesLength(k)
    ensures p == Resolve(args)
    ensures |result| == p.width * p.height
    ensures accepted ==> result == Iterate(k, StartGrid(p, lastMemory), p.width, p.iterations)
    ensures !accepted ==> result == Allocate(p.width * p.height, deviceMemory)
    ensures p.printResult ==> output == Dump(result, p.width, p.height)
    ensures !p.printResult ==> output == []
  {
    p := Resolve(args);
    var lastGrid := HostGrid(p, lastMemory);
    var currentGrid := HostGrid(p, currentMemory);

    var d := RunIterations(k, lastGrid, p.width, accepted, p.iterations);
    // The blocking read of buffer B overwrites the whole second host grid.
    match d.current {
      case Holds(g) => currentGrid := g;
      case Uninitialized => currentGrid := Allocate(p.width * p.height, deviceMemory);
    }
    result := currentGrid;

    output := [];
    if p.printResult {
      output := PrintGrid(result, p.width, p.height);
    }
  }

  /** `malloc` a grid of `width * height` cells and run `gridInit` on it. */
  method HostGrid(p: Params, memory: nat -> real) returns (g: Grid)
    requires Valid(p)
    ensures g == StartGrid(p, memory)
  {
    var gridLength := p.width * p.height;
    assert p.width <= gridLength;
    g := GridInit(Allocate(gridLength, memory), p.width, p.height);
  }

  /** The print loop applied to the read-back grid. */
  method PrintGrid(grid: Grid, width: nat, height: nat) returns (shown: seq<seq<real>>)
    requires |grid| == width * height
    ensures shown == Dump(grid, width, height)
  {
    var order := PrintOrder(width, height);
    PrintOrderInBounds(width, height);
    shown := Render(grid, order);
  }
}
