/**
 The double-buffered iteration on the device. Buffer A ("last") is created
 as a copy of the host grid; buffer B ("current") is allocated without
 contents. Each iteration enqueues one kernel dispatch, which reads A and
 writes B, and then a copy of B over A. After the loop B is read back.

 The diffusion kernel lives outside this program; it is a parameter here,
 a total function of the grid it reads and the grid width it is given. The
 command queue is in order, so the enqueued commands take effect one after
 the other, as function composition.
 */
module PingPong {
  import opened GridModel

  /** The kernel: from the previous grid and the width, the next grid. */
  type Kernel = (Grid, nat) -> Grid

  /** A kernel that writes exactly as many cells as it reads. */
  ghost predicate PreservesLength(k: Kernel) {
    forall g: Grid, width: nat :: |k(g, width)| == |g|
  }

  /** The grid after `n` applications of the kernel. A kernel that keeps
      the length of the grid keeps it over any number of applications. */
  function Iterate(k: Kernel, g: Grid, width: nat, n: nat): (r: Grid)
    ensures PreservesLength(k) ==> |r| == |g|
    decreases n
  {
    if n == 0 then g else k(Iterate(k, g, width, n - 1), width)
  }

  /** Contents of a device buffer: a buffer allocated without host data
      holds nothing defined until something writes it. */
  datatype Buffer = Uninitialized | Holds(contents: Grid)

  datatype Device = Device(last: Buffer, current: Buffer, dispatches: nat)

  /** `clCreateBuffer` twice: A copied from the host grid, B empty. */
  function Create(host: Grid): (d: Device)
    ensures d.last == Holds(host) && d.current == Uninitialized && d.dispatches == 0
  {
    Device(Holds(host), Uninitialized, 0)
  }

  /** One kernel dispatch. The device either accepts the NDRange, and then B
      receives the kernel applied to A, or rejects it (an OpenCL 1.x device
      does so when the global size is not a multiple of the work-group
      size), and then B is left as it was; the dispatch is issued either
      way. A kernel reading an undefined buffer produces an undefined one. */
  function Dispatch(d: Device, k: Kernel, width: nat, accepted: bool): (e: Device)
    ensures e.dispatches == d.dispatches + 1 && e.last == d.last
    ensures !accepted ==> e.current == d.current
    ensures accepted && d.last.Holds? ==> e.current == Holds(k(d.last.contents, width))
    ensures accepted && d.last.Uninitialized? ==> e.current.Uninitialized?
  {
    var next := match d.last
      case Holds(g) => Holds(k(g, width))
      case Uninitialized => Uninitialized;
    d.(current := if accepted then next else d.current, dispatches := d.dispatches + 1)
  }

  /** `clEnqueueCopyBuffer(current, last)`: A receives B, whether or not B
      was ever written. */
  function CopyBack(d: Device): (e: Device)
    ensures e.last == d.current && e.current == d.current && e.dispatches == d.dispatches
  {
    d.(last := d.current)
  }

  /** One iteration of the loop body: dispatch, then copy back. */
  function Step(d: Device, k: Kernel, width: nat, accepted: bool): (e: Device)
    ensures e.dispatches == d.dispatches + 1
    ensures e.last == e.current
    ensures accepted && d.last.Holds? ==> e.current == Holds(k(d.last.contents, width))
    ensures !accepted ==> e.current == d.current
  {
    CopyBack(Dispatch(d, k, width, accepted))
  }

  /** The device after `n` iterations: `n` more dispatches, and once at
      least one iteration ran, A and B agree. */
  function Loop(d: Device, k: Kernel, width: nat, accepted: bool, n: nat): (e: Device)
    ensures e.dispatches == d.dispatches + n
    ensures n >= 1 ==> e.last == e.current
    decreases n
  {
    if n == 0 then d else Step(Loop(d, k, width, accepted, n - 1), k, width, accepted)
  }

  /** The state of the buffers after `n` accepted iterations started from
      `host`: exactly `n` dispatches; A holds the kernel applied `n` times;
      B holds the same once at least one iteration ran and is still
      undefined otherwise. */
  lemma {:induction false} LoopState(k: Kernel, host: Grid, width: nat, n: nat)
    ensures Loop(Create(host), k, width, true, n).dispatches == n
    ensures Loop(Create(host), k, width, true, n).last == Holds(Iterate(k, host, width, n))
    ensures Loop(Create(host), k, width, true, n).current ==
      if n == 0 then Uninitialized else Holds(Iterate(k, host, width, n))
  {
    if n > 0 {
      LoopState(k, host, width, n - 1);
    }
  }

  /** When every dispatch is rejected, B is never written, and the first
      copy overwrites A with it: after any iteration both are undefined. */
  lemma {:induction false} RejectedLoopState(k: Kernel, host: Grid, width: nat, n: nat)
    ensures Loop(Create(host), k, width, false, n).current == Uninitialized
    ensures n >= 1 ==> Loop(Create(host), k, width, false, n).last == Uninitialized
  {
    if n > 0 {
      RejectedLoopState(k, host, width, n - 1);
    }
  }

  /** The blocking read of B at the end of the run. With accepted
      dispatches it returns the kernel applied `n` times exactly when at
      least one iteration ran; with no iteration, or with rejected
      dispatches, it exposes the never-written buffer. */
  lemma ReadBackAfterLoop(k: Kernel, host: Grid, width: nat, accepted: bool, n: nat)
    ensures accepted && n >= 1 ==>
      Loop(Create(host), k, width, accepted, n).current == Holds(Iterate(k, host, width, n))
    ensures Loop(Create(host), k, width, accepted, n).current == Uninitialized <==> n == 0 || !accepted
  {
    if accepted {
      LoopState(k, host, width, n);
    } else {
      RejectedLoopState(k, host, width, n);
    }
  }

  /** The `for` loop of `main`: `iterations` times, bind the arguments and
      dispatch the kernel, then copy B over A. */
  method RunIterations(k: Kernel, host: Grid, width: nat, accepted: bool, iterations: nat) returns (d: Device)
    ensures d == Loop(Create(host), k, width, accepted, iterations)
    ensures d.dispatches == iterations
    ensures accepted ==> d.last == Holds(Iterate(k, host, width, iterations))
    ensures !accepted ==> d.current == Uninitialized
    ensures iterations >= 1 ==> d.current == d.last
  {
    d := Create(host);
    var count := 0;
    while count < iterations
      invariant count <= iterations
      invariant d == Loop(Create(host), k, width, accepted, count)
      invariant d.dispatches == count
      invariant accepted ==> d.last == Holds(Iterate(k, host, width, count))
      invariant !accepted ==> d.current == Uninitialized
      invariant count >= 1 ==> d.current == d.last
    {
      d := Dispatch(d, k, width, accepted);
      d := CopyBack(d);
      count := count + 1;
    }
  }
}
