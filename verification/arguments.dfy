/**
 Run-parameter resolution: how `main` turns its command-line arguments into
 the width, height, work-group size, iteration count and print flag of a run.

 The arguments reach this module already parsed: `args[n]` is what `atoi`
 returned for `argv[n + 1]`, with 0 standing for "not a number", so the
 C `argc` is `|args| + 1`. The run parameters are `unsigned int` in the
 source; assigning a (signed) `atoi` result to them wraps modulo 2^32.
 */
module Arguments {

  const DefaultWorkGroupSize: nat := 16
  const DefaultWidth: nat := 1024
  const DefaultHeight: nat := 1024
  const DefaultIterations: nat := 100

  /** Range of C `int`, the result type of `atoi`. */
  type Int32 = x: int | -0x8000_0000 <= x < 0x8000_0000

  /** Range of C `unsigned int`, the type of every numeric run parameter. */
  type Uint32 = x: int | 0 <= x < 0x1_0000_0000

  /** The implicit conversion of an `int` into an `unsigned int`. */
  function ToUnsigned(x: Int32): (u: Uint32)
    ensures 0 <= x ==> u == x
    ensures x < 0 ==> u == x + 0x1_0000_0000
    ensures u == 0 <==> x == 0
  {
    x % 0x1_0000_0000
  }

  datatype Params = Params(
    width: Uint32,
    height: Uint32,
    workGroupSize: Uint32,
    iterations: Uint32,
    printResult: bool)

  /** Parameters every resolved run satisfies. */
  predicate Valid(p: Params) {
    && p.width == p.height
    && p.width >= 1
    && p.workGroupSize >= 1
    && p.iterations >= 1
  }

  /** The first half of `main`: start from the defaults and overwrite each
      parameter whose position was given, the print flag only when exactly
      four arguments were given and the last one is 1. */
  function FromArgs(args: seq<Int32>): (p: Params) {
    var argc := |args| + 1;
    var width: Uint32 := if argc >= 2 then ToUnsigned(args[0]) else DefaultWidth;
    var height: Uint32 := if argc >= 2 then width else DefaultHeight;
    var workGroupSize: Uint32 := if argc >= 3 then ToUnsigned(args[1]) else DefaultWorkGroupSize;
    var iterations: Uint32 := if argc >= 4 then ToUnsigned(args[2]) else DefaultIterations;
    var printResult := argc == 5 && args[3] == 1;
    Params(width, height, workGroupSize, iterations, printResult)
  }

  /** The second half of `main`: zero (which is also what `atoi` gives for
      text that is not a number) falls back to the default. Note the source
      assigns DEFAULT_HEIGHT to width and DEFAULT_WIDTH to height; both are
      1024. */
  function ApplyDefaults(p: Params): (q: Params) {
    var sized := if p.width == 0 || p.height == 0
      then p.(width := DefaultHeight, height := DefaultWidth) else p;
    var grouped := if sized.workGroupSize == 0
      then sized.(workGroupSize := DefaultWorkGroupSize) else sized;
    if grouped.iterations == 0
    then grouped.(iterations := DefaultIterations) else grouped
  }

  /** The run parameters `main` computes from its arguments. */
  function Resolve(args: seq<Int32>): (p: Params)
    ensures Valid(p)
    ensures p.width == (if |args| >= 1 && args[0] != 0 then ToUnsigned(args[0]) else 1024)
    ensures p.workGroupSize == (if |args| >= 2 && args[1] != 0 then ToUnsigned(args[1]) else 16)
    ensures p.iterations == (if |args| >= 3 && args[2] != 0 then ToUnsigned(args[2]) else 100)
    ensures p.printResult <==> |args| == 4 && args[3] == 1
  {
    ApplyDefaults(FromArgs(args))
  }

  /** What `atoi` must return for `unsigned int` value `u` to come out of
      the conversion: `u` itself below 2^31, its negative form above. */
  function ToSigned(u: Uint32): (x: Int32)
    ensures ToUnsigned(x) == u
  {
    if u < 0x8000_0000 then u else u - 0x1_0000_0000
  }

  /** A command line that reproduces the given parameters. */
  function ToArgs(p: Params): (args: seq<Int32>) {
    [ToSigned(p.width), ToSigned(p.workGroupSize), ToSigned(p.iterations), if p.printResult then 1 else 0]
  }

  /** Resolution is onto the valid parameters: every valid parameter record,
      including the wrapped values above 2^31, comes from some command line. */
  lemma ResolveToArgs(p: Params)
    requires Valid(p)
    ensures Resolve(ToArgs(p)) == p
  {
  }

  /** Zero, unparsable or missing width: a 1024 by 1024 grid. */
  lemma ZeroWidthDefaults(args: seq<Int32>)
    requires |args| == 0 || args[0] == 0
    ensures Resolve(args).width == 1024 && Resolve(args).height == 1024
  {
  }

  /** Only zero falls back to the default: a negative argument wraps around
      to a large unsigned value instead. */
  lemma NegativeWidthWraps(args: seq<Int32>)
    requires |args| >= 1 && args[0] < 0
    ensures Resolve(args).width == (args[0] as int) + 0x1_0000_0000 >= 0x8000_0000
  {
  }

  /** Whatever the arguments, a run performs at least one iteration. */
  lemma NoRunWithoutIterations(args: seq<Int32>)
    ensures Resolve(args).iterations >= 1
    ensures Resolve(args).iterations == 100 <==> |args| < 3 || args[2] == 0 || args[2] == 100
  {
  }
}
