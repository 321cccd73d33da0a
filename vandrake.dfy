/** The top-level helper of lib/vandrake.rb: splitting an options Hash off
    the end of an argument list. */
module Vandrake {
  import opened Values

  /** `Vandrake.extract_params(*args)`: when the last argument is a Hash it is
      popped and returned as the params; otherwise params is `{}`. Only the
      last argument is examined. */
  function ExtractParams(args: seq<Param>): (r: (seq<Param>, map<string, Param>))
    ensures |args| - 1 <= |r.0| <= |args|
    ensures r.0 == args[..|r.0|]
    ensures |r.0| < |args| <==> args != [] && args[|args| - 1].Hash?
  {
    if args != [] && args[|args| - 1].Hash? then
      (args[..|args| - 1], args[|args| - 1].entries)
    else
      (args, map[])
  }

  /** The params come back unchanged as a Hash after the remaining args. */
  lemma ExtractParamsRoundTrip(args: seq<Param>)
    requires args != [] && args[|args| - 1].Hash?
    ensures ExtractParams(args).0 + [Hash(ExtractParams(args).1)] == args
  {
    var r := ExtractParams(args);
    assert args == args[..|args| - 1] + [args[|args| - 1]];
  }

  /** Without a trailing Hash nothing is removed and the params are empty;
      a Hash anywhere else stays among the args. */
  lemma ExtractParamsNoTrailingHash(args: seq<Param>)
    requires args == [] || !args[|args| - 1].Hash?
    ensures ExtractParams(args) == (args, map[])
  {
  }
}
