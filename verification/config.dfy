/**
 Resolution of the checkouts directory from the build-directory environment
 value and the `-spm`/`-s` flag value, both taken as already read.
 */
module Config {
  import opened Wrappers
  import opened Types

  /** Appended verbatim to the build directory; no separator handling. */
  const CheckoutsSuffix: string := "/../../SourcePackages/checkouts"

  /**
   The checkouts directory: derived from a non-empty build directory,
   otherwise the flag value, and a failure when both are empty.
   */
  function ResolveSpmPath(buildDir: string, spmFlag: string): (r: Result<string, Failure>)
    ensures r.Ok? <==> buildDir != [] || spmFlag != []
    ensures r.Err? ==> r.error == MissingSpmPath
    ensures r.Ok? ==> r.value != []
    ensures r.Ok? && buildDir != [] ==>
              |r.value| == |buildDir| + |CheckoutsSuffix| &&
              r.value[..|buildDir|] == buildDir && r.value[|buildDir|..] == CheckoutsSuffix
    ensures r.Ok? && buildDir == [] ==> r.value == spmFlag
  {
    if |buildDir| > 0 then
      Ok(buildDir + CheckoutsSuffix)
    else if |spmFlag| < 1 then
      Err(MissingSpmPath)
    else
      Ok(spmFlag)
  }

  /** A set build directory takes precedence: the flag value is then never consulted. */
  lemma BuildDirOverridesFlag(buildDir: string, spmFlag: string, spmFlag': string)
    requires buildDir != []
    ensures ResolveSpmPath(buildDir, spmFlag) == ResolveSpmPath(buildDir, spmFlag')
  {
  }
}
