/**
 * The Yazi configurator: ensure the theme package is installed, using a
 * substring test on `ya pkg list` and `ya pkg add` to install it.
 */
module Yazi {
  import opened Wrappers
  import opened Text
  import opened Errors

  const PackageName := "Chromium-3-Oxide/everforest-medium"

  const ListInvocation := Invocation("ya", ["pkg", "list"])

  function AddInvocation(package: string): Invocation {
    Invocation("ya", ["pkg", "add", package])
  }

  const NonZeroMessage := "Failed to add " + "Yazi package: command returned non-zero status"

  function SpawnMessage(reason: string): string {
    "Failed to execute 'ya pkg add': " + reason
  }

  /** `is_package_installed`: the listing ran successfully and its output
      contains the name anywhere. */
  predicate IsPackageInstalled(listing: CommandOutcome, package: string) {
    listing.Success? && Contains(listing.stdout, package)
  }

  /** `should_run`: Yazi is detected and the package is not listed. */
  predicate ShouldRun(detected: bool, run: Invocation -> CommandOutcome) {
    detected && !IsPackageInstalled(run(ListInvocation), PackageName)
  }

  /** What `run_configure` does: the commands it runs, in order, and its
      result. */
  datatype ConfigureRun = ConfigureRun(calls: seq<Invocation>, result: SetupResult)

  /** `run_configure`, with the process runner as `run`. */
  function Configure(run: Invocation -> CommandOutcome): ConfigureRun {
    if IsPackageInstalled(run(ListInvocation), PackageName) then
      ConfigureRun([ListInvocation], Ok)
    else
      var calls := [ListInvocation, AddInvocation(PackageName)];
      match run(AddInvocation(PackageName))
      case Success(_) => ConfigureRun(calls, Ok)
      case NonZeroExit => ConfigureRun(calls, Err(IoError(NonZeroMessage)))
      case SpawnFailed(reason) => ConfigureRun(calls, Err(IoError(SpawnMessage(reason))))
  }

  /** `affected_files`: none. */
  function AffectedFiles(): seq<string> {
    []
  }

  /** A package counts as installed exactly when the listing succeeded and
      the name occurs at some position of its output; a failed listing
      counts as not installed. */
  lemma IsPackageInstalledIff(listing: CommandOutcome, package: string)
    ensures IsPackageInstalled(listing, package) <==>
      listing.Success? && exists i :: OccursAt(listing.stdout, package, i)
  {
    if listing.Success? {
      ContainsIff(listing.stdout, package);
    }
  }

  /** The test is a substring test: a listing that names only a longer
      package with the same prefix still counts as installed. */
  lemma LongerNameCounts(suffix: string)
    ensures IsPackageInstalled(Success(PackageName + suffix), PackageName)
  {
    assert StartsWith(PackageName + suffix, PackageName);
  }

  /** Already listed: `run_configure` succeeds after the listing alone. */
  lemma ListedIsNoOp(run: Invocation -> CommandOutcome)
    requires IsPackageInstalled(run(ListInvocation), PackageName)
    ensures Configure(run) == ConfigureRun([ListInvocation], Ok)
  {
  }

  /** Not listed: `run_configure` runs `ya pkg add` once; it succeeds
      exactly when the install exits with status zero, and both failures
      are I/O errors with different messages. */
  lemma InstallOutcomes(run: Invocation -> CommandOutcome)
    requires !IsPackageInstalled(run(ListInvocation), PackageName)
    ensures Configure(run).calls == [ListInvocation, AddInvocation(PackageName)]
    ensures Configure(run).result == Ok <==> run(AddInvocation(PackageName)).Success?
    ensures run(AddInvocation(PackageName)) == NonZeroExit ==>
      Configure(run).result == Err(IoError(NonZeroMessage))
    ensures run(AddInvocation(PackageName)).SpawnFailed? ==>
      Configure(run).result == Err(IoError(SpawnMessage(run(AddInvocation(PackageName)).reason)))
  {
  }

  /** The two failure messages never coincide. */
  lemma FailureMessagesDiffer(reason: string)
    ensures NonZeroMessage != SpawnMessage(reason)
  {
    assert NonZeroMessage[10] == 'a';
    var head := "Failed to execute 'ya pkg add': ";
    assert SpawnMessage(reason) == head + reason;
    assert (head + reason)[10] == head[10] == 'e';
  }

  /** `should_run` is false exactly when Yazi is not detected or
      `run_configure` would stop after the listing. */
  lemma ShouldRunAgrees(detected: bool, run: Invocation -> CommandOutcome)
    ensures !ShouldRun(detected, run) <==> !detected || |Configure(run).calls| == 1
  {
  }
}
