/** How threads are numbered by package: densely, in the order in which packages first appear. The
    first thread of a package is its leader. */
module Topology {

  /** Package g belongs to one of the first n threads. */
  predicate Used(packages: seq<nat>, n: nat, g: nat)
    requires n <= |packages|
  {
    exists k: nat :: k < n && packages[k] == g
  }

  /** packages[i] is the package of thread i; no number is used before all smaller ones have been. */
  ghost predicate Dense(packages: seq<nat>) {
    forall i: nat, q: nat | i < |packages| && q < packages[i] :: Used(packages, i, q)
  }

  predicate Leader(packages: seq<nat>, i: nat)
    requires i < |packages|
  {
    !Used(packages, i, packages[i])
  }

  /** The number of packages among the first n threads: one more than the largest number. */
  function Pkgs(packages: seq<nat>, n: nat): (count: nat)
    requires n <= |packages|
    ensures forall i: nat | i < n :: packages[i] < count
  {
    if n == 0 then 0
    else
      var rest := Pkgs(packages, n - 1);
      if packages[n - 1] < rest then rest else packages[n - 1] + 1
  }

  /** Every package number below the bound belongs to some thread. */
  lemma {:induction false} PackagesAreUsed(packages: seq<nat>, n: nat, g: nat)
    requires Dense(packages) && n <= |packages| && g < Pkgs(packages, n)
    ensures Used(packages, n, g)
  {
    if g < Pkgs(packages, n - 1) {
      PackagesAreUsed(packages, n - 1, g);
    } else if g < packages[n - 1] {
      assert Used(packages, n - 1, g);
    } else {
      assert packages[n - 1] == g;
    }
  }

  /** The first thread of package g among the first n, or n. */
  function FirstOf(packages: seq<nat>, n: nat, g: nat): (i: nat)
    requires n <= |packages|
    ensures i <= n && !Used(packages, i, g) && (i < n ==> packages[i] == g)
  {
    if n == 0 then 0
    else
      var i := FirstOf(packages, n - 1, g);
      if i < n - 1 || packages[n - 1] == g then i else n
  }

  /** Among any number of threads each package has exactly one leader. */
  lemma LeaderIsUnique(packages: seq<nat>, g: nat)
    requires Dense(packages) && g < Pkgs(packages, |packages|)
    ensures FirstOf(packages, |packages|, g) < |packages|
    ensures forall i: nat | i < |packages| && packages[i] == g ::
              Leader(packages, i) <==> i == FirstOf(packages, |packages|, g)
  {
    PackagesAreUsed(packages, |packages|, g);
    var l := FirstOf(packages, |packages|, g);
    assert forall i: nat | l < i < |packages| && packages[i] == g :: Used(packages, i, g);
  }

  /** Thread 0 leads package 0, the others lead other packages. */
  lemma MasterLeadsPackageZero(packages: seq<nat>)
    requires Dense(packages) && packages != []
    ensures packages[0] == 0 && Leader(packages, 0)
    ensures forall i: nat | 0 < i < |packages| && Leader(packages, i) :: packages[i] > 0
  {
    assert packages[0] > 0 ==> Used(packages, 0, 0);
    assert forall i: nat | 0 < i < |packages| :: Used(packages, i, packages[0]);
  }

  // ----- the code

  /** Numbers the packages: physical[i] is the hardware's number for the package of thread i. */
  method FinalizePackageData(physical: seq<nat>, maxRaw: nat) returns (packages: seq<nat>)
    requires forall i: nat | i < |physical| :: physical[i] <= maxRaw
    ensures |packages| == |physical| && Dense(packages)
    ensures forall i: nat, j: nat | i < |physical| && j < |physical| ::
              packages[i] == packages[j] <==> physical[i] == physical[j]
  {
    var mapping := seq(maxRaw + 1, _ => 0);
    var nextVal := 1;
    packages := [];
    var i := 0;
    while i < |physical|
      invariant 0 <= i == |packages| <= |physical| && |mapping| == maxRaw + 1 && nextVal >= 1
      invariant forall x: nat | x <= maxRaw :: 0 <= mapping[x] < nextVal
      invariant forall x: nat, y: nat | x <= maxRaw && y <= maxRaw && mapping[x] == mapping[y] > 0 :: x == y
      invariant forall k: nat | k < i :: mapping[physical[k]] == packages[k] + 1
      invariant forall q: nat | q < nextVal - 1 :: Used(packages, i, q)
      invariant Dense(packages)
    {
      var x := physical[i];
      ghost var before := packages;
      if mapping[x] == 0 {
        mapping := mapping[x := nextVal];
        nextVal := nextVal + 1;
      }
      packages := packages + [mapping[x] - 1];
      UsedStays(before, packages);
      i := i + 1;
      assert Used(packages, i, mapping[x] - 1) by { assert packages[i - 1] == mapping[x] - 1; }
      forall q: nat | q < nextVal - 1 ensures Used(packages, i, q) {
        assert q == mapping[x] - 1 || Used(before, i - 1, q);
      }
    }
  }

  lemma UsedStays(before: seq<nat>, packages: seq<nat>)
    requires before <= packages
    ensures forall n: nat, g: nat | n <= |before| :: Used(before, n, g) == Used(packages, n, g)
    ensures forall n: nat, g: nat | n <= |before| && Used(before, n, g) :: Used(packages, |packages|, g)
  {
    forall n: nat, g: nat | n <= |before|
      ensures Used(before, n, g) == Used(packages, n, g) && (Used(before, n, g) ==> Used(packages, |packages|, g))
    {
      if Used(before, n, g) {
        var k: nat :| k < n && before[k] == g;
        assert packages[k] == g;
      }
      if Used(packages, n, g) {
        var k: nat :| k < n && packages[k] == g;
        assert before[k] == g;
      }
    }
  }

  /** The cumulative maximum: the number of packages among threads 0 to i, less one. */
  method MaxPackages(packages: seq<nat>) returns (maxPackage: seq<nat>)
    ensures |maxPackage| == |packages|
    ensures forall i: nat | i < |packages| :: maxPackage[i] + 1 == Pkgs(packages, i + 1)
  {
    maxPackage := [];
    var p := 0;
    var i := 0;
    while i < |packages|
      invariant 0 <= i == |maxPackage| <= |packages|
      invariant if i > 0 then p + 1 == Pkgs(packages, i) else p == 0
      invariant forall k: nat | k < i :: maxPackage[k] + 1 == Pkgs(packages, k + 1)
    {
      p := if packages[i] < p then p else packages[i];
      maxPackage := maxPackage + [p];
      i := i + 1;
    }
  }

  /** The first thread in each package. */
  method FirstThreads(packages: seq<nat>, numPackages: nat) returns (leaders: seq<int>)
    requires forall i: nat | i < |packages| :: packages[i] < numPackages
    ensures |leaders| == numPackages
    ensures forall i: nat | i < |packages| :: leaders[packages[i]] == i <==> Leader(packages, i)
    ensures forall g: nat | g < numPackages :: leaders[g] == -1 <==> !Used(packages, |packages|, g)
  {
    leaders := seq(numPackages, _ => -1);
    assert forall g: nat :: !Used(packages, 0, g);
    hide Used;
    var i := 0;
    while i < |packages|
      invariant 0 <= i <= |packages| && |leaders| == numPackages
      invariant forall g: nat | g < numPackages :: -1 <= leaders[g] < i
      invariant forall g: nat | g < numPackages :: leaders[g] == -1 <==> !Used(packages, i, g)
      invariant forall k: nat | k < i :: leaders[packages[k]] == k <==> Leader(packages, k)
    {
      hide Used;
      if leaders[packages[i]] == -1 {
        leaders := leaders[packages[i] := i];
      }
      i := i + 1;
    }
  }
}
