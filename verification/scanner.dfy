/**
 The package scan of the generator: every directory of the checkouts listing
 becomes one acknowledgement, carrying the text of the package's first file
 named exactly "LICENSE". The first failed listing or read stops the scan.
 */
module Scanner {
  import opened Wrappers
  import opened Paths
  import opened Types

  const LicenseFileName: string := "LICENSE"

  /** `i` is the position of the first child named "LICENSE". */
  predicate FirstLicenseAt(cs: seq<Child>, i: int) {
    && 0 <= i < |cs|
    && cs[i].name == LicenseFileName
    && forall j :: 0 <= j < i ==> cs[j].name != LicenseFileName
  }

  /** There is only one first "LICENSE" child. */
  lemma FirstLicenseUnique(cs: seq<Child>, i: int, k: int)
    requires FirstLicenseAt(cs, i) && FirstLicenseAt(cs, k)
    ensures i == k
  {
  }

  predicate HasLicense(cs: seq<Child>) {
    exists i :: 0 <= i < |cs| && cs[i].name == LicenseFileName
  }

  /** The position of the first child named "LICENSE", if any; later ones are ignored. */
  function FindLicense(cs: seq<Child>): (r: Option<nat>)
    ensures r.Some? ==> FirstLicenseAt(cs, r.value)
    ensures r.None? <==> !HasLicense(cs)
  {
    if cs == [] then None
    else if cs[0].name == LicenseFileName then Some(0)
    else
      match FindLicense(cs[1..])
      case None => None
      case Some(i) =>
        assert cs[i + 1] == cs[1..][i];
        Some(i + 1)
  }

  /** The directory the scan lists for package `name`. */
  function PackagePath(spmPath: string, name: string): string {
    AppendFileToPath(spmPath, name)
  }

  /** The file the scan reads for the licence of package `name`. */
  function LicensePath(spmPath: string, name: string): string {
    AppendFileToPath(PackagePath(spmPath, name), LicenseFileName)
  }

  /** The record a package directory yields, or the failure that stops the run. */
  function Acknowledge(spmPath: string, e: Entry): (r: Result<Acknowledgement, Failure>)
    ensures e.children.None? ==> r == Err(ListFailed(PackagePath(spmPath, e.name)))
    ensures e.children.Some? && !HasLicense(e.children.value) ==>
              r == Ok(Acknowledgement(e.name, "", "", "", ""))
    ensures forall i :: e.children.Some? && FirstLicenseAt(e.children.value, i) ==>
              if e.children.value[i].data.Some?
              then r == Ok(Acknowledgement(e.name, e.children.value[i].data.value, "", "", ""))
              else r == Err(ReadFailed(LicensePath(spmPath, e.name)))
  {
    match e.children
    case None => Err(ListFailed(PackagePath(spmPath, e.name)))
    case Some(cs) =>
      match FindLicense(cs)
      case None => Ok(Acknowledgement(e.name, "", "", "", ""))
      case Some(i) =>
        assert forall k :: FirstLicenseAt(cs, k) ==> k == i by {
          forall k | FirstLicenseAt(cs, k) {
            FirstLicenseUnique(cs, i, k);
          }
        }
        match cs[i].data
        case Some(text) => Ok(Acknowledgement(e.name, text, "", "", ""))
        case None => Err(ReadFailed(LicensePath(spmPath, e.name)))
  }

  /** The directory entries of a listing, in listing order. */
  function Packages(es: seq<Entry>): (ds: seq<Entry>)
    ensures |ds| <= |es|
    ensures forall k :: 0 <= k < |ds| ==> ds[k].isDir
    ensures forall e :: e in ds <==> e in es && e.isDir
  {
    if es == [] then []
    else
      var ds := Packages(es[..|es| - 1]);
      assert es == es[..|es| - 1] + [es[|es| - 1]];
      if es[|es| - 1].isDir then ds + [es[|es| - 1]] else ds
  }

  /** The directory entries of a single entry: itself if it is a directory, nothing otherwise. */
  lemma PackagesSingleton(e: Entry)
    ensures Packages([e]) == if e.isDir then [e] else []
  {
  }

  /**
   Filtering distributes over concatenation, so every directory entry is kept
   exactly once and in listing order.
   */
  lemma {:induction false} PackagesAppend(a: seq<Entry>, b: seq<Entry>)
    ensures Packages(a + b) == Packages(a) + Packages(b)
    decreases |b|
  {
    if b == [] {
      assert a + b == a;
    } else {
      var b' := b[..|b| - 1];
      assert (a + b)[..|a + b| - 1] == a + b';
      assert (a + b)[|a + b| - 1] == b[|b| - 1];
      PackagesAppend(a, b');
    }
  }

  /**
   The scan over a listing of the checkouts directory: a fold that appends
   one record per directory entry and stops at the first failure.
   */
  function Scan(spmPath: string, es: seq<Entry>): (r: Result<seq<Acknowledgement>, Failure>)
    ensures r.Ok? ==> |r.value| == |Packages(es)|
  {
    if es == [] then Ok([])
    else
      match Scan(spmPath, es[..|es| - 1])
      case Err(f) => Err(f)
      case Ok(acks) =>
        var e := es[|es| - 1];
        if !e.isDir then Ok(acks)
        else
          match Acknowledge(spmPath, e)
          case Err(f) => Err(f)
          case Ok(a) => Ok(acks + [a])
  }

  /** `k` is the first directory entry whose acknowledgement fails. */
  predicate FirstFailureAt(spmPath: string, es: seq<Entry>, k: int) {
    && 0 <= k < |es|
    && es[k].isDir
    && Acknowledge(spmPath, es[k]).Err?
    && forall j :: 0 <= j < k && es[j].isDir ==> Acknowledge(spmPath, es[j]).Ok?
  }

  /** On success the records are, in order, the acknowledgements of the directory entries. */
  lemma {:induction false} ScanRecords(spmPath: string, es: seq<Entry>)
    ensures Scan(spmPath, es).Ok? ==>
              forall k :: 0 <= k < |Packages(es)| ==>
                Acknowledge(spmPath, Packages(es)[k]) == Ok(Scan(spmPath, es).value[k])
    decreases |es|
  {
    if es != [] && Scan(spmPath, es).Ok? {
      var init := es[..|es| - 1];
      ScanRecords(spmPath, init);
    }
  }

  /** The scan succeeds exactly when every directory entry can be acknowledged. */
  lemma {:induction false} ScanSucceedsIff(spmPath: string, es: seq<Entry>)
    ensures Scan(spmPath, es).Ok? <==>
              forall k :: 0 <= k < |es| && es[k].isDir ==> Acknowledge(spmPath, es[k]).Ok?
    decreases |es|
  {
    if es != [] {
      var init := es[..|es| - 1];
      ScanSucceedsIff(spmPath, init);
      assert forall k :: 0 <= k < |init| ==> init[k] == es[k];
    }
  }

  /** A failed scan reports the failure of the first directory entry that fails, and nothing else. */
  lemma {:induction false} ScanFailsAtFirst(spmPath: string, es: seq<Entry>)
    ensures Scan(spmPath, es).Err? ==>
              exists k :: FirstFailureAt(spmPath, es, k) &&
                Acknowledge(spmPath, es[k]) == Err(Scan(spmPath, es).error)
    decreases |es|
  {
    if es != [] && Scan(spmPath, es).Err? {
      var init := es[..|es| - 1];
      ScanFailsAtFirst(spmPath, init);
      assert forall k :: 0 <= k < |init| ==> init[k] == es[k];
      if Scan(spmPath, init).Err? {
        var k :| FirstFailureAt(spmPath, init, k) &&
                 Acknowledge(spmPath, init[k]) == Err(Scan(spmPath, init).error);
        assert FirstFailureAt(spmPath, es, k);
      } else {
        ScanSucceedsIff(spmPath, init);
        assert FirstFailureAt(spmPath, es, |es| - 1);
      }
    }
  }

  /**
   Scanning two listings one after the other is scanning their concatenation:
   records keep listing order, and a failure in either part fails the whole.
   */
  lemma {:induction false} ScanAppend(spmPath: string, a: seq<Entry>, b: seq<Entry>)
    ensures Scan(spmPath, a + b) ==
              match Scan(spmPath, a)
              case Err(f) => Err(f)
              case Ok(ra) =>
                match Scan(spmPath, b)
                case Err(f) => Err(f)
                case Ok(rb) => Ok(ra + rb)
    decreases |b|
  {
    if b == [] {
      assert a + b == a;
      if Scan(spmPath, a).Ok? {
        assert Scan(spmPath, a).value + [] == Scan(spmPath, a).value;
      }
    } else {
      var b' := b[..|b| - 1];
      var e := b[|b| - 1];
      assert (a + b)[..|a + b| - 1] == a + b';
      assert (a + b)[|a + b| - 1] == e;
      ScanAppend(spmPath, a, b');
      match Scan(spmPath, a)
      case Err(f) =>
      case Ok(ra) =>
        match Scan(spmPath, b')
        case Err(f) =>
        case Ok(rb) =>
          if e.isDir && Acknowledge(spmPath, e).Ok? {
            var x := Acknowledge(spmPath, e).value;
            assert ra + rb + [x] == ra + (rb + [x]);
          }
    }
  }

  /** Non-directory entries contribute nothing: scanning the listing equals scanning its directories. */
  lemma {:induction false} ScanSkipsFiles(spmPath: string, es: seq<Entry>)
    ensures Scan(spmPath, es) == Scan(spmPath, Packages(es))
    decreases |es|
  {
    if es != [] {
      var init := es[..|es| - 1];
      var e := es[|es| - 1];
      ScanSkipsFiles(spmPath, init);
      if e.isDir {
        ScanAppend(spmPath, Packages(init), [e]);
        assert [e][..0] == [];
      }
    }
  }

  /** Once a prefix of the listing fails, the whole scan fails with the same failure. */
  lemma {:induction false} ScanKeepsFailure(spmPath: string, es: seq<Entry>, n: nat)
    requires n <= |es|
    requires Scan(spmPath, es[..n]).Err?
    ensures Scan(spmPath, es) == Scan(spmPath, es[..n])
    decreases |es|
  {
    if n == |es| {
      assert es[..n] == es;
    } else {
      var init := es[..|es| - 1];
      assert init[..n] == es[..n];
      ScanKeepsFailure(spmPath, init, n);
    }
  }

  /**
   Only the first "LICENSE" child is ever read: two listings with the same
   names that agree on the data of that child yield the same outcome.
   */
  lemma ReadsOnlyFirstLicense(spmPath: string, name: string, cs: seq<Child>, cs': seq<Child>, i: nat)
    requires |cs| == |cs'|
    requires forall k :: 0 <= k < |cs| ==> cs[k].name == cs'[k].name
    requires FirstLicenseAt(cs, i) && cs[i].data == cs'[i].data
    ensures Acknowledge(spmPath, Entry(name, true, Some(cs))) == Acknowledge(spmPath, Entry(name, true, Some(cs')))
  {
  }

  /** One more entry of the listing extends the scan by that entry's outcome. */
  lemma ScanStep(spmPath: string, es: seq<Entry>, i: nat)
    requires i < |es|
    ensures Scan(spmPath, es[..i + 1]) ==
              match Scan(spmPath, es[..i])
              case Err(f) => Err(f)
              case Ok(acks) =>
                if !es[i].isDir then Ok(acks)
                else
                  match Acknowledge(spmPath, es[i])
                  case Err(f) => Err(f)
                  case Ok(a) => Ok(acks + [a])
  {
    assert es[..i + 1][..i] == es[..i];
    assert es[..i + 1][i] == es[i];
  }

  /**
   The body of the scan loop for one directory entry: list the package, look
   for the first "LICENSE" and stop at it, read it.
   */
  method AcknowledgePackage(spmPath: string, entry: Entry) returns (r: Result<Acknowledgement, Failure>)
    ensures r == Acknowledge(spmPath, entry)
  {
    var packagePath := AppendFileToPath(spmPath, entry.name);
    if entry.children.None? {
      return Err(ListFailed(packagePath));
    }
    var children := entry.children.value;
    var content := "";
    var j := 0;
    while j < |children| && children[j].name != LicenseFileName
      invariant 0 <= j <= |children|
      invariant forall k :: 0 <= k < j ==> children[k].name != LicenseFileName
    {
      j := j + 1;
    }
    if j < |children| {
      assert FirstLicenseAt(children, j);
      if children[j].data.None? {
        return Err(ReadFailed(AppendFileToPath(packagePath, LicenseFileName)));
      }
      content := children[j].data.value;
    }
    return Ok(Acknowledgement(entry.name, content, "", "", ""));
  }

  /** The imperative scan: the loop over the checkouts listing, failing fast. */
  method ScanPackages(spmPath: string, entries: seq<Entry>) returns (r: Result<seq<Acknowledgement>, Failure>)
    ensures r == Scan(spmPath, entries)
  {
    var acknowledgements: seq<Acknowledgement> := [];
    var i := 0;
    while i < |entries|
      invariant 0 <= i <= |entries|
      invariant Scan(spmPath, entries[..i]) == Ok(acknowledgements)
    {
      var entry := entries[i];
      ScanStep(spmPath, entries, i);
      if entry.isDir {
        var outcome := AcknowledgePackage(spmPath, entry);
        if outcome.Err? {
          ScanKeepsFailure(spmPath, entries, i + 1);
          return Err(outcome.error);
        }
        acknowledgements := acknowledgements + [outcome.value];
      }
      i := i + 1;
    }
    assert entries[..i] == entries;
    return Ok(acknowledgements);
  }
}
