/**
 One run of the generator with its inputs made explicit: the environment and
 flag values and the listing of the resolved checkouts directory. The result
 is the file to write and the records to write into it, or the failure that
 stops the run before anything is written.
 */
module Pipeline {
  import opened Wrappers
  import opened Paths
  import opened Types
  import opened Scanner
  import opened Config

  const OutputFileName: string := "acknowledgements.json"

  /** What a successful run writes, and where. */
  datatype Plan = Plan(outputFile: string, acknowledgements: seq<Acknowledgement>)

  /** The output file: `acknowledgements.json` inside the output directory, or in the current directory when none is given. */
  function OutputFile(outputPath: string): (r: string)
    ensures IsBlank(outputPath) ==> r == OutputFileName
    ensures !IsBlank(outputPath) ==> SplitLast(r) == (WithSeparator(outputPath), OutputFileName)
  {
    assert forall i :: 0 <= i < |OutputFileName| ==> OutputFileName[i] != '/' by {
      assert OutputFileName == ['a', 'c', 'k', 'n', 'o', 'w', 'l', 'e', 'd', 'g', 'e', 'm', 'e', 'n', 't', 's', '.', 'j', 's', 'o', 'n'];
    }
    JoinSplitRoundTrip(outputPath, OutputFileName);
    AppendFileToPath(outputPath, OutputFileName)
  }

  /**
   The whole run: resolve the checkouts directory, list it, scan it, and
   name the output file. `listing` is what listing the resolved directory
   gives (`None` when that fails).
   */
  function Run(buildDir: string, spmFlag: string, outputPath: string, listing: Option<seq<Entry>>): (r: Result<Plan, Failure>)
    ensures buildDir == [] && spmFlag == [] ==> r == Err(MissingSpmPath)
    ensures ResolveSpmPath(buildDir, spmFlag).Ok? && listing.None? ==>
              r == Err(ListFailed(ResolveSpmPath(buildDir, spmFlag).value))
    ensures ResolveSpmPath(buildDir, spmFlag).Ok? && listing.Some? &&
            Scan(ResolveSpmPath(buildDir, spmFlag).value, listing.value).Err? ==>
              r == Err(Scan(ResolveSpmPath(buildDir, spmFlag).value, listing.value).error)
    ensures r.Ok? <==>
              && ResolveSpmPath(buildDir, spmFlag).Ok?
              && listing.Some?
              && Scan(ResolveSpmPath(buildDir, spmFlag).value, listing.value).Ok?
    ensures r.Ok? ==>
              && r.value.acknowledgements == Scan(ResolveSpmPath(buildDir, spmFlag).value, listing.value).value
              && r.value.outputFile == OutputFile(outputPath)
  {
    match ResolveSpmPath(buildDir, spmFlag)
    case Err(f) => Err(f)
    case Ok(spmPath) =>
      match listing
      case None => Err(ListFailed(spmPath))
      case Some(entries) =>
        match Scan(spmPath, entries)
        case Err(f) => Err(f)
        case Ok(acks) => Ok(Plan(OutputFile(outputPath), acks))
  }

  /**
   A worked run: package "A" with a LICENSE reading "MIT", package "B"
   without one, and a plain file beside them.
   */
  lemma RunExample()
    ensures Run("", "checkouts", "", Some(ExampleListing()))
            == Ok(Plan("acknowledgements.json", [
                 Acknowledgement("A", "MIT", "", "", ""),
                 Acknowledgement("B", "", "", "", "")]))
  {
    var es := ExampleListing();
    var a := Acknowledgement("A", "MIT", "", "", "");
    var b := Acknowledgement("B", "", "", "", "");
    assert ResolveSpmPath("", "checkouts") == Ok("checkouts");
    ExampleAcknowledgements();
    assert Scan("checkouts", es[..0]) == Ok([]) by {
      assert es[..0] == [];
    }
    ScanStep("checkouts", es, 0);
    assert [] + [a] == [a];
    assert Scan("checkouts", es[..1]) == Ok([a]);
    ScanStep("checkouts", es, 1);
    assert Scan("checkouts", es[..2]) == Ok([a]);
    ScanStep("checkouts", es, 2);
    assert [a] + [b] == [a, b];
    assert Scan("checkouts", es[..3]) == Ok([a, b]);
    assert es[..3] == es;
    assert OutputFile("") == OutputFileName by {
      assert IsBlank("");
    }
  }

  /** The listing of the worked run. */
  function ExampleListing(): seq<Entry> {
    [ Entry("A", true, Some([Child("README", None), Child("LICENSE", Some("MIT"))])),
      Entry("notes.txt", false, None),
      Entry("B", true, Some([])) ]
  }

  lemma ExampleAcknowledgements()
    ensures ExampleListing()[0].isDir && !ExampleListing()[1].isDir && ExampleListing()[2].isDir
    ensures Acknowledge("checkouts", ExampleListing()[0]) == Ok(Acknowledgement("A", "MIT", "", "", ""))
    ensures Acknowledge("checkouts", ExampleListing()[2]) == Ok(Acknowledgement("B", "", "", "", ""))
  {
    var cs := ExampleListing()[0].children.value;
    assert cs[0].name != LicenseFileName;
    assert FirstLicenseAt(cs, 1);
  }
}
