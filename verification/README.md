# spm-acknowledgements, modelled in Dafny

The generator scans a directory of Swift Package Manager checkouts. Every
sub-directory is one package. For each package it records the package name
and the text of the package's `LICENSE` file, then writes the records as a
JSON acknowledgements file. The checkouts directory comes from the
`BUILD_DIR` environment value (plus a fixed suffix) or from the `-spm`/`-s`
flag. Any failed listing or read ends the run before anything is written.

This project models that logic as pure functions over explicit inputs:

- `wrappers.dfy` (`Wrappers`): `Option` and `Result`.
- `types.dfy` (`Types`): the `Acknowledgement` record with Go's five fields,
  the abstract listing (`Entry` for a top-level entry, `Child` for an entry of
  a package directory), and `Failure` (missing path, failed listing, failed
  read, each read failure carrying its path).
- `paths.dfy` (`Paths`): white space as Go's `unicode.IsSpace` defines it,
  `strings.TrimSpace`, and `appendFileToPath`, with the inverse split at the
  last '/'.
- `scanner.dfy` (`Scanner`): the scan loop of `main` as a fold (`Scan`), the
  same loop written imperatively (`ScanPackages`, `AcknowledgePackage`), and
  the lemmas relating them.
- `config.dfy` (`Config`): `getSPMPath` as a rule from (environment value,
  flag value) to a path or a failure.
- `pipeline.dfy` (`Pipeline`): one whole run, from resolved inputs to the
  output file name and its records.

Directory listings and file reads are inputs. A failed listing is `None` in
`Entry.children` (or in the top-level listing given to `Run`), and a failed
read is `None` in `Child.data`. The environment value and the flag values are
plain string parameters. `log.Fatal` becomes an `Err` result.

## Model

| member | source | states |
|---|---|---|
| Paths.TrimSpace | main.go:74 | the trimmed path is empty exactly when every character of the path is white space, the empty path included |
| Paths.AppendFileToPath | main.go:73-85 | a blank directory gives the file name alone; a directory ending in '/' is followed directly by the file; any other directory gets one '/' before the file; in every case the result ends with the file name |
| Paths.JoinSplitRoundTrip | main.go:73-85 | for a file name without '/', splitting the joined path after its last '/' gives back the file name, and the directory with a '/' added only when it did not already end in '/' (nothing, for a blank directory) |
| Paths.JoinTrailingSlashIrrelevant | main.go:78-84 | a non-blank directory joins to the same path with or without a trailing '/', so the join never doubles the separator |
| Scanner.FindLicense | main.go:37-45 | the position found holds the first child named exactly "LICENSE"; nothing is found exactly when no child has that name |
| Scanner.Acknowledge | main.go:29-45 | a failed package listing fails with that package's path; with no "LICENSE" child the record has the package name and empty content; otherwise the first "LICENSE" child's text is the content, or its failed read fails with the licence path; version, URL and author stay empty |
| Scanner.Packages | main.go:27-28 | the directory entries of a listing: no more entries than the listing, only directories, and every directory of the listing |
| Scanner.PackagesSingleton | main.go:27-28 | a single entry contributes itself when it is a directory and nothing otherwise |
| Scanner.PackagesAppend | main.go:27-28 | the directory entries of a concatenation are those of the first part followed by those of the second, so each directory entry is kept once, in listing order |
| Scanner.Scan | main.go:27-49 | a successful scan yields exactly as many records as the listing has directory entries |
| Scanner.ScanRecords | main.go:27-49 | the k-th record of a successful scan is the acknowledgement of the k-th directory entry, so records follow listing order |
| Scanner.ScanSucceedsIff | main.go:27-49 | the scan succeeds if and only if every directory entry can be acknowledged |
| Scanner.ScanFailsAtFirst | main.go:27-49 | a failed scan reports the failure of the first directory entry that fails, with no partial result |
| Scanner.ScanAppend | main.go:27-49 | scanning a concatenation equals scanning each part and concatenating the records, and a failure in either part fails the whole |
| Scanner.ScanSkipsFiles | main.go:27-28 | non-directory entries do not affect the scan: scanning a listing equals scanning its directory entries |
| Scanner.ScanKeepsFailure | main.go:67-70 | once a prefix of the listing fails, the whole scan fails with that same failure |
| Scanner.ReadsOnlyFirstLicense | main.go:37-45 | only the first "LICENSE" child is read: listings with the same names that agree on that child's data give the same outcome |
| Scanner.AcknowledgePackage | main.go:29-47 | the loop body for one package (list it, search for "LICENSE" up to the first match, read it) computes the acknowledgement defined by `Acknowledge` |
| Scanner.ScanPackages | main.go:27-49 | the imperative loop over the listing, which returns at the first failure, computes the same result as the fold `Scan` |
| Config.ResolveSpmPath | main.go:107-118 | resolution succeeds exactly when the environment value or the flag value is non-empty; a non-empty environment value gives that value followed by "/../../SourcePackages/checkouts"; otherwise the flag value is returned unchanged; both empty gives the missing-path failure |
| Config.BuildDirOverridesFlag | main.go:108-111 | when the environment value is non-empty, the flag value has no influence |
| Pipeline.OutputFile | main.go:51 | with a blank output directory the file is "acknowledgements.json"; otherwise the file splits into "acknowledgements.json" and the output directory, with a '/' added only when it did not already end in '/' |
| Pipeline.Run | main.go:15-56 | a run succeeds exactly when the path resolves, the checkouts directory can be listed and the scan succeeds; then it writes the scan's records to the output file; a missing path and a failed top-level listing fail as `getSPMPath` and `checkError` do, and a failed scan reports the scan's own failure, with the path of the failing listing or read |
| Pipeline.RunExample | main.go:15-56 | a listing with package "A" (LICENSE "MIT"), a plain file and package "B" (no LICENSE) gives the records A/"MIT" and B/"", in that order, written to "acknowledgements.json" |

## Left out

- File-system access (`ioutil.ReadDir`, `ioutil.ReadFile`, `os.Create`, `Write`) is not modelled. Listings and reads are inputs, and the listing order is taken as given: the sorting done by Go's `ioutil.ReadDir` is library behaviour.
- `Entry.isDir` is taken as given. Whether a symbolic link counts as a directory is a question for `os.FileInfo`, which is not part of this model.
- `createJSONFile` and JSON serialisation (`json.MarshalIndent`, `omitempty`) are not modelled. They are foreign library calls, so `Run` stops at the records and the output file name, and a failure to create or write the file is not represented.
- Flag registration and parsing (`initializeFlag`, `flag.Parse`) and the `os.Getenv` lookup are not modelled. The environment value and both flag values are parameters. When `BUILD_DIR` is empty, `getSPMPath` calls `flag.Parse` (main.go:112, main.go:124) before `-o`/`-output` is registered at main.go:20, so passing `-o` ends the program inside Go's `flag` package. In a real run, `Run`'s `outputPath` can therefore only be non-empty when `BUILD_DIR` is set. That is library behaviour and is not part of this model.
- `log.Fatal` and `log.Fatalln` are not modelled. Termination becomes an `Err` result that carries the path whose read failed. The operating system's reason for the failure is not kept.
- Timing and printing (`time.Now`, `time.Since`, `fmt.Printf`) are not modelled.
- Go strings are byte strings, and `appendFileToPath` decodes them into runes. The model works on `seq<char>`. For the checks made here this is equivalent: '/' and the ASCII white space are single bytes, and an invalid byte decodes to U+FFFD, which is not white space.
- `main.go` has no manifest stage: nothing fills the `URL` field, so `url` is always empty.
- `ResolveSpmPath` follows the code: it tests the environment and flag values for emptiness with `len`, not after trimming. A value made only of spaces counts as given. The suffix is appended directly, not through `appendFileToPath`.
