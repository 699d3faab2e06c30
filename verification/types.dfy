/**
 The entities of the acknowledgements generator: the record it emits per
 package, the abstract directory listing it scans, and the ways a run fails.
 */
module Types {
  import opened Wrappers

  /**
   One output record per package directory. The fields are, in declaration
   order, Go's `PackageName`, `Content`, `Version`, `URL` and `Author`.
   */
  datatype Acknowledgement = Acknowledgement(
    packageName: string,
    content: string,
    version: string,
    url: string,
    author: string)

  /** An entry of a package directory: its name and what reading it as a file gives (`None` when the read fails). */
  datatype Child = Child(name: string, data: Option<string>)

  /**
   An entry of the checkouts directory: its name, whether it is a directory,
   and the listing of its contents (`None` when listing it fails; never
   consulted for a non-directory).
   */
  datatype Entry = Entry(name: string, isDir: bool, children: Option<seq<Child>>)

  /** Why a run stops. Each read failure carries the path that was being read. */
  datatype Failure =
    | MissingSpmPath
    | ListFailed(path: string)
    | ReadFailed(path: string)
}
