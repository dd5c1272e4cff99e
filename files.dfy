/**
 * The file system as the scanners see it: which paths exist and the lines
 * of each readable file. Lines are given without their terminators.
 */
module Files {

  datatype FileSystem = FileSystem(dirs: set<string>, files: map<string, seq<string>>) {
    /** `os.path.exists`: a directory or a file. */
    predicate Exists(path: string) {
      path in dirs || path in files
    }

    /** `os.path.isfile`. */
    predicate IsFile(path: string) {
      path in files
    }
  }
}
