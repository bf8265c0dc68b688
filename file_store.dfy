// The file system as the library uses it: whole files read, written and
// deleted by path. Directories are not modelled; a write succeeds wherever
// it goes, as WriteValueToFile creates the directory it needs.

module Files {

  class FileStore {
    /** The contents of every file that exists, by path. */
    var files: map<string, string>

    constructor (initial: map<string, string>)
      ensures files == initial
    {
      files := initial;
    }

    /** File.Exists. */
    predicate Exists(path: string)
      reads this
    {
      path in files
    }

    /** File.ReadAllText of a file that exists. */
    function ReadAllText(path: string): (r: string)
      requires Exists(path)
      reads this
      ensures r == files[path]
    {
      files[path]
    }

    /** File.Delete: the file no longer exists; every other file is as it was. */
    method Delete(path: string)
      modifies this
      ensures files == old(files) - {path}
    {
      files := files - {path};
    }

    /** File.WriteAllText: the file holds exactly `contents`, created or overwritten; every other file is as it was. */
    method WriteAllText(path: string, contents: string)
      modifies this
      ensures files == old(files)[path := contents]
    {
      files := files[path := contents];
    }
  }
}
