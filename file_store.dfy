/**
 * The upload directory, as the set of stored paths that exist on disk.
 * Paths are the ones the problems list in `files_json` (`uploads/<name>`);
 * the route's `path.join(__dirname, '..', file)` names the same file.
 */
module FileStore {

  /** The paths of `files` as a set. */
  function PathSet(files: seq<string>): set<string>
  {
    set f | f in files
  }

  class Disk {
    var paths: set<string>

    constructor (initial: set<string>)
      ensures paths == initial
    {
      paths := initial;
    }

    /** multer's disk storage writing each accepted upload. */
    method Write(files: seq<string>)
      modifies this
      ensures paths == old(paths) + PathSet(files)
    {
      paths := paths + PathSet(files);
    }

    /** `if (fs.existsSync(p)) fs.unlinkSync(p)`: never fails on a missing file. */
    method UnlinkIfExists(p: string)
      modifies this
      ensures paths == old(paths) - {p}
    {
      if p in paths {
        paths := paths - {p};
      }
    }

    /**
     * The cleanup loop `for (const file of files) { ...unlink if it exists... }`:
     * none of `files` is left and every other path stays, so a second run
     * over the same list changes nothing.
     */
    method UnlinkEach(files: seq<string>)
      modifies this
      ensures paths == old(paths) - PathSet(files)
      ensures forall f :: f in files ==> f !in paths
    {
      var i := 0;
      while i < |files|
        invariant 0 <= i <= |files|
        invariant paths == old(paths) - PathSet(files[..i])
      {
        UnlinkIfExists(files[i]);
        assert PathSet(files[..i + 1]) == PathSet(files[..i]) + {files[i]} by {
          assert files[..i + 1] == files[..i] + [files[i]];
        }
        i := i + 1;
      }
      assert files[..i] == files;
    }
  }
}
