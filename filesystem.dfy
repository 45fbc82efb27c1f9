/**
 * The local filesystem as the downloader sees it: the set of paths that exist
 * (files and directories alike, as `os.path.exists` does not tell them apart).
 */
module FileSystems {

  class FileSystem {
    var paths: set<string>

    constructor (initial: set<string>)
      ensures paths == initial
    {
      paths := initial;
    }

    /** `os.makedirs(d, exist_ok=True)`: afterwards `d` exists. */
    method MakeDirs(d: string)
      modifies this
      ensures paths == old(paths) + {d}
    {
      paths := paths + {d};
    }

    /** `open(p, 'wb')`: afterwards `p` exists. */
    method CreateFile(p: string)
      modifies this
      ensures paths == old(paths) + {p}
    {
      paths := paths + {p};
    }

    /** A successful `shutil.move(src, dst)`: `src` is gone and `dst` exists. */
    method Move(src: string, dst: string)
      modifies this
      ensures paths == (old(paths) - {src}) + {dst}
    {
      paths := (paths - {src}) + {dst};
    }
  }
}
