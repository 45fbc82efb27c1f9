/**
 * The staging step of a download (`download_file`): the local file name is the
 * last segment of the URL's path; an empty name fails before anything else; an
 * existing file of that name is reused without fetching; otherwise the body is
 * streamed into a file of that name in the staging directory.
 */
module Downloader {
  import opened Wrappers
  import opened Strings
  import opened Paths
  import opened Urls
  import opened FileSystems

  /** `os.path.basename(urlparse(url).path)` */
  function FileName(url: string): (name: string)
    ensures '/' !in name
    ensures '?' !in name && '#' !in name
  {
    Basename(UrlPath(url))
  }

  /**
   * What the network fetch of a file did: it completed; it failed before the
   * local file was opened (a bad status, no connection, a timeout on connect);
   * or it failed while the body was being written, leaving a partial file.
   */
  datatype FetchOutcome = Fetched | FailedBeforeWrite | FailedAfterOpen

  /**
   * For an `http` or `https` URL the file name is the last segment of the path
   * after the host, whatever query or fragment follows; a URL whose path is
   * empty or ends in a separator yields no name, so its download fails.
   */
  lemma FileNameOfWebUrl(scheme: string, host: string, path: string, tail: string)
    requires scheme == "http" || scheme == "https"
    requires forall c :: c in host ==> !IsDelimiter(c)
    requires path == "" || path[0] == '/'
    requires '?' !in path && '#' !in path && ';' !in path
    requires tail == "" || tail[0] == '?' || tail[0] == '#'
    ensures FileName(scheme + "://" + host + path + tail) == Basename(path)
    ensures path == "" || path[|path| - 1] == '/' <==> FileName(scheme + "://" + host + path + tail) == ""
  {
    var url := scheme + "://" + host + path + tail;
    UrlPathOfWebUrl(scheme, host, path, tail);
    assert UrlPath(url) == path;
    assert FileName(url) == Basename(path);
    BasenameEmpty(path);
  }

  /** Where `download_file` stages the file for a URL: the staging directory joined with the file name. */
  function StagedPath(dest: string, url: string): (p: string) {
    Join(dest, FileName(url))
  }

  /** The staged path names the derived file inside the staging directory, and is not the directory itself. */
  lemma StagedPathShape(dest: string, name: string)
    requires dest != "" && name != "" && '/' !in name
    ensures Join(dest, name) != dest
    ensures Basename(Join(dest, name)) == name
  {
    BasenameOfJoin(dest, name);
    assert name[0] != '/';
  }

  /** The part of `download_file` after a non-empty name is found: reuse an existing file, or fetch into it. */
  method StageFile(fs: FileSystem, fileName: string, dest: string, fetch: FetchOutcome)
    returns (r: Option<string>)
    requires dest != "" && fileName != "" && '/' !in fileName
    modifies fs
    ensures Join(dest, fileName) in old(fs.paths) ==>
      r == Some(Join(dest, fileName)) && fs.paths == old(fs.paths) + {dest}
    ensures Join(dest, fileName) !in old(fs.paths) ==> (r.Some? <==> fetch == Fetched)
    ensures Join(dest, fileName) !in old(fs.paths) && fetch == FailedBeforeWrite ==>
      fs.paths == old(fs.paths) + {dest}
    ensures Join(dest, fileName) !in old(fs.paths) && fetch != FailedBeforeWrite ==>
      fs.paths == old(fs.paths) + {dest, Join(dest, fileName)}
    ensures r.Some? ==> r == Some(Join(dest, fileName)) && r.value in fs.paths
  {
    var filePath := Join(dest, fileName);
    StagedPathShape(dest, fileName);
    fs.MakeDirs(dest);
    if filePath in fs.paths {
      return Some(filePath);
    }
    ghost var staged := fs.paths;
    if fetch == FailedBeforeWrite {
      r := None;
    } else {
      fs.CreateFile(filePath);
      assert fs.paths == staged + {filePath};
      r := if fetch == Fetched then Some(filePath) else None;
    }
  }

  /** `download_file` without the network: `fetch` is what the streaming download would do. */
  method DownloadFile(fs: FileSystem, fileUrl: string, dest: string, fetch: FetchOutcome)
    returns (r: Option<string>)
    requires dest != ""
    modifies fs
    ensures FileName(fileUrl) == "" ==> r == None && fs.paths == old(fs.paths)
    ensures FileName(fileUrl) != "" && StagedPath(dest, fileUrl) in old(fs.paths) ==>
      r == Some(StagedPath(dest, fileUrl)) && fs.paths == old(fs.paths) + {dest}
    ensures FileName(fileUrl) != "" && StagedPath(dest, fileUrl) !in old(fs.paths) ==>
      (r.Some? <==> fetch == Fetched)
    ensures FileName(fileUrl) != "" && StagedPath(dest, fileUrl) !in old(fs.paths) && fetch == FailedBeforeWrite ==>
      fs.paths == old(fs.paths) + {dest}
    ensures FileName(fileUrl) != "" && StagedPath(dest, fileUrl) !in old(fs.paths) && fetch != FailedBeforeWrite ==>
      fs.paths == old(fs.paths) + {dest, StagedPath(dest, fileUrl)}
    ensures r.Some? ==> r == Some(StagedPath(dest, fileUrl)) && r.value in fs.paths
  {
    var fileName := FileName(fileUrl);
    if fileName == "" {
      return None;
    }
    r := StageFile(fs, fileName, dest, fetch);
  }

  /**
   * A download interrupted after the file was opened leaves the partial file
   * behind, and the next attempt for the same URL returns it without fetching.
   */
  method InterruptedDownloadIsReused(fs: FileSystem, fileUrl: string, dest: string, later: FetchOutcome)
    returns (first: Option<string>, second: Option<string>)
    requires dest != "" && FileName(fileUrl) != "" && StagedPath(dest, fileUrl) !in fs.paths
    modifies fs
    ensures first == None
    ensures second == Some(StagedPath(dest, fileUrl)) && StagedPath(dest, fileUrl) in fs.paths
    ensures old(fs.paths) <= fs.paths
  {
    first := DownloadFile(fs, fileUrl, dest, FailedAfterOpen);
    second := DownloadFile(fs, fileUrl, dest, later);
  }
}
