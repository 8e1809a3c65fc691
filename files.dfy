/**
  The files the harness writes, reads and removes: a map from path to contents, and a ghost
  log of the harness's visible actions (files written, files removed, solver launches) in
  the order they happen.
*/
module Files {
  datatype Event = Wrote(name: string) | Removed(name: string) | Ran(argv: seq<string>)

  class FileStore {
    var files: map<string, string>
    ghost var trace: seq<Event>

    constructor (initial: map<string, string>)
      ensures files == initial && trace == []
    {
      files := initial;
      trace := [];
    }

    /** `open(name, 'w')` then `write(content)`: the file now holds exactly `content`. */
    method Write(name: string, content: string)
      modifies this
      ensures files == old(files)[name := content]
      ensures trace == old(trace) + [Wrote(name)]
    {
      files := files[name := content];
      trace := trace + [Wrote(name)];
    }

    /** A further `write(s)` on a file that is open for writing: `s` goes at its end. */
    method Append(name: string, s: string)
      requires name in files
      modifies this
      ensures files == old(files)[name := old(files)[name] + s]
      ensures trace == old(trace)
    {
      files := files[name := files[name] + s];
    }

    /** `os.remove(name)`: false, and nothing changes, when there is no such file (OSError). */
    method Remove(name: string) returns (ok: bool)
      modifies this
      ensures ok <==> name in old(files)
      ensures files == old(files) - {name}
      ensures trace == old(trace) + (if ok then [Removed(name)] else [])
    {
      ok := name in files;
      if ok {
        files := files - {name};
        trace := trace + [Removed(name)];
      }
    }

    /** Record a solver launch, which leaves the files alone. */
    ghost method Launched(argv: seq<string>)
      modifies this
      ensures files == old(files)
      ensures trace == old(trace) + [Ran(argv)]
    {
      trace := trace + [Ran(argv)];
    }
  }
}
