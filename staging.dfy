/** The staging area (proyecto1/staging.py): an ordered list of staged-file records. */
module Staging {
  import opened Wrappers

  /** `'A'`, the status `add_file` records when the caller gives none. */
  const DefaultStatus := "A"

  datatype Metadata = Metadata(size: nat, lastModified: real)

  /** One entry of `files`: the dict `add_file` builds. */
  datatype StagedFile = StagedFile(filename: string, status: string, checksum: string, metadata: Metadata)

  /** What the file system answers for a path: absent, or present with the SHA-1 of its bytes,
      its size and its modification time. */
  datatype Probe = Missing | Found(checksum: string, size: nat, lastModified: real)

  /** `FileNotFoundError`, the one exception of the staging area. */
  datatype StagingError = FileNotFound(filename: string)

  /** The two messages of `remove_file`. */
  datatype Removal = Removed(filename: string) | NotStaged(filename: string)

  /** One line of a status listing: a staged file's status and name. */
  datatype Entry = Entry(status: string, filename: string)

  /** What `status` reports: nothing staged, or one entry per staged file. */
  datatype Report = NothingStaged | Listing(entries: seq<Entry>)

  /** The names of `files`, one per entry and in order, duplicates included. */
  function Filenames(files: seq<StagedFile>): (names: seq<string>)
    ensures |names| == |files|
    ensures forall i :: 0 <= i < |files| ==> names[i] == files[i].filename
  {
    if files == [] then [] else [files[0].filename] + Filenames(files[1..])
  }

  /** The status listing of `files`, one entry per file and in order. */
  function Entries(files: seq<StagedFile>): (entries: seq<Entry>)
    ensures |entries| == |files|
    ensures forall i :: 0 <= i < |files| ==> entries[i] == Entry(files[i].status, files[i].filename)
  {
    if files == [] then [] else [Entry(files[0].status, files[0].filename)] + Entries(files[1..])
  }

  /** Where the first entry named `filename` sits, if any. */
  function IndexOf(files: seq<StagedFile>, filename: string): Option<nat>
  {
    FirstWhere(files, (f: StagedFile) => f.filename == filename)
  }

  class StagingArea {
    var files: seq<StagedFile>

    constructor ()
      ensures files == []
    {
      files := [];
    }

    /** Stage `filename` as the file system describes it in `probe`. */
    method AddFile(filename: string, probe: Probe, status: string := DefaultStatus)
      returns (r: Result<string, StagingError>)
      modifies this
      ensures probe.Missing? ==> r == Err(FileNotFound(filename)) && files == old(files)
      ensures probe.Found? ==>
        r == Ok(filename) &&
        files == old(files) + [StagedFile(filename, status, probe.checksum, Metadata(probe.size, probe.lastModified))]
    {
      if probe.Missing? {
        return Err(FileNotFound(filename));
      }
      var info := StagedFile(filename, status, probe.checksum, Metadata(probe.size, probe.lastModified));
      files := files + [info];
      r := Ok(filename);
    }

    /** Drop the first entry named `filename`; the others keep their order. */
    method RemoveFile(filename: string) returns (r: Removal)
      modifies this
      ensures IndexOf(old(files), filename).None? ==> r == NotStaged(filename) && files == old(files)
      ensures IndexOf(old(files), filename).Some? ==>
        var i := IndexOf(old(files), filename).value;
        r == Removed(filename) && files == old(files)[..i] + old(files)[i + 1..]
    {
      var i := 0;
      while i < |files|
        invariant 0 <= i <= |files|
        invariant files == old(files)
        invariant forall j :: 0 <= j < i ==> files[j].filename != filename
      {
        if files[i].filename == filename {
          files := files[..i] + files[i + 1..];
          return Removed(filename);
        }
        i := i + 1;
      }
      r := NotStaged(filename);
    }

    function GetFiles(): (names: seq<string>)
      reads this
      ensures |names| == |files| && forall i :: 0 <= i < |files| ==> names[i] == files[i].filename
    {
      Filenames(files)
    }

    method Clear()
      modifies this
      ensures files == []
    {
      files := [];
    }

    /** The listing is built entry by entry, as the source concatenates its message. */
    method Status() returns (r: Report)
      ensures files == [] <==> r == NothingStaged
      ensures files != [] ==> r == Listing(Entries(files))
    {
      if files == [] {
        return NothingStaged;
      }
      var entries: seq<Entry> := [];
      for k := 0 to |files|
        invariant entries == Entries(files[..k])
      {
        EntriesAppend(files[..k], files[k]);
        assert files[..k + 1] == files[..k] + [files[k]];
        entries := entries + [Entry(files[k].status, files[k].filename)];
      }
      assert files[..|files|] == files;
      r := Listing(entries);
    }
  }

  lemma EntriesAppend(files: seq<StagedFile>, f: StagedFile)
    ensures Entries(files + [f]) == Entries(files) + [Entry(f.status, f.filename)]
  {
  }

  /** Staging a file extends the committed names by that one name. */
  lemma {:induction false} FilenamesAppend(files: seq<StagedFile>, f: StagedFile)
    ensures Filenames(files + [f]) == Filenames(files) + [f.filename]
  {
    if files != [] {
      FilenamesAppend(files[1..], f);
      assert (files + [f])[1..] == files[1..] + [f];
    }
  }
}
