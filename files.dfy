/**
 * An output directory as a map from file names to contents, and the reconciliation both
 * emitters perform on it: every entry whose name is not on a keep-list is deleted, then
 * the generated files are written.
 */
module Files {

  /** The entries of `files` whose names are on the keep-list. */
  function Kept(files: map<string, string>, keep: seq<string>): (r: map<string, string>)
    ensures forall f :: f in r <==> f in files && f in keep
    ensures forall f :: f in r ==> r[f] == files[f]
  {
    map f | f in files && f in keep :: files[f]
  }

  /** `files` after writing `contents[i]` under `names[i]`, in order. */
  function WriteAll(files: map<string, string>, names: seq<string>, contents: seq<string>): map<string, string>
    requires |names| == |contents|
  {
    if names == [] then files
    else
      var k := |names| - 1;
      WriteAll(files, names[..k], contents[..k])[names[k] := contents[k]]
  }

  /** One more write extends the writes so far. */
  lemma WriteAllStep(files: map<string, string>, names: seq<string>, contents: seq<string>, i: nat)
    requires |names| == |contents| && i < |names|
    ensures WriteAll(files, names[..i + 1], contents[..i + 1]) == WriteAll(files, names[..i], contents[..i])[names[i] := contents[i]]
  {
    assert names[..i + 1][..i] == names[..i] && contents[..i + 1][..i] == contents[..i];
  }

  /** After the writes, the entries are the old ones and the written names. */
  lemma {:induction false} WriteAllKeys(files: map<string, string>, names: seq<string>, contents: seq<string>, f: string)
    requires |names| == |contents|
    ensures f in WriteAll(files, names, contents) <==> f in files || f in names
  {
    if names != [] {
      var k := |names| - 1;
      WriteAllKeys(files, names[..k], contents[..k], f);
      assert names == names[..k] + [names[k]];
    }
  }

  /** A written name holds the content of its last write; any other entry keeps its old
      content. */
  lemma {:induction false} WriteAllContent(files: map<string, string>, names: seq<string>, contents: seq<string>, f: string)
    requires |names| == |contents|
    requires f in files || f in names
    ensures f in WriteAll(files, names, contents)
    ensures forall i :: (0 <= i < |names| && names[i] == f && (forall j :: i < j < |names| ==> names[j] != f)
      ==> WriteAll(files, names, contents)[f] == contents[i])
    ensures f !in names ==> WriteAll(files, names, contents)[f] == files[f]
  {
    WriteAllKeys(files, names, contents, f);
    if names != [] {
      var k := |names| - 1;
      assert names == names[..k] + [names[k]];
      if names[k] != f {
        WriteAllContent(files, names[..k], contents[..k], f);
        forall i | 0 <= i < |names| && names[i] == f && (forall j :: i < j < |names| ==> names[j] != f)
          ensures WriteAll(files, names, contents)[f] == contents[i]
        {
          assert i < k && names[..k][i] == f && contents[..k][i] == contents[i];
          assert forall j :: i < j < k ==> names[..k][j] == names[j];
        }
      }
    }
  }

  class Directory {
    var files: map<string, string>

    constructor(files: map<string, string>)
      ensures this.files == files
    {
      this.files := files;
    }

    /** Lists the directory and deletes every entry that is not on the keep-list. */
    method Prune(keep: seq<string>)
      modifies this
      ensures files == Kept(old(files), keep)
    {
      var pending := files.Keys;
      while pending != {}
        invariant pending <= old(files).Keys
        invariant forall f :: f in files <==> f in old(files) && (f in pending || f in keep)
        invariant forall f :: f in files ==> files[f] == old(files)[f]
        decreases pending
      {
        var f :| f in pending;
        if f !in keep {
          files := files - {f};
        }
        pending := pending - {f};
      }
    }

    /** Writes (creates or replaces) one file. */
    method Write(name: string, content: string)
      modifies this
      ensures files == old(files)[name := content]
    {
      files := files[name := content];
    }
  }
}
