/**
  The logical name of a source file, the value the `{fileName}` placeholder
  stands for. The path is split on `/`; the base name is the last segment and
  its stem is the text before its first `.`. A file whose stem is `index`
  takes the name of the directory that holds it, so `Parent/index.js` and
  `Parent.js` name the same thing.
 */
module FileName {
  import opened Strings

  const PathSeparator: char := '/'
  const ExtensionSeparator: char := '.'
  /** The one stem that marks a directory's index file. */
  const IndexStem: string := "index"

  /** True when no segment holds the path separator. */
  predicate SeparatorFree(segments: seq<string>) {
    forall i :: 0 <= i < |segments| ==> PathSeparator !in segments[i]
  }

  /** The directory and file segments of a path. */
  function Segments(path: string): seq<string> {
    Split(path, PathSeparator)
  }

  /** The base name without its extension: what precedes the first `.`. */
  function Stem(base: string): (r: string)
    ensures StartsWith(base, r)
    ensures ExtensionSeparator !in r
    ensures |r| < |base| ==> base[|r|] == ExtensionSeparator
  {
    Split(base, ExtensionSeparator)[0]
  }

  /** The logical name of the file at `path`: always a single path component. */
  function LogicalName(path: string): (r: string)
    ensures PathSeparator !in r
  {
    var segments := Segments(path);
    var stem := Stem(Last(segments));
    assert PathSeparator !in stem by {
      assert forall k :: 0 <= k < |stem| ==> stem[k] == Last(segments)[k];
    }
    if stem == IndexStem && |segments| >= 2 then segments[|segments| - 2] else stem
  }

  /** A name without a dot followed by a dot and an extension has that name as its stem. */
  lemma StemOfDotted(name: string, extension: string)
    requires ExtensionSeparator !in name
    ensures Stem(name + [ExtensionSeparator] + extension) == name
  {
    var base := name + [ExtensionSeparator] + extension;
    assert base[|name|] == ExtensionSeparator;
    assert forall k :: 0 <= k < |name| ==> base[k] == name[k];
  }

  /** Appending separator-free segments keeps a segment list separator-free. */
  lemma SeparatorFreeAppend(segments: seq<string>, more: seq<string>)
    requires SeparatorFree(segments) && SeparatorFree(more)
    ensures SeparatorFree(segments + more)
  {
    forall i | 0 <= i < |segments + more| ensures PathSeparator !in (segments + more)[i] {
      if i >= |segments| {
        assert (segments + more)[i] == more[i - |segments|];
      }
    }
  }

  /**
    For a file that is not an index file, the logical name is the stem of
    its base name, whatever directories hold it.
   */
  lemma LogicalNameOfFile(directories: seq<string>, base: string)
    requires SeparatorFree(directories) && PathSeparator !in base
    requires Stem(base) != IndexStem
    ensures LogicalName(Join(directories + [base], [PathSeparator])) == Stem(base)
  {
    SeparatorFreeAppend(directories, [base]);
    SplitJoin(directories + [base], PathSeparator);
  }

  /** For an index file, the logical name is the directory that holds it. */
  lemma LogicalNameOfIndexFile(directories: seq<string>, parent: string, base: string)
    requires SeparatorFree(directories) && PathSeparator !in parent && PathSeparator !in base
    requires Stem(base) == IndexStem
    ensures LogicalName(Join(directories + [parent, base], [PathSeparator])) == parent
  {
    SeparatorFreeAppend(directories, [parent, base]);
    SplitJoin(directories + [parent, base], PathSeparator);
  }

  /**
    An `index` file directly under the root takes the empty segment before
    the root `/` as its name.
   */
  lemma LogicalNameOfRootIndex(base: string)
    requires PathSeparator !in base
    requires Stem(base) == IndexStem
    ensures LogicalName([PathSeparator] + base) == ""
  {
    LogicalNameOfIndexFile([], "", base);
    assert [] + ["", base] == ["", base];
    JoinCons("", [base], [PathSeparator]);
    assert "" + [PathSeparator] + base == [PathSeparator] + base;
  }

  /** A path without directories is its own base name, so its stem is its name, even `index`. */
  lemma LogicalNameWithoutDirectory(base: string)
    requires PathSeparator !in base
    ensures LogicalName(base) == Stem(base)
  {
    SplitNoSeparator(base, PathSeparator);
  }

  /**
    Moving `Name.ext` into its own directory as `Name/index.ext2` keeps its
    logical name.
   */
  lemma IndexFileNamedLikeSibling(directories: seq<string>, name: string, extension: string, indexExtension: string)
    requires SeparatorFree(directories)
    requires PathSeparator !in name && PathSeparator !in extension && PathSeparator !in indexExtension
    requires ExtensionSeparator !in name && name != IndexStem
    ensures LogicalName(Join(directories + [name + "." + extension], [PathSeparator]))
         == LogicalName(Join(directories + [name, "index." + indexExtension], [PathSeparator]))
  {
    var file := name + "." + extension;
    var index := "index." + indexExtension;
    assert index == IndexStem + [ExtensionSeparator] + indexExtension;
    StemOfDotted(name, extension);
    StemOfDotted(IndexStem, indexExtension);
    assert PathSeparator !in file by {
      assert forall c :: c in file ==> c in name || c == '.' || c in extension;
    }
    assert PathSeparator !in index by {
      assert forall c :: c in index ==> c in IndexStem || c == '.' || c in indexExtension;
    }
    LogicalNameOfFile(directories, file);
    LogicalNameOfIndexFile(directories, name, index);
  }
}
