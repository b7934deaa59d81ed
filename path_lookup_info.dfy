/** `PathLookupInfo`: a directory to search for extension assemblies, the
    file patterns to look for there and whether to descend into
    sub-directories. The constructors validate the path and default the
    pattern list. */
module PathLookup {
  import opened Wrappers
  import opened Text

  /** The pattern used when none is given. */
  const AllFiles: string := "*.*"

  datatype PathLookupInfo = PathLookupInfo(
    path: string,
    searchPatterns: seq<string>,
    includeSubDirectories: bool)

  /** The exceptions of the constructor: `ArgumentException` for the path,
      `ArgumentNullException` from `DefaultIfEmpty` for a null pattern
      array. */
  datatype LookupError = InvalidPath | NullPatterns

  /** The full constructor: a null, empty or white-space path is rejected
      first; a null pattern array is rejected next; an empty pattern list
      becomes the single pattern `*.*` and any other is kept as it is. */
  function Make(path: Option<string>, includeSubDirectories: bool,
                searchPatterns: Option<seq<string>>): (r: Result<PathLookupInfo, LookupError>)
    ensures IsNullOrWhiteSpace(path) ==> r == Failure(InvalidPath)
    ensures !IsNullOrWhiteSpace(path) && searchPatterns.None? ==> r == Failure(NullPatterns)
    ensures r.Success? <==> !IsNullOrWhiteSpace(path) && searchPatterns.Some?
    ensures r.Success? ==>
              r.value.path == path.value &&
              r.value.includeSubDirectories == includeSubDirectories &&
              |r.value.searchPatterns| >= 1 &&
              (searchPatterns.value == [] ==> r.value.searchPatterns == [AllFiles]) &&
              (searchPatterns.value != [] ==> r.value.searchPatterns == searchPatterns.value)
  {
    if IsNullOrWhiteSpace(path) then Failure(InvalidPath)
    else if searchPatterns.None? then Failure(NullPatterns)
    else
      var patterns := if searchPatterns.value == [] then [AllFiles] else searchPatterns.value;
      Success(PathLookupInfo(path.value, patterns, includeSubDirectories))
  }

  /** `PathLookupInfo(path)`: every file, no sub-directories. */
  function FromPath(path: Option<string>): (r: Result<PathLookupInfo, LookupError>)
    ensures r.Success? <==> !IsNullOrWhiteSpace(path)
    ensures r.Success? ==> r.value == PathLookupInfo(path.value, [AllFiles], false)
    ensures r.Failure? ==> r.error == InvalidPath
  {
    FromPathRecursive(path, false)
  }

  /** `PathLookupInfo(path, params searchPatterns)`: no sub-directories. */
  function FromPathPatterns(path: Option<string>, searchPatterns: Option<seq<string>>): (r: Result<PathLookupInfo, LookupError>)
    ensures r.Success? <==> !IsNullOrWhiteSpace(path) && searchPatterns.Some?
    ensures r.Failure? ==> r.error == if IsNullOrWhiteSpace(path) then InvalidPath else NullPatterns
    ensures r.Success? ==>
              r.value.path == path.value && !r.value.includeSubDirectories &&
              (searchPatterns.value == [] ==> r.value.searchPatterns == [AllFiles]) &&
              (searchPatterns.value != [] ==> r.value.searchPatterns == searchPatterns.value)
  {
    Make(path, false, searchPatterns)
  }

  /** `PathLookupInfo(path, includeSubDirectories)`: every file. */
  function FromPathRecursive(path: Option<string>, includeSubDirectories: bool): (r: Result<PathLookupInfo, LookupError>)
    ensures r.Success? <==> !IsNullOrWhiteSpace(path)
    ensures r.Success? ==> r.value == PathLookupInfo(path.value, [AllFiles], includeSubDirectories)
    ensures r.Failure? ==> r.error == InvalidPath
  {
    Make(path, includeSubDirectories, Some([]))
  }

  /** A constructed value is a fixed point: building again from its own
      properties gives it back. */
  lemma MakeIdempotent(path: Option<string>, includeSubDirectories: bool,
                       searchPatterns: Option<seq<string>>)
    requires Make(path, includeSubDirectories, searchPatterns).Success?
    ensures var info := Make(path, includeSubDirectories, searchPatterns).value;
            Make(Some(info.path), info.includeSubDirectories, Some(info.searchPatterns)) == Success(info)
  {
  }

  /** The path of a constructed value has something left once trimmed. */
  lemma MadePathNotBlank(path: Option<string>, includeSubDirectories: bool,
                         searchPatterns: Option<seq<string>>)
    requires Make(path, includeSubDirectories, searchPatterns).Success?
    ensures Trim(Make(path, includeSubDirectories, searchPatterns).value.path) != []
  {
    WhiteSpaceIffTrimEmpty(path.value);
  }
}
