/**
  The XML preprocessor job of the run manager: it remembers, in a lazily filled
  cache, the last input file with extension `xml`, marks that file as needing the
  `include` directory next to it, and hands it to the tool as `in.xml`.
*/
module XMLPreprocessor {
  import opened Common

  /** An input file: its path, its extension and the files that must be copied next to it,
      each as (source, target). */
  datatype FileInfo = FileInfo(fullPath: string, extension: string, requiredFiles: seq<(string, string)>)

  /** A tool version whose parts are all optional; the default has none of them. */
  datatype ToolVersion = ToolVersion(major: Option<int>, minor: Option<int>, build: Option<int>, tag: Option<string>)

  const ToolName: string := "xmlpreprocessor"

  /** Only the xmlpreprocessor tool may be asked for; it has the default version. */
  function GetToolVersion(toolName: string): (r: Result<ToolVersion>)
    ensures r.Success? <==> toolName == ToolName
    ensures r.Success? ==> r.value == ToolVersion(None, None, None, None)
    ensures r.Failure? ==> r.error == "Invalid tool version request: " + toolName
  {
    if toolName != ToolName then Failure("Invalid tool version request: " + toolName)
    else Success(ToolVersion(None, None, None, None))
  }

  /** The index of the last of the first `k` files with the given extension, or None. */
  function LastIndexBelow(files: seq<FileInfo>, extension: string, k: nat): (r: Option<nat>)
    requires k <= |files|
    ensures r.None? <==> forall i :: 0 <= i < k ==> files[i].extension != extension
    ensures r.Some? ==> r.value < k && files[r.value].extension == extension
                        && forall j :: r.value < j < k ==> files[j].extension != extension
  {
    if k == 0 then None
    else if files[k - 1].extension == extension then Some(k - 1)
    else LastIndexBelow(files, extension, k - 1)
  }

  /** The last file with the given extension, or None when there is none. */
  function LastByExtension(files: seq<FileInfo>, extension: string): (r: Option<FileInfo>)
    ensures r.None? <==> forall i :: 0 <= i < |files| ==> files[i].extension != extension
    ensures r.Some? ==>
              exists i :: 0 <= i < |files| && files[i] == r.value && files[i].extension == extension
                          && forall j :: i < j < |files| ==> files[j].extension != extension
  {
    match LastIndexBelow(files, extension, |files|)
    case None => None
    case Some(i) => Some(files[i])
  }

  /** The file with one more required file appended. */
  function AddRequiredFile(file: FileInfo, source: string, target: string): FileInfo {
    file.(requiredFiles := file.requiredFiles + [(source, target)])
  }

  /** The cache after `getFiles`: kept when filled; otherwise the last xml file, marked as
      needing the include directory, or still empty when there is no xml file. */
  function Cached(cache: Option<FileInfo>, files: seq<FileInfo>): Option<FileInfo> {
    if cache.Some? then cache
    else
      match LastByExtension(files, "xml")
      case None => None
      case Some(xml) => Some(AddRequiredFile(xml, "include", "include"))
  }

  /** Filling the cache a second time, from any files, changes nothing. */
  lemma GetFilesIsIdempotent(cache: Option<FileInfo>, files: seq<FileInfo>, later: seq<FileInfo>)
    requires Cached(cache, files).Some?
    ensures Cached(Cached(cache, files), later) == Cached(cache, files)
  {
  }

  /** An empty cache is filled exactly when some file is an xml file, with the last of them,
      whose required files gain (include, include) at the end. */
  lemma {:induction false} EmptyCacheSelectsLastXml(files: seq<FileInfo>)
    ensures Cached(None, files).None? <==> forall i :: 0 <= i < |files| ==> files[i].extension != "xml"
    ensures Cached(None, files).Some? ==>
              exists i :: 0 <= i < |files| && files[i].extension == "xml"
                          && (forall j :: i < j < |files| ==> files[j].extension != "xml")
                          && Cached(None, files) == Some(files[i].(requiredFiles := files[i].requiredFiles + [("include", "include")]))
  {
    var r := LastByExtension(files, "xml");
    if r.Some? {
      var i :| 0 <= i < |files| && files[i] == r.value && files[i].extension == "xml"
               && forall j :: i < j < |files| ==> files[j].extension != "xml";
      assert Cached(None, files) == Some(files[i].(requiredFiles := files[i].requiredFiles + [("include", "include")]));
    }
  }

  class XMLPreprocessorJob {
    /** The cached xml input file. */
    var xml: Option<FileInfo>
    /** The files the job copies into its run directory, each with the name it gets there. */
    var jobRequiredFiles: seq<(FileInfo, string)>

    /** A new job looks for its xml input among the files it is given. */
    constructor(files: seq<FileInfo>)
      ensures xml == Cached(None, files)
      ensures jobRequiredFiles == []
    {
      xml := None;
      jobRequiredFiles := [];
      new;
      GetFiles(files);
    }

    /** Fills the cache if it is empty; a missing xml file leaves it empty and is not an error. */
    method GetFiles(files: seq<FileInfo>)
      modifies this
      ensures xml == Cached(old(xml), files)
      ensures old(xml).Some? ==> xml == old(xml)
      ensures jobRequiredFiles == old(jobRequiredFiles)
    {
      if xml.None? {
        var last := LastByExtension(files, "xml");
        if last.Some? {
          xml := Some(AddRequiredFile(last.value, "include", "include"));
        }
      }
    }

    /** A new base path forgets the cached file, so the next lookup selects again. */
    method BasePathChanged()
      modifies this
      ensures xml == None
      ensures jobRequiredFiles == old(jobRequiredFiles)
    {
      xml := None;
    }

    /** Before the tool starts: look up the xml input (it must exist) and copy it in as in.xml. */
    method StartHandler(inputFiles: seq<FileInfo>)
      requires xml.Some? || LastByExtension(inputFiles, "xml").Some?
      modifies this
      ensures xml == Cached(old(xml), inputFiles) && xml.Some?
      ensures jobRequiredFiles == old(jobRequiredFiles) + [(xml.value, "in.xml")]
    {
      GetFiles(inputFiles);
      jobRequiredFiles := jobRequiredFiles + [(xml.value, "in.xml")];
    }
  }

  /** After the base path changes, the next start selects the last xml file of the new inputs,
      not the file cached before. */
  method RestartAfterBasePathChange(job: XMLPreprocessorJob, inputFiles: seq<FileInfo>)
    requires LastByExtension(inputFiles, "xml").Some?
    modifies job
    ensures job.xml == Some(AddRequiredFile(LastByExtension(inputFiles, "xml").value, "include", "include"))
  {
    job.BasePathChanged();
    job.StartHandler(inputFiles);
  }
}
