/**
  The research page (Algoloop.Wpf.ViewModel.ResearchViewModel): it starts a Jupyter notebook
  server as a child process, captures the notebook URL from the server's standard output,
  and guards start, stop and disposal with the Initialized and disposed flags. The child
  process, the file system and the host's folder lookups are parameters here.
*/
module Research {
  import opened Wrappers
  import opened Text

  /** The name of the notebook folder under the user data folder. */
  const NotebookFolderName: string := "Notebook"

  /** The first case-insensitive "http" in a line of output, or -1. */
  function HttpIndex(line: string): (pos: int)
    ensures pos >= 0 ==> MatchesAt(line, "http", pos)
  {
    IndexOfIgnoreCase(line, "http")
  }

  /**
    The standard output handler's rule for Source: a line changes it only while it is null or
    empty, and only when the line's first "http" (ignoring case) is past its first character;
    Source then becomes the rest of the line from there, which itself begins with "http".
  */
  function CaptureSource(source: NString, line: NString): (r: NString)
    ensures IsNullOrEmpty(line) ==> r == source
    ensures r != source <==> IsNullOrEmpty(source) && line.Str? && HttpIndex(line.value) > 0
    ensures r != source ==> r.Str? && r.value == line.value[HttpIndex(line.value)..]
    ensures r != source ==> !IsNullOrEmpty(r) && MatchesAt(r.value, "http", 0)
  {
    if IsNullOrEmpty(line) then source
    else
      var pos := HttpIndex(line.value);
      if IsNullOrEmpty(source) && pos > 0 then
        var url := line.value[pos..];
        assert forall k :: 0 <= k < 4 ==> url[k] == line.value[pos + k];
        Str(url)
      else source
  }

  /** Source after the handler has seen the given lines, in order. */
  function Feed(source: NString, lines: seq<NString>): NString
    decreases |lines|
  {
    if lines == [] then source else Feed(CaptureSource(source, lines[0]), lines[1..])
  }

  /** Once Source is non-empty, no line of output changes it again. */
  lemma {:induction false} FeedKeepsCapturedSource(source: NString, lines: seq<NString>)
    requires !IsNullOrEmpty(source)
    ensures Feed(source, lines) == source
    decreases |lines|
  {
    if lines != [] {
      FeedKeepsCapturedSource(CaptureSource(source, lines[0]), lines[1..]);
    }
  }

  /** Source is captured at most once: from the first line that qualifies, or not at all. */
  lemma {:induction false} FeedCapturesFirst(source: NString, lines: seq<NString>)
    ensures Feed(source, lines) == source ||
      exists k :: 0 <= k < |lines| && Feed(source, lines) == CaptureSource(source, lines[k]) &&
        forall j :: 0 <= j < k ==> CaptureSource(source, lines[j]) == source
    decreases |lines|
  {
    if lines != [] {
      var next := CaptureSource(source, lines[0]);
      if next != source {
        FeedKeepsCapturedSource(next, lines[1..]);
      } else {
        FeedCapturesFirst(source, lines[1..]);
        if Feed(source, lines) != source {
          var k :| 0 <= k < |lines[1..]| && Feed(source, lines[1..]) == CaptureSource(source, lines[1..][k]) &&
            forall j :: 0 <= j < k ==> CaptureSource(source, lines[1..][j]) == source;
          assert lines[k + 1] == lines[1..][k];
          forall j | 0 <= j < k + 1 ensures CaptureSource(source, lines[j]) == source {
            if j > 0 { assert lines[j] == lines[1..][j - 1]; }
          }
        }
      }
    }
  }

  /**
    The new PYTHONPATH: the program folder alone when the inherited value is null or empty,
    otherwise the program folder, ";" and the inherited value.
  */
  function ComposePythonPath(programFolder: string, inherited: NString): (r: string)
    ensures |programFolder| <= |r| && r[..|programFolder|] == programFolder
    ensures IsNullOrEmpty(inherited) ==> r == programFolder
    ensures !IsNullOrEmpty(inherited) ==>
      |r| == |programFolder| + 1 + |inherited.value| && r[|programFolder|] == ';' &&
      r[|programFolder| + 1..] == inherited.value
  {
    if IsNullOrEmpty(inherited) then programFolder else programFolder + ";" + inherited.value
  }

  /** Splits a path list at its first ';': the head entry and the rest, null when there is none. */
  function SplitPythonPath(path: string): (string, NString) {
    var i := FirstIndexOf(path, ';');
    if i < 0 then (path, Null) else (path[..i], Str(path[i + 1..]))
  }

  /** The program folder and the inherited value can be read back from the composed path. */
  lemma PythonPathRoundTrip(programFolder: string, inherited: NString)
    requires ';' !in programFolder
    ensures SplitPythonPath(ComposePythonPath(programFolder, inherited)) ==
      (programFolder, if IsNullOrEmpty(inherited) then Null else inherited)
  {
    var r := ComposePythonPath(programFolder, inherited);
    if !IsNullOrEmpty(inherited) {
      assert r == programFolder + [';'] + inherited.value;
      FirstIndexOfSplit(programFolder, ';', inherited.value);
    }
  }

  /** string.Replace("\\", "/"): every backslash becomes a forward slash. */
  function ReplaceBackslashes(s: string): (r: string)
    ensures |r| == |s|
    ensures '\\' !in r
    ensures forall i :: 0 <= i < |s| ==> r[i] == (if s[i] == '\\' then '/' else s[i])
  {
    if s == [] then []
    else [if s[0] == '\\' then '/' else s[0]] + ReplaceBackslashes(s[1..])
  }

  /** Normalising a normalised path changes nothing. */
  lemma ReplaceBackslashesIdempotent(s: string)
    ensures ReplaceBackslashes(ReplaceBackslashes(s)) == ReplaceBackslashes(s)
  {
    var r := ReplaceBackslashes(s);
    assert forall i :: 0 <= i < |r| ==> r[i] != '\\';
  }

  /** A path is rooted when it starts with a separator or a drive ("C:"). */
  predicate IsRooted(p: string) {
    (|p| >= 1 && (p[0] == '\\' || p[0] == '/')) || (|p| >= 2 && p[1] == ':')
  }

  /** Path.Combine(path1, path2) with the Windows separators. */
  function Combine(path1: string, path2: string): (r: string)
    ensures |r| >= |path2| && r[|r| - |path2|..] == path2
    ensures !IsRooted(path2) ==> |r| >= |path1| + |path2| && r[..|path1|] == path1
    ensures path2 == "" ==> r == path1
    ensures IsRooted(path2) || path1 == "" ==> r == path2
    ensures |r| <= |path1| + 1 + |path2|
  {
    if path2 == "" then path1
    else if path1 == "" || IsRooted(path2) then path2
    else
      var last := path1[|path1| - 1];
      if last == '\\' || last == '/' || last == ':' then path1 + path2
      else path1 + "\\" + path2
  }

  /** What the host supplies when the server is started. */
  datatype Host = Host(
    programFolder: string,            // MainService.GetProgramFolder()
    userDataFolder: string,           // MainService.GetUserDataFolder()
    inheritedPythonPath: NString,     // PYTHONPATH in the child's environment as created
    baseConfig: map<string, string>,  // the child's configuration as created
    launches: bool)                   // whether starting the child process succeeds

  /** The child process (ConfigProcess) as far as this page configures and drives it. */
  datatype Process = Process(
    pythonPath: NString,
    config: map<string, string>,
    running: bool,
    disposed: bool)

  /** The configuration entries the page writes. */
  const LeanKeys: set<string> := {"algorithm-language", "composer-dll-directory", "data-folder",
                                  "api-handler", "job-queue-handler", "messaging-handler"}

  /** The first two entries the page writes, which do not depend on the data folder. */
  function LanguageConfig(base: map<string, string>, exeFolder: string): (c: map<string, string>)
    ensures c.Keys == base.Keys + {"algorithm-language", "composer-dll-directory"}
    ensures c["algorithm-language"] == "Python"
    ensures c["composer-dll-directory"] == ReplaceBackslashes(exeFolder)
    ensures forall k :: k in base && k != "algorithm-language" && k != "composer-dll-directory" ==> c[k] == base[k]
  {
    base["algorithm-language" := "Python"]["composer-dll-directory" := ReplaceBackslashes(exeFolder)]
  }

  /** All six entries the page writes, over the child's own configuration. */
  function LeanConfig(base: map<string, string>, exeFolder: string, dataFolder: string): (c: map<string, string>)
    ensures c.Keys == base.Keys + LeanKeys
    ensures c["algorithm-language"] == "Python"
    ensures c["composer-dll-directory"] == ReplaceBackslashes(exeFolder)
    ensures c["data-folder"] == ReplaceBackslashes(dataFolder)
    ensures '\\' !in c["composer-dll-directory"] && '\\' !in c["data-folder"]
    ensures |c["data-folder"]| == |dataFolder|
    ensures c["api-handler"] == "QuantConnect.Api.Api"
    ensures c["job-queue-handler"] == "QuantConnect.Queues.JobQueue"
    ensures c["messaging-handler"] == "QuantConnect.Messaging.Messaging"
    ensures forall k :: k in base && k !in LeanKeys ==> c[k] == base[k]
  {
    LanguageConfig(base, exeFolder)
      ["data-folder" := ReplaceBackslashes(dataFolder)]
      ["api-handler" := "QuantConnect.Api.Api"]
      ["job-queue-handler" := "QuantConnect.Queues.JobQueue"]
      ["messaging-handler" := "QuantConnect.Messaging.Messaging"]
  }

  /**
    The child process as StartJupyter leaves it when its first step does not throw: PYTHONPATH
    extended, the configuration written (all six entries, or only the first two when the data
    folder is null and the third assignment throws) and running exactly when nothing threw.
  */
  function StartedProcess(host: Host, dataFolder: NString): (p: Process)
    ensures !p.disposed
    ensures p.running <==> dataFolder.Str? && host.launches
    ensures p.pythonPath.Str? && |p.pythonPath.value| >= |host.programFolder|
  {
    Process(
      Str(ComposePythonPath(host.programFolder, host.inheritedPythonPath)),
      if dataFolder.Str? then LeanConfig(host.baseConfig, host.programFolder, dataFolder.value)
      else LanguageConfig(host.baseConfig, host.programFolder),
      dataFolder.Str? && host.launches,
      false)
  }

  /** The notebook folder after SetNotebookFolder: filled in under the user data folder when unset. */
  function NotebookFolder(current: NString, userDataFolder: string): (r: NString)
    ensures !IsNullOrEmpty(r)
    ensures !IsNullOrEmpty(current) ==> r == current
    ensures IsNullOrEmpty(current) ==>
      |r.value| >= |userDataFolder| + |NotebookFolderName| &&
      r.value[..|userDataFolder|] == userDataFolder &&
      r.value[|r.value| - |NotebookFolderName|..] == NotebookFolderName
  {
    if IsNullOrEmpty(current) then Str(Combine(userDataFolder, NotebookFolderName)) else current
  }

  class ResearchViewModel {
    /** The settings' Notebook folder, which the page may fill in. */
    var notebook: NString
    /** The settings' DataFolder. */
    const dataFolder: NString
    var source: NString
    var process: Option<Process>
    var initialized: bool
    var disposed: bool

    constructor (settingsNotebook: NString, settingsDataFolder: NString)
      ensures notebook == settingsNotebook && dataFolder == settingsDataFolder
      ensures source.Null? && process.None? && !initialized && !disposed
    {
      notebook := settingsNotebook;
      dataFolder := settingsDataFolder;
      source := Null;
      process := None;
      initialized := false;
      disposed := false;
    }

    /** The public Initialized setter, which sets the flag and nothing else. */
    method SetInitialized(value: bool)
      modifies this`initialized
      ensures initialized == value
    {
      initialized := value;
    }

    /** The standard output handler: the line goes to the log and may fix Source. */
    method OnOutputLine(line: NString)
      modifies this`source
      ensures source == CaptureSource(old(source), line)
    {
      source := CaptureSource(source, line);
    }

    /** Fills in the notebook folder under the user data folder when none is set. */
    method SetNotebookFolder(userDataFolder: string)
      modifies this`notebook
      ensures notebook == NotebookFolder(old(notebook), userDataFolder)
    {
      if IsNullOrEmpty(notebook) {
        notebook := Str(Combine(userDataFolder, NotebookFolderName));
      }
    }

    /**
      Stops the server, but only when the page is initialized. `ok` is false where the
      source throws: Initialized set while there is no process (a NullReferenceException).
    */
    method StopJupyter() returns (ok: bool)
      modifies this`process
      ensures ok <==> !initialized || old(process).Some?
      ensures !initialized || !ok ==> process == old(process)
      ensures initialized && ok ==> process == Some(old(process).value.(running := false))
    {
      if !initialized {
        return true;
      }
      if process.None? {
        return false;
      }
      process := Some(process.value.(running := false));
      ok := true;
    }

    /**
      Stops any server, fills in the notebook folder, creates and configures the child process
      and starts it. `ok` is false where the source throws: in StopJupyter (then nothing else
      happens), at the Replace of a null data folder, or when the process fails to start.
    */
    method StartJupyter(host: Host) returns (ok: bool)
      modifies this`process, this`notebook
      ensures initialized && old(process).None? ==>
        !ok && process == old(process) && notebook == old(notebook)
      ensures !(initialized && old(process).None?) ==>
        notebook == NotebookFolder(old(notebook), host.userDataFolder) &&
        process == Some(StartedProcess(host, dataFolder)) &&
        (ok <==> dataFolder.Str? && host.launches)
    {
      var stopped := StopJupyter();
      if !stopped {
        return false;
      }
      SetNotebookFolder(host.userDataFolder);
      var p := Process(host.inheritedPythonPath, host.baseConfig, false, false);
      p := p.(pythonPath := Str(ComposePythonPath(host.programFolder, p.pythonPath)));
      var config := LanguageConfig(p.config, host.programFolder);
      if dataFolder.Null? {
        process := Some(p.(config := config));
        ok := false;
        return;
      }
      p := p.(config := LeanConfig(host.baseConfig, host.programFolder, dataFolder.value));
      if !host.launches {
        process := Some(p);
        ok := false;
        return;
      }
      process := Some(p.(running := true));
      ok := true;
    }

    /** Starts the server; Initialized ends true exactly when starting did not throw. */
    method Initialize(host: Host)
      modifies this`process, this`notebook, this`initialized
      ensures old(initialized) && old(process).None? ==>
        !initialized && process == old(process) && notebook == old(notebook)
      ensures !(old(initialized) && old(process).None?) ==>
        notebook == NotebookFolder(old(notebook), host.userDataFolder) &&
        process == Some(StartedProcess(host, dataFolder)) &&
        (initialized <==> dataFolder.Str? && host.launches)
      ensures initialized ==> process.Some? && process.value.running
    {
      var ok := StartJupyter(host);
      SetInitialized(ok);
    }

    /**
      Dispose(disposing). Once disposed, nothing happens. With `disposing` the process is
      disposed first; then StopJupyter runs. Where either throws on a missing process, `ok`
      is false and the page is not marked disposed.
    */
    method Dispose(disposing: bool) returns (ok: bool)
      modifies this`process, this`disposed
      ensures old(disposed) ==> ok && disposed && process == old(process)
      ensures !old(disposed) && old(process).None? ==>
        process.None? && (ok <==> !disposing && !initialized) && (disposed <==> ok)
      ensures !old(disposed) && old(process).Some? ==> ok && disposed
      ensures !old(disposed) && old(process).Some? ==> process == Some(old(process).value.(
        disposed := disposing || old(process).value.disposed,
        running := if initialized then false else old(process).value.running))
    {
      if disposed {
        ok := true;
        return;
      }
      if disposing {
        if process.None? {
          ok := false;
          return;
        }
        process := Some(process.value.(disposed := true));
      }
      ok := StopJupyter();
      if !ok {
        return;
      }
      disposed := true;
    }
  }
}
