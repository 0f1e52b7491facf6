/**
 * The project workspace page: it wires the file-system state and the
 * code-execution state to the editor, the explorer and the toolbar. Its
 * handlers guard on the active file and dispatch; Ctrl/Cmd+S saves and
 * Ctrl/Cmd+R runs.
 */
module ProjectWorkspace {
  import opened JsText
  import opened FileSystem
  import opened CodeExecution
  import CodeEditor

  /**
   * `getLanguageFromFileName(name)`: the lower-cased text after the last
   * `.`, the whole lower-cased name when there is no `.`, and "text" when
   * that is empty.
   */
  function LanguageFromFileName(fileName: string): (r: string)
    ensures r != "" && '.' !in r
  {
    var parts := Split(fileName, '.');
    var last := parts[|parts| - 1];
    var ext := Lower(last);
    if ext == "" then "text"
    else
      assert forall k :: 0 <= k < |last| ==> last[k] != '.';
      ext
  }

  /** The text after the last `.`, or the whole name, found by searching from the end. */
  function Extension(fileName: string): string {
    match LastIndexOf(fileName, '.')
    case None => fileName
    case Some(i) => fileName[i + 1..]
  }

  /** The split-based rule agrees with the extension found by searching from the end. */
  lemma LanguageIsLowerExtension(fileName: string)
    ensures LanguageFromFileName(fileName) == if Extension(fileName) == "" then "text" else Lower(Extension(fileName))
  {
    match LastIndexOf(fileName, '.')
    case None =>
      SplitWithout(fileName, '.');
    case Some(i) =>
      var a, b := fileName[..i], fileName[i + 1..];
      assert fileName == a + ['.'] + b;
      SplitAppend(a, b, '.');
      SplitWithout(b, '.');
  }

  /** A name with an extension runs and shows under its lower-cased extension. */
  lemma LanguageOfDottedName(base: string, ext: string)
    requires ext != [] && '.' !in ext
    ensures LanguageFromFileName(base + "." + ext) == Lower(ext)
  {
    var name := base + "." + ext;
    assert name == base + ['.'] + ext;
    SplitAppend(base, ext, '.');
    SplitWithout(ext, '.');
  }

  /** The language handed to the editor for an open file. */
  function EditorLanguage(fileName: string): string {
    CodeEditor.LanguageFromExtension(LanguageFromFileName(fileName))
  }

  /** A file whose extension is in the editor's table is edited in that table's language. */
  lemma EditorLanguageOfDottedName(base: string, ext: string)
    requires ext != [] && '.' !in ext && Lower(ext) in CodeEditor.LanguageMap
    ensures EditorLanguage(base + "." + ext) == CodeEditor.LanguageMap[Lower(ext)]
  {
    LanguageOfDottedName(base, ext);
    LowerIdempotent(ext);
  }

  /**
   * Running hands `executeCode` the extension, not the editor's language:
   * a `.py` file runs as language "py", so the simulated output never
   * reaches the Python print scanner.
   */
  lemma PythonFileRunsAsPy(base: string, ext: string, code: string)
    requires ext == "py"
    ensures LanguageFromFileName(base + "." + ext) == ext
    ensures SimulatedOutput(code, LanguageFromFileName(base + "." + ext)) == ext + " code executed successfully!"
    ensures EditorLanguage(base + "." + ext) == "python"
  {
    LanguageOfDottedName(base, ext);
    LowerOfPy(ext);
    SimulatedFallbacks(code, ext);
    CodeEditor.UpperCasePython("PY");
  }

  lemma LowerOfPy(ext: string)
    requires ext == "py"
    ensures Lower(ext) == ext
  {
  }

  /** The action a key press with Ctrl or Cmd held triggers. */
  datatype Shortcut = SaveShortcut | RunShortcut | NoShortcut

  /** `handleKeyDown`: Ctrl/Cmd+s saves, Ctrl/Cmd+r runs, nothing else does anything. */
  function ShortcutOf(ctrlKey: bool, metaKey: bool, key: string): (a: Shortcut)
    ensures a == SaveShortcut <==> (ctrlKey || metaKey) && key == "s"
    ensures a == RunShortcut <==> (ctrlKey || metaKey) && key == "r"
  {
    if ctrlKey || metaKey then
      if key == "s" then SaveShortcut else if key == "r" then RunShortcut else NoShortcut
    else NoShortcut
  }

  /** A notification shown after a handler ran. */
  datatype Toast = Toast(title: string, description: string, destructive: bool)

  /** The guard of `handleRunCode`: an active node that is a file. */
  predicate CanRun(active: Option<FileNode>) {
    active.Some? && active.value.kind == File
  }

  /** The page's state: the two hooks it uses and its own saving flag. */
  class WorkspacePage {
    const fs: Workspace
    const exec: Executor
    var isSaving: bool

    ghost predicate Valid()
      reads this, fs, exec
    {
      fs.Valid() && exec.Valid()
    }

    constructor ()
      ensures Valid() && !isSaving
      ensures fs.files == InitialFiles() && fs.activeFile == None && fs.openFiles == []
      ensures exec.executionHistory == [] && !exec.isExecuting
    {
      fs := new Workspace();
      exec := new Executor();
      isSaving := false;
    }

    /** The Run button's `disabled`: while executing or without an active file. */
    predicate RunDisabled(): (r: bool)
      reads this, fs, exec
      ensures !r ==> fs.activeFile.Some? && !exec.isExecuting
    {
      exec.isExecuting || fs.activeFile.None?
    }

    /** The Save button's `disabled`: while saving or without an active file. */
    predicate SaveDisabled(): (r: bool)
      reads this, fs
      ensures !r ==> fs.activeFile.Some? && !isSaving
    {
      isSaving || fs.activeFile.None?
    }

    /** Whenever the Run button is enabled, the run handler's guard lets the run through. */
    lemma EnabledRunButtonRuns()
      requires Valid() && !RunDisabled()
      ensures CanRun(fs.activeFile)
    {
    }

    /** `handleFileClick(file)`: only files are opened. */
    method HandleFileClick(file: FileNode)
      requires Valid()
      modifies fs
      ensures Valid()
      ensures fs.files == old(fs.files)
      ensures file.kind == Folder ==> fs.openFiles == old(fs.openFiles) && fs.activeFile == old(fs.activeFile)
      ensures file.kind == File ==> fs.activeFile == Some(file) && IsOpen(fs.openFiles, file.path)
    {
      if file.kind == File {
        fs.OpenFile(file);
      }
    }

    /** `handleEditorChange(value)`: the content goes to the active file's path, and nowhere without one. */
    method HandleEditorChange(value: string)
      requires Valid()
      modifies fs
      ensures Valid()
      ensures old(fs.activeFile).None? ==>
        fs.files == old(fs.files) && fs.openFiles == old(fs.openFiles) && fs.activeFile == None
      ensures old(fs.activeFile).Some? ==>
        var path := old(fs.activeFile).value.path;
        fs.files == UpdateInTree(path, SetContent(value), old(fs.files))
        && fs.openFiles == SetContentWhere(path, value, old(fs.openFiles))
        && fs.activeFile == Some(old(fs.activeFile).value.(content := Some(value)))
    {
      if fs.activeFile.Some? {
        fs.UpdateFileContent(fs.activeFile.value.path, value);
      }
    }

    /** The synchronous start of `handleSaveFile`. */
    method BeginSave()
      requires Valid() && !isSaving
      modifies this
      ensures Valid() && isSaving == old(fs.activeFile).Some?
    {
      if fs.activeFile.Some? {
        isSaving := true;
      }
    }

    /**
     * `handleSaveFile()`: without an active file nothing happens; otherwise
     * the active path is saved and the success notice shown (`saveFile`
     * catches its own failures, so the error notice is never reached), and
     * the flag is lowered again.
     */
    method HandleSaveFile() returns (request: Option<SaveRequest>, toast: Option<Toast>)
      requires Valid() && !isSaving
      modifies this
      ensures Valid() && !isSaving
      ensures fs.activeFile.None? ==> request.None? && toast.None?
      ensures fs.activeFile.Some? ==>
        (request.None? <==> Absent(fs.activeFile.value.path, fs.files))
        && toast == Some(Toast("File saved", fs.activeFile.value.name + " has been saved successfully.", false))
      ensures request.Some? ==> fs.activeFile.Some? && request.value.path == fs.activeFile.value.path
    {
      BeginSave();
      if fs.activeFile.None? {
        return None, None;
      }
      var active := fs.activeFile.value;
      request := fs.SaveFile(active.path);
      toast := Some(Toast("File saved", active.name + " has been saved successfully.", false));
      isSaving := false;
    }

    /**
     * `handleRunCode()`: an active file is executed with its content (empty
     * when absent) and the language its name gives; otherwise nothing runs.
     */
    method HandleRunCode(reply: Reply) returns (result: Option<ExecutionResult>)
      requires Valid()
      modifies exec
      ensures Valid() && !exec.isExecuting == (CanRun(fs.activeFile) || !old(exec.isExecuting))
      ensures !CanRun(fs.activeFile) ==>
        result.None? && exec.executionHistory == old(exec.executionHistory) && exec.lastResult == old(exec.lastResult)
      ensures CanRun(fs.activeFile) ==>
        var file := fs.activeFile.value;
        result == Some(ResultOf(file.content.GetOr(""), LanguageFromFileName(file.name), reply))
        && exec.lastResult == result
        && exec.executionHistory == Pushed(old(exec.executionHistory), result.value)
    {
      if fs.activeFile.None? || fs.activeFile.value.kind != File {
        return None;
      }
      var file := fs.activeFile.value;
      var language := LanguageFromFileName(file.name);
      var r := exec.ExecuteCode(file.content.GetOr(""), language, reply);
      result := Some(r);
    }

    /** `handleKeyDown(e)`: dispatch on the shortcut, with the run's reply as a parameter. */
    method HandleKeyDown(ctrlKey: bool, metaKey: bool, key: string, reply: Reply)
      returns (action: Shortcut, request: Option<SaveRequest>, result: Option<ExecutionResult>)
      requires Valid() && !isSaving
      modifies this, exec
      ensures Valid() && !isSaving
      ensures action == ShortcutOf(ctrlKey, metaKey, key)
      ensures action != RunShortcut ==>
        result.None? && exec.executionHistory == old(exec.executionHistory) && exec.lastResult == old(exec.lastResult)
      ensures action != SaveShortcut ==> request.None?
      ensures action == RunShortcut && CanRun(fs.activeFile) ==>
        result.Some? && exec.lastResult == result
        && exec.executionHistory == Pushed(old(exec.executionHistory), result.value)
    {
      action := ShortcutOf(ctrlKey, metaKey, key);
      request, result := None, None;
      match action {
        case SaveShortcut =>
          var toast;
          request, toast := HandleSaveFile();
        case RunShortcut =>
          result := HandleRunCode(reply);
        case NoShortcut =>
      }
    }
  }
}
