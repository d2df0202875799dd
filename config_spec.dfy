/**
 * The editor's three files as one map from path to content, and the effect of
 * `read_config`, `write_config` and the POST branch of `config_editor` on that
 * map, written as functions of the old map and of the faults that occur.
 *
 * Every `open(path, "w")` followed by `f.write(...)` is one WriteOutcome: it
 * either completes, or fails before the file is opened (nothing changes), or
 * fails after `open` truncated the file, which then holds the first `kept`
 * characters of the text (the part that reached it before the failure).
 */
module ConfigSpec {
  import opened Evaluation

  type Files = map<string, string>

  const ConfigPath: string := "config.py"
  const BackupPath: string := "config.py.bak"
  const TempPath: string := "temp_config.py"

  const ReadErrorText: string := "# Error reading configuration file"
  const CreateErrorText: string := "# Error creating configuration file"
  const UpdatedText: string := "Configuration updated successfully"
  const SaveErrorPrefix: string := "Error saving configuration: "
  const InvalidPrefix: string := "Invalid configuration: "
  const Success: string := "success"
  const Error: string := "error"

  /**
   * The sample configuration written when `config.py` is missing.  The model
   * relies only on its being one fixed text, so its value is left open.
   */
  const DefaultConfig: string

  datatype WriteOutcome =
    | Written
    | NotOpened(reason: string)
    | Interrupted(kept: nat, reason: string)

  /** What an interrupted write of `content` leaves in the file: a prefix of it. */
  function Leftover(content: string, w: WriteOutcome): (s: string)
    requires w.Interrupted?
    ensures s <= content
  {
    content[..if w.kept < |content| then w.kept else |content|]
  }

  /** Faults of one `read_config` call. */
  datatype ReadFaults = ReadFaults(
    readFails: bool,         // opening or reading `config.py` raised something other than FileNotFoundError
    bootstrap: WriteOutcome  // writing the default into a missing `config.py`
  )

  /** Faults of one `write_config` call. */
  datatype SaveFaults = SaveFaults(
    backup: WriteOutcome,  // writing `config.py.bak`
    backupRead: bool,      // the `read_config` that supplies the backup text fails to read
    config: WriteOutcome   // overwriting `config.py`
  )

  /** Faults of one POST submission. */
  datatype SubmitFaults = SubmitFaults(
    temp: WriteOutcome,   // writing `temp_config.py`
    save: SaveFaults,     // the `write_config` call, if it is reached
    display: ReadFaults   // the `read_config` that fills the form afterwards
  )

  datatype ReadResult = ReadResult(text: string, files: Files)
  datatype SaveResult = SaveResult(ok: bool, message: string, files: Files)
  datatype ProcessResult = ProcessResult(status: string, statusType: string, files: Files)
  datatype SubmitResult = SubmitResult(status: string, statusType: string, display: string, files: Files)

  /** `p` is present in both maps with the same content, or absent from both. */
  predicate Same(a: Files, b: Files, p: string) {
    (p in a <==> p in b) && (p in a ==> a[p] == b[p])
  }

  /** The file map after `open(path, "w").write(content)` ended with outcome `w`. */
  function AfterWrite(fs: Files, path: string, content: string, w: WriteOutcome): (r: Files)
    ensures r - {path} == fs - {path}
    ensures w.NotOpened? ==> r == fs
    ensures w.Written? ==> path in r && r[path] == content
    ensures w.Interrupted? ==> path in r && r[path] == Leftover(content, w) && r[path] <= content
  {
    match w
    case Written => fs[path := content]
    case NotOpened(_) => fs
    case Interrupted(_, _) => fs[path := Leftover(content, w)]
  }

  /** `read_config`: return `config.py`, creating it from the default when missing. */
  function ReadConfigSpec(fs: Files, f: ReadFaults): (r: ReadResult)
    // an unexpected read error: fixed text, nothing written
    ensures f.readFails ==> r == ReadResult(ReadErrorText, fs)
    // existing file: its exact content, nothing written
    ensures !f.readFails && ConfigPath in fs ==> r == ReadResult(fs[ConfigPath], fs)
    // missing file: the default is written and returned, or the creation error text
    ensures !f.readFails && ConfigPath !in fs ==>
      r.files == AfterWrite(fs, ConfigPath, DefaultConfig, f.bootstrap) &&
      r.text == (if f.bootstrap.Written? then DefaultConfig else CreateErrorText)
    // only `config.py` can change
    ensures r.files - {ConfigPath} == fs - {ConfigPath}
  {
    if f.readFails then ReadResult(ReadErrorText, fs)
    else if ConfigPath in fs then ReadResult(fs[ConfigPath], fs)
    else
      var fs' := AfterWrite(fs, ConfigPath, DefaultConfig, f.bootstrap);
      ReadResult(if f.bootstrap.Written? then DefaultConfig else CreateErrorText, fs')
  }

  /**
   * The best-effort backup of `write_config`, applied when `config.py`
   * exists: `config.py.bak` receives what `read_config` returns.
   */
  function BackupSpec(fs: Files, backup: WriteOutcome, backupRead: bool): (r: Files)
    requires ConfigPath in fs
    ensures r - {BackupPath} == fs - {BackupPath}
    ensures backup.Written? ==>
      BackupPath in r && r[BackupPath] == (if backupRead then ReadErrorText else fs[ConfigPath])
  {
    if backup.NotOpened? then fs
    else
      // the backup is opened first, then read_config runs; config.py exists, so
      // that call writes nothing
      var text := ReadConfigSpec(fs, ReadFaults(backupRead, Written)).text;
      AfterWrite(fs, BackupPath, text, backup)
  }

  /** `write_config`: back up the existing file, then overwrite `config.py`. */
  function WriteConfigSpec(fs: Files, content: string, f: SaveFaults): (r: SaveResult)
    // the reported outcome is that of the write to config.py alone
    ensures r.ok <==> f.config.Written?
    ensures r.ok ==> r.message == UpdatedText
    ensures !r.ok ==> r.message == SaveErrorPrefix + f.config.reason
    // whatever happened to the backup, a completed write stores the new content
    ensures f.config.Written? ==> ConfigPath in r.files && r.files[ConfigPath] == content
    // no backup without an existing config.py
    ensures ConfigPath !in fs ==> Same(fs, r.files, BackupPath)
    // a backup that completed holds the old config.py (or the read error text)
    ensures ConfigPath in fs && f.backup.Written? ==>
      BackupPath in r.files &&
      r.files[BackupPath] == (if f.backupRead then ReadErrorText else fs[ConfigPath])
    // nothing but the two configuration files changes
    ensures r.files - {ConfigPath, BackupPath} == fs - {ConfigPath, BackupPath}
  {
    var fs1 := if ConfigPath in fs then BackupSpec(fs, f.backup, f.backupRead) else fs;
    var fs2 := AfterWrite(fs1, ConfigPath, content, f.config);
    assert fs2 - {ConfigPath, BackupPath} == (fs1 - {ConfigPath}) - {BackupPath};
    if f.config.Written? then SaveResult(true, UpdatedText, fs2)
    else SaveResult(false, SaveErrorPrefix + f.config.reason, fs2)
  }

  /**
   * Whether a submission reaches `write_config`: the temporary file was
   * written and the evaluation passed both checks on `DATA`.
   */
  predicate Commits(f: SubmitFaults, eval: EvalOutcome)
    ensures Commits(f, eval) <==>
      f.temp.Written? && eval.Bindings? && DataName in eval.bound && eval.bound[DataName].VDict?
  {
    PassesIff(eval);
    f.temp.Written? && Passes(eval)
  }

  /**
   * Why a submission that does not reach `write_config` was turned down: the
   * first step that failed, in the order the try block runs them.
   */
  function RejectReason(f: SubmitFaults, eval: EvalOutcome): (reason: string)
    requires !Commits(f, eval)
    ensures !f.temp.Written? ==> reason == f.temp.reason
    ensures f.temp.Written? && eval.EvalRaised? ==> reason == eval.msg
    ensures f.temp.Written? && eval.Bindings? && DataName !in eval.bound ==> reason == MissingDataText
    ensures f.temp.Written? && eval.Bindings? && DataName in eval.bound ==> reason == NotDictText
  {
    if !f.temp.Written? then f.temp.reason
    else match eval
      case EvalRaised(msg) => msg
      case Bindings(bound) =>
        DataOnlyFromCandidate(bound);
        CheckData(GlobalsAfter(bound)).reason
  }

  /**
   * Lines 206-247 of the POST branch: write the temporary file, evaluate it,
   * check `DATA`, save, and remove the temporary file in every case.
   */
  function ProcessSpec(fs: Files, candidate: string, eval: EvalOutcome, f: SubmitFaults): (r: ProcessResult)
    // the temporary file never survives
    ensures TempPath !in r.files
    // without both checks passing, neither configuration file is touched
    ensures !Commits(f, eval) ==>
      Same(fs, r.files, ConfigPath) && Same(fs, r.files, BackupPath) &&
      r.statusType == Error && r.status == InvalidPrefix + RejectReason(f, eval)
    // a missing DATA is reported as such, whatever else the candidate bound
    ensures f.temp.Written? && eval.Bindings? && DataName !in eval.bound ==>
      r.status == InvalidPrefix + MissingDataText
    // once both checks pass, the result is that of write_config
    ensures Commits(f, eval) ==>
      var s := WriteConfigSpec(fs, candidate, f.save);
      r.status == s.message && (r.statusType == Success <==> s.ok) &&
      r.files == s.files - {TempPath}
    ensures r.statusType == Success || r.statusType == Error
    ensures r.files - {ConfigPath, BackupPath, TempPath} == fs - {ConfigPath, BackupPath, TempPath}
  {
    var fs1 := AfterWrite(fs, TempPath, candidate, f.temp);
    assert eval.Bindings? && DataName !in eval.bound ==> DataName !in GlobalsAfter(eval.bound) by {
      if eval.Bindings? { DataOnlyFromCandidate(eval.bound); }
    }
    if Commits(f, eval) then
      var s := WriteConfigSpec(fs1, candidate, f.save);
      SaveIgnoresTemp(fs, fs1, candidate, f.save);
      ProcessResult(s.message, if s.ok then Success else Error, s.files - {TempPath})
    else
      ProcessResult(InvalidPrefix + RejectReason(f, eval), Error, fs1 - {TempPath})
  }

  /**
   * `write_config` reads and writes only the two configuration files, so a
   * temporary file beside them makes no difference to it.
   */
  lemma SaveIgnoresTemp(fs: Files, fs': Files, content: string, f: SaveFaults)
    requires fs - {TempPath} == fs' - {TempPath}
    ensures
      var s, s' := WriteConfigSpec(fs, content, f), WriteConfigSpec(fs', content, f);
      s.ok == s'.ok && s.message == s'.message && s.files - {TempPath} == s'.files - {TempPath}
  {
    assert Same(fs, fs', ConfigPath) by {
      assert ConfigPath in fs <==> ConfigPath in fs - {TempPath};
      assert ConfigPath in fs' <==> ConfigPath in fs' - {TempPath};
      if ConfigPath in fs {
        assert fs[ConfigPath] == (fs - {TempPath})[ConfigPath];
        assert fs'[ConfigPath] == (fs' - {TempPath})[ConfigPath];
      }
    }
    var b := if ConfigPath in fs then BackupSpec(fs, f.backup, f.backupRead) else fs;
    var b' := if ConfigPath in fs' then BackupSpec(fs', f.backup, f.backupRead) else fs';
    if ConfigPath in fs {
      var text := ReadConfigSpec(fs, ReadFaults(f.backupRead, Written)).text;
      assert text == ReadConfigSpec(fs', ReadFaults(f.backupRead, Written)).text;
      WriteAwayFromTemp(fs, fs', BackupPath, text, f.backup);
    }
    WriteAwayFromTemp(b, b', ConfigPath, content, f.config);
  }

  /** A write to another path keeps two maps that agree away from the temporary file in agreement. */
  lemma WriteAwayFromTemp(fs: Files, fs': Files, path: string, content: string, w: WriteOutcome)
    requires fs - {TempPath} == fs' - {TempPath}
    requires path != TempPath
    ensures AfterWrite(fs, path, content, w) - {TempPath} == AfterWrite(fs', path, content, w) - {TempPath}
  {
    match w
    case Written =>
      assert fs[path := content] - {TempPath} == (fs - {TempPath})[path := content];
      assert fs'[path := content] - {TempPath} == (fs' - {TempPath})[path := content];
    case NotOpened(_) =>
    case Interrupted(_, _) =>
      var left := Leftover(content, w);
      assert fs[path := left] - {TempPath} == (fs - {TempPath})[path := left];
      assert fs'[path := left] - {TempPath} == (fs' - {TempPath})[path := left];
  }

  /** `config_editor` on POST: process the submission, then read the form's content. */
  function SubmitSpec(fs: Files, candidate: string, eval: EvalOutcome, f: SubmitFaults): (r: SubmitResult)
    ensures TempPath !in r.files
    // a submission that does not commit leaves the backup alone
    ensures !Commits(f, eval) ==> Same(fs, r.files, BackupPath)
    // nothing but the three files of the editor changes
    ensures r.files - {ConfigPath, BackupPath, TempPath} == fs - {ConfigPath, BackupPath, TempPath}
  {
    var p := ProcessSpec(fs, candidate, eval, f);
    var d := ReadConfigSpec(p.files, f.display);
    SubmitResult(p.status, p.statusType, d.text, d.files)
  }
}
