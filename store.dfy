/**
 * The working directory of the editor as an object whose `files` map is
 * updated in place, with `read_config`, `write_config` and the POST branch of
 * `config_editor` as methods that follow the code step by step.  Each method
 * is proved to have exactly the effect the matching function of ConfigSpec
 * describes.
 */
module WebInterface {
  import opened Evaluation
  import opened ConfigSpec

  class Store {
    var files: Files

    constructor (initial: Files)
      ensures files == initial
    {
      files := initial;
    }

    /** `open(path, "w")` followed by `f.write(content)`. */
    method OpenAndWrite(path: string, content: string, w: WriteOutcome)
      modifies this
      ensures files == AfterWrite(old(files), path, content, w)
    {
      match w
      case Written =>
        files := files[path := content];
      case NotOpened(_) =>
      case Interrupted(_, _) =>
        // opening truncated the file; only the first characters reached it
        files := files[path := Leftover(content, w)];
    }

    /** `os.remove(path)`. */
    method Remove(path: string)
      requires path in files
      modifies this
      ensures files == old(files) - {path}
    {
      files := files - {path};
    }

    /** `read_config`. */
    method ReadConfig(f: ReadFaults) returns (text: string)
      modifies this
      ensures ReadResult(text, files) == ReadConfigSpec(old(files), f)
      ensures ConfigPath in old(files) ==> files == old(files)
    {
      if f.readFails {
        return ReadErrorText;
      }
      if ConfigPath in files {
        return files[ConfigPath];
      }
      // FileNotFoundError: create the file from the default
      OpenAndWrite(ConfigPath, DefaultConfig, f.bootstrap);
      if f.bootstrap.Written? {
        text := DefaultConfig;
      } else {
        text := CreateErrorText;
      }
    }

    /** `write_config`. */
    method WriteConfig(content: string, f: SaveFaults) returns (ok: bool, message: string)
      modifies this
      ensures SaveResult(ok, message, files) == WriteConfigSpec(old(files), content, f)
    {
      if ConfigPath in files {
        // `open("config.py.bak", "w")` is evaluated before `read_config()`; when
        // it fails, read_config is not called.  read_config does not look at
        // the backup, so opening and writing are applied together after it.
        if !f.backup.NotOpened? {
          var text := ReadConfig(ReadFaults(f.backupRead, Written));
          OpenAndWrite(BackupPath, text, f.backup);
        }
      }
      OpenAndWrite(ConfigPath, content, f.config);
      if f.config.Written? {
        ok, message := true, UpdatedText;
      } else {
        ok, message := false, SaveErrorPrefix + f.config.reason;
      }
    }

    /**
     * Lines 206-247 of the POST branch: the try block that writes, evaluates,
     * checks and saves the candidate, and the finally block that removes the
     * temporary file.
     */
    method Process(candidate: string, eval: EvalOutcome, f: SubmitFaults)
      returns (status: string, statusType: string)
      modifies this
      ensures ProcessResult(status, statusType, files) == ProcessSpec(old(files), candidate, eval, f)
    {
      OpenAndWrite(TempPath, candidate, f.temp);
      ghost var fs1 := files;
      if !f.temp.Written? {
        status, statusType := InvalidPrefix + f.temp.reason, Error;
      } else {
        match eval
        case EvalRaised(msg) =>
          status, statusType := InvalidPrefix + msg, Error;
        case Bindings(bound) =>
          var verdict := CheckData(GlobalsAfter(bound));
          if verdict.Rejected? {
            status, statusType := InvalidPrefix + verdict.reason, Error;
          } else {
            var ok, message := WriteConfig(candidate, f.save);
            status := message;
            statusType := if ok then Success else Error;
          }
      }
      assert !Commits(f, eval) ==> files == fs1;
      // finally: clean up the temporary file
      if TempPath in files {
        Remove(TempPath);
      }
    }

    /** The POST branch of `config_editor`, ending with the read that fills the form. */
    method Submit(candidate: string, eval: EvalOutcome, f: SubmitFaults)
      returns (status: string, statusType: string, display: string)
      modifies this
      ensures SubmitResult(status, statusType, display, files) == SubmitSpec(old(files), candidate, eval, f)
      ensures TempPath !in files
      ensures !Commits(f, eval) ==> Same(old(files), files, BackupPath)
    {
      status, statusType := Process(candidate, eval, f);
      display := ReadConfig(f.display);
    }
  }
}
