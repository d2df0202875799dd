/**
 * Properties of one or two calls: the bootstrap, a commit followed by a read,
 * and a rejected submission.
 */
module ConfigProperties {
  import opened Evaluation
  import opened ConfigSpec

  /**
   * Reading with `config.py` missing creates it from the default; the next
   * read finds the file and returns the same text without writing anything.
   */
  lemma BootstrapThenRead(fs: Files, first: ReadFaults, second: ReadFaults)
    requires ConfigPath !in fs
    requires !first.readFails && first.bootstrap.Written?
    requires !second.readFails
    ensures
      var r1 := ReadConfigSpec(fs, first);
      var r2 := ReadConfigSpec(r1.files, second);
      r1.text == DefaultConfig && r1.files == fs[ConfigPath := DefaultConfig] &&
      r2 == ReadResult(DefaultConfig, r1.files)
  {
  }

  /** A submission is reported as a success exactly when it was committed and the write completed. */
  lemma SuccessIff(fs: Files, candidate: string, eval: EvalOutcome, f: SubmitFaults)
    ensures SubmitSpec(fs, candidate, eval, f).statusType == Success <==>
      Commits(f, eval) && f.save.config.Written?
  {
  }

  /**
   * A candidate that defines a `DATA` dictionary, submitted without faults
   * over an existing configuration, becomes the configuration: the form shows
   * it, the backup holds the previous text, and the temporary file is gone.
   */
  lemma CommitThenRead(fs: Files, candidate: string, data: map<Value, Value>,
                       bound: map<string, Value>, display: ReadFaults)
    requires ConfigPath in fs
    requires DataName in bound && bound[DataName] == VDict(data)
    requires !display.readFails
    ensures
      var f := SubmitFaults(Written, SaveFaults(Written, false, Written), display);
      var r := SubmitSpec(fs, candidate, Bindings(bound), f);
      r.status == UpdatedText && r.statusType == Success && r.display == candidate &&
      r.files == (fs - {TempPath})[ConfigPath := candidate][BackupPath := fs[ConfigPath]]
  {
  }

  /**
   * A submission that does not reach `write_config`, over an existing
   * configuration, changes neither configuration file, leaves no temporary
   * file and shows the unchanged configuration.
   */
  lemma RejectedKeepsConfig(fs: Files, candidate: string, eval: EvalOutcome, f: SubmitFaults)
    requires ConfigPath in fs
    requires !Commits(f, eval)
    requires !f.display.readFails
    ensures
      var r := SubmitSpec(fs, candidate, eval, f);
      r.statusType == Error && InvalidPrefix <= r.status &&
      r.display == fs[ConfigPath] &&
      r.files == fs - {TempPath}
  {
  }
}
