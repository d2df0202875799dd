/**
 * The editor serves one request after another (`config_editor` has no lock,
 * so requests are taken to be sequential).  A GET only reads the
 * configuration; a POST submits a candidate.  The lemmas here hold for every
 * sequence of requests and every combination of faults, given that each
 * candidate's code has no effect outside its own globals dictionary (see
 * `EvalOutcome`).
 */
module Serving {
  import opened Evaluation
  import opened ConfigSpec

  datatype Request =
    | Get(read: ReadFaults)
    | Post(candidate: string, eval: EvalOutcome, faults: SubmitFaults)

  /**
   * The file map after one request.  A GET can change only `config.py`, and
   * only when it is missing; a POST can change only the editor's three files,
   * leaves no `temp_config.py`, and keeps the backup unless it commits.
   */
  function Handle(fs: Files, req: Request): (r: Files)
    ensures req.Get? ==> r - {ConfigPath} == fs - {ConfigPath} && (ConfigPath in fs ==> r == fs)
    ensures req.Post? ==>
      TempPath !in r &&
      r - {ConfigPath, BackupPath, TempPath} == fs - {ConfigPath, BackupPath, TempPath}
    ensures req.Post? && !Commits(req.faults, req.eval) ==> Same(fs, r, BackupPath)
  {
    match req
    case Get(rf) => ReadConfigSpec(fs, rf).files
    case Post(c, e, f) => SubmitSpec(fs, c, e, f).files
  }

  /** The file map after a sequence of requests, handled in order. */
  function Serve(fs: Files, reqs: seq<Request>): Files
    decreases |reqs|
  {
    if reqs == [] then fs
    else Handle(Serve(fs, reqs[..|reqs| - 1]), reqs[|reqs| - 1])
  }

  /** Whether a request reaches `write_config`. */
  predicate CommitsReq(req: Request) {
    req.Post? && Commits(req.faults, req.eval)
  }

  /** The texts one `open(..., "w")` of `content` can leave in the file. */
  function Landed(content: string, w: WriteOutcome): set<string> {
    match w
    case Written => {content}
    case NotOpened(_) => {}
    case Interrupted(_, _) => {Leftover(content, w)}
  }

  /**
   * The texts one request can leave in `config.py`: the default (or a prefix
   * of it) from a bootstrap, and the candidate (or a prefix of it) only when
   * the candidate passed the checks.
   */
  function MayLand(req: Request): set<string> {
    match req
    case Get(rf) => Landed(DefaultConfig, rf.bootstrap)
    case Post(c, e, f) =>
      (if Commits(f, e) then Landed(c, f.save.config) else {}) + Landed(DefaultConfig, f.display.bootstrap)
  }

  /** One request either leaves `config.py` as it was or puts one of its own texts there. */
  lemma HandleLands(fs: Files, req: Request)
    ensures var r := Handle(fs, req);
      ConfigPath in r ==> Same(fs, r, ConfigPath) || r[ConfigPath] in MayLand(req)
  {
  }

  /**
   * Whatever the requests and faults, `config.py` holds its initial text or a
   * text that some request was allowed to put there: the editor stores a
   * candidate (or a prefix of it) only for a request that passed both checks.
   */
  lemma {:induction false} ConfigProvenance(fs: Files, reqs: seq<Request>)
    ensures var r := Serve(fs, reqs);
      ConfigPath in r ==>
        (ConfigPath in fs && r[ConfigPath] == fs[ConfigPath]) ||
        exists i :: 0 <= i < |reqs| && r[ConfigPath] in MayLand(reqs[i])
  {
    if reqs != [] {
      var prefix, last := reqs[..|reqs| - 1], reqs[|reqs| - 1];
      ConfigProvenance(fs, prefix);
      var before := Serve(fs, prefix);
      HandleLands(before, last);
      var r := Serve(fs, reqs);
      if ConfigPath in r {
        if Same(before, r, ConfigPath) {
          if !(ConfigPath in fs && r[ConfigPath] == fs[ConfigPath]) {
            var i :| 0 <= i < |prefix| && before[ConfigPath] in MayLand(prefix[i]);
            assert reqs[i] == prefix[i];
          }
        } else {
          assert r[ConfigPath] in MayLand(reqs[|reqs| - 1]);
        }
      }
    }
  }

  /** Every text a request may store is a prefix of the default or of a candidate that passed. */
  lemma MayLandIsPrefix(req: Request, t: string)
    requires t in MayLand(req)
    ensures t <= DefaultConfig || (CommitsReq(req) && t <= req.candidate)
  {
  }

  /**
   * The same fact read as prefixes: over any sequence of requests and faults,
   * `config.py` holds its initial text, a prefix of the default, or a prefix
   * of the candidate of some request that passed both `DATA` checks.
   */
  lemma ConfigPrefixOfAllowed(fs: Files, reqs: seq<Request>)
    ensures var r := Serve(fs, reqs);
      ConfigPath in r ==>
        (ConfigPath in fs && r[ConfigPath] == fs[ConfigPath]) ||
        r[ConfigPath] <= DefaultConfig ||
        exists i :: 0 <= i < |reqs| && CommitsReq(reqs[i]) && r[ConfigPath] <= reqs[i].candidate
  {
    ConfigProvenance(fs, reqs);
    var r := Serve(fs, reqs);
    if ConfigPath in r && !(ConfigPath in fs && r[ConfigPath] == fs[ConfigPath]) {
      var i :| 0 <= i < |reqs| && r[ConfigPath] in MayLand(reqs[i]);
      MayLandIsPrefix(reqs[i], r[ConfigPath]);
    }
  }

  /** A request that does not commit leaves the backup alone, and `config.py` too when it exists. */
  lemma HandleWithoutCommit(fs: Files, req: Request)
    requires !CommitsReq(req)
    ensures Same(fs, Handle(fs, req), BackupPath)
    ensures ConfigPath in fs ==> Same(fs, Handle(fs, req), ConfigPath)
  {
  }

  /**
   * As long as no request passes the checks, `config.py.bak` never changes,
   * and an existing `config.py` never changes either.
   */
  lemma {:induction false} NoCommitKeepsConfig(fs: Files, reqs: seq<Request>)
    requires forall i :: 0 <= i < |reqs| ==> !CommitsReq(reqs[i])
    ensures Same(fs, Serve(fs, reqs), BackupPath)
    ensures ConfigPath in fs ==> Same(fs, Serve(fs, reqs), ConfigPath)
  {
    if reqs != [] {
      var prefix := reqs[..|reqs| - 1];
      NoCommitKeepsConfig(fs, prefix);
      HandleWithoutCommit(Serve(fs, prefix), reqs[|reqs| - 1]);
    }
  }

  /**
   * `temp_config.py` exists after a sequence of requests only if it existed
   * before and every request was a GET: every POST removes it.
   */
  lemma {:induction false} TempOnlyBeforeAnyPost(fs: Files, reqs: seq<Request>)
    ensures TempPath in Serve(fs, reqs) ==>
      TempPath in fs && forall i :: 0 <= i < |reqs| ==> reqs[i].Get?
  {
    if reqs != [] {
      var prefix, last := reqs[..|reqs| - 1], reqs[|reqs| - 1];
      TempOnlyBeforeAnyPost(fs, prefix);
      var before := Serve(fs, prefix);
      if TempPath in Serve(fs, reqs) {
        assert last.Get?;
        assert TempPath in before by {
          assert Serve(fs, reqs) - {ConfigPath} == before - {ConfigPath};
          assert TempPath in Serve(fs, reqs) - {ConfigPath};
        }
        forall i | 0 <= i < |reqs| ensures reqs[i].Get? {
          if i < |prefix| { assert reqs[i] == prefix[i]; }
        }
      }
    }
  }
}
