# SNMP server configuration editor: validate, then commit

This project models the configuration editor of an SNMP server. The editor is a small web page. It shows the server's `config.py` and accepts a replacement for it. The model covers the validate-then-commit logic behind the page, which works on three files:

- `config.py`: the live configuration.
- `config.py.bak`: a single-slot backup.
- `temp_config.py`: a scratch copy of the candidate.

The three operations are:

- **read_config**: returns `config.py`. If the file is missing, it writes the built-in default configuration there first. When a read or that bootstrap write fails, it returns a fixed error text instead.
- **write_config**: if `config.py` exists, it makes a best-effort backup into `config.py.bak`. The backup text is whatever `read_config` returns. It then overwrites `config.py` and returns a success flag and a message.
- **POST branch of the editor**: writes the candidate to `temp_config.py` and runs it with `exec`. The globals start out holding the five SNMP helper names. The candidate is saved through `write_config` only if it binds `DATA` and `DATA` is a dictionary. The temporary file is removed in every case. The configuration is then read again to fill the form.

Files:

- `evaluation.dfy` (module `Evaluation`): Python values as far as the editor distinguishes them, the outcome of `exec`, the seeded globals, and the two `DATA` checks.
- `config_spec.dfy` (module `ConfigSpec`): the files as a map from path to content, the faults each step can meet, and each operation as a function from the old map to its result and the new map.
- `store.dfy` (module `WebInterface`): a class `Store` whose `files` field the methods update in place. The methods follow the code statement by statement, with two departures. `WriteConfig` applies the backup's `open` after the `read_config` it wraps rather than before; read_config does not look at the backup, so the effect is the same, and the proof covers it. `Process` does not model the read of `temp_config.py` at line 220 as a separate step: it is part of the `exec` outcome `eval`. Each method is proved to have exactly the effect of the matching `ConfigSpec` function.
- `properties.dfy` (module `ConfigProperties`): properties of one or two calls.
- `serving.dfy` (module `Serving`): one GET or POST request and any sequence of them. The trace lemmas `ConfigProvenance`, `NoCommitKeepsConfig` and `TempOnlyBeforeAnyPost` are proved by induction over the sequence; `HandleLands`, `MayLandIsPrefix` and `HandleWithoutCommit` are about one request, and `ConfigPrefixOfAllowed` follows from `ConfigProvenance`.

How I/O and foreign code are handled:

- **File writes.** Every `open(path, "w")` followed by `write` ends in one of three outcomes, given as an input:
  - it completes;
  - it fails before the file is opened, so nothing changes;
  - it fails after `open` has truncated the file, so the file holds the first `kept` characters of the text (`kept` is also an input).
- **Exception texts.** The text of each exception (`str(e)`) is carried in the outcome that raised it.
- **Read errors.** A read of `config.py` can raise something other than `FileNotFoundError`. This is a boolean input, and it takes precedence over the file being absent.
- **`exec`.** Running the candidate is the input `EvalOutcome`. It is either the message of the exception raised, or the names the candidate bound. The globals after the run are the seed with those names laid over it. The candidate's code is taken to have no effect outside its own globals dictionary: it writes or removes no file, changes no directory, rebinds no module or builtin name, and raises only `Exception` subclasses whose `str()` returns normally. Python does not guarantee this: `exec` runs the candidate with full builtins. The `__builtins__` entry that `exec` adds to the globals is not part of `bound`; it cannot be `DATA`, so the checks do not depend on it. Every property below about what a request does to the files or reports rests on this assumption; "## Left out" names them. The removal of `temp_config.py` also rests on `os.remove` succeeding.
- **`DEFAULT_CONFIG`** is one fixed string whose value the model leaves open. No property depends on what the sample text says.

Behaviour of the code that the model keeps, where a careful design might expect otherwise:

- Writes truncate, so there is no atomic commit. A failed write of `config.py` can leave it holding part of the new text. After such a failure the model promises only this: `config.py` is unchanged when the open failed, and otherwise holds a prefix of the new text.
- If the read inside the backup fails, `config.py.bak` receives `"# Error reading configuration file"` instead of the old configuration.
- The read that fills the form after a rejected submission bootstraps `config.py` if it is missing. So "`config.py` is unchanged" holds for the POST branch only when `config.py` existed. For lines 206-247 alone it holds always, under the assumption about the candidate's code stated above.

## Model

| member | source | states |
|---|---|---|
| `Evaluation.SeedGlobals` | web-interface.py:213-219 | the globals start with exactly the five helper names, each bound to its helper, and `DATA` is not among them |
| `Evaluation.GlobalsAfter` | web-interface.py:220-221 | after the run, the globals hold the helper names and the candidate's names; a name the candidate bound has the candidate's value, and an untouched helper keeps its own |
| `Evaluation.DataOnlyFromCandidate` | web-interface.py:213-227 | `DATA` is defined after the run exactly when the candidate bound it, and it has the candidate's value |
| `Evaluation.CheckData` | web-interface.py:226-232 | accepts exactly when `DATA` is present and a dict (the accepted verdict records that dict, though the editor goes on to save the raw candidate text, not the dict); absence is reported as "Configuration must define a DATA dictionary" before any type check; a non-dict is reported as "DATA must be a dictionary" |
| `Evaluation.PassesIff` | web-interface.py:220-232 | an evaluation passes both checks exactly when it raised nothing and the candidate bound `DATA` to a dictionary |
| `ConfigSpec.Leftover` | web-interface.py:185-186 | what an interrupted write leaves in the file is a prefix of the text being written |
| `ConfigSpec.AfterWrite` | web-interface.py:185-186 | a write changes only its own path: it stores the content when it completes, nothing when the open fails, and a prefix of the content when it fails after truncating |
| `ConfigSpec.ReadConfigSpec` | web-interface.py:149-171 | returns an existing `config.py` exactly and writes nothing. A read error gives "# Error reading configuration file" and writes nothing. A missing file is written with the default, returned on success; a failed write gives "# Error creating configuration file". Only `config.py` can change |
| `ConfigSpec.BackupSpec` | web-interface.py:178-183 | only `config.py.bak` can change; a completed backup holds the old `config.py`, or the read error text when that read failed |
| `ConfigSpec.WriteConfigSpec` | web-interface.py:174-191 | returns true with "Configuration updated successfully" exactly when the write of `config.py` completed; otherwise returns false with "Error saving configuration: " and the error. A completed write stores the new content whatever happened to the backup. No `config.py` means `config.py.bak` is untouched. A completed backup holds the previous `config.py`, or the read error text when that read failed. No other file changes |
| `ConfigSpec.SaveIgnoresTemp` | web-interface.py:235 | `write_config` gives the same flag, message and configuration files whether or not the temporary file is present |
| `ConfigSpec.Commits` | web-interface.py:206-235 | `write_config` is reached exactly when the temporary file was written, the evaluation raised nothing, and the candidate bound `DATA` to a dictionary |
| `ConfigSpec.RejectReason` | web-interface.py:206-241 | the `str(e)` shown after "Invalid configuration: " is that of the first failing step: the temp write's error, else the candidate's exception, else "Configuration must define a DATA dictionary" when `DATA` is unbound, else "DATA must be a dictionary" |
| `ConfigSpec.ProcessSpec` | web-interface.py:206-247 | `temp_config.py` never survives. Assuming the candidate's code writes no file: unless the temp write completed and both `DATA` checks passed, `config.py` and `config.py.bak` are unchanged, the status type is "error" and the status is "Invalid configuration: " plus the reason. A missing `DATA` always yields the missing-DATA message. Otherwise the status and file effect are those of `write_config`, and the type is "success" exactly when it returned true. No other file changes |
| `ConfigSpec.SubmitSpec` | web-interface.py:202-249 | the POST branch is the processing step followed by `read_config` for the form; `temp_config.py` does not exist afterwards; assuming the candidate's code writes no file, a submission that does not commit leaves `config.py.bak` unchanged; no file other than the editor's three changes |
| `WebInterface.Store.OpenAndWrite` | web-interface.py:185-186 | the `files` field afterwards is `AfterWrite` of the old map |
| `WebInterface.Store.Remove` | web-interface.py:245-246 | the given path leaves the file map and nothing else changes |
| `WebInterface.Store.ReadConfig` | web-interface.py:149-171 | the returned text and the new `files` are exactly `ReadConfigSpec` of the old map; an existing `config.py` leaves `files` untouched |
| `WebInterface.Store.WriteConfig` | web-interface.py:174-191 | the returned pair and the new `files` are exactly `WriteConfigSpec` of the old map, with the backup taken through `ReadConfig` |
| `WebInterface.Store.Process` | web-interface.py:206-247 | the status, its type and the new `files` are exactly `ProcessSpec` of the old map |
| `WebInterface.Store.Submit` | web-interface.py:202-249 | status, type, displayed text and new `files` are exactly `SubmitSpec` of the old map; `temp_config.py` is gone; assuming the candidate's code writes no file, a submission that did not pass the checks leaves `config.py.bak` unchanged |
| `ConfigProperties.BootstrapThenRead` | web-interface.py:153-165 | after a successful bootstrap, `config.py` holds the default; a second read returns the default through the existing-file path and writes nothing |
| `ConfigProperties.SuccessIff` | web-interface.py:235-242 | assuming the candidate's code raises only `Exception` subclasses, the status type is "success" exactly when the candidate passed the checks and the write of `config.py` completed |
| `ConfigProperties.CommitThenRead` | web-interface.py:177-188 | assuming the candidate's code writes no file, submitting a candidate that binds `DATA` to a dict, with no faults, over an existing configuration: reports "Configuration updated successfully", displays the candidate, stores it in `config.py`, puts the previous text in `config.py.bak`, and leaves nothing else changed except the removed temporary file |
| `ConfigProperties.RejectedKeepsConfig` | web-interface.py:206-249 | assuming the candidate's code writes no file, submitting a candidate that does not pass, over an existing configuration: reports an "Invalid configuration: " error, displays the unchanged configuration, and leaves every file as it was apart from removing the temporary file |
| `Serving.Handle` | web-interface.py:194-249 | assuming the candidate's code writes no file: a GET has `read_config`'s file effect, changing only a missing `config.py`; a POST has the POST branch's effect, leaving no `temp_config.py`, changing no file but the editor's three, and keeping `config.py.bak` unless it commits |
| `Serving.HandleLands` | web-interface.py:194-249 | assuming the candidate's code writes no file, one request either leaves `config.py` as it was or stores one of the texts that request is allowed to store there |
| `Serving.ConfigProvenance` | web-interface.py:226-235 | assuming candidates' code writes no file: over any sequence of requests and faults, `config.py` holds its initial text or a text that some request may store, where only a request whose candidate passed both `DATA` checks may store that candidate |
| `Serving.MayLandIsPrefix` | web-interface.py:159-168 | every text a request may store in `config.py` is a prefix of the default, or a prefix of the request's candidate when it passed both checks |
| `Serving.ConfigPrefixOfAllowed` | web-interface.py:174-249 | assuming candidates' code writes no file: over any sequence of requests and faults, `config.py` holds its initial text, a prefix of the default, or a prefix of a candidate that passed both `DATA` checks |
| `Serving.HandleWithoutCommit` | web-interface.py:206-242 | assuming the candidate's code writes no file, a request that does not reach `write_config` leaves `config.py.bak` unchanged, and `config.py` too when it exists |
| `Serving.NoCommitKeepsConfig` | web-interface.py:206-242 | assuming candidates' code writes no file: as long as no request passes the checks, `config.py.bak` never changes, and neither does an existing `config.py` |
| `Serving.TempOnlyBeforeAnyPost` | web-interface.py:243-247 | `temp_config.py` exists after a sequence of requests only if it existed at the start and every request was a GET |

## Left out

- Flask application setup, the `/test` and `/routes` endpoints, form parsing, the HTML template and its rendering, and the outer handler that answers 500: these are presentation and transport.
- Logging configuration and every logger call: they change no state the model tracks.
- Python's `exec` and the helper constructors imported from `snmp_server`: these are foreign code. The outcome of one `exec` is an input, and the helpers are opaque function values.
- Lambda values inside `DATA`: these are the opaque `VFunc` tag, because this file never calls them.
- A candidate that deletes one of the seeded helper names with `del`: the globals after the run are the seed overlaid with the candidate's bindings.
- `ConfigSpec.Leftover`: an interrupted write is taken to leave a prefix of the text. Encoding and buffering details beyond that are not modelled.
- `ConfigSpec.ReadConfigSpec`, `ConfigSpec.BackupSpec`, `ConfigProperties.CommitThenRead`: a file's content is taken to be exactly the text last written, and a read returns it unchanged. Every `open` in the editor is in text mode, so a read turns "\r\n" and "\r" into "\n", while a POSIX write keeps them. A candidate submitted with CRLF line ends is therefore displayed and later backed up with LF line ends. This newline translation is not modelled.
- `ConfigSpec.ProcessSpec`: assumes the candidate's code, run by `exec`, has no effect outside its own globals dictionary (no file written or removed, no directory change, no module or builtin rebound) and raises only subclasses of `Exception`. The editor does not ensure any of this. A candidate that writes `config.py` itself and binds no `DATA` changes `config.py` though it is reported as invalid. A candidate that calls `os.chdir`, rebinds `open`, or changes the editor's `DEFAULT_CONFIG` through `__main__` changes what every later request reads and writes. A `SystemExit` or other `BaseException` escapes both `except Exception` clauses, so that request produces neither a status nor the display read. So does an exception whose `__str__` raises, because the f-string at line 241 then raises inside the `except` clause. A candidate that rebinds `os.remove` (`import os; os.remove = lambda p: None; DATA = {}`) is saved and reported as successful, yet `temp_config.py` is left in place. Both the "unchanged unless committed" clauses and the clause that `temp_config.py` is gone hold only under this assumption.
- `ConfigProperties.RejectedKeepsConfig`: rests on the same assumption about the candidate's code as `ConfigSpec.ProcessSpec`.
- `Serving.ConfigProvenance`: rests on the same assumption. Without it, a rejected candidate's code can store any text in `config.py`.
- `Serving.ConfigPrefixOfAllowed`: rests on the same assumption as `Serving.ConfigProvenance`.
- `Serving.Handle`: rests on the same assumption about the candidate's code as `ConfigSpec.ProcessSpec`; `ConfigSpec.SubmitSpec`'s clause about an unchanged backup does too.
- `Serving.HandleLands`: rests on the same assumption. A candidate whose code writes `config.py` puts a text there that the request is not allowed to store.
- `ConfigProperties.CommitThenRead`: rests on the same assumption. A candidate `import os; os.remove("config.py"); DATA = {}` passes, but no backup is taken because `config.py` no longer exists.
- `ConfigProperties.SuccessIff`: rests on the same assumption. A candidate that raises `SystemExit` escapes the `except Exception` clause, so the request reports no status at all.
- `WebInterface.Store.Submit`: its clause about an unchanged backup rests on the same assumption about the candidate's code as `ConfigSpec.ProcessSpec`.
- `Serving.TempOnlyBeforeAnyPost`: rests on two assumptions: the assumption about the candidate's code stated for `ConfigSpec.ProcessSpec`, and `os.remove` of the temporary file succeeding. A candidate that rebinds `os.remove`, or a removal that fails, leaves `temp_config.py` after a POST.
- `Serving.HandleWithoutCommit`: rests on the same assumption about the candidate's code as `ConfigSpec.ProcessSpec`.
- `Serving.NoCommitKeepsConfig`: rests on the same assumption. Without it, a candidate's code can change `config.py` or `config.py.bak` though no request commits.
- `WebInterface.Store.Process`, `ConfigSpec.ProcessSpec`, `ConfigSpec.SubmitSpec`, `Serving.Handle`, `WebInterface.Store.Submit`, `Serving.TempOnlyBeforeAnyPost`, `ConfigProperties.SuccessIff`, `ConfigProperties.RejectedKeepsConfig`: these assume that `os.remove` of the temporary file succeeds. A failure there, such as a `PermissionError` in a directory that is not writable but holds a writable `temp_config.py`, raises past the POST branch into the outer 500 handler, which is not modelled. That request leaves `temp_config.py` in place, reports no status, and does no display read.
- `os.path.exists` is taken to mean "the path is in the file map". A directory named `config.py` is not modelled.
- Concurrency: the code takes no lock, and requests are treated as sequential.
- Hardening the code does not perform is not modelled: dotted-decimal OID key checks, checks on each value's kind, an evaluation timeout, a sandbox that would make the assumption about the candidate's code hold, and an atomic write-then-rename commit.
- Re-validating the same bindings gives the same verdict because `CheckData` is a function. No separate lemma states this.
