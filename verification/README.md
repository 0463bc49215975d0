# ADR-Prediction web backend: verified model of its decision logic

This project models the self-contained logic inside the backend's request
handlers (`WebBackend/main.py`), which let users upload sequencing files, run the
HLA*LA typing tool on them and view alignments in a genome browser:

- **Labels** (`labels.dfy`): the sequence-label validator. A label is accepted
  exactly when it has at most 100 characters and none of the 29 forbidden symbols.
- **LabelDedup** (`label_dedup.dfy`): the upload handler's choice of a directory
  name. An empty name and a rejected label are refused. Otherwise `_` and two
  random hex digits are appended until no path of that name exists in the owner's
  upload directory. The names whose path exists are the directory's entries plus
  `.` and `..`, which always exist, so the labels `.` and `..` are always extended.
  The random bytes are the input function `draw`.
- **HlaGate** (`hla_gate.dfy`): the HLA*LA start decision over the job status
  code and the tool-availability flag. Also the health endpoint that sets the
  flag, and the typing-results request, which answers `[]` unless the status is
  `COMPLETED` (2).
- **DownloadTokens** (`download_tokens.dfy`): the token dictionary. It is a class
  holding a `map<string, string>`, filled by the viewer file request, read by
  the download endpoint, and emptied by the deferred removal.
- **Wrappers** (`wrappers.dfy`): the `Result` type for error answers.

Where the code's names promise more than its statements do (`SINGLE_USE_TOKENS`, the tool flag), the model follows the statements:

- A download does not consume its token. A token stays valid until its removal
  runs, so two downloads in a row give the same answer (`DownloadTwice`).
- The status codes are `IDLE = 0`, `WORKING = 1` and `COMPLETED = 2`. There is no
  "failed" status. Every code other than 1 and 2 reaches the availability test.
- Once the status lets a request through, the handler only reads the availability
  flag and writes nothing itself. Taking the tool and setting the status to
  working happen in code this model does not include.

The dedup loop never re-checks the length. A valid label of 98 to 100 characters
that needs at least one round comes out longer than the validator allows
(`AttemptMayExceedLimit`). Its characters stay valid (`AttemptKeepsAllowedChars`).

## Model

| member | source | states |
|---|---|---|
| `Labels.ContainsForbidden` | WebBackend/main.py:40-45 | the pattern search finds a match exactly when some position holds one of the listed symbols |
| `Labels.CheckValidFilename` | WebBackend/main.py:38-48 | a name is accepted exactly when its length is at most 100 and no character is a listed symbol |
| `Labels.PlainLabelAccepted` | WebBackend/main.py:38-48 | a name of letters, digits, `.` and `_` of length at most 100, including exactly 100, is always accepted |
| `Labels.OverlongLabelRejected` | WebBackend/main.py:45-46 | a name longer than 100 characters is rejected whatever its content |
| `Labels.PlainCharAllowed` | WebBackend/main.py:40-41 | no letter, digit, `.` or `_` is in the forbidden list |
| `LabelDedup.Suffix` | WebBackend/main.py:210 | each round appends three characters, the first of them `_` |
| `LabelDedup.SuffixDecodes` | WebBackend/main.py:210 | the other two characters are lower-case hex digits that spell the random byte, high nibble first |
| `LabelDedup.SuffixAllowed` | WebBackend/main.py:210 | no character of a suffix is a forbidden symbol |
| `LabelDedup.AttemptExtends` | WebBackend/main.py:209-210 | after k rounds the candidate is 3k characters longer and starts with the original label |
| `LabelDedup.AttemptKeepsAllowedChars` | WebBackend/main.py:209-210 | a label free of forbidden symbols stays free of them through every round |
| `LabelDedup.AttemptMayExceedLimit` | WebBackend/main.py:203-212 | after one or more rounds a label of 98 or more characters no longer passes the validator; the length is not re-checked |
| `LabelDedup.AttemptValidExactly` | WebBackend/main.py:203-212 | a label without forbidden symbols passes the validator after k rounds exactly when its length plus 3k is at most 100 |
| `LabelDedup.Deduplicate` | WebBackend/main.py:209-212 | the loop stops at the first candidate not among the existing names; every earlier candidate was taken; the result extends the label and is the label itself when that was free |
| `LabelDedup.ExistingPaths` | WebBackend/main.py:197-209 | the names whose path exists include every entry of the upload directory and always `.` and `..` |
| `LabelDedup.UploadLabel` | WebBackend/main.py:179-212 | an empty name is refused, a rejected label is refused; otherwise the chosen name is the label after the first number of rounds that yields a name with no existing path (every earlier candidate being taken), so it is no entry and neither `.` nor `..`, extends the label, has no forbidden symbol, is the label when that was free, and outgrows the validator when a label of 98 or more characters was taken |
| `HlaGate.StatusDecidesFirst` | WebBackend/main.py:241-246 | status `COMPLETED` answers "already processed" and `WORKING` "being processed", whatever the availability flag |
| `HlaGate.BusyExactly` | WebBackend/main.py:241-249 | "busy" is answered exactly when the status is neither `COMPLETED` nor `WORKING` and the tool is unavailable |
| `HlaGate.StartedExactly` | WebBackend/main.py:241-252 | a run is started exactly when the status is neither `COMPLETED` nor `WORKING` and the tool is available |
| `HlaGate.IdleLikeStatuses` | WebBackend/main.py:243-252 | any status code other than 1 and 2, not only `IDLE`, is decided by the flag alone |
| `HlaGate.ToolFlag.RequestRun` | WebBackend/main.py:241-252 | the start request answers by the status-then-flag decision and writes neither the flag nor anything else |
| `HlaGate.ToolFlag.SetAvailable` | WebBackend/main.py:374-376 | the health endpoint leaves the tool available whatever it was before, so a repeat changes nothing |
| `HlaGate.AdrListAppend` | WebBackend/main.py:314-316 | the result list of two allele lists joined is the two result lists joined |
| `HlaGate.AdrListSingle` | WebBackend/main.py:315-316 | one allele contributes exactly its own ADR entries |
| `HlaGate.TypingResults` | WebBackend/main.py:310-318 | the results are `[]` unless the status is `COMPLETED`, and then the ADR entries of every allele, in allele order |
| `DownloadTokens.IssueAddsExactlyTwo` | WebBackend/main.py:280-283 | two distinct fresh tokens add exactly two entries, mapped to the `.bam` and `.bam.bai` paths; every other entry is unchanged |
| `DownloadTokens.IndexPathExtendsBamPath` | WebBackend/main.py:282-283 | the index file's path is the alignment file's path followed by `.bai` |
| `DownloadTokens.ViewerDirectoryPerLabel` | WebBackend/main.py:269 | two different labels of one user give different viewer-directory path strings |
| `DownloadTokens.BamPathPerLabel` | WebBackend/main.py:269-282 | two different labels of one user give different `.bam` path strings |
| `DownloadTokens.IssueThenLookup` | WebBackend/main.py:349-353 | a freshly issued token is answered with its path |
| `DownloadTokens.RemoveThenLookup` | WebBackend/main.py:30-35 | after removal a token answers "Invalid token" and every other token answers as before |
| `DownloadTokens.RemoveIdempotent` | WebBackend/main.py:30-35 | removing an absent token changes nothing; removing twice equals removing once |
| `DownloadTokens.IssueThenExpire` | WebBackend/main.py:280-287 | once both deferred removals of an issue have run, the table is what it was before the issue |
| `DownloadTokens.TokenTable.constructor` | WebBackend/main.py:25 | the table starts empty |
| `DownloadTokens.TokenTable.RequestIgvFiles` | WebBackend/main.py:269-283 | a missing viewer directory answers "no file found", a missing file answers "not ready", neither touches the table; otherwise both tokens are recorded and returned |
| `DownloadTokens.TokenTable.Download` | WebBackend/main.py:346-353 | a present token answers its stored path, an absent one "Invalid token"; the table is not changed |
| `DownloadTokens.TokenTable.DownloadTwice` | WebBackend/main.py:349-353 | two downloads with one token answer the same: lookup consumes nothing |
| `DownloadTokens.TokenTable.Remove` | WebBackend/main.py:30-35 | the table afterwards is the old one without the token; a missing token is no error |

## Left out

- HTTP routing, JSON framing, status codes of the responses, CORS and file sending. These are transport only.
- All database access: sign-up, login, sessions, the sequence list, sequence deletion, and the user lookup behind every handler. The user id is an input, as its decimal text.
- File-system effects. The upload directory's entries are a set of names (to which `.` and `..` are added for the existence test), and the viewer-file existence tests are boolean inputs. Directory creation, file saving and tree removal are not modelled.
- The background threads, the ten-minute `sleep` before a token removal, and the race between checking the flag and starting the run. Removal is an explicit `Remove` call.
- Random token and suffix generation. Tokens are parameters, and the suffix bytes are the function `draw`.
- The bodies of `get_status_code`, `set_status_code`, `is_available`, `set_available`, `run_hla_la`, `transform_file_for_igv`, `format_hla_la`, `get_adr` and `get_range_of_bam_file` live in `WebBackend/file_handler.py`, which is not part of this model. The status code and the parsed alleles arrive as inputs, `get_adr` as the function `adr`, and the viewer request returns the two tokens without the byte range. The model assumes that `is_available()` only reads the availability flag and that `set_available()` sets it to available; `ToolFlag.RequestRun` and `ToolFlag.SetAvailable` rest on that assumption.
- The availability flag's initial value comes from code outside this model, so the constructor takes it as a parameter.
