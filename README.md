# stopover, modelled in Dafny

stopover is a small command that pins the versions of the input resources a
Concourse build used. Given a saved fly target, `-job <pipeline>/<job>` and
`-build <number>`, it looks up the build, fetches the build's inputs from the
Concourse API and prints one entry `resource_version_<name>` per input, holding
that input's version map. This project models, and proves properties of, three
pieces of its code:

- **Stopover** (`stopover.dfy`, main.go). The flag checks of `main` are a function.
  `GetResourceVersions` is a method with the original's loop. The two client
  calls are function-typed parameters returning the `(value, found, err)`
  triple. The team's `JobBuild` is one such function, so the model covers both a
  team passed as a value and a team looked up by name through `client.Team`,
  as the test does.
- **ExecuteHelpers** (`uploads.dfy`, fly's uploads.go). It holds the NUL tokenizer
  `scanNull` and the scanning loop of `gitLS`. The `bufio.Scanner` it uses is a
  class, `Scanner`, whose `Scan` reads the git process's stdout chunk by chunk
  into a buffer and splits tokens off it with `scanNull`. A `git ls-files` run is a value: its three
  process errors and its stdout chunks. The module also models `getGitFiles`
  and the choice of file list in `Upload`.
- **Concourse** (`check_resource_type.dfy`). It models how `CheckResourceType`
  classifies the transport's answer.

Support modules: **Wrappers** (`Option`, a message-only `Error`), **Strings**
(`bytes.IndexByte` and `strings.SplitN` for a one-character separator) and
**Strconv** (`strconv.Itoa` and a decimal reading that inverts it).

`GetResourceVersions` returns one of two fixed error messages and never wraps
the underlying error of either lookup. The second message ends with the build ID
in decimal (main.go:49, 56).

## Model

| member | source | states |
|---|---|---|
| Strings.IndexOf | vendor/github.com/concourse/fly/commands/internal/executehelpers/uploads.go:108 | None exactly when the element is absent. Otherwise the index holds the element and no earlier position does. |
| Strings.SplitN | main.go:32 | n = 0 gives no parts. n >= 1 gives 1 to n parts that re-join with the separator to the input. No part but the last contains the separator, and the last contains none when fewer than n parts come back. |
| Strconv.Itoa | main.go:56 | Yields a non-empty text that starts with '-' exactly for negative numbers, with no leading zero: a text starting with '0' is "0", and after a '-' comes a non-zero digit. |
| Strconv.ItoaRoundTrip | main.go:56 | Reading `Itoa(n)` back as a decimal number gives n. |
| Strconv.ItoaInjective | main.go:56 | Equal texts come from equal numbers. |
| Stopover.GetResourceVersions | main.go:45-66 | Returns a map exactly when it returns no error. A failed or not-found `JobBuild` gives "could not get build for job", and `BuildResources` plays no part. Otherwise `BuildResources` is consulted only at the returned build's ID. Its failure gives "could not get resources for build with global ID " followed by the ID in decimal. Success gives the projection of the build's inputs, and the outputs play no part. |
| Stopover.Project | main.go:59-63 | The reference definition of the loop: the inputs inserted one by one, in order, each version under `"resource_version_" + name`, so a later input of the same name overwrites an earlier one. `GetResourceVersions` is proved equal to it, and `ProjectKeys`, `ProjectLastWins`, `ProjectBounded` and `ProjectDistinct` characterise it. |
| Stopover.KeyInjective | main.go:61 | Different resource names give different keys. |
| Stopover.ProjectKeys | main.go:59-63 | The result's keys are exactly `"resource_version_" + name` over the inputs' names. |
| Stopover.ProjectLastWins | main.go:60-63 | An input with no later input of the same name has its version under its key (last write wins). |
| Stopover.ProjectBounded | main.go:59-63 | Every key starts with `resource_version_`. There are at most as many keys as inputs. |
| Stopover.ProjectDistinct | main.go:59-63 | With pairwise distinct names there is exactly one key per input. |
| Stopover.ProjectTestInputs | get_resource_versions_test.go:55-89 | The three inputs of the resolver test project to the expected three-entry map. |
| Stopover.ResourcesMessageNamesBuild | main.go:55-57 | Two resources-lookup failures have the same message only for the same build ID. |
| Stopover.CheckFlags | main.go:26-37 | An empty `-target` exits with usage status 1 before anything else. Otherwise a target-loading error exits with that error, and a `TargetExit` happens in no other case. For a non-empty target that loads, usage status 1 happens exactly when `-job` has no '/', and `Resolve` exactly when it has one. On success the pipeline has no '/', pipeline + "/" + job == the flag, and target and build pass through. |
| ExecuteHelpers.ScanNull | vendor/github.com/concourse/fly/commands/internal/executehelpers/uploads.go:101-119 | 0 <= advance <= len(data), and advance is 0 exactly when there is no token. A token is a NUL-free prefix of data no longer than advance. With a NUL present, the split consumes through the first NUL and returns the bytes before it. With no NUL at EOF, it returns all of non-empty data. Empty data at EOF, or no NUL before EOF, gives (0, nil). |
| ExecuteHelpers.ScanNullPeelsField | vendor/github.com/concourse/fly/commands/internal/executehelpers/uploads.go:101-119 | On non-empty data at EOF, one call consumes input and returns the first NUL-separated field. The rest of the fields are the fields of the unconsumed data. |
| ExecuteHelpers.Fields | vendor/github.com/concourse/fly/commands/internal/executehelpers/uploads.go:81-91 | The reference definition of what the scan of `gitLS` yields: the bytes up to each NUL, in order, with a non-empty unterminated tail as the last field (the EOF case of `scanNull`, uploads.go:113-115). `FieldsJoin` and `FieldsUnique` characterise it, and `GitLS` is proved to return it. |
| ExecuteHelpers.FieldsJoin | vendor/github.com/concourse/fly/commands/internal/executehelpers/uploads.go:81-91 | Fields are NUL-free. Each followed by NUL, they give back the stream, with a final NUL added if the stream lacked one. |
| ExecuteHelpers.JoinInjective | vendor/github.com/concourse/fly/commands/internal/executehelpers/uploads.go:81-91 | A list of NUL-free names is determined by its NUL-terminated concatenation. |
| ExecuteHelpers.FieldsUnique | vendor/github.com/concourse/fly/commands/internal/executehelpers/uploads.go:81-91 | The fields are the only NUL-free list whose terminated concatenation is the terminated stream. |
| ExecuteHelpers.Scanner.Scan | vendor/github.com/concourse/fly/commands/internal/executehelpers/uploads.go:81-91 | Keeps the scanner invariant: the tokens so far are NUL-free, and the tokens joined with NULs, followed by the unscanned rest, terminated, give the whole stream, terminated. A true result appends the new token to the tokens and shrinks the unscanned rest. A false result means the stream is used up, and no token is added. |
| ExecuteHelpers.GitLS | vendor/github.com/concourse/fly/commands/internal/executehelpers/uploads.go:70-99 | The error is the first of the pipe, start and wait errors. The list is nil exactly when there is an error. Otherwise it is the NUL-separated fields of stdout, however stdout is cut into reads. |
| ExecuteHelpers.GetGitFiles | vendor/github.com/concourse/fly/commands/internal/executehelpers/uploads.go:56-68 | The error is the tracked run's error if any, else the untracked run's. On success the list is the tracked names followed by the untracked names. On failure it is nil. |
| ExecuteHelpers.UploadFiles | vendor/github.com/concourse/fly/commands/internal/executehelpers/uploads.go:20-30 | Gives ["."] when ignored files are included or when either git listing fails. Otherwise it gives the tracked then untracked names. |
| Concourse.CheckResourceType | vendor/github.com/concourse/concourse/go-concourse/concourse/check_resource_type.go:21-51 | A marshal failure gives (zero build, false, that error), and the send outcome plays no part. Otherwise the build is the one Send decoded. found holds exactly when the send succeeded. No error comes back exactly after success or ResourceNotFoundError. Status 500 becomes GenericError with the body. Any other error passes through unchanged. |

## Left out

- `GenerateYaml` (main.go:68-70) is a call into the YAML library. Its round trip is a property of that library.
- `flyrc.LoadTarget`, `t.Client()` and `t.Team()` (main.go:29-38) are configuration-file I/O. The model's `CheckFlags` receives only the loading error.
- `flag.Parse`, the usage text and the process exits (main.go:24, 72-85) are not modelled. Only the outcome is: usage exit with status 1, or an error exit.
- The remaining wiring of `main` (main.go:38-42) is not modelled: calling the resolver with the split job, printing the YAML.
- Strings.SplitN: negative n (split at every separator) is not modelled. The type of n excludes it; the code only uses n = 2.
- Scanner.Scan: does not model `bufio.Scanner`'s 64 KiB token limit (`ErrTooLong` ends the scan early). It does not model the `io.ErrNoProgress` stop after 100 empty reads in a row either: `Scan` accepts any number of empty chunks. It also treats a read error as end of input. The scanner does the same, and `gitLS` never reads `outScan.Err()`.
- ExecuteHelpers.ScanNull: the error result of `scanNull` is always nil and is not part of the model.
- The `git ls-files -z` subprocess, its arguments and its working directory (uploads.go:73-87, 93-96) are not modelled. Each run is an input value.
- The rest of `Upload` (uploads.go:32-53) is not modelled: the pipe, the goroutine, `tgzfs.Compress`, the HTTP PUT and the stderr reports. They are concurrency and I/O.
- Building the request in `CheckResourceType` is not modelled (route parameters, query, JSON body, header; check_resource_type.go:15-36). Neither is the network `Send`. The marshal error and the send outcome are inputs.
- resourceversions_test.go, exec_engine_build_delegate_test.go, stopover_test.go and new_client_test.go test code that is not part of this model.
- Go's `int` is 64 bits wide. Build IDs are unbounded integers here, because the code does no arithmetic on them.
