# Artifact-to-deployment pipeline of the Swiftie app generator

This project models the server core of the app generator: the pipeline that turns an uploaded
artifact spec into a GitHub repository served by GitHub Pages. It has three parts.

- **The artifact parser** is `parseArtifact` (module `Artifact`, parser.dfy).
  - It is a single pass over the lines of the spec text. A line starting with `├── ` or `└── ` opens a new entry. A line starting with four spaces adds content to the open entry. Every other line is ignored.
  - The method `ParseArtifact` keeps the source's loop and its three variables.
  - It is proved equal to a left fold `Parse`, and `Parse` is proved equal to a block-wise reference definition.
  - Proved about the parser: the quirks of the source (the flush test on untrimmed content, the path computed by two first-occurrence replacements), the well-formedness of every record, and a render/parse round trip.
- **The calls to the repository host** are `getGitHubUser`, `createRepository`, `uploadFiles` and `enablePages` (module `GitHub`, github.dfy).
  - An `Environment` object stands for the collaborators.
  - It records every status event passed to `onStatus` and every request issued through `fetch`.
  - It answers requests through a `host` function given as input. The base64 encoding is another input function, `encode`.
  - Each call is a method proved against a function that gives its events, requests and result.
  - Lemmas state what each call promises.
- **The orchestrator** is `generateApp` (module `Generator`, generator.dfy).
  - It announces `init`, looks up the user, parses the spec and then runs the calls in order.
  - The first thrown error ends the run, and it is turned into a failure result. The method never throws.
  - Lemmas give the full success trace, success exactly when every call succeeds, the failure result with the thrown error's message, and, for a failure at each call, what is issued and emitted after it.
- **The input validators** are `validateRepoName` and `validateArtifactFile` (module `Validation`, validation.dfy). They are pure functions with "no message iff …" contracts and boundary lemmas.

Shared vocabulary is in types.dfy:
- the step enumeration and status events of src/lib/types/index.ts;
- the workflow descriptor and the 5 MiB file limit of src/lib/config/constants.ts.

JavaScript string operations the parser relies on are in jsstring.dfy, each with lemmas about it:
- `split("\n")`, `startsWith`, first-occurrence `replace` and `trim`;
- for `trim`, the ECMAScript white-space and line-terminator sets.

Every error thrown by the calls is a plain `Error` without a `step` field, so `e.step || 'init'` always yields `init`: a failure at any step is reported at step `init` (see `Generator.FailureReportsInit`).

## Model

| member | source | states |
|---|---|---|
| Artifact.ParseArtifact | src/lib/server/generator.ts:58-98 | the loop's result is `Parse(content)`, the left fold of the per-line step over `content.split("\n")`; every returned record has a non-empty path and content equal to its own trim; the parse is total (the catch is unreachable) |
| Artifact.ParseByBlocks | src/lib/server/generator.ts:61-93 | the scanner emits, in marker-line order, one record per marker line whose path and untrimmed body are non-empty, with the body trimmed (an independent block-wise definition) |
| Artifact.RunByBlocks | src/lib/server/generator.ts:66-91 | from any scanner state, scanning the remaining lines and flushing yields what the block-wise definition predicts |
| Artifact.MarkerKeepsPending | src/lib/server/generator.ts:67-76 | a marker line pushes the open entry (if kept) and opens a fresh one without changing what will be emitted |
| Artifact.ContentKeepsPending | src/lib/server/generator.ts:77-81 | a four-space line appends `line.substring(4) + "\n"` to the open entry without changing what will be emitted |
| Artifact.ParseWellFormed | src/lib/server/generator.ts:68-73 | every record emitted has a non-empty path and trimmed content |
| Artifact.EmitWellFormed | src/lib/server/generator.ts:86-91 | every record emitted from blocks has a non-empty path and content equal to its own trim |
| Artifact.BlocksCount | src/lib/server/generator.ts:67 | there is exactly one block per marker line |
| Artifact.EmitCount | src/lib/server/generator.ts:68 | a block yields at most one record |
| Artifact.RecordCountBound | src/lib/server/generator.ts:61-93 | the number of records is at most the number of marker lines |
| Artifact.BlocksSkipPrefix | src/lib/server/generator.ts:75 | lines before the first marker line contribute no block |
| Artifact.OrphanContentDropped | src/lib/server/generator.ts:67-81 | content before the first marker line is never emitted: a marker-free prefix of lines leaves the parse unchanged |
| Artifact.OrphanThenEntry | src/lib/server/generator.ts:67-81 | an indented line, then `├── <path>`, then `    <body>` and a line feed parse to exactly the one record `(path, body)` |
| Artifact.ArtifactExample | src/lib/server/generator.ts:67-76 | the spec `    x=1`, `├── a.txt`, `    body` and a final line feed parses to exactly the record `a.txt` with content `body` |
| Artifact.ParseEmpty | src/lib/server/generator.ts:61-93 | parsing `""` yields no record |
| Artifact.EmptyEntryDropped | src/lib/server/generator.ts:86 | a marker line with no content line yields no record |
| Artifact.SingleEntry | src/lib/server/generator.ts:66-91 | a marker line, one content line and an empty line yield the record of that block |
| Artifact.SplitEntry | src/lib/server/generator.ts:61 | such an entry's text splits into the marker line, the content line and a final empty segment |
| Artifact.BlankBodyKept | src/lib/server/generator.ts:68-73 | an entry whose content lines are white space is still pushed, with content `""`, because the push is decided before trimming |
| Artifact.BlankTrimsAway | src/lib/server/generator.ts:71 | white space followed by a line feed trims to `""` |
| Artifact.PathOfMarkerLine | src/lib/server/generator.ts:74 | for a path containing neither marker, the computed path is the line without its four-character marker |
| Artifact.PathOfRemovesInnerMarker | src/lib/server/generator.ts:74 | the replacements are first-occurrence, not prefix strips: on `└── a├── b` (with no `├` in `a`) the inner `├── ` is removed and the path is `ab` |
| Artifact.ClassifyMarkerLine | src/lib/server/generator.ts:67-74 | a marker line followed by a plain path opens an entry with that path |
| Artifact.ClassifyIndentedLine | src/lib/server/generator.ts:77-80 | a line starting with four spaces contributes what follows them |
| Artifact.ClassifyEmptyLine | src/lib/server/generator.ts:66-83 | an empty line is neither a marker line nor a content line, so it changes no state |
| Artifact.ClassifyAll | src/lib/server/generator.ts:66 | each line is classified on its own, in order |
| Artifact.RoundTrip | src/lib/server/generator.ts:66-91 | rendering records as marker lines plus four-space content lines and parsing gives back the same records in order, when paths are non-empty and free of markers and line feeds, and contents are non-empty and trimmed |
| Artifact.BlocksOfRender | src/lib/server/generator.ts:66-91 | the blocks of a rendered list emit exactly the rendered records |
| Artifact.RenderedBlock | src/lib/server/generator.ts:68-73 | a rendered record is one kept block whose trimmed body is the record's content |
| Artifact.ClassifyRender | src/lib/server/generator.ts:67-81 | the lines of a rendered list classify as one marker line per record followed by its content lines |
| Artifact.ContentsBlocks | src/lib/server/generator.ts:77-81 | content lines up to the next marker form the body `line1 + "\n" + … + lineN + "\n"` and open no block |
| JsString.Split | src/lib/server/generator.ts:61 | `split("\n")` gives one more segment than there are line feeds, none containing a line feed |
| JsString.JoinSplit | src/lib/server/generator.ts:61 | joining the segments with line feeds gives back the text |
| JsString.SplitJoin | src/lib/server/generator.ts:61 | splitting line-feed-free segments joined with line feeds gives back the segments |
| JsString.IndexOfFirst | src/lib/server/generator.ts:74 | `indexOf` is -1 iff the pattern does not occur, otherwise the first occurrence |
| JsString.RemoveFirstSpec | src/lib/server/generator.ts:74 | string `replace` leaves a text without the pattern unchanged, and otherwise cuts out exactly the first occurrence |
| JsString.TrimShape | src/lib/server/generator.ts:71 | `trim` never lengthens, its result starts and ends with non-white-space, and it is empty iff the text is all white space |
| JsString.TrimRemovesOnlyEnds | src/lib/server/generator.ts:71 | `trim` returns the slice between an all-white-space prefix and an all-white-space suffix |
| JsString.TrimFixedPoint | src/lib/server/generator.ts:89 | `trim` leaves a text unchanged iff it has no white space at either end |
| JsString.TrimIdempotent | src/lib/server/generator.ts:89 | trimming twice is trimming once |
| JsString.TrimDropsFinalNewline | src/lib/server/generator.ts:80-89 | a trimmed non-empty text plus the accumulated final line feed trims back to itself |
| GitHub.GetGitHubUser | src/lib/server/github.ts:5-23 | issues exactly the user request, emits no event, and returns the user or the thrown error |
| GitHub.UserEffectSpec | src/lib/server/github.ts:14-18 | the lookup succeeds, with the response's login, iff the response is ok; a non-ok response throws "Failed to fetch GitHub user" |
| GitHub.CreateRepository | src/lib/server/github.ts:25-59 | appends the `create-repo` event and issues the one creation request; on failure appends the failure event and rethrows |
| GitHub.CreateRepositorySpec | src/lib/server/github.ts:31-57 | the request is `name, private: false, auto_init: true`; success iff the response is ok; any failure adds exactly one `create-repo` "Failed to create repository" event |
| GitHub.UploadFiles | src/lib/server/github.ts:61-101 | emits one `upload-files` event, starts one task per file in list order, and on any failure appends one failure event and rethrows the first failure |
| GitHub.TasksFail | src/lib/server/github.ts:71-95 | the fan-out rejects iff some file's task fails |
| GitHub.TasksRequests | src/lib/server/github.ts:72-87 | when every content encodes, there is exactly one PUT per file, in order, to `repos/<owner>/<repo>/contents/<path>` with message `Add <path>` |
| GitHub.UploadFilesSpec | src/lib/server/github.ts:69-99 | one start event whatever the file count; the upload fails iff some file fails, and then exactly one "Failed to upload files" event follows |
| GitHub.TasksOnlyPut | src/lib/server/github.ts:73-76 | the upload tasks issue nothing but PUTs of file contents |
| GitHub.UploadNothing | src/lib/server/github.ts:69-71 | an empty file list succeeds after the start event alone, with no request |
| GitHub.EnablePages | src/lib/server/github.ts:103-143 | appends the events `enable-pages`, the workflow upload's events and then `deploy`, and issues the Pages request followed by the workflow upload's requests; a failure appends the `enable-pages` failure event instead of `deploy` and rethrows |
| GitHub.EnablePagesSpec | src/lib/server/github.ts:110-141 | a non-ok Pages reply is tolerated; success iff the Pages request is answered and the workflow upload succeeds, with trace `enable-pages, upload-files, deploy`; a failed workflow upload gives `enable-pages, upload-files, upload-files error, enable-pages error` |
| GitHub.WorkflowUploadSpec | src/lib/server/github.ts:129-134 | the workflow upload fails iff its single task fails, and its requests are that task's |
| GitHub.EnablePagesRequests | src/lib/server/github.ts:113-134 | once the Pages request is answered, the requests are that request and, when the workflow encodes, exactly one PUT of `.github/workflows/deploy.yml` with message `Add .github/workflows/deploy.yml` |
| GitHub.ErrorsCarryNoStep | src/lib/server/github.ts:5-143 | no error thrown by the four calls carries a `step` |
| Generator.GenerateApp | src/lib/server/generator.ts:6-56 | the events, requests and result of a run are those of `GenerateAppRun`: `init`, the user lookup, then the pipeline over the parsed files |
| Generator.RunPipeline | src/lib/server/generator.ts:27-44 | creating the repository, uploading and enabling Pages in order, where a failure skips all later calls |
| Generator.StartsWithInit | src/lib/server/generator.ts:18 | the first event is `init` |
| Generator.SuccessTrace | src/lib/server/generator.ts:18-44 | on success the URL is `https://<login>.github.io/<name>`, the status is `deploy`, and the events are exactly `init, create-repo, upload-files, enable-pages, upload-files, deploy` |
| Generator.PipelineSuccess | src/lib/server/generator.ts:28-44 | after the user lookup, a successful pipeline emits `create-repo, upload-files, enable-pages, upload-files, deploy` and returns the Pages URL |
| Generator.FailureReportsInit | src/lib/server/generator.ts:45-55 | every failure returns "Failed to generate app. Please try again." with status step `init` and, as `status.error`, the message of the error thrown by the user lookup or by the failing later call |
| Generator.SuccessIffCallsSucceed | src/lib/server/generator.ts:17-44 | a run succeeds iff the user lookup, the creation, every parsed record's upload, the Pages request (answered, ok or not) and the workflow upload all succeed, and then it returns the Pages URL with status `deploy` |
| Generator.PipelineFailure | src/lib/server/generator.ts:45-55 | a failure after the user lookup reports the fixed message at step `init`, with `status.error` the message of the error thrown by one of the calls that failed |
| Generator.UserFailureStops | src/lib/server/generator.ts:21 | a failed user lookup issues no other request and emits only `init` |
| Generator.CreateFailureStops | src/lib/server/generator.ts:28-31 | a failed repository creation issues no upload or Pages request; the events end with the creation failure and the result carries its message at step `init` |
| Generator.UploadFailureStops | src/lib/server/generator.ts:31-34 | a failed upload issues no Pages request; the events are exactly `init, create-repo, upload-files, upload-files error`, and the result carries the upload's error message at step `init` |
| Generator.PipelineUploadStops | src/lib/server/generator.ts:31-34 | the same past the user lookup |
| Generator.PagesFailureStops | src/lib/server/generator.ts:34-44 | a failed Pages call (rejected Pages request or failed workflow upload) never emits `deploy`; the events end with the `enable-pages` failure, and the result carries that call's error message at step `init` |
| Generator.PipelinePagesStops | src/lib/server/generator.ts:34-44 | the same past the user lookup |
| Generator.UploadFailsIff | src/lib/server/generator.ts:31 | the upload of the parsed records fails iff one record's upload task fails |
| Generator.UploadsFollowParse | src/lib/server/generator.ts:21-31 | after the user lookup and the creation, the next requests are one PUT per parsed record, in order, to the user's repository |
| Generator.PipelineUploads | src/lib/server/generator.ts:28-31 | once the repository is created, the uploads are one PUT per file, in order, addressed with the user's login |
| Generator.CreatedThenUploads | src/lib/server/generator.ts:28-31 | after a successful creation the next requests are exactly the upload tasks' requests |
| Validation.ValidateRepoName | src/lib/utils/validation.ts:1-13 | no message iff the name is non-empty, matches `[a-zA-Z0-9_.-]+` and has at most 100 characters; otherwise the first failing check's message |
| Validation.CharsetBeforeLength | src/lib/utils/validation.ts:6-11 | a name with an illegal character gets the character-set message, whatever its length |
| Validation.LengthLimit | src/lib/utils/validation.ts:2-11 | 100 valid characters are accepted; 101 get "Repository name cannot exceed 100 characters" |
| Validation.ValidateArtifactFile | src/lib/utils/validation.ts:15-20 | no message iff the file is present, of type `text/plain` and at most 5·1024·1024 bytes; otherwise the first failing check's message, in that order |
| Validation.SizeLimit | src/lib/utils/validation.ts:18 | a text file of exactly 5,242,880 bytes is accepted; one byte more gets "File size cannot exceed 5MB" |

## Left out

- HTTP transport, headers, the bearer token and JSON bodies are not modelled: a request is a datatype holding the fields that matter, and `fetch` resolves through the `host` input function.
- `response.json()` is not modelled: only the `login` of the user response is kept.
- Base64 encoding through `Buffer` is the `encode` input function; it may throw, and its message is then the task's error.
- The deployment workflow is an object literal passed as file content. What encoding it does (Node's `Buffer.from` throws on such an object) is left to `encode`, so the model cannot tell whether the workflow upload, and with it every run, fails.
- `Promise.all` concurrency is not modelled. All tasks are started in list order. An encoding failure rejects first. Otherwise the first failing request in list order is taken as the rejection, though in the source the earliest response to arrive wins.
- Reading the upload (`specs.text()`) is not modelled: `GenerateApp` takes the spec text as a string.
- Logging is not modelled: every `logger` call is a no-op.
- OAuth, the token exchange, the route handlers and cookies are not modelled; they are I/O plumbing outside the pipeline.
- The `isReadingContent` flag of `parseArtifact` is left out: it is set before it is tested and has no effect on the output.
- The catch block of `parseArtifact` is left out: nothing in the loop can throw, so `ParseArtifact` is total.
- Strings are sequences of characters, not UTF-16 code units, so a path or content holding characters outside the Basic Multilingual Plane has different lengths than in JavaScript. `substring(4)` and the four-character markers are unaffected.
- Artifact.PathOfRemovesInnerMarker: states the first-occurrence behaviour on `└── a├── b` only; it does not compare the computed path with a prefix strip in general.
- GitHub.CreateRepository: the environment records status events and requests as two separate sequences, so the order between an event and a request (`create-repo` announced before the request is sent) is not stated; each sequence's own order is.
- GitHub.EnablePages: likewise, that `enable-pages` is announced before the Pages request and `deploy` after the workflow upload's requests is not stated; the order of the events among themselves and of the requests among themselves is.
- `onStatus` is assumed not to throw. In the source a throwing callback inside the `try` would end the run in the catch block.
- `encode` may fail on text content, though `Buffer.from` on a string never throws; the lemmas that need every upload to encode (`Generator.PipelineUploads`, `Generator.UploadsFollowParse`) take it as a precondition.
- `e.step || 'init'` is modelled on an optional step; the JavaScript falsiness of other values is not modelled, since every error here is a plain `Error`.
