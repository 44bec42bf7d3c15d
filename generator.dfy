/** `generateApp` (src/lib/server/generator.ts): the deployment pipeline.
    It announces `init`, looks up the user, parses the artifact spec,
    creates the repository, uploads the parsed files, enables Pages, and
    returns the Pages URL; the first error thrown on the way stops the
    pipeline and is turned into a failure result, so the call never throws. */
module Generator {
  import opened Types
  import opened Artifact
  import opened GitHub

  /** The result record: success with the Pages URL, or failure with the
      user-facing message; both carry a final status. */
  datatype GeneratorResult =
    | Generated(url: string, status: DeploymentStatus)
    | NotGenerated(error: string, status: DeploymentStatus)

  const GenerationFailure: string := "Failed to generate app. Please try again."

  /** The address the app is served from. */
  function PagesSite(login: string, name: string): string {
    "https://" + login + ".github.io/" + name
  }

  /** The failure result for a caught error: its status carries the error's
      `step`, or `init` when it has none, and the error's message. */
  function FailureResult(e: Error): GeneratorResult {
    NotGenerated(GenerationFailure, DeploymentStatus(if e.step.Some? then e.step.value else Init, Some(e.message)))
  }

  /** Every parsed record uploaded as text. */
  function AsUploads(files: seq<FileRecord>): (r: seq<Upload>)
    ensures |r| == |files|
    ensures forall k :: 0 <= k < |files| ==> r[k] == Upload(files[k].path, Text(files[k].content))
  {
    seq(|files|, k requires 0 <= k < |files| => Upload(files[k].path, Text(files[k].content)))
  }

  /** What a whole run does: the events, the requests and the result. */
  datatype Run = Run(statuses: seq<DeploymentStatus>, requests: seq<Request>, result: GeneratorResult)

  /** `run` preceded by the events `statuses` and the requests `requests`. */
  function After(statuses: seq<DeploymentStatus>, requests: seq<Request>, run: Run): Run {
    Run(statuses + run.statuses, requests + run.requests, run.result)
  }

  /** The calls still to make from `step` on. */
  function CallsAfter(step: Step): nat {
    match step
    case Init => 4
    case CreateRepo => 3
    case UploadFiles => 2
    case EnablePages => 1
    case Deploy => 0
  }

  /** The step whose call follows the call of `step`. */
  function NextStep(step: Step): Step {
    match step
    case Init => CreateRepo
    case CreateRepo => Step.UploadFiles
    case UploadFiles => Step.EnablePages
    case _ => Deploy
  }

  /** The call made at `step` once the user is known: creating the
      repository, uploading the parsed files, or enabling Pages. */
  function StepEffect(host: Request -> Outcome, encode: UploadContent -> Result<string, string>,
                      login: string, name: string, files: seq<FileRecord>, step: Step): Effect<()>
    requires step != Init && step != Deploy
  {
    match step
    case CreateRepo => CreateRepositoryEffect(host, name)
    case UploadFiles => UploadFilesEffect(host, encode, login, name, AsUploads(files))
    case _ => EnablePagesEffect(host, encode, login, name)
  }

  /** The pipeline from `step` on: that step's call and, once it succeeds,
      the pipeline from the next step; past the last call, the Pages URL. */
  function RunFrom(host: Request -> Outcome, encode: UploadContent -> Result<string, string>,
                   login: string, name: string, files: seq<FileRecord>, step: Step): Run
    requires step != Init
    decreases CallsAfter(step)
  {
    if step == Deploy then Run([], [], Generated(PagesSite(login, name), Started(Deploy)))
    else
      var call := StepEffect(host, encode, login, name, files, step);
      match call.result
      case Err(e) => Run(call.statuses, call.requests, FailureResult(e))
      case Ok(_) => After(call.statuses, call.requests, RunFrom(host, encode, login, name, files, NextStep(step)))
  }

  /** One step of the pipeline: a failed call ends it with that call's
      trace, a successful one is followed by the pipeline from the next step. */
  lemma Unroll(host: Request -> Outcome, encode: UploadContent -> Result<string, string>,
               login: string, name: string, files: seq<FileRecord>, step: Step)
    requires step != Init && step != Deploy
    ensures var call := StepEffect(host, encode, login, name, files, step);
            var run := RunFrom(host, encode, login, name, files, step);
            (call.result.Err? ==> run == Run(call.statuses, call.requests, FailureResult(call.result.error))) &&
            (call.result.Ok? ==> run == After(call.statuses, call.requests, RunFrom(host, encode, login, name, files, NextStep(step))))
  {
  }

  /** `generateApp` on the spec text `spec`: the `init` event and the user
      lookup, then the pipeline from the repository's creation on. */
  function GenerateAppRun(host: Request -> Outcome, encode: UploadContent -> Result<string, string>,
                          name: string, spec: string): Run
  {
    var user := UserEffect(host);
    match user.result
    case Err(e) => Run([Started(Init)] + user.statuses, user.requests, FailureResult(e))
    case Ok(login) => After([Started(Init)] + user.statuses, user.requests, RunFrom(host, encode, login, name, Parse(spec), CreateRepo))
  }

  /** Regrouping three traces. */
  lemma Regroup<T>(a: seq<T>, b: seq<T>, c: seq<T>)
    ensures a + (b + c) == a + b + c
  {
  }

  /** `generateApp`: the spec text is passed in already read. */
  method GenerateApp(env: Environment, name: string, spec: string) returns (result: GeneratorResult)
    modifies env
    ensures env.statuses == old(env.statuses) + GenerateAppRun(env.host, env.encode, name, spec).statuses
    ensures env.requests == old(env.requests) + GenerateAppRun(env.host, env.encode, name, spec).requests
    ensures result == GenerateAppRun(env.host, env.encode, name, spec).result
  {
    env.OnStatus(Started(Init));
    var user := GetGitHubUser(env);
    if user.Err? {
      return FailureResult(user.error);
    }
    var files := ParseArtifact(spec);
    ghost var userCall := UserEffect(env.host);
    ghost var rest := RunFrom(env.host, env.encode, user.value, name, files, CreateRepo);
    result := RunPipeline(env, user.value, name, files);
    Regroup(old(env.statuses), [Started(Init)] + userCall.statuses, rest.statuses);
    Regroup(old(env.statuses), [Started(Init)], userCall.statuses);
    Regroup(old(env.requests), userCall.requests, rest.requests);
  }

  /** The part of `generateApp` after the user lookup and the parse: create
      the repository, upload the files, enable Pages, and report the URL. */
  method RunPipeline(env: Environment, login: string, name: string, files: seq<FileRecord>)
    returns (result: GeneratorResult)
    modifies env
    ensures env.statuses == old(env.statuses) + RunFrom(env.host, env.encode, login, name, files, CreateRepo).statuses
    ensures env.requests == old(env.requests) + RunFrom(env.host, env.encode, login, name, files, CreateRepo).requests
    ensures result == RunFrom(env.host, env.encode, login, name, files, CreateRepo).result
  {
    // Before each call, the trace so far followed by `rest` is the whole
    // trace of the pipeline.
    ghost var rest := RunFrom(env.host, env.encode, login, name, files, CreateRepo);
    ghost var s, q := env.statuses, env.requests;
    ghost var call := CreateRepositoryEffect(env.host, name);
    var created := CreateRepository(env, name);
    if created.Err? {
      assert rest.statuses == call.statuses && rest.requests == call.requests;
      return FailureResult(created.error);
    }
    ghost var next := RunFrom(env.host, env.encode, login, name, files, Step.UploadFiles);
    assert rest == After(call.statuses, call.requests, next);
    Regroup(s, call.statuses, next.statuses);
    Regroup(q, call.requests, next.requests);
    rest := next;

    s, q := env.statuses, env.requests;
    call := UploadFilesEffect(env.host, env.encode, login, name, AsUploads(files));
    var uploaded := GitHub.UploadFiles(env, login, name, AsUploads(files));
    if uploaded.Err? {
      assert rest.statuses == call.statuses && rest.requests == call.requests;
      return FailureResult(uploaded.error);
    }
    next := RunFrom(env.host, env.encode, login, name, files, Step.EnablePages);
    assert rest == After(call.statuses, call.requests, next);
    Regroup(s, call.statuses, next.statuses);
    Regroup(q, call.requests, next.requests);
    rest := next;

    s, q := env.statuses, env.requests;
    call := EnablePagesEffect(env.host, env.encode, login, name);
    var pages := GitHub.EnablePages(env, login, name);
    if pages.Err? {
      assert rest.statuses == call.statuses && rest.requests == call.requests;
      return FailureResult(pages.error);
    }
    result := Generated(PagesSite(login, name), Started(Deploy));
    assert rest == After(call.statuses, call.requests, RunFrom(env.host, env.encode, login, name, files, Deploy));
    assert env.statuses == s + rest.statuses;
  }

  // ------------------------------------------------------------- the pipeline

  /** Past the user lookup, every failure is reported with the fixed
      message and, since no thrown error carries a step, at step `init` with
      the error's message. */
  lemma {:induction false} PipelineFailure(host: Request -> Outcome, encode: UploadContent -> Result<string, string>,
                                           login: string, name: string, files: seq<FileRecord>, step: Step)
    requires step != Init
    decreases CallsAfter(step)
    ensures var r := RunFrom(host, encode, login, name, files, step).result;
            r.NotGenerated? ==>
              r.error == GenerationFailure && r.status.step == Init &&
              exists s :: s != Init && s != Deploy && StepEffect(host, encode, login, name, files, s).result.Err? &&
                          r.status.error == Some(StepEffect(host, encode, login, name, files, s).result.error.message)
  {
    if step != Deploy {
      Unroll(host, encode, login, name, files, step);
      ErrorsCarryNoStep(host, encode, name, login, name, AsUploads(files));
      var call := StepEffect(host, encode, login, name, files, step);
      if call.result.Ok? {
        PipelineFailure(host, encode, login, name, files, NextStep(step));
      } else {
        assert RunFrom(host, encode, login, name, files, step).result.status.error == Some(call.result.error.message);
      }
    }
  }

  /** Past the user lookup, a successful run serves the app from the
      user's Pages site after the events `create-repo, upload-files,
      enable-pages, upload-files, deploy`. */
  lemma PipelineSuccess(host: Request -> Outcome, encode: UploadContent -> Result<string, string>,
                        login: string, name: string, files: seq<FileRecord>)
    ensures var run := RunFrom(host, encode, login, name, files, CreateRepo);
            run.result.Generated? ==>
              run.result == Generated(PagesSite(login, name), Started(Deploy)) &&
              run.statuses == [Started(CreateRepo), Started(Step.UploadFiles), Started(Step.EnablePages),
                               Started(Step.UploadFiles), Started(Deploy)]
  {
    Unroll(host, encode, login, name, files, CreateRepo);
    Unroll(host, encode, login, name, files, Step.UploadFiles);
    Unroll(host, encode, login, name, files, Step.EnablePages);
    CreateRepositorySpec(host, name);
    UploadFilesSpec(host, encode, login, name, AsUploads(files));
    EnablePagesSpec(host, encode, login, name);
  }

  /** Past the user lookup, once the repository exists and every content
      encodes, the next requests are one PUT per file, in order, each to
      `repos/<login>/<name>/contents/<path>` with message "Add <path>". */
  lemma PipelineUploads(host: Request -> Outcome, encode: UploadContent -> Result<string, string>,
                        login: string, name: string, files: seq<FileRecord>)
    requires host(RepoRequest(name)).Response? && host(RepoRequest(name)).ok
    requires forall k :: 0 <= k < |files| ==> encode(Text(files[k].content)).Ok?
    ensures var q := RunFrom(host, encode, login, name, files, CreateRepo).requests;
            |q| >= 1 + |files| && q[0] == PostRepo(name, false, true) &&
            forall k :: 0 <= k < |files| ==>
              q[1 + k] == PutContents(ContentsUrl(login, name, files[k].path), "Add " + files[k].path,
                                      encode(Text(files[k].content)).value)
  {
    var uploads := AsUploads(files);
    var puts := Tasks(host, encode, login, name, uploads).requests;
    var q := RunFrom(host, encode, login, name, files, CreateRepo).requests;
    CreatedThenUploads(host, encode, login, name, files);
    TasksRequests(host, encode, login, name, uploads);
    assert q[0] == q[..1 + |puts|][0];
    forall k | 0 <= k < |files|
      ensures q[1 + k] == PutContents(ContentsUrl(login, name, files[k].path), "Add " + files[k].path,
                                      encode(Text(files[k].content)).value)
    {
      assert q[1 + k] == q[..1 + |puts|][1 + k] == puts[k];
      assert uploads[k] == Upload(files[k].path, Text(files[k].content));
    }
  }

  /** Once the repository is created, the pipeline's next requests are the
      upload tasks' requests. */
  lemma CreatedThenUploads(host: Request -> Outcome, encode: UploadContent -> Result<string, string>,
                           login: string, name: string, files: seq<FileRecord>)
    requires host(RepoRequest(name)).Response? && host(RepoRequest(name)).ok
    ensures var q := RunFrom(host, encode, login, name, files, CreateRepo).requests;
            var puts := Tasks(host, encode, login, name, AsUploads(files)).requests;
            |q| >= 1 + |puts| && q[..1 + |puts|] == [PostRepo(name, false, true)] + puts
  {
    Unroll(host, encode, login, name, files, CreateRepo);
    Unroll(host, encode, login, name, files, Step.UploadFiles);
    CreateRepositorySpec(host, name);
  }

  /** Past the user lookup, a failed upload ends the pipeline right after
      it: the creation's and the upload's events and requests, and a
      failure result carrying the upload's error. */
  lemma PipelineUploadFailure(host: Request -> Outcome, encode: UploadContent -> Result<string, string>,
                              login: string, name: string, files: seq<FileRecord>)
    requires host(RepoRequest(name)).Response? && host(RepoRequest(name)).ok
    requires UploadFilesEffect(host, encode, login, name, AsUploads(files)).result.Err?
    ensures var upload := UploadFilesEffect(host, encode, login, name, AsUploads(files));
            RunFrom(host, encode, login, name, files, CreateRepo) ==
            Run([Started(CreateRepo)] + upload.statuses, [PostRepo(name, false, true)] + upload.requests,
                FailureResult(upload.result.error))
  {
    Unroll(host, encode, login, name, files, CreateRepo);
    Unroll(host, encode, login, name, files, Step.UploadFiles);
    CreateRepositorySpec(host, name);
  }

  /** Past the user lookup, once the repository is created and every file
      is uploaded, the pipeline ends with the Pages call: its events and
      requests, and its result. */
  lemma PipelineAtPages(host: Request -> Outcome, encode: UploadContent -> Result<string, string>,
                        login: string, name: string, files: seq<FileRecord>)
    requires host(RepoRequest(name)).Response? && host(RepoRequest(name)).ok
    requires UploadFilesEffect(host, encode, login, name, AsUploads(files)).result.Ok?
    ensures var upload := UploadFilesEffect(host, encode, login, name, AsUploads(files));
            var pages := EnablePagesEffect(host, encode, login, name);
            var run := RunFrom(host, encode, login, name, files, CreateRepo);
            run.statuses == [Started(CreateRepo)] + upload.statuses + pages.statuses &&
            run.requests == [PostRepo(name, false, true)] + upload.requests + pages.requests &&
            run.result == if pages.result.Ok? then Generated(PagesSite(login, name), Started(Deploy))
                          else FailureResult(pages.result.error)
  {
    Unroll(host, encode, login, name, files, CreateRepo);
    Unroll(host, encode, login, name, files, Step.UploadFiles);
    Unroll(host, encode, login, name, files, Step.EnablePages);
    CreateRepositorySpec(host, name);
  }

  // ---------------------------------------------------------------- whole run

  /** Every failure is reported with the fixed message and, since no thrown
      error carries a step, at step `init` with the error's message. */
  lemma FailureReportsInit(host: Request -> Outcome, encode: UploadContent -> Result<string, string>,
                           name: string, spec: string)
    ensures var r := GenerateAppRun(host, encode, name, spec).result;
            var user := UserEffect(host).result;
            r.NotGenerated? ==>
              r.error == GenerationFailure && r.status.step == Init &&
              ((user.Err? && r.status.error == Some(user.error.message)) ||
               (user.Ok? &&
                exists s :: s != Init && s != Deploy && StepEffect(host, encode, user.value, name, Parse(spec), s).result.Err? &&
                            r.status.error == Some(StepEffect(host, encode, user.value, name, Parse(spec), s).result.error.message)))
  {
    UserEffectSpec(host);
    ErrorsCarryNoStep(host, encode, name, "", name, []);
    if UserEffect(host).result.Ok? {
      PipelineFailure(host, encode, host(GetUser).login, name, Parse(spec), CreateRepo);
    }
  }

  /** A run starts with the `init` event. */
  lemma StartsWithInit(host: Request -> Outcome, encode: UploadContent -> Result<string, string>,
                       name: string, spec: string)
    ensures var s := GenerateAppRun(host, encode, name, spec).statuses;
            |s| > 0 && s[0] == Started(Init)
  {
  }

  /** A successful run serves the app from the user's Pages site and its
      events are exactly `init, create-repo, upload-files, enable-pages,
      upload-files, deploy`. */
  lemma SuccessTrace(host: Request -> Outcome, encode: UploadContent -> Result<string, string>,
                     name: string, spec: string)
    ensures var run := GenerateAppRun(host, encode, name, spec);
            run.result.Generated? ==>
              run.result == Generated(PagesSite(host(GetUser).login, name), Started(Deploy)) &&
              run.statuses == [Started(Init), Started(CreateRepo), Started(Step.UploadFiles),
                               Started(Step.EnablePages), Started(Step.UploadFiles), Started(Deploy)]
  {
    UserEffectSpec(host);
    if UserEffect(host).result.Ok? {
      PipelineSuccess(host, encode, host(GetUser).login, name, Parse(spec));
    }
  }

  /** A failed user lookup stops everything: the user request is the only
      request and `init` the only event. */
  lemma UserFailureStops(host: Request -> Outcome, encode: UploadContent -> Result<string, string>,
                         name: string, spec: string)
    requires !(host(GetUser).Response? && host(GetUser).ok)
    ensures GenerateAppRun(host, encode, name, spec).requests == [GetUser]
    ensures GenerateAppRun(host, encode, name, spec).statuses == [Started(Init)]
    ensures GenerateAppRun(host, encode, name, spec).result.NotGenerated?
  {
    UserEffectSpec(host);
  }

  /** The message of the error a failed repository creation throws: the
      rejection's own message, or "Failed to create repository". */
  function GenerationFailureMessage(host: Request -> Outcome, name: string): string {
    match host(RepoRequest(name))
    case Rejected(m) => m
    case Response(_, _) => CreateRepoFailure
  }

  /** A failed repository creation issues no upload and no Pages request:
      the requests are the user lookup and the creation, and the events end
      with the creation's failure. */
  lemma CreateFailureStops(host: Request -> Outcome, encode: UploadContent -> Result<string, string>,
                           name: string, spec: string)
    requires host(GetUser).Response? && host(GetUser).ok
    requires !(host(RepoRequest(name)).Response? && host(RepoRequest(name)).ok)
    ensures GenerateAppRun(host, encode, name, spec).requests == [GetUser, PostRepo(name, false, true)]
    ensures GenerateAppRun(host, encode, name, spec).statuses ==
              [Started(Init), Started(CreateRepo), Failed(CreateRepo, CreateRepoFailure)]
    ensures GenerateAppRun(host, encode, name, spec).result ==
              NotGenerated(GenerationFailure, Failed(Init, GenerationFailureMessage(host, name)))
  {
    UserEffectSpec(host);
    Unroll(host, encode, host(GetUser).login, name, Parse(spec), CreateRepo);
    CreateRepositorySpec(host, name);
  }

  /** The upload step sends the parsed files to the user's repository: when
      every content encodes, the requests after the user lookup and the
      creation are one PUT per parsed record, in order, each to
      `repos/<login>/<name>/contents/<path>` with message "Add <path>". */
  lemma UploadsFollowParse(host: Request -> Outcome, encode: UploadContent -> Result<string, string>,
                           name: string, spec: string)
    requires host(GetUser).Response? && host(GetUser).ok
    requires host(RepoRequest(name)).Response? && host(RepoRequest(name)).ok
    requires forall k :: 0 <= k < |Parse(spec)| ==> encode(Text(Parse(spec)[k].content)).Ok?
    ensures var q := GenerateAppRun(host, encode, name, spec).requests;
            var files := Parse(spec);
            var login := host(GetUser).login;
            |q| >= 2 + |files| && q[..2] == [GetUser, PostRepo(name, false, true)] &&
            forall k :: 0 <= k < |files| ==>
              q[2 + k] == PutContents(ContentsUrl(login, name, files[k].path), "Add " + files[k].path,
                                      encode(Text(files[k].content)).value)
  {
    UserEffectSpec(host);
    PipelineUploads(host, encode, host(GetUser).login, name, Parse(spec));
  }

  /** Some parsed record's upload task, as `uploadFiles` runs it for the
      repository `login/name`, fails. */
  predicate SomeUploadFails(host: Request -> Outcome, encode: UploadContent -> Result<string, string>,
                            login: string, name: string, files: seq<FileRecord>)
  {
    exists k :: 0 <= k < |files| && TaskFails(host, encode, login, name, Upload(files[k].path, Text(files[k].content)))
  }

  /** The upload of the parsed records fails exactly when one record's
      task does. */
  lemma UploadFailsIff(host: Request -> Outcome, encode: UploadContent -> Result<string, string>,
                       login: string, name: string, files: seq<FileRecord>)
    ensures UploadFilesEffect(host, encode, login, name, AsUploads(files)).result.Err? <==>
            SomeUploadFails(host, encode, login, name, files)
  {
    var uploads := AsUploads(files);
    UploadFilesSpec(host, encode, login, name, uploads);
    if SomeUploadFails(host, encode, login, name, files) {
      var k :| 0 <= k < |files| && TaskFails(host, encode, login, name, Upload(files[k].path, Text(files[k].content)));
      assert uploads[k] == Upload(files[k].path, Text(files[k].content));
    }
    if exists k :: 0 <= k < |uploads| && TaskFails(host, encode, login, name, uploads[k]) {
      var k :| 0 <= k < |uploads| && TaskFails(host, encode, login, name, uploads[k]);
      assert uploads[k] == Upload(files[k].path, Text(files[k].content));
    }
  }

  /** Past the user lookup, a failed upload issues no Pages request: the
      events stop at the upload's failure and the result carries the
      upload's error message at step `init`. */
  lemma PipelineUploadStops(host: Request -> Outcome, encode: UploadContent -> Result<string, string>,
                            login: string, name: string, files: seq<FileRecord>)
    requires host(RepoRequest(name)).Response? && host(RepoRequest(name)).ok
    requires SomeUploadFails(host, encode, login, name, files)
    ensures var run := RunFrom(host, encode, login, name, files, CreateRepo);
            var upload := UploadFilesEffect(host, encode, login, name, AsUploads(files));
            (forall r :: r in run.requests ==> !r.PostPages?) &&
            run.statuses == [Started(CreateRepo), Started(Step.UploadFiles), Failed(Step.UploadFiles, UploadStepFailure)] &&
            upload.result.Err? &&
            run.result == NotGenerated(GenerationFailure, Failed(Init, upload.result.error.message))
  {
    var uploads := AsUploads(files);
    UploadFailsIff(host, encode, login, name, files);
    UploadFilesSpec(host, encode, login, name, uploads);
    ErrorsCarryNoStep(host, encode, name, login, name, uploads);
    PipelineUploadFailure(host, encode, login, name, files);
    TasksOnlyPut(host, encode, login, name, uploads);
  }

  /** A failed upload issues no Pages request: the events stop at the
      upload's failure and the result carries the upload's error message
      at step `init`. */
  lemma UploadFailureStops(host: Request -> Outcome, encode: UploadContent -> Result<string, string>,
                           name: string, spec: string)
    requires host(GetUser).Response? && host(GetUser).ok
    requires host(RepoRequest(name)).Response? && host(RepoRequest(name)).ok
    requires SomeUploadFails(host, encode, host(GetUser).login, name, Parse(spec))
    ensures var run := GenerateAppRun(host, encode, name, spec);
            var upload := UploadFilesEffect(host, encode, host(GetUser).login, name, AsUploads(Parse(spec)));
            (forall r :: r in run.requests ==> !r.PostPages?) &&
            run.statuses == [Started(Init), Started(CreateRepo), Started(Step.UploadFiles),
                             Failed(Step.UploadFiles, UploadStepFailure)] &&
            upload.result.Err? &&
            run.result == NotGenerated(GenerationFailure, Failed(Init, upload.result.error.message))
  {
    var login := host(GetUser).login;
    var run := RunFrom(host, encode, login, name, Parse(spec), CreateRepo);
    UserEffectSpec(host);
    PipelineUploadStops(host, encode, login, name, Parse(spec));
    assert GenerateAppRun(host, encode, name, spec) == Run([Started(Init)] + run.statuses, [GetUser] + run.requests, run.result);
  }

  /** Past the user lookup, a failed Pages call never reaches `deploy`:
      the events end with the Pages failure and the result carries that
      call's error message at step `init`. */
  lemma PipelinePagesStops(host: Request -> Outcome, encode: UploadContent -> Result<string, string>,
                           login: string, name: string, files: seq<FileRecord>)
    requires host(RepoRequest(name)).Response? && host(RepoRequest(name)).ok
    requires !SomeUploadFails(host, encode, login, name, files)
    requires host(PagesRequest(login, name)).Rejected? || TaskFails(host, encode, login, name, WorkflowUpload)
    ensures var run := RunFrom(host, encode, login, name, files, CreateRepo);
            var pages := EnablePagesEffect(host, encode, login, name);
            Started(Deploy) !in run.statuses &&
            |run.statuses| > 0 && run.statuses[|run.statuses| - 1] == Failed(Step.EnablePages, PagesStepFailure) &&
            pages.result.Err? &&
            run.result == NotGenerated(GenerationFailure, Failed(Init, pages.result.error.message))
  {
    UploadFailsIff(host, encode, login, name, files);
    UploadFilesSpec(host, encode, login, name, AsUploads(files));
    EnablePagesSpec(host, encode, login, name);
    ErrorsCarryNoStep(host, encode, name, login, name, []);
    PipelineAtPages(host, encode, login, name, files);
  }

  /** A failed Pages call never reaches `deploy`: the events end with the
      Pages failure and the result carries that call's error message at
      step `init`. */
  lemma PagesFailureStops(host: Request -> Outcome, encode: UploadContent -> Result<string, string>,
                          name: string, spec: string)
    requires host(GetUser).Response? && host(GetUser).ok
    requires host(RepoRequest(name)).Response? && host(RepoRequest(name)).ok
    requires !SomeUploadFails(host, encode, host(GetUser).login, name, Parse(spec))
    requires host(PagesRequest(host(GetUser).login, name)).Rejected? ||
             TaskFails(host, encode, host(GetUser).login, name, WorkflowUpload)
    ensures var run := GenerateAppRun(host, encode, name, spec);
            var pages := EnablePagesEffect(host, encode, host(GetUser).login, name);
            Started(Deploy) !in run.statuses &&
            |run.statuses| > 0 && run.statuses[|run.statuses| - 1] == Failed(Step.EnablePages, PagesStepFailure) &&
            pages.result.Err? &&
            run.result == NotGenerated(GenerationFailure, Failed(Init, pages.result.error.message))
  {
    UserEffectSpec(host);
    PipelinePagesStops(host, encode, host(GetUser).login, name, Parse(spec));
  }

  /** Every call of the run succeeds: the user lookup, the creation, each
      parsed record's upload, the Pages request (answered, ok or not) and
      the workflow upload. */
  predicate CallsSucceed(host: Request -> Outcome, encode: UploadContent -> Result<string, string>,
                         name: string, spec: string)
  {
    host(GetUser).Response? && host(GetUser).ok &&
    host(RepoRequest(name)).Response? && host(RepoRequest(name)).ok &&
    var login := host(GetUser).login;
    !SomeUploadFails(host, encode, login, name, Parse(spec)) &&
    host(PagesRequest(login, name)).Response? &&
    !TaskFails(host, encode, login, name, WorkflowUpload)
  }

  /** A run succeeds exactly when every call succeeds, and it then serves
      the app from the user's Pages site. */
  lemma SuccessIffCallsSucceed(host: Request -> Outcome, encode: UploadContent -> Result<string, string>,
                               name: string, spec: string)
    ensures GenerateAppRun(host, encode, name, spec).result.Generated? <==> CallsSucceed(host, encode, name, spec)
    ensures CallsSucceed(host, encode, name, spec) ==>
              GenerateAppRun(host, encode, name, spec).result ==
              Generated(PagesSite(host(GetUser).login, name), Started(Deploy))
  {
    var files := Parse(spec);
    UserEffectSpec(host);
    if host(GetUser).Response? && host(GetUser).ok {
      var login := host(GetUser).login;
      Unroll(host, encode, login, name, files, CreateRepo);
      CreateRepositorySpec(host, name);
      if host(RepoRequest(name)).Response? && host(RepoRequest(name)).ok {
        UploadFailsIff(host, encode, login, name, files);
        if SomeUploadFails(host, encode, login, name, files) {
          PipelineUploadFailure(host, encode, login, name, files);
        } else {
          EnablePagesSpec(host, encode, login, name);
          PipelineAtPages(host, encode, login, name, files);
        }
      }
    }
  }
}
