/** The calls to the repository host (src/lib/server/github.ts): who the
    user is, creating the repository, uploading files and enabling Pages.
    Each call reports its progress through `onStatus` and throws on failure.
    The host is abstracted as a function from requests to outcomes, and the
    environment records every status event and every request issued. */
module GitHub {
  import opened Types

  /** What an upload carries: text, or (for the deployment workflow) the
      descriptor object itself. */
  datatype UploadContent = Text(text: string) | Workflow(descriptor: WorkflowDescriptor)

  /** One file to upload. */
  datatype Upload = Upload(path: string, content: UploadContent)

  /** The requests the module issues, with the parts of their bodies that
      matter (headers and the token are not modelled). */
  datatype Request =
    | GetUser
    | PostRepo(name: string, isPrivate: bool, autoInit: bool)
    | PutContents(url: string, message: string, encoded: string)
    | PostPages(url: string, branch: string, sourcePath: string)

  /** What `fetch` does with a request: it resolves to a response (with its
      `ok` flag and, for the user request, the `login` of its JSON body) or
      it rejects with an error message. */
  datatype Outcome = Response(ok: bool, login: string) | Rejected(message: string)

  /** A thrown error: its message and its `step` field, if it has one. */
  datatype Error = Error(message: string, step: Option<Step>)

  /** What a call does: the status events it emits, the requests it issues,
      and its result or thrown error. */
  datatype Effect<T> = Effect(statuses: seq<DeploymentStatus>, requests: seq<Request>, result: Result<T, Error>)

  const ApiBase: string := "https://api.github.com"
  const UserFailure: string := "Failed to fetch GitHub user"
  const CreateRepoFailure: string := "Failed to create repository"
  const UploadStepFailure: string := "Failed to upload files"
  const PagesStepFailure: string := "Failed to enable GitHub Pages"

  /** The error thrown for a file whose upload got a non-ok response. */
  function UploadFailure(path: string): string {
    "Failed to upload " + path
  }

  function ContentsUrl(owner: string, repo: string, path: string): string {
    ApiBase + "/repos/" + owner + "/" + repo + "/contents/" + path
  }

  function PagesUrl(owner: string, repo: string): string {
    ApiBase + "/repos/" + owner + "/" + repo + "/pages"
  }

  /** The request that enables Pages: branch `main`, path `/build`. */
  function PagesRequest(owner: string, repo: string): Request {
    PostPages(PagesUrl(owner, repo), "main", "/build")
  }

  /** The request that creates the repository: public, with an initial commit. */
  function RepoRequest(name: string): Request {
    PostRepo(name, false, true)
  }

  /** The file `enablePages` uploads: the workflow descriptor at its own path. */
  const WorkflowUpload: Upload := Upload(DeployWorkflow.path, Workflow(DeployWorkflow))

  /** The collaborators the calls talk to. `host` answers requests; `encode`
      is the base64 encoding of an upload's content, which either gives the
      encoded text or throws with a message. `statuses` collects the events
      passed to `onStatus` and `requests` the requests issued, in order. */
  class Environment {
    var statuses: seq<DeploymentStatus>
    var requests: seq<Request>
    const host: Request -> Outcome
    const encode: UploadContent -> Result<string, string>

    constructor(host: Request -> Outcome, encode: UploadContent -> Result<string, string>)
      ensures statuses == [] && requests == []
      ensures this.host == host && this.encode == encode
    {
      statuses := [];
      requests := [];
      this.host := host;
      this.encode := encode;
    }

    /** `onStatus(status)`. */
    method OnStatus(status: DeploymentStatus)
      modifies this
      ensures statuses == old(statuses) + [status]
      ensures requests == old(requests)
    {
      statuses := statuses + [status];
    }

    /** `fetch(request)`: the request is issued and its outcome returned. */
    method Fetch(request: Request) returns (outcome: Outcome)
      modifies this
      ensures outcome == host(request)
      ensures requests == old(requests) + [request]
      ensures statuses == old(statuses)
    {
      requests := requests + [request];
      outcome := host(request);
    }
  }

  // ------------------------------------------------------------ getGitHubUser

  /** `getGitHubUser`: one request, no status events; a rejection is
      rethrown as is and a non-ok response throws `UserFailure`. */
  function UserEffect(host: Request -> Outcome): Effect<string> {
    match host(GetUser)
    case Rejected(m) => Effect([], [GetUser], Err(Error(m, None)))
    case Response(ok, login) =>
      if ok then Effect([], [GetUser], Ok(login))
      else Effect([], [GetUser], Err(Error(UserFailure, None)))
  }

  method GetGitHubUser(env: Environment) returns (r: Result<string, Error>)
    modifies env
    ensures env.statuses == old(env.statuses) + UserEffect(env.host).statuses
    ensures env.requests == old(env.requests) + UserEffect(env.host).requests
    ensures r == UserEffect(env.host).result
  {
    var response := env.Fetch(GetUser);
    match response
    case Rejected(m) =>
      r := Err(Error(m, None));
    case Response(ok, login) =>
      if !ok {
        r := Err(Error(UserFailure, None));
      } else {
        r := Ok(login);
      }
  }

  /** The user call issues exactly the user request and emits nothing; it
      succeeds, with the response's login, exactly on an ok response, and a
      non-ok response throws "Failed to fetch GitHub user". */
  lemma UserEffectSpec(host: Request -> Outcome)
    ensures UserEffect(host).statuses == [] && UserEffect(host).requests == [GetUser]
    ensures UserEffect(host).result.Ok? <==> (host(GetUser).Response? && host(GetUser).ok)
    ensures UserEffect(host).result.Ok? ==> UserEffect(host).result.value == host(GetUser).login
    ensures host(GetUser).Response? && !host(GetUser).ok ==>
              UserEffect(host).result == Err(Error(UserFailure, None))
  {
  }

  // --------------------------------------------------------- createRepository

  /** `createRepository`: the start event, then the request; any failure
      adds one failure event and rethrows. */
  function CreateRepositoryEffect(host: Request -> Outcome, name: string): Effect<()> {
    var request := RepoRequest(name);
    var failed := [Started(CreateRepo), Failed(CreateRepo, CreateRepoFailure)];
    match host(request)
    case Rejected(m) => Effect(failed, [request], Err(Error(m, None)))
    case Response(ok, _) =>
      if ok then Effect([Started(CreateRepo)], [request], Ok(()))
      else Effect(failed, [request], Err(Error(CreateRepoFailure, None)))
  }

  method CreateRepository(env: Environment, name: string) returns (r: Result<(), Error>)
    modifies env
    ensures env.statuses == old(env.statuses) + CreateRepositoryEffect(env.host, name).statuses
    ensures env.requests == old(env.requests) + CreateRepositoryEffect(env.host, name).requests
    ensures r == CreateRepositoryEffect(env.host, name).result
  {
    env.OnStatus(Started(CreateRepo));
    var response := env.Fetch(RepoRequest(name));
    var thrown: Option<Error> := None;
    match response {
      case Rejected(m) =>
        thrown := Some(Error(m, None));
      case Response(ok, _) =>
        if !ok {
          thrown := Some(Error(CreateRepoFailure, None));
        }
    }
    if thrown.Some? {
      env.OnStatus(Failed(CreateRepo, CreateRepoFailure));
      r := Err(thrown.value);
    } else {
      r := Ok(());
    }
  }

  /** Creating the repository starts with its event and issues one public,
      auto-initialised request; it succeeds exactly on an ok response, and
      every failure adds exactly one "Failed to create repository" event. */
  lemma CreateRepositorySpec(host: Request -> Outcome, name: string)
    ensures CreateRepositoryEffect(host, name).requests == [PostRepo(name, false, true)]
    ensures CreateRepositoryEffect(host, name).result.Ok? <==>
              (host(RepoRequest(name)).Response? && host(RepoRequest(name)).ok)
    ensures CreateRepositoryEffect(host, name).statuses ==
              if CreateRepositoryEffect(host, name).result.Ok? then [Started(CreateRepo)]
              else [Started(CreateRepo), Failed(CreateRepo, CreateRepoFailure)]
  {
  }

  // -------------------------------------------------------------- uploadFiles

  /** What one file's upload task does: the request it issues (none when the
      encoding throws) and the error it fails with, if any, split into a
      failure of the encoding (which rejects at once) and a failure of the
      request. */
  datatype Task = Task(requests: seq<Request>, encodeError: Option<Error>, fetchError: Option<Error>)

  function UploadTask(host: Request -> Outcome, encode: UploadContent -> Result<string, string>,
                      owner: string, repo: string, file: Upload): Task
  {
    match encode(file.content)
    case Err(m) => Task([], Some(Error(m, None)), None)
    case Ok(body) =>
      var request := PutContents(ContentsUrl(owner, repo, file.path), "Add " + file.path, body);
      match host(request)
      case Rejected(m) => Task([request], None, Some(Error(m, None)))
      case Response(ok, _) =>
        Task([request], None, if ok then None else Some(Error(UploadFailure(file.path), None)))
  }

  /** The file's upload task fails. */
  predicate TaskFails(host: Request -> Outcome, encode: UploadContent -> Result<string, string>,
                      owner: string, repo: string, file: Upload)
  {
    var t := UploadTask(host, encode, owner, repo, file);
    t.encodeError.Some? || t.fetchError.Some?
  }

  /** The earlier of two errors. */
  function First(a: Option<Error>, b: Option<Error>): Option<Error> {
    if a.Some? then a else b
  }

  /** All tasks of `files`, started in list order: the requests in order and
      the first encoding error and first request error in list order. */
  function Tasks(host: Request -> Outcome, encode: UploadContent -> Result<string, string>,
                 owner: string, repo: string, files: seq<Upload>): Task
  {
    if files == [] then Task([], None, None)
    else
      var before := Tasks(host, encode, owner, repo, files[..|files| - 1]);
      var last := UploadTask(host, encode, owner, repo, files[|files| - 1]);
      Task(before.requests + last.requests,
           First(before.encodeError, last.encodeError),
           First(before.fetchError, last.fetchError))
  }

  /** The error `Promise.all` rejects with: an encoding error rejects its
      task before any response arrives, so the first one wins; otherwise the
      first failing request in list order. */
  function Rejection(t: Task): Option<Error> {
    First(t.encodeError, t.fetchError)
  }

  /** `uploadFiles`: one start event, every task started, and on any failure
      one failure event and the rethrown error. */
  function UploadFilesEffect(host: Request -> Outcome, encode: UploadContent -> Result<string, string>,
                             owner: string, repo: string, files: seq<Upload>): Effect<()>
  {
    var all := Tasks(host, encode, owner, repo, files);
    match Rejection(all)
    case Some(e) => Effect([Started(Step.UploadFiles), Failed(Step.UploadFiles, UploadStepFailure)], all.requests, Err(e))
    case None => Effect([Started(Step.UploadFiles)], all.requests, Ok(()))
  }

  method UploadFiles(env: Environment, owner: string, repo: string, files: seq<Upload>)
    returns (r: Result<(), Error>)
    modifies env
    ensures env.statuses == old(env.statuses) + UploadFilesEffect(env.host, env.encode, owner, repo, files).statuses
    ensures env.requests == old(env.requests) + UploadFilesEffect(env.host, env.encode, owner, repo, files).requests
    ensures r == UploadFilesEffect(env.host, env.encode, owner, repo, files).result
  {
    env.OnStatus(Started(Step.UploadFiles));
    var encodeError: Option<Error> := None;
    var fetchError: Option<Error> := None;
    for i := 0 to |files|
      invariant env.statuses == old(env.statuses) + [Started(Step.UploadFiles)]
      invariant env.requests == old(env.requests) + Tasks(env.host, env.encode, owner, repo, files[..i]).requests
      invariant encodeError == Tasks(env.host, env.encode, owner, repo, files[..i]).encodeError
      invariant fetchError == Tasks(env.host, env.encode, owner, repo, files[..i]).fetchError
    {
      var file := files[i];
      assert files[..i + 1][..i] == files[..i];
      match env.encode(file.content)
      case Err(m) =>
        if encodeError.None? {
          encodeError := Some(Error(m, None));
        }
      case Ok(body) =>
        var response := env.Fetch(PutContents(ContentsUrl(owner, repo, file.path), "Add " + file.path, body));
        match response
        case Rejected(m) =>
          if fetchError.None? {
            fetchError := Some(Error(m, None));
          }
        case Response(ok, _) =>
          if !ok && fetchError.None? {
            fetchError := Some(Error(UploadFailure(file.path), None));
          }
    }
    assert files[..|files|] == files;
    var rejection := First(encodeError, fetchError);
    if rejection.Some? {
      env.OnStatus(Failed(Step.UploadFiles, UploadStepFailure));
      r := Err(rejection.value);
    } else {
      r := Ok(());
    }
  }

  /** The fan-out fails exactly when one of its tasks fails. */
  lemma {:induction false} TasksFail(host: Request -> Outcome, encode: UploadContent -> Result<string, string>,
                                     owner: string, repo: string, files: seq<Upload>)
    ensures Rejection(Tasks(host, encode, owner, repo, files)).Some? <==>
            exists k :: 0 <= k < |files| && TaskFails(host, encode, owner, repo, files[k])
  {
    if files != [] {
      var init := files[..|files| - 1];
      TasksFail(host, encode, owner, repo, init);
      if exists k :: 0 <= k < |init| && TaskFails(host, encode, owner, repo, init[k]) {
        var k :| 0 <= k < |init| && TaskFails(host, encode, owner, repo, init[k]);
        assert files[k] == init[k];
      }
      if exists k :: 0 <= k < |files| && TaskFails(host, encode, owner, repo, files[k]) {
        var k :| 0 <= k < |files| && TaskFails(host, encode, owner, repo, files[k]);
        if k < |init| {
          assert init[k] == files[k];
        }
      }
    }
  }

  /** The request `uploadFiles` issues for one file whose content encodes to
      `body`. */
  function PutRequest(owner: string, repo: string, file: Upload, body: string): Request {
    PutContents(ContentsUrl(owner, repo, file.path), "Add " + file.path, body)
  }

  /** When every content encodes, every file gets exactly one request, in
      list order: a PUT to its contents URL with message "Add <path>". */
  lemma {:induction false} TasksRequests(host: Request -> Outcome, encode: UploadContent -> Result<string, string>,
                                         owner: string, repo: string, files: seq<Upload>)
    requires forall k :: 0 <= k < |files| ==> encode(files[k].content).Ok?
    ensures |Tasks(host, encode, owner, repo, files).requests| == |files|
    ensures forall k :: 0 <= k < |files| ==>
              Tasks(host, encode, owner, repo, files).requests[k] ==
              PutRequest(owner, repo, files[k], encode(files[k].content).value)
  {
    if files != [] {
      var init := files[..|files| - 1];
      var before := Tasks(host, encode, owner, repo, init);
      assert forall k :: 0 <= k < |init| ==> init[k] == files[k];
      TasksRequests(host, encode, owner, repo, init);
      var last := files[|files| - 1];
      assert UploadTask(host, encode, owner, repo, last).requests ==
             [PutRequest(owner, repo, last, encode(last.content).value)];
    }
  }

  /** The upload tasks issue nothing but PUTs of file contents. */
  lemma {:induction false} TasksOnlyPut(host: Request -> Outcome, encode: UploadContent -> Result<string, string>,
                                        owner: string, repo: string, files: seq<Upload>)
    ensures forall i :: 0 <= i < |Tasks(host, encode, owner, repo, files).requests| ==>
                        Tasks(host, encode, owner, repo, files).requests[i].PutContents?
  {
    if files != [] {
      var before := Tasks(host, encode, owner, repo, files[..|files| - 1]).requests;
      var last := UploadTask(host, encode, owner, repo, files[|files| - 1]).requests;
      TasksOnlyPut(host, encode, owner, repo, files[..|files| - 1]);
      assert forall i :: 0 <= i < |last| ==> last[i].PutContents?;
      assert Tasks(host, encode, owner, repo, files).requests == before + last;
      forall i | 0 <= i < |before + last| ensures (before + last)[i].PutContents? {
        if i < |before| {
          assert (before + last)[i] == before[i];
          assert before[i].PutContents?;
        } else {
          assert (before + last)[i] == last[i - |before|];
          assert last[i - |before|].PutContents?;
        }
      }
    }
  }

  /** Uploading emits one start event whatever the number of files, and
      then one failure event exactly when some file's task fails; the
      result follows the same test. */
  lemma UploadFilesSpec(host: Request -> Outcome, encode: UploadContent -> Result<string, string>,
                        owner: string, repo: string, files: seq<Upload>)
    ensures var e := UploadFilesEffect(host, encode, owner, repo, files);
            var fails := exists k :: 0 <= k < |files| && TaskFails(host, encode, owner, repo, files[k]);
            (e.result.Err? <==> fails) &&
            e.statuses == if fails then [Started(Step.UploadFiles), Failed(Step.UploadFiles, UploadStepFailure)]
                          else [Started(Step.UploadFiles)]
  {
    TasksFail(host, encode, owner, repo, files);
  }

  /** Uploading no files succeeds after the start event alone, with no
      request. */
  lemma UploadNothing(host: Request -> Outcome, encode: UploadContent -> Result<string, string>,
                      owner: string, repo: string)
    ensures UploadFilesEffect(host, encode, owner, repo, []) == Effect([Started(Step.UploadFiles)], [], Ok(()))
  {
  }

  // -------------------------------------------------------------- enablePages

  /** `enablePages`: the start event and the Pages request, whose response
      is not inspected; then the workflow upload, and `deploy` once it has
      succeeded. A rejected Pages request or a failed workflow upload adds
      one failure event and rethrows. */
  function EnablePagesEffect(host: Request -> Outcome, encode: UploadContent -> Result<string, string>,
                             owner: string, repo: string): Effect<()>
  {
    var pages := PagesRequest(owner, repo);
    var failed := Failed(Step.EnablePages, PagesStepFailure);
    match host(pages)
    case Rejected(m) => Effect([Started(Step.EnablePages), failed], [pages], Err(Error(m, None)))
    case Response(_, _) =>
      var upload := UploadFilesEffect(host, encode, owner, repo, [WorkflowUpload]);
      match upload.result
      case Err(e) => Effect([Started(Step.EnablePages)] + upload.statuses + [failed], [pages] + upload.requests, Err(e))
      case Ok(_) => Effect([Started(Step.EnablePages)] + upload.statuses + [Started(Deploy)], [pages] + upload.requests, Ok(()))
  }

  method EnablePages(env: Environment, owner: string, repo: string) returns (r: Result<(), Error>)
    modifies env
    ensures env.statuses == old(env.statuses) + EnablePagesEffect(env.host, env.encode, owner, repo).statuses
    ensures env.requests == old(env.requests) + EnablePagesEffect(env.host, env.encode, owner, repo).requests
    ensures r == EnablePagesEffect(env.host, env.encode, owner, repo).result
  {
    env.OnStatus(Started(Step.EnablePages));
    var response := env.Fetch(PagesRequest(owner, repo));
    match response
    case Rejected(m) =>
      env.OnStatus(Failed(Step.EnablePages, PagesStepFailure));
      r := Err(Error(m, None));
    case Response(_, _) =>
      var uploaded := UploadFiles(env, owner, repo, [WorkflowUpload]);
      match uploaded
      case Err(e) =>
        env.OnStatus(Failed(Step.EnablePages, PagesStepFailure));
        r := Err(e);
      case Ok(_) =>
        env.OnStatus(Started(Deploy));
        r := Ok(());
  }

  /** The workflow upload fails exactly when its one task does, and its
      requests are that task's: none when the encoding throws, otherwise
      one PUT of `.github/workflows/deploy.yml`. */
  lemma WorkflowUploadSpec(host: Request -> Outcome, encode: UploadContent -> Result<string, string>,
                           owner: string, repo: string)
    ensures UploadFilesEffect(host, encode, owner, repo, [WorkflowUpload]).result.Err? <==>
            TaskFails(host, encode, owner, repo, WorkflowUpload)
    ensures UploadFilesEffect(host, encode, owner, repo, [WorkflowUpload]).requests ==
            UploadTask(host, encode, owner, repo, WorkflowUpload).requests
  {
    var files := [WorkflowUpload];
    assert files[..0] == [] && files[0] == WorkflowUpload;
    var t := UploadTask(host, encode, owner, repo, WorkflowUpload);
    assert Tasks(host, encode, owner, repo, files) == Task([] + t.requests, First(None, t.encodeError), First(None, t.fetchError));
  }

  /** Enabling Pages tolerates a non-ok Pages reply: it succeeds exactly
      when the Pages request is answered (ok or not) and the workflow
      upload succeeds, and then the trace is `enable-pages, upload-files,
      deploy`; a failed workflow upload gives `enable-pages, upload-files,
      upload-files error, enable-pages error`. */
  lemma EnablePagesSpec(host: Request -> Outcome, encode: UploadContent -> Result<string, string>,
                        owner: string, repo: string)
    ensures var e := EnablePagesEffect(host, encode, owner, repo);
            var answered := host(PagesRequest(owner, repo)).Response?;
            var uploadFails := TaskFails(host, encode, owner, repo, WorkflowUpload);
            (e.result.Ok? <==> answered && !uploadFails) &&
            (e.result.Ok? ==> e.statuses == [Started(Step.EnablePages), Started(Step.UploadFiles), Started(Deploy)]) &&
            (answered && uploadFails ==>
               e.statuses == [Started(Step.EnablePages), Started(Step.UploadFiles),
                              Failed(Step.UploadFiles, UploadStepFailure), Failed(Step.EnablePages, PagesStepFailure)]) &&
            (!answered ==> e.statuses == [Started(Step.EnablePages), Failed(Step.EnablePages, PagesStepFailure)] &&
                           e.requests == [PagesRequest(owner, repo)])
  {
    WorkflowUploadSpec(host, encode, owner, repo);
  }

  /** Once the Pages request is answered, enabling Pages uploads exactly
      one file: the requests are the Pages request and, when the workflow
      encodes, one PUT of `.github/workflows/deploy.yml`. */
  lemma EnablePagesRequests(host: Request -> Outcome, encode: UploadContent -> Result<string, string>,
                            owner: string, repo: string)
    ensures var body := encode(WorkflowUpload.content);
            host(PagesRequest(owner, repo)).Response? ==>
              EnablePagesEffect(host, encode, owner, repo).requests ==
              [PagesRequest(owner, repo)] +
              if body.Ok? then [PutContents(ContentsUrl(owner, repo, ".github/workflows/deploy.yml"),
                                            "Add " + ".github/workflows/deploy.yml", body.value)]
              else []
  {
    WorkflowUploadSpec(host, encode, owner, repo);
    WorkflowPut(host, encode, owner, repo);
  }

  /** The workflow task's requests, with the path written out. */
  lemma WorkflowPut(host: Request -> Outcome, encode: UploadContent -> Result<string, string>,
                    owner: string, repo: string)
    ensures var body := encode(WorkflowUpload.content);
            UploadTask(host, encode, owner, repo, WorkflowUpload).requests ==
            if body.Ok? then [PutContents(ContentsUrl(owner, repo, ".github/workflows/deploy.yml"),
                                          "Add " + ".github/workflows/deploy.yml", body.value)]
            else []
  {
    var path := WorkflowUpload.path;
    assert path == ".github/workflows/deploy.yml";
    assert ContentsUrl(owner, repo, path) == ContentsUrl(owner, repo, ".github/workflows/deploy.yml");
  }

  /** The errors these calls throw are plain errors: none has a `step`. */
  lemma ErrorsCarryNoStep(host: Request -> Outcome, encode: UploadContent -> Result<string, string>,
                          name: string, owner: string, repo: string, files: seq<Upload>)
    ensures UserEffect(host).result.Err? ==> UserEffect(host).result.error.step == None
    ensures CreateRepositoryEffect(host, name).result.Err? ==> CreateRepositoryEffect(host, name).result.error.step == None
    ensures UploadFilesEffect(host, encode, owner, repo, files).result.Err? ==>
              UploadFilesEffect(host, encode, owner, repo, files).result.error.step == None
    ensures EnablePagesEffect(host, encode, owner, repo).result.Err? ==>
              EnablePagesEffect(host, encode, owner, repo).result.error.step == None
  {
    TasksNoStep(host, encode, owner, repo, files);
    TasksNoStep(host, encode, owner, repo, [WorkflowUpload]);
  }

  lemma {:induction false} TasksNoStep(host: Request -> Outcome, encode: UploadContent -> Result<string, string>,
                                       owner: string, repo: string, files: seq<Upload>)
    ensures var t := Tasks(host, encode, owner, repo, files);
            (t.encodeError.Some? ==> t.encodeError.value.step == None) &&
            (t.fetchError.Some? ==> t.fetchError.value.step == None)
  {
    if files != [] {
      TasksNoStep(host, encode, owner, repo, files[..|files| - 1]);
    }
  }
}
