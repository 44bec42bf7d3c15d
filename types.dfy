/** Shared vocabulary of the artifact-to-deployment pipeline: the step names
    and status events reported through `onStatus`, the file records produced
    by the artifact parser, and the configuration constants. */
module Types {

  datatype Option<+T> = None | Some(value: T)

  /** A call that either returns a value or throws an error. */
  datatype Result<+T, +E> = Ok(value: T) | Err(error: E)

  /** The steps a deployment moves through, in the order they are reported. */
  datatype Step = Init | CreateRepo | UploadFiles | EnablePages | Deploy

  /** One event passed to `onStatus`; `error` is set when the step failed. */
  datatype DeploymentStatus = DeploymentStatus(step: Step, error: Option<string>)

  /** The event announcing that `step` has started. */
  function Started(step: Step): DeploymentStatus {
    DeploymentStatus(step, None)
  }

  /** The event reporting that `step` failed with the user-facing `message`. */
  function Failed(step: Step, message: string): DeploymentStatus {
    DeploymentStatus(step, Some(message))
  }

  /** One file recovered from an artifact spec. */
  datatype FileRecord = FileRecord(path: string, content: string)

  /** The deployment workflow descriptor that is uploaded as an object. */
  datatype WorkflowDescriptor = WorkflowDescriptor(name: string, ref: string, path: string)

  const DeployWorkflow: WorkflowDescriptor :=
    WorkflowDescriptor("Deploy Swiftie App", "refs/heads/main", ".github/workflows/deploy.yml")

  /** Largest accepted artifact file, in bytes (5 MiB). */
  const MaxFileSize: nat := 5 * 1024 * 1024
}
