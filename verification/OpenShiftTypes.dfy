/** Values shared by the OpenShift datasource and the service that serves it. */
module OpenShiftTypes {

  type byte = x: int | 0 <= x < 256

  /** Advisory text is measured in bytes of UTF-8. */
  type Text = seq<byte>

  datatype Release = Release(
    version: string,
    isDeprecated: bool,
    changelogContent: Text,
    changelogURL: string,
    digest: string)

  datatype UpdateRequest = UpdateRequest(channel: string, architecture: string, currentVersion: string, lag: int)
}
