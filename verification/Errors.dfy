/** The errors of the power HAL, without their message text. */
module Errors {
  import opened Sysfs

  datatype PowerError =
    | Io(path: Path)
    | InvalidProfile(value: string)
    | UnsupportedProfile(policy: nat, profile: string, available: seq<string>)
    | TurboUnsupported
}
