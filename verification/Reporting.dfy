/** What the agent reports for two labels, told in label, file and annotation texts alone. */
module Reporting {
  import opened Wrappers
  import opened Profile
  import opened Sysfs
  import opened Errors
  import opened Backend
  import opened Hardware
  import opened Reconcile
  import opened Status

  /** A valid turbo request that its file does not accept. */
  ghost predicate TurboRefused(b: Backend, host: Host, boostPresent: bool, turbo: Option<string>) {
    && DrivesTurbo(b)
    && ((turbo == Some("enabled") && !CanSetTurbo(b.vendor, host, boostPresent, true))
        || (turbo == Some("disabled") && !CanSetTurbo(b.vendor, host, boostPresent, false)))
  }

  /** Something the labels validly ask for, or default to, cannot be done here. */
  ghost predicate Fails(b: Backend, host: Host, boostPresent: bool, labels: Labels) {
    !CanApply(b, host, ProfileText(labels.profile)) || TurboRefused(b, host, boostPresent, labels.turbo)
  }

  ghost function StatusText(b: Backend, host: Host, boostPresent: bool, labels: Labels): string {
    if Fails(b, host, boostPresent, labels) then "error"
    else if !ProfileLabelValid(labels.profile) || !TurboLabelValid(labels.turbo) then "invalid_label"
    else if b.Unsupported? then "unsupported"
    else "ok"
  }

  ghost function ShownTurboText(turbo: Option<string>): string {
    if turbo == Some("enabled") then "enabled" else if turbo == Some("disabled") then "disabled" else "unmanaged"
  }

  ghost function BackendText(b: Backend): string {
    match b
    case Epp(_, Intel) => "intel_epp"
    case Epp(_, Amd) => "amd_epp"
    case Epp(_, UnknownVendor) => "unknown_epp"
    case Governor(_) => "governor_fallback"
    case Unsupported => "unsupported"
  }

  /** Every part of a report: which labels were rejected and what for, which of the two calls failed and how. */
  lemma ReportExactly(b: Backend, host: Host, boostPresent: bool, labels: Labels)
    ensures var report := ReportOf(b, host, boostPresent, labels);
            && report.profileInvalid == (if ProfileLabelValid(labels.profile) then None else labels.profile)
            && report.turboInvalid == (if TurboLabelValid(labels.turbo) then None else labels.turbo)
            && (report.turbo == Some(true) <==> labels.turbo == Some("enabled"))
            && (report.turbo == Some(false) <==> labels.turbo == Some("disabled"))
            && (report.profileError.None? <==> CanApply(b, host, ProfileText(labels.profile)))
            && (report.turboError.Some? <==> TurboRefused(b, host, boostPresent, labels.turbo))
            && (report.turboUnsupported <==>
                  (b.Governor? || (b.Epp? && !DrivesTurbo(b))) && labels.turbo in [Some("enabled"), Some("disabled")])
  {
    ProfileLabelParses(labels.profile);
    CanApplyExactly(b, host, ParseProfileLabel(labels.profile).0);
    TurboOutcomeExactly(b, host, boostPresent, true);
    TurboOutcomeExactly(b, host, boostPresent, false);
    assert |"enabled"| == 7 && |"disabled"| == 8;
  }

  /** The errors are those of the two calls, on whatever files are there. */
  lemma ReportedErrors(b: Backend, host: Host, files: Files, labels: Labels, profile: PowerProfile, enabled: bool)
    requires AsKernelStr(profile) == ProfileText(labels.profile)
    ensures var report := CalledReport(b, host, files, labels);
            var (applied, a) := Applied(b, host, files, profile);
            var t := TurboSet(b, host, applied, enabled).1;
            && (forall e :: report.profileError == Some(e) <==> a == Failure(e))
            && (labels.turbo == Some(if enabled then "enabled" else "disabled") ==>
                  forall e :: report.turboError == Some(e) <==> t == Failure(e) && e != TurboUnsupported)
  {
    ProfileLabelParses(labels.profile);
    ParseInvertsPrint(AsKernelStr(profile), profile);
    ParseInvertsPrint(AsKernelStr(profile), ParseProfileLabel(labels.profile).0);
    assert |"enabled"| == 7 && |"disabled"| == 8;
  }

  /** The status for every backend and all labels: an apply error outranks an invalid label, which outranks
      "unsupported". A turbo request that the backend cannot drive is no error. */
  lemma StatusExactly(b: Backend, host: Host, boostPresent: bool, labels: Labels)
    ensures ResultLabel(ReportOf(b, host, boostPresent, labels)) == StatusText(b, host, boostPresent, labels)
  {
    ReportExactly(b, host, boostPresent, labels);
  }

  /** The four annotations, key by key. */
  lemma AnnotationTexts(b: Backend, host: Host, boostPresent: bool, labels: Labels)
    ensures DesiredAnnotations(ReportOf(b, host, boostPresent, labels))
         == map["cpu-power.io/applied-profile" := ProfileText(labels.profile),
                "cpu-power.io/applied-turbo" := ShownTurboText(labels.turbo),
                "cpu-power.io/backend" := BackendText(b),
                "cpu-power.io/status" := StatusText(b, host, boostPresent, labels)]
  {
    var report := ReportOf(b, host, boostPresent, labels);
    ReportExactly(b, host, boostPresent, labels);
    StatusExactly(b, host, boostPresent, labels);
    ProfileLabelParses(labels.profile);
    if report.turbo.None? {
      TurboOutcomeExactly(b, host, boostPresent, true);
    }
  }
}
