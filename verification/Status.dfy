/** The annotations the agent keeps on its Node, and the merge patch that writes them. */
module Status {
  import opened Wrappers
  import opened Profile
  import opened Sysfs
  import opened Backend
  import opened SmallHosts
  import opened Reconcile

  /** The parts of a Node that matter here. */
  datatype Node = Node(labels: map<string, string>, annotations: map<string, string>)

  const APPLIED_PROFILE := "cpu-power.io/applied-profile"
  const APPLIED_TURBO := "cpu-power.io/applied-turbo"
  const BACKEND := "cpu-power.io/backend"
  const STATUS := "cpu-power.io/status"

  ghost const MANAGED_KEYS: set<string> := {APPLIED_PROFILE, APPLIED_TURBO, BACKEND, STATUS}

  function KindName(kind: BackendKind): string {
    match kind
    case IntelEpp => "intel_epp"
    case AmdEpp => "amd_epp"
    case UnknownEpp => "unknown_epp"
    case GovernorFallback => "governor_fallback"
    case UnsupportedKind => "unsupported"
  }

  function TurboName(r: Report): string {
    match r.turbo
    case Some(enabled) => if enabled then "enabled" else "disabled"
    case None => if r.turboUnsupported then "unsupported" else "unmanaged"
  }

  function DesiredAnnotations(r: Report): map<string, string> {
    map[APPLIED_PROFILE := AsKernelStr(r.profile),
        APPLIED_TURBO := TurboName(r),
        BACKEND := KindName(r.kind),
        STATUS := ResultLabel(r)]
  }

  predicate NeedsPatch(current: map<string, string>, desired: map<string, string>) {
    exists key :: key in desired && !(key in current && current[key] == desired[key])
  }

  /** The effect of the merge patch on the annotations. */
  function Merged(current: map<string, string>, desired: map<string, string>): map<string, string> {
    current + desired
  }

  // ---------- the guard and the patch ----------

  /** The guard is exact: it asks for a patch if and only if the patch would change something. */
  lemma GuardIsExact(current: map<string, string>, desired: map<string, string>)
    ensures NeedsPatch(current, desired) <==> Merged(current, desired) != current
  {
    if !NeedsPatch(current, desired) {
      assert Merged(current, desired) == current;
    } else {
      var key :| key in desired && !(key in current && current[key] == desired[key]);
      assert key in Merged(current, desired) && Merged(current, desired)[key] == desired[key];
    }
  }

  /** A patch settles its own guard, keeps foreign annotations, and erases every earlier patch of the same keys. */
  lemma PatchSettles(current: map<string, string>, earlier: map<string, string>, desired: map<string, string>)
    requires earlier.Keys <= desired.Keys
    ensures !NeedsPatch(Merged(current, desired), desired)
    ensures forall key :: key !in desired ==>
              (key in Merged(current, desired) <==> key in current)
              && (key in current ==> Merged(current, desired)[key] == current[key])
    ensures Merged(Merged(current, earlier), desired) == Merged(current, desired)
  {
  }

  // ---------- the patch as a JSON document ----------

  /** JSON values; numbers, booleans and arrays behave alike under a merge and share a constructor. */
  datatype Json = Null | Text(text: string) | Other(literal: string) | Object(members: map<string, Json>)

  /** Merge patch, section 2 of RFC 7396. */
  function MergePatch(target: Json, patch: Json): Json
    decreases patch
  {
    match patch
    case Object(changes) =>
      var members := if target.Object? then target.members else map[];
      Object(map k | k in members.Keys + changes.Keys && !(k in changes && changes[k].Null?) ::
               if k in changes then MergePatch(if k in members then members[k] else Null, changes[k]) else members[k])
    case _ => patch
  }

  function TextMembers(m: map<string, string>): map<string, Json> {
    map k | k in m :: Text(m[k])
  }

  function PatchDocument(desired: map<string, string>): Json {
    Object(map["metadata" := Object(map["annotations" := Object(TextMembers(desired))])])
  }

  /** Fills the patch's annotation object key by key. */
  method BuildPatch(desired: map<string, string>) returns (patch: Json)
    ensures patch == PatchDocument(desired)
  {
    var annotations: map<string, Json> := map[];
    var left := desired.Keys;
    while left != {}
      invariant left <= desired.Keys
      invariant annotations.Keys == desired.Keys - left
      invariant forall k :: k in annotations ==> annotations[k] == Text(desired[k])
      decreases left
    {
      var key :| key in left;
      annotations := annotations[key := Text(desired[key])];
      left := left - {key};
    }
    assert annotations == TextMembers(desired);
    patch := Object(map["metadata" := Object(map["annotations" := Object(annotations)])]);
  }

  ghost predicate FieldIs(members: map<string, Json>, key: string, m: map<string, string>) {
    if key in members then members[key] == Object(TextMembers(m)) else m == map[]
  }

  /** The document is a Node with these labels and annotations, and anything else besides. */
  ghost predicate Encodes(doc: Json, node: Node) {
    && doc.Object? && "metadata" in doc.members && doc.members["metadata"].Object?
    && FieldIs(doc.members["metadata"].members, "labels", node.labels)
    && FieldIs(doc.members["metadata"].members, "annotations", node.annotations)
  }

  ghost predicate SameMembersExcept(a: map<string, Json>, b: map<string, Json>, key: string) {
    forall k :: k != key ==> (k in a <==> k in b) && (k in a ==> a[k] == b[k])
  }

  /** One member of a merged object. */
  lemma MergeMember(members: map<string, Json>, changes: map<string, Json>, k: string)
    ensures var r := MergePatch(Object(members), Object(changes)).members;
            && (k !in changes ==> (k in r <==> k in members) && (k in r ==> r[k] == members[k]))
            && (k in changes && changes[k].Null? ==> k !in r)
            && (k in changes && !changes[k].Null? ==>
                  k in r && r[k] == MergePatch(if k in members then members[k] else Null, changes[k]))
  {
  }

  lemma MergeTexts(m: map<string, string>, desired: map<string, string>)
    ensures MergePatch(Object(TextMembers(m)), Object(TextMembers(desired))) == Object(TextMembers(Merged(m, desired)))
  {
    var changes := TextMembers(desired);
    var r := MergePatch(Object(TextMembers(m)), Object(changes)).members;
    var expected := TextMembers(Merged(m, desired));
    forall k ensures (k in r <==> k in expected) && (k in r ==> r[k] == expected[k]) {
      MergeMember(TextMembers(m), changes, k);
      assert k in changes ==> changes[k] == Text(desired[k]);
    }
    assert r == expected;
  }

  /** Sending the patch overlays the four annotations and touches nothing else of the Node:
      not its labels, not other annotations, not any other member of the document. */
  lemma PatchTouchesOnlyAnnotations(doc: Json, node: Node, desired: map<string, string>)
    requires Encodes(doc, node)
    ensures var doc' := MergePatch(doc, PatchDocument(desired));
            && Encodes(doc', node.(annotations := Merged(node.annotations, desired)))
            && SameMembersExcept(doc.members, doc'.members, "metadata")
            && SameMembersExcept(doc.members["metadata"].members, doc'.members["metadata"].members, "annotations")
  {
    var texts := Object(TextMembers(desired));
    var change := map["annotations" := texts];
    var meta := doc.members["metadata"].members;
    var doc' := MergePatch(doc, PatchDocument(desired)).members;
    forall k | k != "metadata" ensures (k in doc.members <==> k in doc') && (k in doc' ==> doc'[k] == doc.members[k]) {
      MergeMember(doc.members, map["metadata" := Object(change)], k);
    }
    MergeMember(doc.members, map["metadata" := Object(change)], "metadata");
    var meta' := MergePatch(Object(meta), Object(change)).members;
    assert doc'["metadata"].members == meta';
    forall k | k != "annotations" ensures (k in meta <==> k in meta') && (k in meta' ==> meta'[k] == meta[k]) {
      MergeMember(meta, change, k);
    }
    MergeMember(meta, change, "annotations");
    MergeTexts(node.annotations, desired);
    assert TextMembers(map[]) == map[];
    assert MergePatch(Null, texts) == MergePatch(Object(map[]), texts);
    assert |"labels"| == 6 && |"annotations"| == 11;
  }

  // ---------- where the documentation says more than the code does ----------

  /** The backends that have a turbo control to drive. */
  predicate DrivesTurbo(b: Backend) {
    b.Epp? && b.vendor != UnknownVendor
  }

  predicate TurboRequested(labels: Labels) {
    labels.turbo.Some? && TurboLabelValid(labels.turbo)
  }

  /** What a reconcile in this environment shows as the applied turbo state. */
  function ShownTurbo(b: Backend, host: Host, boost: bool, labels: Labels): string {
    DesiredAnnotations(ReportOf(b, host, boost, labels))[APPLIED_TURBO]
  }

  /** The documentation promises "unsupported" for a turbo request that the detected backend cannot drive. */
  ghost predicate TurboPromiseKept(b: Backend, host: Host, boost: bool, labels: Labels) {
    !DrivesTurbo(b) && TurboRequested(labels) ==> ShownTurbo(b, host, boost, labels) == "unsupported"
  }

  /** The code shows the requested value instead, on every backend, and never "unsupported": the promise is
      kept exactly when the backend drives turbo or nothing valid is requested. */
  lemma TurboAnnotationExactly(b: Backend, host: Host, boost: bool, labels: Labels)
    ensures TurboPromiseKept(b, host, boost, labels) <==> DrivesTurbo(b) || !TurboRequested(labels)
    ensures TurboRequested(labels) ==> ShownTurbo(b, host, boost, labels) == labels.turbo.value
    ensures ShownTurbo(b, host, boost, labels) != "unsupported"
  {
    assert |"enabled"| == 7 && |"disabled"| == 8 && |"unsupported"| == 11 && |"unmanaged"| == 9;
    assert |APPLIED_PROFILE| == 28 && |APPLIED_TURBO| == 26 && |BACKEND| == 20 && |STATUS| == 19;
    assert ShownTurbo(b, host, boost, labels) == TurboName(ReportOf(b, host, boost, labels));
  }

  /** Inputs on which the promise fails, on hosts that detection really classifies this way: turbo requested
      where there is no cpufreq at all, and on a governor-only host. */
  lemma TurboAnnotationCounterexample(accepts: (Path, string) -> bool)
    ensures Detects(BareHost(accepts), map[], Unsupported)
         && ShownTurbo(Unsupported, BareHost(accepts), false, Labels(None, Some("enabled"))) == "enabled"
    ensures var governor := Governor([GovernorHostPolicy(accepts)]);
            Detects(GovernorHost(accepts), GovernorFiles(), governor)
            && ShownTurbo(governor, GovernorHost(accepts), false, Labels(None, Some("enabled"))) == "enabled"
  {
    var labels := Labels(None, Some("enabled"));
    BareHostDetected(accepts);
    GovernorHostDetected(accepts);
    TurboAnnotationExactly(Unsupported, BareHost(accepts), false, labels);
    TurboAnnotationExactly(Governor([GovernorHostPolicy(accepts)]), GovernorHost(accepts), false, labels);
  }
}
