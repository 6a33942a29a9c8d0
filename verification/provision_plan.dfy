/** The post-install catalog and the planner over it. */
module ProvisionPlanning {
  import opened Wrappers
  import opened Text
  import opened ResourcePolicy

  const GIB: U64 := 1024 * 1024 * 1024
  const MIN_DISK_RESERVE: U64 := 4 * 1024 * 1024 * 1024
  const RUNTIME_ID := "flatpak-runtime"

  datatype BundleKind = Flatpak | OciEnvironment | ExternalProvider

  datatype Bundle = Bundle(
    id: string, kind: BundleKind, estimatedBytes: U64, minimumProfile: MachineProfile, source: string)

  const CATALOG: seq<Bundle> := [
    Bundle("rust", OciEnvironment, 2 * GIB, Low, ""),
    Bundle("go", OciEnvironment, GIB, Low, ""),
    Bundle("python", OciEnvironment, GIB, Low, ""),
    Bundle("node", OciEnvironment, 2 * GIB, Balanced, ""),
    Bundle("flutter", OciEnvironment, 5 * GIB, Standard, ""),
    Bundle("android-sdk", OciEnvironment, 8 * GIB, Standard, ""),
    Bundle("android-studio", Flatpak, 3 * GIB, Standard, "com.google.AndroidStudio"),
    Bundle("chrome", Flatpak, GIB, Balanced, "com.google.Chrome"),
    Bundle("java", OciEnvironment, 2 * GIB, Balanced, ""),
    Bundle("qt", OciEnvironment, 3 * GIB, Standard, ""),
    Bundle("cmake", OciEnvironment, 2 * GIB, Balanced, ""),
    Bundle("codex", ExternalProvider, 0, Low, "")]

  datatype ProvisionError =
    | NoBundles
    | UnknownBundle(id: string)
    | ProfileTooSmall(bundle: string, profile: MachineProfile, minimum: MachineProfile)
    | EstimateOverflow
    | InsufficientDisk(available: U64, required: U64)
    | EnvironmentImageRequired
    | InvalidEnvironmentImage(image: string)

  datatype Operation = Operation(bundleId: string, argv: seq<string>)

  datatype Plan = Plan(
    bundleIds: seq<string>, profile: MachineProfile, estimatedBytes: U64, networkRequired: bool,
    operations: seq<Operation>, externalIds: seq<string>)

  datatype Request = Request(
    bundleIds: seq<string>, profile: MachineProfile, availableDiskBytes: U64, environmentImage: Option<string>)

  // ---------------------------------------------------------------------
  // Looking up and selecting bundles
  // ---------------------------------------------------------------------

  function FindIn(catalog: seq<Bundle>, id: string): (r: Option<Bundle>)
    ensures r.Some? ==> r.value in catalog && r.value.id == id
    ensures r.None? ==> forall i :: 0 <= i < |catalog| ==> catalog[i].id != id
  {
    if catalog == [] then None
    else if catalog[0].id == id then Some(catalog[0])
    else
      var r := FindIn(catalog[1..], id);
      assert forall i :: 1 <= i < |catalog| ==> catalog[i] == catalog[1..][i - 1];
      r
  }

  function IdsOf(bundles: seq<Bundle>): (r: seq<string>)
    ensures |r| == |bundles| && forall i :: 0 <= i < |r| ==> r[i] == bundles[i].id
  {
    seq(|bundles|, i requires 0 <= i < |bundles| => bundles[i].id)
  }

  function SelectInto(catalog: seq<Bundle>, chosen: seq<Bundle>, ids: seq<string>, profile: MachineProfile)
    : Result<seq<Bundle>, ProvisionError>
    decreases ids
  {
    if ids == [] then Ok(chosen)
    else
      match FindIn(catalog, ids[0])
      case None => Err(UnknownBundle(ids[0]))
      case Some(bundle) =>
        if ids[0] in IdsOf(chosen) then SelectInto(catalog, chosen, ids[1..], profile)
        else if profile.Rank() < bundle.minimumProfile.Rank() then
          Err(ProfileTooSmall(ids[0], profile, bundle.minimumProfile))
        else SelectInto(catalog, chosen + [bundle], ids[1..], profile)
  }

  /** Every entry the first time it occurs, in order. */
  function FirstOccurrences(ids: seq<string>): seq<string> {
    if ids == [] then []
    else
      var n := |ids| - 1;
      FirstOccurrences(ids[..n]) + (if ids[n] in ids[..n] then [] else [ids[n]])
  }

  predicate Admits(catalog: seq<Bundle>, profile: MachineProfile, id: string) {
    FindIn(catalog, id).Some? && FindIn(catalog, id).value.minimumProfile.Rank() <= profile.Rank()
  }

  /** Each bundle is the catalog's own entry for its identifier. */
  predicate FromCatalog(catalog: seq<Bundle>, bundles: seq<Bundle>) {
    forall i :: 0 <= i < |bundles| ==> FindIn(catalog, bundles[i].id) == Some(bundles[i])
  }

  predicate Distinct(s: seq<string>) {
    forall i, j :: 0 <= i < j < |s| ==> s[i] != s[j]
  }

  lemma {:induction false} FirstOccurrencesAreDistinct(ids: seq<string>)
    ensures Distinct(FirstOccurrences(ids))
    ensures forall x :: x in FirstOccurrences(ids) <==> x in ids
  {
    if ids != [] {
      var n := |ids| - 1;
      FirstOccurrencesAreDistinct(ids[..n]);
      assert ids == ids[..n] + [ids[n]];
    }
  }

  lemma FirstOccurrencesStep(ids: seq<string>, k: nat)
    requires k < |ids|
    ensures ids[..k + 1] == ids[..k] + [ids[k]]
    ensures FirstOccurrences(ids[..k + 1])
      == FirstOccurrences(ids[..k]) + (if ids[k] in ids[..k] then [] else [ids[k]])
  {
  }

  /** The error names entry `i`, which is unknown or needs a larger machine. */
  predicate Offends(catalog: seq<Bundle>, profile: MachineProfile, id: string, e: ProvisionError) {
    match FindIn(catalog, id)
    case None => e == UnknownBundle(id)
    case Some(b) =>
      b.minimumProfile.Rank() > profile.Rank() && e == ProfileTooSmall(id, profile, b.minimumProfile)
  }

  /** Entry `i` is the first from `k` on, repetitions of `ids[..k]` aside, that may not be admitted. */
  ghost predicate FirstOffence(catalog: seq<Bundle>, profile: MachineProfile, ids: seq<string>, k: nat, i: nat, e: ProvisionError) {
    && k <= i < |ids| && Offends(catalog, profile, ids[i], e)
    && forall j :: k <= j < i && ids[j] !in ids[..k] ==> Admits(catalog, profile, ids[j])
  }

  lemma OffenceFromEarlier(catalog: seq<Bundle>, profile: MachineProfile, ids: seq<string>, k: nat, i: nat, e: ProvisionError)
    requires k < |ids| && (ids[k] in ids[..k] || Admits(catalog, profile, ids[k]))
    requires FirstOffence(catalog, profile, ids, k + 1, i, e)
    ensures FirstOffence(catalog, profile, ids, k, i, e)
  {
  }

  /** What the outcome says about the entries from `k` on. */
  ghost predicate OutcomeIsExact(catalog: seq<Bundle>, ids: seq<string>, k: nat, profile: MachineProfile, r: Result<seq<Bundle>, ProvisionError>)
    requires k <= |ids|
  {
    match r
    case Ok(bundles) =>
      && FromCatalog(catalog, bundles) && IdsOf(bundles) == FirstOccurrences(ids)
      && forall i :: k <= i < |ids| && ids[i] !in ids[..k] ==> Admits(catalog, profile, ids[i])
    case Err(e) => exists i: nat :: FirstOffence(catalog, profile, ids, k, i, e)
  }

  lemma OutcomeFromEarlier(catalog: seq<Bundle>, ids: seq<string>, k: nat, profile: MachineProfile, r: Result<seq<Bundle>, ProvisionError>)
    requires k < |ids| && (ids[k] in ids[..k] || Admits(catalog, profile, ids[k]))
    requires OutcomeIsExact(catalog, ids, k + 1, profile, r)
    ensures OutcomeIsExact(catalog, ids, k, profile, r)
  {
    FirstOccurrencesStep(ids, k);
    if r.Err? {
      var i: nat :| FirstOffence(catalog, profile, ids, k + 1, i, r.error);
      OffenceFromEarlier(catalog, profile, ids, k, i, r.error);
    }
  }

  lemma SelectionStep(catalog: seq<Bundle>, chosen: seq<Bundle>, ids: seq<string>, k: nat, profile: MachineProfile)
    requires k < |ids|
    ensures SelectInto(catalog, chosen, ids[k..], profile)
      == match FindIn(catalog, ids[k])
         case None => Err(UnknownBundle(ids[k]))
         case Some(bundle) =>
           if ids[k] in IdsOf(chosen) then SelectInto(catalog, chosen, ids[k + 1..], profile)
           else if profile.Rank() < bundle.minimumProfile.Rank() then
             Err(ProfileTooSmall(ids[k], profile, bundle.minimumProfile))
           else SelectInto(catalog, chosen + [bundle], ids[k + 1..], profile)
  {
    assert ids[k..][0] == ids[k] && ids[k..][1..] == ids[k + 1..];
  }

  /** The loop after the prefix `ids[..k]`, and the outcome it is heading for. */
  lemma {:induction false} SelectionFollowsPrefix(catalog: seq<Bundle>, chosen: seq<Bundle>, ids: seq<string>, k: nat, profile: MachineProfile)
    requires k <= |ids| && FromCatalog(catalog, chosen) && IdsOf(chosen) == FirstOccurrences(ids[..k])
    ensures OutcomeIsExact(catalog, ids, k, profile, SelectInto(catalog, chosen, ids[k..], profile))
    decreases |ids| - k
  {
    if k == |ids| {
      assert ids[..k] == ids;
    } else {
      var r := SelectInto(catalog, chosen, ids[k..], profile);
      SelectionStep(catalog, chosen, ids, k, profile);
      FirstOccurrencesStep(ids, k);
      FirstOccurrencesAreDistinct(ids[..k]);
      var item := FindIn(catalog, ids[k]);
      if item.None? || (ids[k] !in ids[..k] && profile.Rank() < item.value.minimumProfile.Rank()) {
        assert FirstOffence(catalog, profile, ids, k, k, r.error);
      } else {
        var next := if ids[k] in ids[..k] then chosen else chosen + [item.value];
        assert IdsOf(next) == FirstOccurrences(ids[..k + 1]);
        SelectionFollowsPrefix(catalog, next, ids, k + 1, profile);
        OutcomeFromEarlier(catalog, ids, k, profile, r);
      }
    }
  }

  /** Selection keeps first occurrences in order, and fails exactly on the first entry it may not admit. */
  lemma SelectionIsExact(catalog: seq<Bundle>, ids: seq<string>, profile: MachineProfile)
    ensures var r := SelectInto(catalog, [], ids, profile);
      && (r.Ok? <==> forall i :: 0 <= i < |ids| ==> Admits(catalog, profile, ids[i]))
      && (r.Ok? ==> FromCatalog(catalog, r.value) && IdsOf(r.value) == FirstOccurrences(ids))
      && (r.Err? ==> exists i: nat :: FirstOffence(catalog, profile, ids, 0, i, r.error))
  {
    assert ids[0..] == ids && ids[..0] == [];
    SelectionFollowsPrefix(catalog, [], ids, 0, profile);
    var r := SelectInto(catalog, [], ids, profile);
    if r.Err? {
      var i: nat :| FirstOffence(catalog, profile, ids, 0, i, r.error);
      assert !Admits(catalog, profile, ids[i]);
    }
  }

  /** The selection loop of `plan`. */
  method SelectBundles(catalog: seq<Bundle>, ids: seq<string>, profile: MachineProfile)
    returns (r: Result<seq<Bundle>, ProvisionError>)
    ensures r == SelectInto(catalog, [], ids, profile)
  {
    var selected: seq<Bundle> := [];
    assert ids[0..] == ids;
    for i := 0 to |ids|
      invariant SelectInto(catalog, [], ids, profile) == SelectInto(catalog, selected, ids[i..], profile)
    {
      assert ids[i..][0] == ids[i] && ids[i..][1..] == ids[i + 1..];
      var bundle := FindIn(catalog, ids[i]);
      if bundle.None? { return Err(UnknownBundle(ids[i])); }
      if ids[i] !in IdsOf(selected) {
        if profile.Rank() < bundle.value.minimumProfile.Rank() {
          return Err(ProfileTooSmall(ids[i], profile, bundle.value.minimumProfile));
        }
        selected := selected + [bundle.value];
      }
    }
    return Ok(selected);
  }

  // ---------------------------------------------------------------------
  // Estimates
  // ---------------------------------------------------------------------

  function Total(bundles: seq<Bundle>): nat {
    if bundles == [] then 0 else bundles[0].estimatedBytes + Total(bundles[1..])
  }

  /** The checked sum the planner folds, from a running total. */
  function CheckedTotal(total: U64, bundles: seq<Bundle>): Option<U64>
    decreases bundles
  {
    if bundles == [] then Some(total)
    else if total + bundles[0].estimatedBytes > U64_MAX then None
    else CheckedTotal(total + bundles[0].estimatedBytes, bundles[1..])
  }

  lemma {:induction false} CheckedTotalIsExact(total: U64, bundles: seq<Bundle>)
    ensures CheckedTotal(total, bundles)
      == if total + Total(bundles) <= U64_MAX then Some(total + Total(bundles)) else None
    decreases bundles
  {
    if bundles != [] && total + bundles[0].estimatedBytes <= U64_MAX {
      CheckedTotalIsExact(total + bundles[0].estimatedBytes, bundles[1..]);
    }
  }

  method SumEstimates(bundles: seq<Bundle>) returns (estimate: Option<U64>)
    ensures estimate == CheckedTotal(0, bundles)
  {
    var total: U64 := 0;
    assert bundles[0..] == bundles;
    for i := 0 to |bundles|
      invariant CheckedTotal(0, bundles) == CheckedTotal(total, bundles[i..])
    {
      assert bundles[i..][0] == bundles[i] && bundles[i..][1..] == bundles[i + 1..];
      if total + bundles[i].estimatedBytes > U64_MAX { return None; }
      total := total + bundles[i].estimatedBytes;
    }
    return Some(total);
  }

  function Without(bundles: seq<Bundle>, i: nat): seq<Bundle>
    requires i < |bundles|
  {
    bundles[..i] + bundles[i + 1..]
  }

  lemma {:induction false} TotalWithout(bundles: seq<Bundle>, i: nat)
    requires i < |bundles|
    ensures Total(bundles) == bundles[i].estimatedBytes + Total(Without(bundles, i))
  {
    if i == 0 {
      assert Without(bundles, 0) == bundles[1..];
    } else {
      TotalWithout(bundles[1..], i - 1);
      assert Without(bundles, i) == [bundles[0]] + Without(bundles[1..], i - 1);
    }
  }

  lemma WithoutStaysDistinct(bundles: seq<Bundle>, i: nat)
    requires i < |bundles| && Distinct(IdsOf(bundles))
    ensures Distinct(IdsOf(Without(bundles, i)))
    ensures forall j :: 0 <= j < |bundles| - 1 ==> Without(bundles, i)[j].id != bundles[i].id
  {
  }

  /** Distinct entries of a catalog never add up to more than the whole catalog. */
  lemma {:induction false} DistinctTotalIsBounded(catalog: seq<Bundle>, bundles: seq<Bundle>)
    requires FromCatalog(catalog, bundles) && Distinct(IdsOf(bundles))
    ensures Total(bundles) <= Total(catalog)
    decreases catalog
  {
    if catalog == [] {
      assert |bundles| > 0 ==> FindIn(catalog, bundles[0].id).Some?;
    } else if i: nat :| i < |bundles| && bundles[i].id == catalog[0].id {
      var rest := Without(bundles, i);
      WithoutStaysDistinct(bundles, i);
      assert FromCatalog(catalog[1..], rest);
      DistinctTotalIsBounded(catalog[1..], rest);
      TotalWithout(bundles, i);
      assert bundles[i] == catalog[0];
    } else {
      DistinctTotalIsBounded(catalog[1..], bundles);
    }
  }

  lemma {:induction false} TotalIsBounded(bundles: seq<Bundle>, bound: nat)
    requires forall i :: 0 <= i < |bundles| ==> bundles[i].estimatedBytes <= bound
    ensures Total(bundles) <= |bundles| * bound
  {
    if bundles != [] { TotalIsBounded(bundles[1..], bound); }
  }

  // ---------------------------------------------------------------------
  // Images
  // ---------------------------------------------------------------------

  const DIGEST_MARK := "@sha256:"
  const MARK_LENGTH := 8

  predicate MarkAt(image: string, at: nat) {
    at + MARK_LENGTH <= |image| && image[at..at + MARK_LENGTH] == DIGEST_MARK
  }

  /** The last place where the marker occurs, as `rsplit_once` finds it. */
  function LastMark(image: string, from: nat): (r: Option<nat>)
    ensures r.Some? ==> r.value <= from && MarkAt(image, r.value)
  {
    if MarkAt(image, from) then Some(from)
    else if from == 0 then None
    else LastMark(image, from - 1)
  }

  predicate IsHexDigit(c: char) { IsAsciiDigit(c) || 'a' <= c <= 'f' || 'A' <= c <= 'F' }

  predicate ValidName(name: string) {
    name != "" && forall i :: 0 <= i < |name| ==> !IsWhitespace(name[i])
  }

  predicate ValidDigest(digest: string) {
    |digest| == 64 && forall i :: 0 <= i < 64 ==> IsHexDigit(digest[i])
  }

  predicate ValidImage(image: string) {
    var at := LastMark(image, |image|);
    at.Some? && ValidName(image[..at.value]) && ValidDigest(image[at.value + MARK_LENGTH..])
  }

  lemma {:induction false} LastMarkIsLast(image: string, from: nat, at: nat)
    requires at <= from && MarkAt(image, at)
    requires forall i: nat :: at < i <= from ==> !MarkAt(image, i)
    ensures LastMark(image, from) == Some(at)
  {
    if from > at { LastMarkIsLast(image, from - 1, at); }
  }

  ghost predicate PinnedAs(image: string, name: string, digest: string) {
    ValidName(name) && ValidDigest(digest) && image == name + DIGEST_MARK + digest
  }

  lemma MarkStartsWithAt(image: string, i: nat)
    ensures i < |image| && image[i] != '@' ==> !MarkAt(image, i)
  {
  }

  lemma PinnedIsValid(image: string, name: string, digest: string)
    requires PinnedAs(image, name, digest)
    ensures ValidImage(image)
  {
    var at := |name|;
    assert MarkAt(image, at);
    forall i: nat | at < i <= |image| ensures !MarkAt(image, i) {
      if i < |image| {
        assert image[i] == (if i < at + MARK_LENGTH then DIGEST_MARK[i - at] else digest[i - at - MARK_LENGTH]);
        MarkStartsWithAt(image, i);
      }
    }
    LastMarkIsLast(image, |image|, at);
    assert image[..at] == name && image[at + MARK_LENGTH..] == digest;
  }

  /** Exactly a name without white space, the marker and 64 hexadecimal digits make a pinned image. */
  lemma PinnedImagesHaveOneShape(image: string)
    ensures ValidImage(image) <==> exists name, digest :: PinnedAs(image, name, digest)
  {
    if ValidImage(image) {
      var at := LastMark(image, |image|).value;
      assert image == image[..at] + image[at..at + MARK_LENGTH] + image[at + MARK_LENGTH..];
      assert PinnedAs(image, image[..at], image[at + MARK_LENGTH..]);
    }
    if name, digest :| PinnedAs(image, name, digest) { PinnedIsValid(image, name, digest); }
  }

  // ---------------------------------------------------------------------
  // The plan
  // ---------------------------------------------------------------------

  function OperationFor(bundle: Bundle, image: string): Operation {
    if bundle.kind.Flatpak? then
      Operation(bundle.id, ["/usr/bin/flatpak", "install", "--user", "--noninteractive", "flathub", bundle.source])
    else Operation(bundle.id, ["/usr/bin/podman", "pull", image])
  }

  function RemoteAdd(): Operation {
    Operation(RUNTIME_ID, ["/usr/bin/flatpak", "remote-add", "--user", "--if-not-exists", "flathub",
      "https://dl.flathub.org/repo/flathub.flatpakrepo"])
  }

  predicate AnyOfKind(bundles: seq<Bundle>, kind: BundleKind) {
    exists i :: 0 <= i < |bundles| && bundles[i].kind == kind
  }

  function BundleOperations(bundles: seq<Bundle>, image: string): seq<Operation> {
    if bundles == [] then []
    else
      var n := |bundles| - 1;
      BundleOperations(bundles[..n], image)
      + (if bundles[n].kind.ExternalProvider? then [] else [OperationFor(bundles[n], image)])
  }

  function ExternalsOf(bundles: seq<Bundle>): seq<string> {
    if bundles == [] then []
    else
      var n := |bundles| - 1;
      ExternalsOf(bundles[..n]) + (if bundles[n].kind.ExternalProvider? then [bundles[n].id] else [])
  }

  function OperationsOf(bundles: seq<Bundle>, image: string): seq<Operation> {
    (if AnyOfKind(bundles, Flatpak) then [RemoteAdd()] else []) + BundleOperations(bundles, image)
  }

  function ImageOf(r: Request): string { if r.environmentImage.Some? then r.environmentImage.value else "" }

  function ImageFault(r: Request, selected: seq<Bundle>): Option<ProvisionError> {
    if !AnyOfKind(selected, OciEnvironment) then None
    else if r.environmentImage.None? then Some(EnvironmentImageRequired)
    else if !ValidImage(r.environmentImage.value) then Some(InvalidEnvironmentImage(r.environmentImage.value))
    else None
  }

  function PlanFor(r: Request, selected: seq<Bundle>, estimate: U64): Plan {
    var operations := OperationsOf(selected, ImageOf(r));
    Plan(IdsOf(selected), r.profile, estimate, operations != [], operations, ExternalsOf(selected))
  }

  function PlanSelected(r: Request, selected: seq<Bundle>): Result<Plan, ProvisionError> {
    match CheckedTotal(0, selected)
    case None => Err(EstimateOverflow)
    case Some(estimate) =>
      if estimate + MIN_DISK_RESERVE > U64_MAX then Err(EstimateOverflow)
      else if r.availableDiskBytes < estimate + MIN_DISK_RESERVE then
        Err(InsufficientDisk(r.availableDiskBytes, estimate + MIN_DISK_RESERVE))
      else if ImageFault(r, selected).Some? then Err(ImageFault(r, selected).value)
      else Ok(PlanFor(r, selected, estimate))
  }

  /** The planner over any catalog; the program uses it with `CATALOG`. */
  function PlanIn(catalog: seq<Bundle>, r: Request): Result<Plan, ProvisionError> {
    if r.bundleIds == [] then Err(NoBundles)
    else
      match SelectInto(catalog, [], r.bundleIds, r.profile)
      case Err(e) => Err(e)
      case Ok(selected) => PlanSelected(r, selected)
  }

  /** The last loop of `plan`. */
  method SplitSelection(selected: seq<Bundle>, image: string)
    returns (operations: seq<Operation>, externals: seq<string>)
    ensures operations == OperationsOf(selected, image) && externals == ExternalsOf(selected)
  {
    operations, externals := [], [];
    if AnyOfKind(selected, Flatpak) { operations := operations + [RemoteAdd()]; }
    ghost var leading := operations;
    for i := 0 to |selected|
      invariant operations == leading + BundleOperations(selected[..i], image)
      invariant externals == ExternalsOf(selected[..i])
    {
      assert selected[..i + 1][..i] == selected[..i];
      if selected[i].kind.ExternalProvider? { externals := externals + [selected[i].id]; }
      else { operations := operations + [OperationFor(selected[i], image)]; }
    }
    assert selected[..|selected|] == selected;
  }

  /** `plan`: select, sum, check disk and image, split. */
  method MakePlan(catalog: seq<Bundle>, r: Request) returns (plan: Result<Plan, ProvisionError>)
    ensures plan == PlanIn(catalog, r)
  {
    if r.bundleIds == [] { return Err(NoBundles); }
    var selected := SelectBundles(catalog, r.bundleIds, r.profile);
    if selected.Err? { return Err(selected.error); }
    var estimate := SumEstimates(selected.value);
    if estimate.None? || estimate.value + MIN_DISK_RESERVE > U64_MAX { return Err(EstimateOverflow); }
    if r.availableDiskBytes < estimate.value + MIN_DISK_RESERVE {
      return Err(InsufficientDisk(r.availableDiskBytes, estimate.value + MIN_DISK_RESERVE));
    }
    var fault := ImageFault(r, selected.value);
    if fault.Some? { return Err(fault.value); }
    var operations, externals := SplitSelection(selected.value, ImageOf(r));
    return Ok(Plan(IdsOf(selected.value), r.profile, estimate.value, operations != [], operations, externals));
  }

  // ---------------------------------------------------------------------
  // What a plan promises
  // ---------------------------------------------------------------------

  /** What the theorems need of a catalog: a sum that fits, and no entry named like the Flathub step. */
  predicate SoundCatalog(catalog: seq<Bundle>) {
    Total(catalog) + MIN_DISK_RESERVE <= U64_MAX && FindIn(catalog, RUNTIME_ID).None?
  }

  lemma {:induction false} AbsentIsNotFound(catalog: seq<Bundle>, id: string)
    requires forall i :: 0 <= i < |catalog| ==> |catalog[i].id| != |id|
    ensures FindIn(catalog, id).None?
  {
  }

  lemma SmallCatalogIsSound(catalog: seq<Bundle>)
    requires |catalog| <= 12
    requires forall i :: 0 <= i < |catalog| ==> catalog[i].estimatedBytes <= 8 * GIB
    requires forall i :: 0 <= i < |catalog| ==> |catalog[i].id| < |RUNTIME_ID|
    ensures SoundCatalog(catalog)
  {
    TotalIsBounded(catalog, 8 * GIB);
    AbsentIsNotFound(catalog, RUNTIME_ID);
  }

  /** The reviewed catalog meets them. */
  lemma CatalogIsSound()
    ensures SoundCatalog(CATALOG)
  {
    SmallCatalogIsSound(CATALOG);
  }

  function OpIds(operations: seq<Operation>): (r: seq<string>)
    ensures |r| == |operations| && forall i :: 0 <= i < |r| ==> r[i] == operations[i].bundleId
  {
    seq(|operations|, i requires 0 <= i < |operations| => operations[i].bundleId)
  }

  predicate IsKind(catalog: seq<Bundle>, id: string, kind: BundleKind) {
    FindIn(catalog, id).Some? && FindIn(catalog, id).value.kind == kind
  }

  predicate Mentions(catalog: seq<Bundle>, ids: seq<string>, kind: BundleKind) {
    exists i :: 0 <= i < |ids| && IsKind(catalog, ids[i], kind)
  }

  /** The operation ids a selection determines, from the selected ids alone. */
  function OperationIds(catalog: seq<Bundle>, ids: seq<string>): seq<string> {
    (if Mentions(catalog, ids, Flatpak) then [RUNTIME_ID] else []) + Installable(catalog, ids)
  }

  function Installable(catalog: seq<Bundle>, ids: seq<string>): seq<string> {
    if ids == [] then []
    else
      var n := |ids| - 1;
      Installable(catalog, ids[..n]) + (if IsKind(catalog, ids[n], ExternalProvider) then [] else [ids[n]])
  }

  /** The installable ids of a duplicate-free selection are the ones that are not external. */
  lemma {:induction false} InstallableAreNotExternal(catalog: seq<Bundle>, ids: seq<string>)
    ensures forall x :: x in Installable(catalog, ids) <==> x in ids && !IsKind(catalog, x, ExternalProvider)
    ensures Distinct(ids) ==> Distinct(Installable(catalog, ids))
  {
    if ids != [] {
      var n := |ids| - 1;
      InstallableAreNotExternal(catalog, ids[..n]);
      assert ids == ids[..n] + [ids[n]];
      assert Distinct(ids) ==> Distinct(ids[..n]) && ids[n] !in ids[..n];
    }
  }

  lemma {:induction false} OperationsFollowIds(catalog: seq<Bundle>, bundles: seq<Bundle>, image: string)
    requires FromCatalog(catalog, bundles)
    ensures OpIds(BundleOperations(bundles, image)) == Installable(catalog, IdsOf(bundles))
    ensures forall x :: x in ExternalsOf(bundles) <==> x in IdsOf(bundles) && IsKind(catalog, x, ExternalProvider)
  {
    if bundles != [] {
      var n := |bundles| - 1;
      OperationsFollowIds(catalog, bundles[..n], image);
      var ids := IdsOf(bundles);
      assert ids[..n] == IdsOf(bundles[..n]) && ids == ids[..n] + [ids[n]];
      assert IsKind(catalog, ids[n], bundles[n].kind);
    }
  }

  lemma KindsFollowIds(catalog: seq<Bundle>, bundles: seq<Bundle>, kind: BundleKind)
    requires FromCatalog(catalog, bundles)
    ensures AnyOfKind(bundles, kind) <==> Mentions(catalog, IdsOf(bundles), kind)
  {
  }

  /** The sum is over distinct catalog entries, so the checked addition never fails. */
  lemma EstimateNeverOverflows(catalog: seq<Bundle>, ids: seq<string>, profile: MachineProfile)
    requires SoundCatalog(catalog) && SelectInto(catalog, [], ids, profile).Ok?
    ensures var selected := SelectInto(catalog, [], ids, profile).value;
      CheckedTotal(0, selected) == Some(Total(selected)) && Total(selected) + MIN_DISK_RESERVE <= U64_MAX
  {
    var selected := SelectInto(catalog, [], ids, profile).value;
    SelectionIsExact(catalog, ids, profile);
    FirstOccurrencesAreDistinct(ids);
    DistinctTotalIsBounded(catalog, selected);
    CheckedTotalIsExact(0, selected);
  }

  /** An environment needs a pinned image; a selection without one needs none. */
  predicate ImageSuffices(catalog: seq<Bundle>, r: Request) {
    Mentions(catalog, r.bundleIds, OciEnvironment) ==> r.environmentImage.Some? && ValidImage(r.environmentImage.value)
  }

  /** What the selection needs on disk. */
  function SpaceFor(catalog: seq<Bundle>, r: Request): nat
    requires SelectInto(catalog, [], r.bundleIds, r.profile).Ok?
  {
    Total(SelectInto(catalog, [], r.bundleIds, r.profile).value) + MIN_DISK_RESERVE
  }

  lemma SameMentions(catalog: seq<Bundle>, ids: seq<string>, others: seq<string>, kind: BundleKind)
    requires forall x :: x in ids ==> x in others
    ensures Mentions(catalog, ids, kind) ==> Mentions(catalog, others, kind)
  {
    if i :| 0 <= i < |ids| && IsKind(catalog, ids[i], kind) {
      assert ids[i] in ids && ids[i] in others;
      var j :| 0 <= j < |others| && others[j] == ids[i];
      assert IsKind(catalog, others[j], kind);
    }
  }

  /** The image is missed or refused exactly when an environment is asked for by name. */
  lemma ImageFaultIsExact(catalog: seq<Bundle>, r: Request)
    requires SelectInto(catalog, [], r.bundleIds, r.profile).Ok?
    ensures var fault := ImageFault(r, SelectInto(catalog, [], r.bundleIds, r.profile).value);
      && (fault.None? <==> ImageSuffices(catalog, r))
      && (fault == Some(EnvironmentImageRequired) <==>
        Mentions(catalog, r.bundleIds, OciEnvironment) && r.environmentImage.None?)
      && (fault.Some? && r.environmentImage.Some? ==> fault == Some(InvalidEnvironmentImage(r.environmentImage.value)))
  {
    var selected := SelectInto(catalog, [], r.bundleIds, r.profile).value;
    SelectionIsExact(catalog, r.bundleIds, r.profile);
    FirstOccurrencesAreDistinct(r.bundleIds);
    KindsFollowIds(catalog, selected, OciEnvironment);
    SameMentions(catalog, IdsOf(selected), r.bundleIds, OciEnvironment);
    SameMentions(catalog, r.bundleIds, IdsOf(selected), OciEnvironment);
  }

  /**
   * `EstimateOverflow` cannot happen, and a request is planned exactly when it names something,
   * every entry fits the machine, the disk has room for the selection and the reserve, and any
   * environment asked for has a pinned image.
   */
  lemma PlanAcceptsExactly(catalog: seq<Bundle>, r: Request)
    requires SoundCatalog(catalog)
    ensures PlanIn(catalog, r) != Err(EstimateOverflow)
    ensures PlanIn(catalog, r).Ok? <==>
      && r.bundleIds != [] && (forall i :: 0 <= i < |r.bundleIds| ==> Admits(catalog, r.profile, r.bundleIds[i]))
      && SelectInto(catalog, [], r.bundleIds, r.profile).Ok?
      && r.availableDiskBytes >= SpaceFor(catalog, r) && ImageSuffices(catalog, r)
  {
    SelectionIsExact(catalog, r.bundleIds, r.profile);
    var selection := SelectInto(catalog, [], r.bundleIds, r.profile);
    if selection.Ok? {
      EstimateNeverOverflows(catalog, r.bundleIds, r.profile);
      ImageFaultIsExact(catalog, r);
    } else {
      assert exists i: nat :: FirstOffence(catalog, r.profile, r.bundleIds, 0, i, selection.error);
    }
  }

  /** The error of a refused request, in the order of the checks. */
  lemma PlanErrorsAreExact(catalog: seq<Bundle>, r: Request)
    requires SoundCatalog(catalog)
    ensures PlanIn(catalog, r) == Err(NoBundles) <==> r.bundleIds == []
    ensures r.bundleIds != [] && SelectInto(catalog, [], r.bundleIds, r.profile).Err? ==>
      PlanIn(catalog, r) == Err(SelectInto(catalog, [], r.bundleIds, r.profile).error)
    ensures r.bundleIds != [] && SelectInto(catalog, [], r.bundleIds, r.profile).Ok? ==>
      && (r.availableDiskBytes < SpaceFor(catalog, r) ==>
        && PlanIn(catalog, r).Err? && PlanIn(catalog, r).error.InsufficientDisk?
        && PlanIn(catalog, r).error.available == r.availableDiskBytes
        && PlanIn(catalog, r).error.required == SpaceFor(catalog, r))
      && (r.availableDiskBytes >= SpaceFor(catalog, r) && !ImageSuffices(catalog, r) ==>
        PlanIn(catalog, r) == Err(if r.environmentImage.None? then EnvironmentImageRequired
          else InvalidEnvironmentImage(r.environmentImage.value)))
  {
    SelectionIsExact(catalog, r.bundleIds, r.profile);
    var selection := SelectInto(catalog, [], r.bundleIds, r.profile);
    if selection.Ok? {
      EstimateNeverOverflows(catalog, r.bundleIds, r.profile);
      ImageFaultIsExact(catalog, r);
    } else {
      assert exists i: nat :: FirstOffence(catalog, r.profile, r.bundleIds, 0, i, selection.error);
    }
  }

  /** `ids` split into operations and externals, one for one, plus the Flathub step. */
  ghost predicate SplitsExactly(catalog: seq<Bundle>, ids: seq<string>, opIds: seq<string>, externals: seq<string>) {
    && opIds == OperationIds(catalog, ids) && Distinct(opIds)
    && (forall x :: x in ids <==> (x in opIds && x != RUNTIME_ID) || x in externals)
    && (forall x :: x in externals <==> x in ids && IsKind(catalog, x, ExternalProvider))
    && Distinct(externals)
    && (forall x :: x in externals ==> x !in opIds)
    && (RUNTIME_ID in opIds <==> Mentions(catalog, ids, Flatpak))
    && (RUNTIME_ID in opIds ==> opIds[0] == RUNTIME_ID)
  }

  lemma OperationIdsSplit(catalog: seq<Bundle>, ids: seq<string>, externals: seq<string>)
    requires Distinct(ids) && RUNTIME_ID !in ids && Distinct(externals)
    requires forall x :: x in externals <==> x in ids && IsKind(catalog, x, ExternalProvider)
    ensures SplitsExactly(catalog, ids, OperationIds(catalog, ids), externals)
  {
    InstallableAreNotExternal(catalog, ids);
    var rest := Installable(catalog, ids);
    assert forall x :: x in [RUNTIME_ID] + rest <==> x == RUNTIME_ID || x in rest;
    assert Distinct([RUNTIME_ID] + rest);
  }

  lemma OperationsHaveIds(catalog: seq<Bundle>, bundles: seq<Bundle>, image: string)
    requires FromCatalog(catalog, bundles)
    ensures OpIds(OperationsOf(bundles, image)) == OperationIds(catalog, IdsOf(bundles))
  {
    OperationsFollowIds(catalog, bundles, image);
    KindsFollowIds(catalog, bundles, Flatpak);
  }

  lemma {:induction false} ExternalsAreDistinct(bundles: seq<Bundle>)
    requires Distinct(IdsOf(bundles))
    ensures Distinct(ExternalsOf(bundles))
    ensures forall x :: x in ExternalsOf(bundles) ==> x in IdsOf(bundles)
  {
    if bundles != [] {
      var n := |bundles| - 1;
      var ids := IdsOf(bundles);
      assert IdsOf(bundles[..n]) == ids[..n] && ids == ids[..n] + [ids[n]];
      assert Distinct(ids[..n]) && ids[n] !in ids[..n];
      ExternalsAreDistinct(bundles[..n]);
    }
  }

  lemma SelectionSplits(catalog: seq<Bundle>, bundles: seq<Bundle>, image: string)
    requires SoundCatalog(catalog) && FromCatalog(catalog, bundles) && Distinct(IdsOf(bundles))
    ensures SplitsExactly(catalog, IdsOf(bundles), OpIds(OperationsOf(bundles, image)), ExternalsOf(bundles))
  {
    OperationsHaveIds(catalog, bundles, image);
    OperationsFollowIds(catalog, bundles, image);
    ExternalsAreDistinct(bundles);
    assert forall i :: 0 <= i < |bundles| ==> FindIn(catalog, bundles[i].id).Some?;
    OperationIdsSplit(catalog, IdsOf(bundles), ExternalsOf(bundles));
  }

  /**
   * A plan keeps the first occurrences in order, splits them exactly, has pairwise distinct
   * operation ids and estimates the exact sum over the distinct bundles.
   */
  lemma PlanSplitsSelection(catalog: seq<Bundle>, r: Request)
    requires SoundCatalog(catalog) && PlanIn(catalog, r).Ok?
    ensures var plan := PlanIn(catalog, r).value;
      && plan.bundleIds == FirstOccurrences(r.bundleIds)
      && SplitsExactly(catalog, plan.bundleIds, OpIds(plan.operations), plan.externalIds)
      && plan.estimatedBytes == Total(SelectInto(catalog, [], r.bundleIds, r.profile).value)
      && (plan.networkRequired <==> plan.operations != [])
  {
    SelectionIsExact(catalog, r.bundleIds, r.profile);
    FirstOccurrencesAreDistinct(r.bundleIds);
    EstimateNeverOverflows(catalog, r.bundleIds, r.profile);
    SelectionSplits(catalog, SelectInto(catalog, [], r.bundleIds, r.profile).value, ImageOf(r));
  }

  /** The operation is the Flathub step, or installs its bundle from the catalog's source or the pinned image. */
  ghost predicate Reviewed(catalog: seq<Bundle>, r: Request, op: Operation) {
    || op == RemoteAdd()
    || (exists bundle :: FindIn(catalog, op.bundleId) == Some(bundle) && InstallsFrom(bundle, r, op.argv))
  }

  predicate InstallsFrom(bundle: Bundle, r: Request, argv: seq<string>) {
    match bundle.kind
      case Flatpak =>
        argv == ["/usr/bin/flatpak", "install", "--user", "--noninteractive", "flathub", bundle.source]
      case OciEnvironment =>
        && r.environmentImage.Some? && ValidImage(r.environmentImage.value)
        && argv == ["/usr/bin/podman", "pull", r.environmentImage.value]
      case ExternalProvider => false
  }

  lemma {:induction false} BundleOperationsAreReviewed(catalog: seq<Bundle>, r: Request, bundles: seq<Bundle>)
    requires FromCatalog(catalog, bundles)
    requires AnyOfKind(bundles, OciEnvironment) ==> r.environmentImage.Some? && ValidImage(r.environmentImage.value)
    ensures forall i :: 0 <= i < |BundleOperations(bundles, ImageOf(r))| ==>
      Reviewed(catalog, r, BundleOperations(bundles, ImageOf(r))[i])
  {
    if bundles != [] {
      var n := |bundles| - 1;
      BundleOperationsAreReviewed(catalog, r, bundles[..n]);
      if !bundles[n].kind.ExternalProvider? {
        var op := OperationFor(bundles[n], ImageOf(r));
        assert FindIn(catalog, op.bundleId) == Some(bundles[n]) && InstallsFrom(bundles[n], r, op.argv);
      }
    }
  }

  /** Whatever is asked for, a plan runs catalog sources and the pinned image of the request only. */
  lemma PlansUseReviewedSources(catalog: seq<Bundle>, r: Request, i: nat)
    requires PlanIn(catalog, r).Ok? && i < |PlanIn(catalog, r).value.operations|
    ensures Reviewed(catalog, r, PlanIn(catalog, r).value.operations[i])
  {
    SelectionIsExact(catalog, r.bundleIds, r.profile);
    BundleOperationsAreReviewed(catalog, r, SelectInto(catalog, [], r.bundleIds, r.profile).value);
  }

  /** More disk or a larger profile never turns an accepted request down, nor changes what it runs. */
  lemma AcceptanceGrowsWithTheMachine(catalog: seq<Bundle>, small: Request, large: Request)
    requires small.bundleIds == large.bundleIds && small.environmentImage == large.environmentImage
    requires small.availableDiskBytes <= large.availableDiskBytes && small.profile.Rank() <= large.profile.Rank()
    requires PlanIn(catalog, small).Ok?
    ensures PlanIn(catalog, large) == Ok(PlanIn(catalog, small).value.(profile := large.profile))
  {
    SelectionIsExact(catalog, small.bundleIds, small.profile);
    SelectionIsExact(catalog, large.bundleIds, large.profile);
    SameIdsSameBundles(catalog, SelectInto(catalog, [], small.bundleIds, small.profile).value,
      SelectInto(catalog, [], large.bundleIds, large.profile).value);
  }

  lemma SameIdsSameBundles(catalog: seq<Bundle>, a: seq<Bundle>, b: seq<Bundle>)
    requires FromCatalog(catalog, a) && FromCatalog(catalog, b) && IdsOf(a) == IdsOf(b)
    ensures a == b
  {
  }
}
