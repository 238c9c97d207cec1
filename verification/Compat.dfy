// May the new build boot the data of the installed one?
// (RomUpdateLayoutV1.compat_problems, wipe_compat.)

module Compat {
  datatype Field<+T> = Absent | Present(value: T)

  /** rom-update-compat.json of one build; any field may be missing. */
  datatype Build = Build(
    fingerprint: Field<string>,
    sdk: Field<int>,
    securityPatch: Field<string>,
    vendorPatch: Field<string>,
    platformCert: Field<string>,
    dataFs: Field<string>,
    dataEncryption: Field<string>,
    buildType: Field<string>,
    buildTags: Field<string>,
    dataFormattable: Field<bool>,
    metadataFormattable: Field<bool>)

  datatype Problem =
    | MissingField(key: string)
    | CertificateDiffers
    | DataFormatDiffers
    | SdkDown
    | PatchDown
    | VendorPatchDown
    | BuildTypeRefused
    | DataNotPlainExt4
    | NotFormattable

  datatype Waiver = Waived(p: Problem) | TypeChanged | TagsChanged

  /** Python's order on strings: by code point, a proper prefix is smaller. */
  predicate Less(a: string, b: string) {
    b != [] && (a == [] || a[0] < b[0] || (a[0] == b[0] && Less(a[1..], b[1..])))
  }

  predicate AtMost(a: string, b: string) { !Less(b, a) }

  lemma {:induction false} AtMostTrans(a: string, b: string, c: string)
    requires AtMost(a, b) && AtMost(b, c)
    ensures AtMost(a, c)
  {
    if a != [] && b != [] && c != [] && a[0] == b[0] == c[0] { AtMostTrans(a[1..], b[1..], c[1..]); }
  }

  lemma {:induction false} AtMostRefl(a: string)
    ensures AtMost(a, a)
  {
    if a != [] { AtMostRefl(a[1..]); }
  }

  lemma {:induction false} AtMostAntisym(a: string, b: string)
    requires AtMost(a, b) && AtMost(b, a)
    ensures a == b
  {
    if a != [] && b != [] {
      assert a[0] == b[0];
      AtMostAntisym(a[1..], b[1..]);
    }
  }

  /** Equal up to position `k`, and there the first string ends or has the smaller character. */
  ghost predicate EarlierAt(a: string, b: string, k: nat) {
    k <= |a| && k < |b| && a[..k] == b[..k] && (k == |a| || a[k] < b[k])
  }

  ghost predicate NotAfter(a: string, b: string) { a == b || exists k :: EarlierAt(a, b, k) }

  lemma {:induction false} LessIs(a: string, b: string)
    ensures Less(a, b) <==> exists k :: EarlierAt(a, b, k)
  {
    if b == [] { return; }
    if a == [] || a[0] < b[0] {
      assert EarlierAt(a, b, 0);
    } else if a[0] == b[0] {
      LessIs(a[1..], b[1..]);
      forall k: nat | EarlierAt(a[1..], b[1..], k) ensures EarlierAt(a, b, k + 1) {
        assert a[..k + 1] == [a[0]] + a[1..][..k] && b[..k + 1] == [b[0]] + b[1..][..k];
      }
      forall k: nat | EarlierAt(a, b, k) ensures k > 0 && EarlierAt(a[1..], b[1..], k - 1) {
        assert a[1..][..k - 1] == a[..k][1..] && b[1..][..k - 1] == b[..k][1..];
      }
    } else {
      forall k: nat | 0 < k <= |a| && k <= |b| ensures a[..k] != b[..k] {
        assert a[..k][0] != b[..k][0];
      }
    }
  }

  lemma {:induction false} LessOneWay(a: string, b: string)
    requires Less(a, b)
    ensures !Less(b, a)
  {
    if a != [] && a[0] == b[0] { LessOneWay(a[1..], b[1..]); }
  }

  lemma AtMostIs(a: string, b: string)
    ensures AtMost(a, b) <==> NotAfter(a, b)
  {
    LessIs(a, b);
    if Less(a, b) { LessOneWay(a, b); }
    if AtMost(a, b) && AtMost(b, a) { AtMostAntisym(a, b); }
    if a == b { AtMostRefl(a); }
  }

  predicate Filled(f: Field<string>) { f.Present? && f.value != "" }

  function Missing(key: string, a: bool, b: bool): seq<Problem> { if a && b then [] else [MissingField(key)] }

  function MissingFields(prev: Build, next: Build): (ps: seq<Problem>)
    ensures forall p :: p in ps ==> p.MissingField?
  {
    Missing("system_fingerprint", Filled(prev.fingerprint), Filled(next.fingerprint))
    + Missing("sdk", prev.sdk.Present?, next.sdk.Present?)
    + Missing("security_patch", Filled(prev.securityPatch), Filled(next.securityPatch))
    + Missing("vendor_security_patch", Filled(prev.vendorPatch), Filled(next.vendorPatch))
    + Missing("platform_cert_sha256", Filled(prev.platformCert), Filled(next.platformCert))
    + Missing("data_fs", Filled(prev.dataFs), Filled(next.dataFs))
    + Missing("data_encryption", Filled(prev.dataEncryption), Filled(next.dataEncryption))
    + Missing("build_type", Filled(prev.buildType), Filled(next.buildType))
  }

  predicate Complete(b: Build) {
    && Filled(b.fingerprint) && b.sdk.Present? && Filled(b.securityPatch) && Filled(b.vendorPatch)
    && Filled(b.platformCert) && Filled(b.dataFs) && Filled(b.dataEncryption) && Filled(b.buildType)
  }

  lemma MissingFieldsIff(prev: Build, next: Build)
    ensures MissingFields(prev, next) == [] <==> Complete(prev) && Complete(next)
  {
  }

  function If(c: bool, p: Problem): seq<Problem> { if c then [p] else [] }

  /** Reasons why the data of `prev` must not be booted by `new`. */
  function CompatProblems(prev: Build, next: Build): seq<Problem> {
    var out := MissingFields(prev, next);
    if out != [] then out
    else
      MissingFieldsIff(prev, next);
      If(prev.platformCert != next.platformCert, CertificateDiffers)
      + If(prev.dataFs != next.dataFs || prev.dataEncryption != next.dataEncryption, DataFormatDiffers)
      + If(next.sdk.value < prev.sdk.value, SdkDown)
      + If(Less(next.securityPatch.value, prev.securityPatch.value), PatchDown)
      + If(Less(next.vendorPatch.value, prev.vendorPatch.value), VendorPatchDown)
  }

  predicate WipeAccepts(p: Problem) { p.CertificateDiffers? || p.DataFormatDiffers? }

  function Kept(ps: seq<Problem>): (rs: seq<Problem>)
    ensures forall p :: p in rs <==> p in ps && !WipeAccepts(p)
    ensures rs == [] <==> forall p :: p in ps ==> WipeAccepts(p)
  {
    if ps == [] then [] else If(!WipeAccepts(ps[0]), ps[0]) + Kept(ps[1..])
  }

  function WaivedOf(ps: seq<Problem>): seq<Waiver> {
    if ps == [] then [] else (if WipeAccepts(ps[0]) then [Waived(ps[0])] else []) + WaivedOf(ps[1..])
  }

  /** (refusals, waived): with the data wiped, only a certificate or data-format
      change is let through, and the new build must be one the wipe can boot. */
  function WipeCompat(prev: Build, next: Build): (seq<Problem>, seq<Waiver>) {
    var problems := CompatProblems(prev, next);
    (Kept(problems)
     + If(next.buildType !in {Present("user"), Present("userdebug")}, BuildTypeRefused)
     + If((next.dataFs, next.dataEncryption) != (Present("ext4"), Present("none")), DataNotPlainExt4)
     + If(next.dataFormattable != Present(true) || next.metadataFormattable != Present(true), NotFormattable),
     WaivedOf(problems)
     + (if prev.buildType != next.buildType then [TypeChanged] else [])
     + (if prev.buildTags != next.buildTags then [TagsChanged] else []))
  }

  // ---- what acceptance means ----

  ghost predicate Given(f: Field<string>) { f != Absent && f != Present("") }

  /** No field the comparison needs is missing or empty. */
  ghost predicate AllGiven(b: Build) {
    && b.sdk != Absent
    && Given(b.fingerprint) && Given(b.securityPatch) && Given(b.vendorPatch) && Given(b.platformCert)
    && Given(b.dataFs) && Given(b.dataEncryption) && Given(b.buildType)
  }

  lemma GivenIs(b: Build)
    ensures AllGiven(b) <==> Complete(b)
  {
  }

  /** Neither the SDK level nor one of the two patch levels goes down. */
  ghost predicate NotOlder(prev: Build, next: Build) {
    && AllGiven(prev) && AllGiven(next)
    && prev.sdk.value <= next.sdk.value
    && NotAfter(prev.securityPatch.value, next.securityPatch.value)
    && NotAfter(prev.vendorPatch.value, next.vendorPatch.value)
  }

  /** The same in the terms of the comparison. */
  lemma NotOlderIs(prev: Build, next: Build)
    ensures NotOlder(prev, next) <==>
      && Complete(prev) && Complete(next)
      && !(next.sdk.value < prev.sdk.value)
      && !Less(next.securityPatch.value, prev.securityPatch.value)
      && !Less(next.vendorPatch.value, prev.vendorPatch.value)
  {
    hide Complete, AllGiven, NotAfter;
    GivenIs(prev);
    GivenIs(next);
    if Complete(prev) && Complete(next) {
      Levels(prev);
      Levels(next);
      AtMostIs(prev.securityPatch.value, next.securityPatch.value);
      AtMostIs(prev.vendorPatch.value, next.vendorPatch.value);
    }
  }

  lemma Levels(b: Build)
    requires Complete(b)
    ensures b.sdk.Present? && b.securityPatch.Present? && b.vendorPatch.Present?
  {
  }

  ghost predicate SameLevels(prev: Build, next: Build) {
    prev.sdk == next.sdk && prev.securityPatch == next.securityPatch && prev.vendorPatch == next.vendorPatch
  }

  /** An accepted step can be taken back exactly if no level rose. */
  lemma BackIff(prev: Build, next: Build)
    requires NotOlder(prev, next)
    ensures NotOlder(next, prev) <==> SameLevels(prev, next)
  {
    NotOlderIs(prev, next);
    NotOlderIs(next, prev);
    if NotOlder(next, prev) {
      AtMostAntisym(prev.securityPatch.value, next.securityPatch.value);
      AtMostAntisym(prev.vendorPatch.value, next.vendorPatch.value);
    }
    AtMostRefl(prev.securityPatch.value);
    AtMostRefl(prev.vendorPatch.value);
  }

  ghost predicate SameData(prev: Build, next: Build) {
    && prev.platformCert == next.platformCert
    && prev.dataFs == next.dataFs && prev.dataEncryption == next.dataEncryption
  }

  ghost predicate WipeBootable(b: Build) {
    && b.buildType in {Present("user"), Present("userdebug")}
    && b.dataFs == Present("ext4") && b.dataEncryption == Present("none")
    && b.dataFormattable == Present(true) && b.metadataFormattable == Present(true)
  }

  lemma KeepDataIff(prev: Build, next: Build)
    ensures CompatProblems(prev, next) == [] <==> NotOlder(prev, next) && SameData(prev, next)
  {
    hide NotOlder;
    NotOlderIs(prev, next);
    MissingFieldsIff(prev, next);
  }

  lemma ProblemsListed(prev: Build, next: Build)
    requires Complete(prev) && Complete(next)
    ensures var ps := CompatProblems(prev, next);
            && (SdkDown in ps <==> next.sdk.value < prev.sdk.value)
            && (PatchDown in ps <==> Less(next.securityPatch.value, prev.securityPatch.value))
            && (VendorPatchDown in ps <==> Less(next.vendorPatch.value, prev.vendorPatch.value))
            && forall p :: p in ps ==> WipeAccepts(p) || p.SdkDown? || p.PatchDown? || p.VendorPatchDown?
  {
    MissingFieldsIff(prev, next);
  }

  lemma IncompleteRefused(prev: Build, next: Build)
    requires !Complete(prev) || !Complete(next)
    ensures Kept(CompatProblems(prev, next)) != []
  {
    MissingFieldsIff(prev, next);
    var out := MissingFields(prev, next);
    hide MissingFields;
    assert out[0] in out && out[0].MissingField?;
  }

  lemma KeptIff(prev: Build, next: Build)
    ensures Kept(CompatProblems(prev, next)) == [] <==> NotOlder(prev, next)
  {
    hide CompatProblems, NotOlder;
    NotOlderIs(prev, next);
    if Complete(prev) && Complete(next) {
      ProblemsListed(prev, next);
    } else {
      IncompleteRefused(prev, next);
    }
  }

  lemma WipeIff(prev: Build, next: Build)
    ensures WipeCompat(prev, next).0 == [] <==> NotOlder(prev, next) && WipeBootable(next)
  {
    KeptIff(prev, next);
  }

  /** Every problem is refused or waived, and the waived ones are the two a change
      of keys brings; the rest is told apart by what differs. */
  lemma {:induction false} WipeSplits(ps: seq<Problem>)
    ensures forall p :: p in ps <==> p in Kept(ps) || Waived(p) in WaivedOf(ps)
    ensures forall w :: w in WaivedOf(ps) ==> w.Waived? && (w.p.CertificateDiffers? || w.p.DataFormatDiffers?)
    ensures forall p :: p in Kept(ps) ==> !p.CertificateDiffers? && !p.DataFormatDiffers?
  {
    if ps != [] { WipeSplits(ps[1..]); }
  }

  /** One step of a device's history: an accepted update, with or without a wipe. */
  ghost predicate Step(prev: Build, next: Build, wipe: bool) {
    if wipe then WipeCompat(prev, next).0 == [] else CompatProblems(prev, next) == []
  }

  ghost predicate History(builds: seq<Build>, wipes: seq<bool>) {
    && |builds| == |wipes| + 1
    && forall i :: 0 <= i < |wipes| ==> Step(builds[i], builds[i + 1], wipes[i])
  }

  /** Over any history of accepted updates nothing a key is bound to goes back,
      and certificate and data format change only across a wipe. */
  lemma {:induction false} HistoryMonotone(builds: seq<Build>, wipes: seq<bool>, i: nat, j: nat)
    requires History(builds, wipes) && i < j < |builds|
    ensures NotOlder(builds[i], builds[j])
    ensures (forall k :: i <= k < j ==> !wipes[k]) ==> SameData(builds[i], builds[j])
    decreases j - i
  {
    hide CompatProblems, WipeCompat;
    var mid := j - 1;
    KeepDataIff(builds[mid], builds[j]);
    WipeIff(builds[mid], builds[j]);
    assert Step(builds[mid], builds[mid + 1], wipes[mid]);
    NotOlderIs(builds[i], builds[j]);
    NotOlderIs(builds[mid], builds[j]);
    if i < mid {
      NotOlderIs(builds[i], builds[mid]);
      HistoryMonotone(builds, wipes, i, mid);
      AtMostTrans(builds[i].securityPatch.value, builds[mid].securityPatch.value, builds[j].securityPatch.value);
      AtMostTrans(builds[i].vendorPatch.value, builds[mid].vendorPatch.value, builds[j].vendorPatch.value);
    }
  }

  /** So several keep-data updates in a row could have been one. */
  lemma KeepDataTransitive(builds: seq<Build>, wipes: seq<bool>)
    requires History(builds, wipes) && |builds| > 1 && forall k :: 0 <= k < |wipes| ==> !wipes[k]
    ensures CompatProblems(builds[0], builds[|builds| - 1]) == []
  {
    HistoryMonotone(builds, wipes, 0, |builds| - 1);
    KeepDataIff(builds[0], builds[|builds| - 1]);
  }
}
