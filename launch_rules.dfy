/**
 * The pure rules `launch_instance` applies before and while launching: the
 * availability-domain allow-list and its rotation, the image pick, the public-IP
 * flag, the boot-volume floor, the shape sizing, and the request every create
 * attempt sends.
 */
module LaunchRules {
  import opened Wrappers
  import opened OciTypes
  import Seqs

  // ---------------------------------------------------------------------------
  // Python's `str.split(sep)` and its inverse

  /** `s.split(sep)`: the pieces between separators; always at least one, possibly empty. */
  function Split(s: string, sep: char): (parts: seq<string>)
    ensures |parts| >= 1
    ensures forall k :: 0 <= k < |parts| ==> sep !in parts[k]
    decreases |s|
  {
    if s == [] then [""]
    else
      var rest := Split(s[1..], sep);
      if s[0] == sep then [""] + rest
      else [[s[0]] + rest[0]] + rest[1..]
  }

  /** `sep.join(parts)`. */
  function Join(parts: seq<string>, sep: char): string
    requires |parts| >= 1
    decreases |parts|
  {
    if |parts| == 1 then parts[0] else parts[0] + [sep] + Join(parts[1..], sep)
  }

  /** Joining the pieces of a split gives back the original string. */
  lemma {:induction false} JoinSplit(s: string, sep: char)
    ensures Join(Split(s, sep), sep) == s
    decreases |s|
  {
    if s != [] {
      var rest := Split(s[1..], sep);
      JoinSplit(s[1..], sep);
      if s[0] == sep {
        assert ([""] + rest)[1..] == rest;
      } else if |rest| > 1 {
        assert ([[s[0]] + rest[0]] + rest[1..])[1..] == rest[1..];
      }
    }
  }

  /** Splitting `w + rest` where `w` holds no separator glues `w` to the first piece. */
  lemma {:induction false} SplitPrefix(w: string, rest: string, sep: char)
    requires sep !in w
    ensures Split(w + rest, sep) == [w + Split(rest, sep)[0]] + Split(rest, sep)[1..]
    decreases |w|
  {
    if w != [] {
      var r := Split(rest, sep);
      var s := w + rest;
      assert s != [] && s[0] == w[0] && s[0] != sep && s[1..] == w[1..] + rest;
      SplitPrefix(w[1..], rest, sep);
      var tail := Split(w[1..] + rest, sep);
      assert tail[0] == w[1..] + r[0] && tail[1..] == r[1..];
      assert Split(s, sep) == [[s[0]] + tail[0]] + tail[1..];
      assert [w[0]] + (w[1..] + r[0]) == w + r[0];
    } else {
      var r := Split(rest, sep);
      assert w + rest == rest && w + r[0] == r[0];
      assert [r[0]] + r[1..] == r;
    }
  }

  /** Splitting a join of separator-free pieces gives back the pieces. */
  lemma {:induction false} SplitJoin(parts: seq<string>, sep: char)
    requires |parts| >= 1
    requires forall k :: 0 <= k < |parts| ==> sep !in parts[k]
    ensures Split(Join(parts, sep), sep) == parts
    decreases |parts|
  {
    if |parts| == 1 {
      SplitPrefix(parts[0], [], sep);
      assert parts[0] + [] == parts[0];
    } else {
      var tail := Join(parts[1..], sep);
      SplitJoin(parts[1..], sep);
      assert ([sep] + tail)[1..] == tail;
      var r := Split([sep] + tail, sep);
      assert r == [""] + parts[1..];
      SplitPrefix(parts[0], [sep] + tail, sep);
      assert parts[0] + [sep] + tail == parts[0] + ([sep] + tail);
      assert r[0] == "" && r[1..] == parts[1..];
      assert parts[0] + r[0] == parts[0];
      assert [parts[0]] + parts[1..] == parts;
    }
  }

  // ---------------------------------------------------------------------------
  // Availability domains: the `OCT_FREE_AD` allow-list and the rotation

  /** `s.endswith(suffix)`. */
  predicate EndsWith(s: string, suffix: string) {
    |suffix| <= |s| && s[|s| - |suffix|..] == suffix
  }

  /** The suffixes of the comma-separated allow-list. */
  function AllowedSuffixes(freeAd: string): seq<string> {
    Split(freeAd, ',')
  }

  predicate IsAllowedAd(name: string, suffixes: seq<string>) {
    exists k :: 0 <= k < |suffixes| && EndsWith(name, suffixes[k])
  }

  function AllowedAdOf(suffixes: seq<string>): string -> bool {
    name => IsAllowedAd(name, suffixes)
  }

  /** The names of the provider's domains that end with one of the allowed suffixes. */
  function AdCandidates(names: seq<string>, freeAd: string): seq<string> {
    Seqs.Filter(names, AllowedAdOf(AllowedSuffixes(freeAd)))
  }

  /** The candidates are exactly the names that end with some comma-separated entry of the
      allow-list, each once, in the provider's order. */
  lemma AdCandidatesSpec(names: seq<string>, freeAd: string) returns (idx: seq<nat>)
    ensures |idx| == |AdCandidates(names, freeAd)| && Seqs.Increasing(idx)
    ensures forall k :: 0 <= k < |idx| ==>
      idx[k] < |names| && AdCandidates(names, freeAd)[k] == names[idx[k]]
    ensures forall i :: 0 <= i < |names| ==> (IsAllowedAd(names[i], AllowedSuffixes(freeAd)) <==> i in idx)
  {
    idx := Seqs.FilterPositions(names, AllowedAdOf(AllowedSuffixes(freeAd)));
  }

  /** An empty allow-list splits into one empty suffix, which every name ends with: then
      every domain is a candidate. */
  lemma {:induction false} EmptyAllowListKeepsAll(names: seq<string>)
    ensures AdCandidates(names, "") == names
    decreases |names|
  {
    if names != [] {
      assert EndsWith(names[0], Split("", ',')[0]);
      EmptyAllowListKeepsAll(names[1..]);
    }
  }

  /** The cursor of `itertools.cycle` over `n` items after one `next`: the following item,
      or the first again after the last. */
  function Advance(pos: nat, n: nat): nat {
    if pos + 1 < n then pos + 1 else 0
  }

  /** The cursor after `k` more calls of `next`, starting at `pos`. */
  function Advanced(pos: nat, n: nat, k: nat): nat
    decreases k
  {
    if k == 0 then pos else Advanced(Advance(pos, n), n, k - 1)
  }

  /** Starting from position `pos`, the `k`-th later call of `next` is at `(pos + k) % n`. */
  lemma {:induction false} AdvancedIsModulo(pos: nat, n: nat, k: nat)
    requires pos < n
    ensures Advanced(pos, n, k) == (pos + k) % n
    decreases k
  {
    if k > 0 {
      AdvancedIsModulo(Advance(pos, n), n, k - 1);
      if pos + 1 == n {
        ModPeriod(k - 1, n);
        assert pos + k == k - 1 + n;
      }
    }
  }

  /** Before the end of the candidates, each step moves to the next one. */
  lemma {:induction false} AdvancedInOrder(pos: nat, n: nat, k: nat)
    requires pos + k < n
    ensures Advanced(pos, n, k) == pos + k
    decreases k
  {
    if k > 0 {
      AdvancedInOrder(pos + 1, n, k - 1);
    }
  }

  /** `a + b` steps are `a` steps followed by `b` steps. */
  lemma {:induction false} AdvancedCompose(pos: nat, n: nat, a: nat, b: nat)
    ensures Advanced(pos, n, a + b) == Advanced(Advanced(pos, n, a), n, b)
    decreases a
  {
    if a > 0 {
      AdvancedCompose(Advance(pos, n), n, a - 1, b);
    }
  }

  /** The rotation from the first domain takes the candidates in order, then starts again
      from the first: the `k`-th create attempt uses candidate `k % n`. */
  lemma CyclicRotation(candidates: seq<string>, k: nat)
    requires |candidates| > 0
    ensures Advanced(0, |candidates|, k) == k % |candidates|
    ensures k < |candidates| ==> Advanced(0, |candidates|, k) == k
    ensures Advanced(0, |candidates|, k + |candidates|) == Advanced(0, |candidates|, k)
  {
    var n := |candidates|;
    AdvancedIsModulo(0, n, k);
    if k < n {
      AdvancedInOrder(0, n, k);
    }
    AdvancedInOrder(0, n, n - 1);
    AdvancedCompose(0, n, n - 1, 1);
    assert Advanced(0, n, n) == 0;
    AdvancedCompose(0, n, n, k);
    assert n + k == k + n;
  }

  lemma ModPeriod(a: nat, n: nat)
    requires n > 0
    ensures (a + n) % n == a % n
  {
    var q1, r1 := a / n, a % n;
    var q2, r2 := (a + n) / n, (a + n) % n;
    assert n * (q2 - q1 - 1) == r1 - r2;
    MultipleBelowDivisor(n, q2 - q1 - 1);
  }

  lemma MultipleBelowDivisor(n: int, k: int)
    requires n > 0 && -n < n * k < n
    ensures k == 0
  {
  }

  // ---------------------------------------------------------------------------
  // Image selection

  function WantedImageOf(operatingSystem: string, version: string): Image -> bool {
    (image: Image) => image.operatingSystem == operatingSystem && image.operatingSystemVersion == version
  }

  /** The id of the first listed image with the configured system and version, if any. */
  function PickImage(images: seq<Image>, operatingSystem: string, version: string): Option<string> {
    match Seqs.First(images, WantedImageOf(operatingSystem, version))
    case None => None
    case Some(image) => Some(image.id)
  }

  /** No image is picked iff none has the configured system and version; otherwise the
      picked id is that of the first one that has them. */
  lemma PickImageSpec(images: seq<Image>, operatingSystem: string, version: string) returns (j: nat)
    ensures PickImage(images, operatingSystem, version).None? <==>
      forall i :: 0 <= i < |images| ==>
        !(images[i].operatingSystem == operatingSystem && images[i].operatingSystemVersion == version)
    ensures PickImage(images, operatingSystem, version).Some? ==>
      j < |images| && PickImage(images, operatingSystem, version) == Some(images[j].id) &&
      images[j].operatingSystem == operatingSystem && images[j].operatingSystemVersion == version &&
      forall i :: 0 <= i < j ==>
        !(images[i].operatingSystem == operatingSystem && images[i].operatingSystemVersion == version)
  {
    j := Seqs.FirstSpec(images, WantedImageOf(operatingSystem, version));
  }

  // ---------------------------------------------------------------------------
  // Public IP flag

  function LowerChar(c: char): char {
    if 'A' <= c <= 'Z' then (c as int + 32) as char else c
  }

  /** `s.lower()` on ASCII letters. */
  function Lower(s: string): (r: string)
    ensures |r| == |s|
    ensures forall i :: 0 <= i < |s| ==> r[i] == LowerChar(s[i])
    decreases |s|
  {
    if s == [] then [] else [LowerChar(s[0])] + Lower(s[1..])
  }

  /** The values `ASSIGN_PUBLIC_IP` accepts as "yes", in lower case. */
  const TRUTHY: seq<string> := ["true", "1", "y", "yes"]

  /** Whether the created instance gets a public IP. */
  function AssignPublicIp(value: string): bool {
    Lower(value) in TRUTHY
  }

  predicate EqualsIgnoringCase(a: string, b: string) {
    |a| == |b| && forall i :: 0 <= i < |a| ==> LowerChar(a[i]) == LowerChar(b[i])
  }

  lemma LowerMatchesLowerCaseWord(value: string, w: string)
    requires forall i :: 0 <= i < |w| ==> LowerChar(w[i]) == w[i]
    ensures Lower(value) == w <==> EqualsIgnoringCase(value, w)
  {
    if EqualsIgnoringCase(value, w) {
      assert forall i :: 0 <= i < |w| ==> Lower(value)[i] == w[i];
    }
  }

  /** The flag is set iff the value equals one of the accepted words up to letter case; the
      default "false" leaves it unset. */
  lemma AssignPublicIpSpec(value: string)
    ensures AssignPublicIp(value) <==> exists k :: 0 <= k < |TRUTHY| && EqualsIgnoringCase(value, TRUTHY[k])
    ensures !AssignPublicIp("false")
  {
    forall k | 0 <= k < |TRUTHY|
      ensures Lower(value) == TRUTHY[k] <==> EqualsIgnoringCase(value, TRUTHY[k])
    {
      LowerMatchesLowerCaseWord(value, TRUTHY[k]);
    }
    assert Lower("false") == "false";
  }

  // ---------------------------------------------------------------------------
  // Boot volume and shape sizing

  /** The smallest boot volume, in GB, the script requests. */
  const MIN_BOOT_VOLUME_GBS: int := 50

  /** `max(50, configured)`. */
  function BootVolumeSize(configured: int): (gbs: int)
    ensures gbs >= MIN_BOOT_VOLUME_GBS && gbs >= configured
    ensures gbs == MIN_BOOT_VOLUME_GBS || gbs == configured
  {
    if configured > MIN_BOOT_VOLUME_GBS then configured else MIN_BOOT_VOLUME_GBS
  }

  datatype ShapeConfig = ShapeConfig(ocpus: nat, memoryInGbs: nat)

  /** The flex shape gets 4 OCPUs and 24 GB; every other shape 1 OCPU and 1 GB. */
  function ShapeConfigFor(shape: string): (c: ShapeConfig)
    ensures shape == ARM_SHAPE ==> c.ocpus == 4 && c.memoryInGbs == 24
    ensures shape != ARM_SHAPE ==> c.ocpus == 1 && c.memoryInGbs == 1
  {
    if shape == "VM.Standard.A1.Flex" then ShapeConfig(4, 24) else ShapeConfig(1, 1)
  }

  // ---------------------------------------------------------------------------
  // The launch request

  /** Everything a create attempt sends except its availability domain. */
  datatype LaunchParams = LaunchParams(
    compartmentId: string,
    displayName: string,
    subnetId: string,
    assignPublicIp: bool,
    shape: string,
    shapeConfig: ShapeConfig,
    imageId: string,
    bootVolumeSizeGbs: int,
    sshPublicKey: string)

  /** The `LaunchInstanceDetails` of one create attempt. */
  datatype LaunchRequest = LaunchRequest(
    availabilityDomain: string,
    compartmentId: string,
    displayName: string,
    subnetId: string,
    assignPublicIp: bool,
    assignPrivateDnsRecord: bool,
    shape: string,
    recoveryAction: string,
    legacyImdsEndpointsDisabled: bool,
    shapeConfig: ShapeConfig,
    sourceType: string,
    imageId: string,
    bootVolumeSizeGbs: int,
    sshAuthorizedKeys: string)

  /** The create call for domain `ad`: the prepared fields, the domain, and the settings
      every attempt sends. */
  function MakeRequest(p: LaunchParams, ad: string): LaunchRequest {
    LaunchRequest(
      ad, p.compartmentId, p.displayName, p.subnetId, p.assignPublicIp, true, p.shape,
      "RESTORE_INSTANCE", false, p.shapeConfig, "image", p.imageId, p.bootVolumeSizeGbs,
      p.sshPublicKey)
  }

  /** The prepared fields a request carries. */
  function ParamsOf(r: LaunchRequest): LaunchParams {
    LaunchParams(r.compartmentId, r.displayName, r.subnetId, r.assignPublicIp, r.shape, r.shapeConfig,
      r.imageId, r.bootVolumeSizeGbs, r.sshAuthorizedKeys)
  }

  /** A request carries its domain and every prepared field unchanged, with the settings
      every attempt sends: a private DNS record, recovery by restoring the instance, legacy
      metadata endpoints left enabled, and an image as boot source. Two requests are equal
      exactly when their domains and prepared fields are. */
  lemma RequestFields(p: LaunchParams, ad: string, p': LaunchParams, ad': string)
    ensures var r := MakeRequest(p, ad);
      r.availabilityDomain == ad && ParamsOf(r) == p &&
      r.assignPrivateDnsRecord && r.recoveryAction == "RESTORE_INSTANCE" &&
      !r.legacyImdsEndpointsDisabled && r.sourceType == "image"
    ensures MakeRequest(p, ad) == MakeRequest(p', ad') <==> p == p' && ad == ad'
  {
  }
}
