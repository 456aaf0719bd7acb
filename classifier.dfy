/** The classifier: derives the metadata labels of one asset from its record,
    its project id and its type and name (`create_metadata_labels`). The
    substring chains are ordered rule tables evaluated first-match-wins; the
    disk scan for the operating system, the per-interface network labels and
    the assembly of the label map are methods with the source's loops. */
module Classifier {
  import opened LabelTypes
  import opened Text

  // ---------------------------------------------------------------------------
  // The asset record (the parts of the inventory JSON the classifier reads)
  // ---------------------------------------------------------------------------

  /** An attached disk: guest-OS feature types (`type` may be missing) and
      license URLs. Missing lists are empty. */
  datatype Disk = Disk(guestOsFeatures: seq<Option<string>>, licenses: seq<string>)

  /** A network interface: network and subnetwork URLs, each possibly missing. */
  datatype NetworkInterface = NetworkInterface(network: Option<string>, subnetwork: Option<string>)

  /** An inventory record: its full `name` and `assetType`, then
      `resource.location` and the fields of `resource.data`; a missing
      `resource` or `data` object reads as every field missing. */
  datatype Asset = Asset(
    name: string,
    assetType: string,
    location: Option<string>,
    machineType: Option<string>,
    disks: seq<Disk>,
    networkInterfaces: seq<NetworkInterface>,
    status: Option<string>,
    labels: Option<LabelMap>)

  // ---------------------------------------------------------------------------
  // Ordered substring rules
  // ---------------------------------------------------------------------------

  /** "if `pattern` occurs in the input, the answer is `outcome`" */
  datatype Rule = Rule(pattern: string, outcome: string)

  /** Index of the first rule whose pattern occurs in `s`, or `|rules|` when
      none does. */
  function FirstMatchIndex(rules: seq<Rule>, s: string): (k: nat)
    ensures k <= |rules|
    ensures k < |rules| ==> Contains(s, rules[k].pattern)
    ensures forall j :: 0 <= j < k ==> !Contains(s, rules[j].pattern)
  {
    if rules == [] then 0
    else if Contains(s, rules[0].pattern) then 0
    else 1 + FirstMatchIndex(rules[1..], s)
  }

  /** An if/elif chain of substring tests with a final else. */
  function FirstMatch(rules: seq<Rule>, s: string, fallback: string): string
  {
    var k := FirstMatchIndex(rules, s);
    if k < |rules| then rules[k].outcome else fallback
  }

  /** First match wins: the earliest rule that matches decides, whatever
      later rules would say. */
  lemma FirstMatchAt(rules: seq<Rule>, s: string, fallback: string, k: nat)
    requires k < |rules| && Contains(s, rules[k].pattern)
    requires forall j :: 0 <= j < k ==> !Contains(s, rules[j].pattern)
    ensures FirstMatch(rules, s, fallback) == rules[k].outcome
  {
  }

  /** When no rule matches, the chain's else branch is taken. */
  lemma FirstMatchNone(rules: seq<Rule>, s: string, fallback: string)
    requires forall j :: 0 <= j < |rules| ==> !Contains(s, rules[j].pattern)
    ensures FirstMatch(rules, s, fallback) == fallback
  {
  }

  /** One step of the chain: test the head rule, else fall through. */
  lemma FirstMatchStep(rules: seq<Rule>, s: string, fallback: string)
    requires rules != []
    ensures FirstMatch(rules, s, fallback)
         == if Contains(s, rules[0].pattern) then rules[0].outcome
            else FirstMatch(rules[1..], s, fallback)
  {
  }

  const EnvRules: seq<Rule> :=
    [Rule("dev", "development"), Rule("test", "testing"), Rule("prod", "production"),
     Rule("dr", "dr"), Rule("hub", "hub")]

  const PciRules: seq<Rule> := [Rule("nonpci", "false"), Rule("pci", "true")]

  const CountryRules: seq<Rule> :=
    [Rule("usa", "usa"), Rule("bra", "brazil"), Rule("ecu", "ecuador"), Rule("mex", "mexico"),
     Rule("hub", "dr"), Rule("phi", "philippines"), Rule("aus", "australia"),
     Rule("ger", "germany")]

  const RegionRules: seq<Rule> :=
    [Rule("na", "amer"), Rule("amr", "amer"), Rule("amer", "amer"), Rule("emea", "emea"),
     Rule("apac", "apac")]

  const DataCenterRules: seq<Rule> :=
    [Rule("us-east4", "ashburn northern virginia usa"), Rule("europe-west3", "frankfurt germany"),
     Rule("asia-southeast1", "singapore jurong west"), Rule("us-west2", "los angeles usa"),
     Rule("europe-north1", "hamina finland"), Rule("europe-west2", "london england")]

  /** Environment, from the lower-cased project id. */
  function Env(projectId: string): string {
    FirstMatch(EnvRules, Lower(projectId), "Unknown")
  }

  /** PCI flag, from the lower-cased project id. */
  function Pci(projectId: string): string {
    FirstMatch(PciRules, Lower(projectId), "false")
  }

  /** Country, from the lower-cased asset name. */
  function Country(assetName: string): string {
    FirstMatch(CountryRules, Lower(assetName), "unknown")
  }

  /** Region, from the project id exactly as given (no lower-casing). */
  function Region(projectId: string): string {
    FirstMatch(RegionRules, projectId, "unknown")
  }

  /** Data-centre location, from the zone; an unknown zone is its own location. */
  function DataCenter(zone: string): string {
    FirstMatch(DataCenterRules, zone, zone)
  }

  // ---------------------------------------------------------------------------
  // The chains spelled out as the source's if/elif ladders
  // ---------------------------------------------------------------------------

  lemma EnvChain(projectId: string)
    ensures var p := Lower(projectId);
      Env(projectId)
      == if Contains(p, "dev") then "development"
         else if Contains(p, "test") then "testing"
         else if Contains(p, "prod") then "production"
         else if Contains(p, "dr") then "dr"
         else if Contains(p, "hub") then "hub"
         else "Unknown"
  {
    var p := Lower(projectId);
    var rs := EnvRules;
    FirstMatchStep(rs, p, "Unknown");
    FirstMatchStep(rs[1..], p, "Unknown");
    FirstMatchStep(rs[2..], p, "Unknown");
    FirstMatchStep(rs[3..], p, "Unknown");
    FirstMatchStep(rs[4..], p, "Unknown");
    assert rs[1..][1..] == rs[2..] && rs[2..][1..] == rs[3..] && rs[3..][1..] == rs[4..];
    FirstMatchNone(rs[4..][1..], p, "Unknown");
  }

  /** `pci_compliance` is "true" exactly when the lower-cased project id
      mentions `pci` but not `nonpci`. */
  lemma PciIff(projectId: string)
    ensures var p := Lower(projectId);
      Pci(projectId) == (if Contains(p, "pci") && !Contains(p, "nonpci") then "true" else "false")
  {
    var p := Lower(projectId);
    FirstMatchStep(PciRules, p, "false");
    FirstMatchStep(PciRules[1..], p, "false");
    FirstMatchNone(PciRules[1..][1..], p, "false");
  }

  lemma CountryChain(assetName: string)
    ensures var n := Lower(assetName);
      Country(assetName)
      == if Contains(n, "usa") then "usa"
         else if Contains(n, "bra") then "brazil"
         else if Contains(n, "ecu") then "ecuador"
         else if Contains(n, "mex") then "mexico"
         else if Contains(n, "hub") then "dr"
         else if Contains(n, "phi") then "philippines"
         else if Contains(n, "aus") then "australia"
         else if Contains(n, "ger") then "germany"
         else "unknown"
  {
    var n := Lower(assetName);
    var rs := CountryRules;
    FirstMatchStep(rs, n, "unknown");
    FirstMatchStep(rs[1..], n, "unknown");
    FirstMatchStep(rs[2..], n, "unknown");
    FirstMatchStep(rs[3..], n, "unknown");
    assert rs[1..][1..] == rs[2..] && rs[2..][1..] == rs[3..] && rs[3..][1..] == rs[4..];
    CountryChainTail(n);
  }

  /** The last four country tests, from `hub` on. */
  lemma CountryChainTail(n: string)
    ensures FirstMatch(CountryRules[4..], n, "unknown")
      == if Contains(n, "hub") then "dr"
         else if Contains(n, "phi") then "philippines"
         else if Contains(n, "aus") then "australia"
         else if Contains(n, "ger") then "germany"
         else "unknown"
  {
    var rs := CountryRules[4..];
    FirstMatchStep(rs, n, "unknown");
    FirstMatchStep(rs[1..], n, "unknown");
    FirstMatchStep(rs[2..], n, "unknown");
    FirstMatchStep(rs[3..], n, "unknown");
    assert rs[1..][1..] == rs[2..] && rs[2..][1..] == rs[3..];
    FirstMatchNone(rs[3..][1..], n, "unknown");
  }

  lemma RegionChain(projectId: string)
    ensures Region(projectId)
      == if Contains(projectId, "na") then "amer"
         else if Contains(projectId, "amr") then "amer"
         else if Contains(projectId, "amer") then "amer"
         else if Contains(projectId, "emea") then "emea"
         else if Contains(projectId, "apac") then "apac"
         else "unknown"
  {
    var p := projectId;
    var rs := RegionRules;
    FirstMatchStep(rs, p, "unknown");
    FirstMatchStep(rs[1..], p, "unknown");
    FirstMatchStep(rs[2..], p, "unknown");
    FirstMatchStep(rs[3..], p, "unknown");
    FirstMatchStep(rs[4..], p, "unknown");
    assert rs[1..][1..] == rs[2..] && rs[2..][1..] == rs[3..] && rs[3..][1..] == rs[4..];
    FirstMatchNone(rs[4..][1..], p, "unknown");
  }

  lemma DataCenterChain(zone: string)
    ensures DataCenter(zone)
      == if Contains(zone, "us-east4") then "ashburn northern virginia usa"
         else if Contains(zone, "europe-west3") then "frankfurt germany"
         else if Contains(zone, "asia-southeast1") then "singapore jurong west"
         else if Contains(zone, "us-west2") then "los angeles usa"
         else if Contains(zone, "europe-north1") then "hamina finland"
         else if Contains(zone, "europe-west2") then "london england"
         else zone
  {
    var rs := DataCenterRules;
    FirstMatchStep(rs, zone, zone);
    FirstMatchStep(rs[1..], zone, zone);
    FirstMatchStep(rs[2..], zone, zone);
    FirstMatchStep(rs[3..], zone, zone);
    FirstMatchStep(rs[4..], zone, zone);
    FirstMatchStep(rs[5..], zone, zone);
    assert rs[1..][1..] == rs[2..] && rs[2..][1..] == rs[3..] && rs[3..][1..] == rs[4..];
    assert rs[4..][1..] == rs[5..];
    FirstMatchNone(rs[5..][1..], zone, zone);
  }

  /** Environment and country ignore letter case; the region does not. */
  lemma EnvCountryIgnoreCase(projectId: string, assetName: string)
    ensures Env(Lower(projectId)) == Env(projectId)
    ensures Country(Lower(assetName)) == Country(assetName)
  {
    LowerIdempotent(projectId);
    LowerIdempotent(assetName);
  }

  /** The region test for `na` comes first and is a plain substring test, so
      every project id containing `na` is put in `amer`, whatever else it
      says. */
  lemma RegionNaFirst(projectId: string)
    requires Contains(projectId, "na")
    ensures Region(projectId) == "amer"
  {
    FirstMatchStep(RegionRules, projectId, "unknown");
  }

  /** For instance, an EMEA project whose name contains `finance`. */
  lemma RegionNaQuirk()
    ensures Region("emea-finance-prj") == "amer"
  {
    ContainsAt("emea-finance-prj", "na", 7);
    RegionNaFirst("emea-finance-prj");
  }

  /** The region is read from the project id as given: an id without any
      lower-case letter matches no region pattern, however it is spelled. */
  lemma RegionCaseBlind(projectId: string)
    requires forall i :: 0 <= i < |projectId| ==> !('a' <= projectId[i] <= 'z')
    ensures Region(projectId) == "unknown"
  {
    forall j | 0 <= j < |RegionRules|
      ensures !Contains(projectId, RegionRules[j].pattern)
    {
      NotContainsMissingChar(projectId, RegionRules[j].pattern, 0);
    }
    FirstMatchNone(RegionRules, projectId, "unknown");
  }

  /** For instance, an upper-case `APAC` id. */
  lemma RegionCaseQuirk()
    ensures Region("APAC-PRJ") == "unknown"
  {
    RegionCaseBlind("APAC-PRJ");
  }

  // ---------------------------------------------------------------------------
  // Operating system, from the disks
  // ---------------------------------------------------------------------------

  const LinuxDistros: seq<string> :=
    ["debian", "redhat", "ubuntu", "centos", "fedora", "suse", "opensuse", "arch",
     "almalinux", "rocky"]

  /** The last path segment of a license URL, lower-cased. */
  function LicenseName(url: string): string {
    Lower(LastSegment(url))
  }

  /** `'windows' in license_os` */
  predicate MentionsWindows(name: string) {
    Contains(name, "windows")
  }

  /** `any(substring in license_os for substring in [...])` */
  predicate MentionsLinux(name: string) {
    exists i :: 0 <= i < |LinuxDistros| && Contains(name, LinuxDistros[i])
  }

  predicate IsWindowsLicense(url: string) {
    MentionsWindows(LicenseName(url))
  }

  predicate IsLinuxLicense(url: string) {
    MentionsLinux(LicenseName(url))
  }

  /** Some disk carries a guest-OS feature of type `WINDOWS`. */
  predicate HasWindowsFeature(disks: seq<Disk>) {
    exists d, f :: 0 <= d < |disks| && 0 <= f < |disks[d].guestOsFeatures|
                   && disks[d].guestOsFeatures[f] == Some("WINDOWS")
  }

  /** What one disk's licenses say: any Windows license makes it `windows`,
      otherwise any Linux distribution makes it `linux`. */
  function DiskLicenseOs(licenses: seq<string>): string {
    if AnyWindows(licenses) then "windows"
    else if AnyLinux(licenses) then "linux"
    else "unknown"
  }

  predicate AnyWindows(licenses: seq<string>) {
    exists l :: 0 <= l < |licenses| && IsWindowsLicense(licenses[l])
  }

  predicate AnyLinux(licenses: seq<string>) {
    exists l :: 0 <= l < |licenses| && IsLinuxLicense(licenses[l])
  }

  lemma AnyLicenseSnoc(licenses: seq<string>, l: nat)
    requires l < |licenses|
    ensures AnyWindows(licenses[..l + 1]) <==> AnyWindows(licenses[..l]) || IsWindowsLicense(licenses[l])
    ensures AnyLinux(licenses[..l + 1]) <==> AnyLinux(licenses[..l]) || IsLinuxLicense(licenses[l])
  {
    assert licenses[..l + 1] == licenses[..l] + [licenses[l]];
  }

  /** The disk's licenses name no operating system. */
  predicate Silent(disk: Disk) {
    DiskLicenseOs(disk.licenses) == "unknown"
  }

  /** The first disk whose licenses say something decides. */
  function LicenseOs(disks: seq<Disk>): string {
    if disks == [] then "unknown"
    else if DiskLicenseOs(disks[0].licenses) != "unknown" then DiskLicenseOs(disks[0].licenses)
    else LicenseOs(disks[1..])
  }

  /** The operating system label: a Windows guest feature on any disk wins over
      every license; otherwise the licenses decide. */
  function OsOf(disks: seq<Disk>): string {
    if HasWindowsFeature(disks) then "windows" else LicenseOs(disks)
  }

  /** The license scan stops at the first disk that decides: disk `i` decides
      when every earlier disk's licenses are silent. */
  lemma {:induction false} LicenseOsFirstDecider(disks: seq<Disk>, i: nat)
    requires i < |disks| && !Silent(disks[i])
    requires forall j :: 0 <= j < i ==> Silent(disks[j])
    ensures LicenseOs(disks) == DiskLicenseOs(disks[i].licenses)
  {
    if i > 0 {
      LicenseOsFirstDecider(disks[1..], i - 1);
    }
  }

  /** With every disk's licenses silent, the operating system stays `unknown`. */
  lemma {:induction false} LicenseOsNoDecider(disks: seq<Disk>)
    requires forall j :: 0 <= j < |disks| ==> Silent(disks[j])
    ensures LicenseOs(disks) == "unknown"
  {
    if disks != [] {
      LicenseOsNoDecider(disks[1..]);
    }
  }

  /** The operating system label is always one of three names. */
  lemma {:induction false} OsValues(disks: seq<Disk>)
    ensures OsOf(disks) == "windows" || OsOf(disks) == "linux" || OsOf(disks) == "unknown"
  {
    LicenseOsValues(disks);
  }

  lemma {:induction false} LicenseOsValues(disks: seq<Disk>)
    ensures LicenseOs(disks) == "windows" || LicenseOs(disks) == "linux" || LicenseOs(disks) == "unknown"
  {
    if disks != [] {
      LicenseOsValues(disks[1..]);
    }
  }

  /** The feature types of all disks, in disk order (`os_features`). */
  function AllFeatures(disks: seq<Disk>): seq<Option<string>>
  {
    if disks == [] then []
    else AllFeatures(disks[..|disks| - 1]) + disks[|disks| - 1].guestOsFeatures
  }

  lemma {:induction false} AllFeaturesWindows(disks: seq<Disk>)
    ensures Some("WINDOWS") in AllFeatures(disks) <==> HasWindowsFeature(disks)
  {
    if disks != [] {
      var init, last := disks[..|disks| - 1], disks[|disks| - 1];
      AllFeaturesWindows(init);
      if HasWindowsFeature(disks) {
        var d, f :| 0 <= d < |disks| && 0 <= f < |disks[d].guestOsFeatures|
                    && disks[d].guestOsFeatures[f] == Some("WINDOWS");
        if d < |disks| - 1 {
          assert init[d] == disks[d];
        } else {
          assert last.guestOsFeatures[f] == Some("WINDOWS");
        }
      }
      if Some("WINDOWS") in AllFeatures(disks) {
        if Some("WINDOWS") in AllFeatures(init) {
          var d, f :| 0 <= d < |init| && 0 <= f < |init[d].guestOsFeatures|
                      && init[d].guestOsFeatures[f] == Some("WINDOWS");
          assert disks[d] == init[d];
        } else {
          var f :| 0 <= f < |last.guestOsFeatures| && last.guestOsFeatures[f] == Some("WINDOWS");
          assert disks[|disks| - 1].guestOsFeatures[f] == Some("WINDOWS");
        }
      }
    }
  }

  /** `os_features`: every disk's guest-OS feature types, in order. */
  method CollectFeatures(disks: seq<Disk>) returns (features: seq<Option<string>>)
    ensures features == AllFeatures(disks)
  {
    features := [];
    for d := 0 to |disks|
      invariant features == AllFeatures(disks[..d])
    {
      var guest := disks[d].guestOsFeatures;
      for f := 0 to |guest|
        invariant features == AllFeatures(disks[..d]) + guest[..f]
      {
        features := features + [guest[f]];
      }
      assert disks[..d + 1][..d] == disks[..d];
      assert guest[..|guest|] == guest;
    }
    assert disks[..|disks|] == disks;
  }

  /** The inner license loop for one disk: a Windows license ends the scan
      at once, a Linux distribution only marks the disk and the scan goes on. */
  method ScanLicenses(licenses: seq<string>) returns (os: string)
    ensures os == DiskLicenseOs(licenses)
  {
    os := "unknown";
    var l := 0;
    while l < |licenses|
      invariant 0 <= l <= |licenses|
      invariant !AnyWindows(licenses[..l])
      invariant os == if AnyLinux(licenses[..l]) then "linux" else "unknown"
    {
      AnyLicenseSnoc(licenses, l);
      var name := LicenseName(licenses[l]);
      if MentionsWindows(name) {
        os := "windows";
        break;
      }
      if MentionsLinux(name) {
        os := "linux";
      }
      l := l + 1;
    }
    assert l == |licenses| ==> licenses[..l] == licenses;
    if os == "windows" {
      assert IsWindowsLicense(licenses[l]) && AnyWindows(licenses);
    }
  }

  /** The guest-feature loop: is any collected feature type `WINDOWS`? */
  method FindWindowsFeature(features: seq<Option<string>>) returns (found: bool)
    ensures found <==> Some("WINDOWS") in features
  {
    found := false;
    var i := 0;
    while i < |features|
      invariant 0 <= i <= |features|
      invariant Some("WINDOWS") !in features[..i]
    {
      if features[i] == Some("WINDOWS") {
        found := true;
        break;
      }
      assert features[..i + 1] == features[..i] + [features[i]];
      i := i + 1;
    }
    assert !found ==> features[..i] == features;
  }

  /** The license loop over the disks, stopping at the first disk whose
      licenses name an operating system. */
  method ScanDisks(disks: seq<Disk>) returns (os: string)
    ensures os == LicenseOs(disks)
  {
    os := "unknown";
    var d := 0;
    while d < |disks|
      invariant 0 <= d <= |disks|
      invariant os == "unknown"
      invariant forall j :: 0 <= j < d ==> Silent(disks[j])
    {
      os := ScanLicenses(disks[d].licenses);
      if os != "unknown" {
        LicenseOsFirstDecider(disks, d);
        break;
      }
      d := d + 1;
    }
    if os == "unknown" {
      LicenseOsNoDecider(disks);
    }
  }

  /** The disk scan of `create_metadata_labels`: look for a `WINDOWS`
      guest-OS feature on any disk; failing that, walk the disks' licenses and
      stop at the first disk that gave an answer. */
  method DetectOs(disks: seq<Disk>) returns (os: string)
    ensures os == OsOf(disks)
  {
    os := "unknown";
    var features := CollectFeatures(disks);
    AllFeaturesWindows(disks);
    var found := FindWindowsFeature(features);
    if found {
      os := "windows";
    }
    if os == "unknown" {
      os := ScanDisks(disks);
    }
  }

  /** The operating system is `unknown` exactly when no disk has a Windows
      guest feature and no disk's licenses name an operating system. */
  lemma {:induction false} OsUnknownIff(disks: seq<Disk>)
    ensures OsOf(disks) == "unknown"
        <==> !HasWindowsFeature(disks) && forall j :: 0 <= j < |disks| ==> Silent(disks[j])
  {
    if !HasWindowsFeature(disks) {
      if forall j :: 0 <= j < |disks| ==> Silent(disks[j]) {
        LicenseOsNoDecider(disks);
      } else {
        var i := FirstLoud(disks);
        LicenseOsFirstDecider(disks, i);
      }
    }
  }

  /** The index of the first disk whose licenses name an operating system. */
  function FirstLoud(disks: seq<Disk>): (i: nat)
    requires exists j :: 0 <= j < |disks| && !Silent(disks[j])
    ensures i < |disks| && !Silent(disks[i])
    ensures forall j :: 0 <= j < i ==> Silent(disks[j])
  {
    if !Silent(disks[0]) then 0
    else
      var j :| 0 <= j < |disks| && !Silent(disks[j]);
      assert !Silent(disks[1..][j - 1]);
      1 + FirstLoud(disks[1..])
  }

  // ---------------------------------------------------------------------------
  // Network and subnet labels, one pair per interface
  // ---------------------------------------------------------------------------

  /** `x.split('/')[-1] if x else None`: a missing or empty URL gives `None`. */
  function RefId(url: Option<string>): Option<string>
  {
    if url.Some? && url.value != "" then Some(LastSegment(url.value)) else None
  }

  function NetworkKey(n: nat): string {
    "network" + Decimal(n)
  }

  function SubnetKey(n: nat): string {
    "subnet" + Decimal(n)
  }

  /** `network1` .. `network{count}` and `subnet1` .. `subnet{count}`. */
  function InterfaceKeys(count: nat): set<string> {
    (set n | 1 <= n <= count :: NetworkKey(n)) + (set n | 1 <= n <= count :: SubnetKey(n))
  }

  /** Interface keys never clash with each other. */
  lemma InterfaceKeysDistinct(a: nat, b: nat)
    ensures NetworkKey(a) != SubnetKey(b)
    ensures a != b ==> NetworkKey(a) != NetworkKey(b) && SubnetKey(a) != SubnetKey(b)
  {
    assert NetworkKey(a)[0] == 'n' && SubnetKey(b)[0] == 's';
    if NetworkKey(a) == NetworkKey(b) {
      assert Decimal(a) == NetworkKey(a)[7..] == NetworkKey(b)[7..] == Decimal(b);
      DecimalInjective(a, b);
    }
    if SubnetKey(a) == SubnetKey(b) {
      assert Decimal(a) == SubnetKey(a)[6..] == SubnetKey(b)[6..] == Decimal(b);
      DecimalInjective(a, b);
    }
  }

  /** The labels for the first `|interfaces|` interfaces, added pair by pair. */
  function InterfaceLabels(interfaces: seq<NetworkInterface>): LabelMap
  {
    if interfaces == [] then map[]
    else
      var n := |interfaces|;
      InterfaceLabels(interfaces[..n - 1])
        [NetworkKey(n) := RefId(interfaces[n - 1].network)]
        [SubnetKey(n) := RefId(interfaces[n - 1].subnetwork)]
  }

  lemma InterfaceKeysSnoc(k: nat)
    requires k >= 1
    ensures InterfaceKeys(k) == InterfaceKeys(k - 1) + {NetworkKey(k), SubnetKey(k)}
  {
    var nets := set n | 1 <= n <= k :: NetworkKey(n);
    var nets0 := set n | 1 <= n <= k - 1 :: NetworkKey(n);
    assert nets == nets0 + {NetworkKey(k)} by {
      forall x | x in nets ensures x in nets0 + {NetworkKey(k)} {
        var n :| 1 <= n <= k && x == NetworkKey(n);
        if n < k { assert x in nets0; }
      }
    }
    var subs := set n | 1 <= n <= k :: SubnetKey(n);
    var subs0 := set n | 1 <= n <= k - 1 :: SubnetKey(n);
    assert subs == subs0 + {SubnetKey(k)} by {
      forall x | x in subs ensures x in subs0 + {SubnetKey(k)} {
        var n :| 1 <= n <= k && x == SubnetKey(n);
        if n < k { assert x in subs0; }
      }
    }
  }

  /** The keys are `network1`, `subnet1`, ... up to the interface count. */
  lemma {:induction false} InterfaceLabelsKeys(interfaces: seq<NetworkInterface>)
    ensures InterfaceLabels(interfaces).Keys == InterfaceKeys(|interfaces|)
  {
    if interfaces != [] {
      var k := |interfaces|;
      InterfaceLabelsKeys(interfaces[..k - 1]);
      InterfaceKeysSnoc(k);
    }
  }

  /** Interface `n` (counting from 1) fills `network{n}` and `subnet{n}`, and
      no later interface overwrites them. */
  lemma {:induction false} InterfaceLabelsAt(interfaces: seq<NetworkInterface>, n: nat)
    requires 1 <= n <= |interfaces|
    ensures NetworkKey(n) in InterfaceLabels(interfaces) && SubnetKey(n) in InterfaceLabels(interfaces)
    ensures InterfaceLabels(interfaces)[NetworkKey(n)] == RefId(interfaces[n - 1].network)
    ensures InterfaceLabels(interfaces)[SubnetKey(n)] == RefId(interfaces[n - 1].subnetwork)
  {
    var k := |interfaces|;
    InterfaceKeysDistinct(n, k);
    InterfaceKeysDistinct(k, n);
    if n < k {
      var init := interfaces[..k - 1];
      InterfaceLabelsAt(init, n);
      assert init[n - 1] == interfaces[n - 1];
    }
  }

  /** The `enumerate` loop: interface `i` (counting from 0) yields the labels
      `network{i+1}` and `subnet{i+1}`, holding the last path segment of its
      network and subnetwork URL, or `None` when that URL is missing or empty. */
  method NetworkLabels(interfaces: seq<NetworkInterface>) returns (labels: LabelMap)
    ensures labels == InterfaceLabels(interfaces)
    ensures labels.Keys == InterfaceKeys(|interfaces|)
    ensures forall n :: 1 <= n <= |interfaces| ==>
              labels[NetworkKey(n)] == RefId(interfaces[n - 1].network)
              && labels[SubnetKey(n)] == RefId(interfaces[n - 1].subnetwork)
  {
    labels := map[];
    for index := 0 to |interfaces|
      invariant labels == InterfaceLabels(interfaces[..index])
    {
      var networkKey := NetworkKey(index + 1);
      var subnetKey := SubnetKey(index + 1);
      var interface := interfaces[index];
      var networkId := if interface.network.Some? && interface.network.value != ""
                       then Some(LastSegment(interface.network.value)) else None;
      var subnetId := if interface.subnetwork.Some? && interface.subnetwork.value != ""
                      then Some(LastSegment(interface.subnetwork.value)) else None;
      labels := labels[networkKey := networkId][subnetKey := subnetId];
      assert interfaces[..index + 1][..index] == interfaces[..index];
    }
    assert interfaces[..|interfaces|] == interfaces;
    InterfaceLabelsKeys(interfaces);
    forall n | 1 <= n <= |interfaces|
      ensures labels[NetworkKey(n)] == RefId(interfaces[n - 1].network)
      ensures labels[SubnetKey(n)] == RefId(interfaces[n - 1].subnetwork)
    {
      InterfaceLabelsAt(interfaces, n);
    }
  }

  // ---------------------------------------------------------------------------
  // The metadata label map
  // ---------------------------------------------------------------------------

  /** Keys every asset gets. */
  const BaseKeys: set<string> :=
    {"env", "data_center_location", "infrastructure_type", "region", "country", "zone",
     "cloud", "project", "pci_compliance"}

  /** Keys only `Instance` assets get, besides the interface keys. */
  const InstanceKeys: set<string> := {"os", "machinetype", "status"}

  /** The zone: last path segment of `resource.location` ('' when missing). */
  function ZoneOf(asset: Asset): string {
    LastSegment(asset.location.GetOr(""))
  }

  /** The machine type: last path segment of `data.machineType` ('' when missing). */
  function MachineTypeOf(asset: Asset): string {
    LastSegment(asset.machineType.GetOr(""))
  }

  /** Interface keys start with `n` or `su`, unlike every fixed key. */
  lemma InterfaceKeyShape(count: nat, key: string)
    requires key in InterfaceKeys(count)
    ensures (key[0] == 'n' && |key| >= 8) || (key[0] == 's' && key[1] == 'u' && |key| >= 7)
    ensures key !in BaseKeys + InstanceKeys
  {
    if key[0] == 'n' {
      assert key !in BaseKeys + InstanceKeys;
    }
  }

  /** The dictionary literal every asset starts from, over its computed
      values. */
  function LabelDict(env: string, dataCenter: string, assetType: string, region: string,
                     country: string, zone: string, projectId: string, pci: string): LabelMap
  {
    map[
      "env" := Some(env),
      "data_center_location" := Some(dataCenter),
      "infrastructure_type" := Some(assetType),
      "region" := Some(region),
      "country" := Some(country),
      "zone" := Some(zone),
      "cloud" := Some("google cloud"),
      "project" := Some(projectId),
      "pci_compliance" := Some(pci)]
  }

  lemma LabelDictValues(env: string, dataCenter: string, assetType: string, region: string,
                        country: string, zone: string, projectId: string, pci: string)
    ensures var b := LabelDict(env, dataCenter, assetType, region, country, zone, projectId, pci);
      && b["env"] == Some(env)
      && b["data_center_location"] == Some(dataCenter)
      && b["infrastructure_type"] == Some(assetType)
      && b["region"] == Some(region)
      && b["country"] == Some(country)
      && b["zone"] == Some(zone)
      && b["cloud"] == Some("google cloud")
      && b["project"] == Some(projectId)
      && b["pci_compliance"] == Some(pci)
  {
  }

  function BaseLabels(asset: Asset, projectId: string, assetType: string, assetName: string): LabelMap
  {
    var zone := ZoneOf(asset);
    LabelDict(Env(projectId), DataCenter(zone), assetType, Region(projectId), Country(assetName),
              zone, projectId, Pci(projectId))
  }

  /** The labels `create_metadata_labels` returns, as one expression. */
  function MetadataLabels(asset: Asset, projectId: string, assetType: string, assetName: string): LabelMap
  {
    var base := BaseLabels(asset, projectId, assetType, assetName);
    if assetType == "Instance" then
      (base + InterfaceLabels(asset.networkInterfaces))
        ["os" := Some(OsOf(asset.disks))]
        ["machinetype" := Some(MachineTypeOf(asset))]
        ["status" := asset.status]
    else base
  }

  /** A non-`Instance` asset gets exactly the nine base keys; an `Instance`
      also gets `os`, `machinetype`, `status` and one network/subnet pair per
      interface. */
  lemma MetadataKeys(asset: Asset, projectId: string, assetType: string, assetName: string)
    ensures MetadataLabels(asset, projectId, assetType, assetName).Keys
         == BaseKeys + if assetType == "Instance"
                       then InstanceKeys + InterfaceKeys(|asset.networkInterfaces|)
                       else {}
  {
    InterfaceLabelsKeys(asset.networkInterfaces);
  }

  lemma BaseKeysNotInstanceKeys()
    ensures BaseKeys !! InstanceKeys
  {
  }

  /** The instance-only updates leave the base labels alone. */
  lemma MetadataKeepsBase(asset: Asset, projectId: string, assetType: string, assetName: string, key: string)
    requires key in BaseKeys
    ensures var base := BaseLabels(asset, projectId, assetType, assetName);
      key in base && MetadataLabels(asset, projectId, assetType, assetName)[key] == base[key]
  {
    var base := BaseLabels(asset, projectId, assetType, assetName);
    var net := InterfaceLabels(asset.networkInterfaces);
    InterfaceLabelsKeys(asset.networkInterfaces);
    assert key !in net by {
      if key in net {
        InterfaceKeyShape(|asset.networkInterfaces|, key);
      }
    }
    BaseKeysNotInstanceKeys();
    assert key != "os" && key != "machinetype" && key != "status";
    assert (base + net)[key] == base[key];
  }

  /** The nine base labels: the classifier chains, the zone taken from the
      asset's location, and the fixed values. */
  lemma MetadataBaseValues(asset: Asset, projectId: string, assetType: string, assetName: string)
    ensures var m := MetadataLabels(asset, projectId, assetType, assetName);
      && m["env"] == Some(Env(projectId))
      && m["pci_compliance"] == Some(Pci(projectId))
      && m["region"] == Some(Region(projectId))
      && m["country"] == Some(Country(assetName))
      && m["zone"] == Some(ZoneOf(asset))
      && m["data_center_location"] == Some(DataCenter(ZoneOf(asset)))
      && m["infrastructure_type"] == Some(assetType)
      && m["cloud"] == Some("google cloud")
      && m["project"] == Some(projectId)
  {
    var m := MetadataLabels(asset, projectId, assetType, assetName);
    var base := BaseLabels(asset, projectId, assetType, assetName);
    forall key | key in BaseKeys
      ensures key in base && m[key] == base[key]
    {
      MetadataKeepsBase(asset, projectId, assetType, assetName, key);
    }
    var zone := ZoneOf(asset);
    LabelDictValues(Env(projectId), DataCenter(zone), assetType, Region(projectId), Country(assetName),
                    zone, projectId, Pci(projectId));
  }

  /** The instance-only labels: the operating system from the disk scan, the
      machine type and the raw status (possibly `None`). */
  lemma MetadataInstanceValues(asset: Asset, projectId: string, assetName: string)
    ensures var m := MetadataLabels(asset, projectId, "Instance", assetName);
      && m["os"] == Some(OsOf(asset.disks))
      && m["machinetype"] == Some(MachineTypeOf(asset))
      && m["status"] == asset.status
  {
  }

  /** One network/subnet pair per interface, numbered from 1. */
  lemma MetadataInterfaceValues(asset: Asset, projectId: string, assetName: string)
    ensures var m := MetadataLabels(asset, projectId, "Instance", assetName);
      forall n :: 1 <= n <= |asset.networkInterfaces| ==>
        NetworkKey(n) in m && SubnetKey(n) in m
        && m[NetworkKey(n)] == RefId(asset.networkInterfaces[n - 1].network)
        && m[SubnetKey(n)] == RefId(asset.networkInterfaces[n - 1].subnetwork)
  {
    var m := MetadataLabels(asset, projectId, "Instance", assetName);
    forall n | 1 <= n <= |asset.networkInterfaces|
      ensures NetworkKey(n) in m && SubnetKey(n) in m
      ensures m[NetworkKey(n)] == RefId(asset.networkInterfaces[n - 1].network)
      ensures m[SubnetKey(n)] == RefId(asset.networkInterfaces[n - 1].subnetwork)
    {
      InterfaceLabelsAt(asset.networkInterfaces, n);
      InterfaceLabelsKeys(asset.networkInterfaces);
      InterfaceKeyShape(|asset.networkInterfaces|, NetworkKey(n));
      InterfaceKeyShape(|asset.networkInterfaces|, SubnetKey(n));
    }
  }

  /** `create_metadata_labels`: the disk scan, the interface loop, the base
      dictionary and, for an `Instance`, the two in-place updates. The
      `assetZone` argument is not used: the zone is always re-read from the
      asset's location. */
  method CreateMetadataLabels(asset: Asset, projectId: string, assetType: string,
                              assetName: string, assetZone: string)
    returns (labels: LabelMap)
    ensures labels == MetadataLabels(asset, projectId, assetType, assetName)
  {
    var zone := LastSegment(asset.location.GetOr(""));
    var machineType := LastSegment(asset.machineType.GetOr(""));
    var os := DetectOs(asset.disks);
    var env := Env(projectId);
    var pci := Pci(projectId);
    var networkLabels := NetworkLabels(asset.networkInterfaces);
    var country := Country(assetName);
    var region := Region(projectId);
    var dataCenter := DataCenter(zone);

    labels := map[
      "env" := Some(env),
      "data_center_location" := Some(dataCenter),
      "infrastructure_type" := Some(assetType),
      "region" := Some(region),
      "country" := Some(country),
      "zone" := Some(zone),
      "cloud" := Some("google cloud"),
      "project" := Some(projectId),
      "pci_compliance" := Some(pci)];

    if assetType == "Instance" {
      var status := asset.status;
      labels := labels + networkLabels;
      labels := labels["os" := Some(os)]["machinetype" := Some(machineType)]["status" := status];
    }
  }

  /** Missing attributes fall back to defaults instead of failing, each on
      its own: no location gives an empty zone and data-centre location, no
      machine type an empty machine type, and no status a `None` status. */
  lemma MissingFieldDefaults(asset: Asset, projectId: string, assetName: string)
    ensures var m := MetadataLabels(asset, projectId, "Instance", assetName);
      asset.location.None? ==> m["zone"] == Some("") && m["data_center_location"] == Some("")
    ensures var m := MetadataLabels(asset, projectId, "Instance", assetName);
      asset.machineType.None? ==> m["machinetype"] == Some("")
    ensures var m := MetadataLabels(asset, projectId, "Instance", assetName);
      asset.status.None? ==> m["status"] == None
  {
    assert DataCenter("") == "" by {
      forall j | 0 <= j < |DataCenterRules|
        ensures !Contains("", DataCenterRules[j].pattern)
      {
        NotContainsMissingChar("", DataCenterRules[j].pattern, 0);
      }
      FirstMatchNone(DataCenterRules, "", "");
    }
    MetadataBaseValues(asset, projectId, "Instance", assetName);
    MetadataInstanceValues(asset, projectId, assetName);
  }

}
