# Metadata-based labels for Google Cloud assets

The labeller walks the Cloud Asset Inventory records of a project and, for
each asset, derives a set of labels from the asset's metadata: environment,
PCI flag, region and country from naming conventions in the project id and
asset name, the data-centre location from the zone, and, for compute
`Instance` assets, the operating system (from guest-OS features and disk
licenses), the machine type, the status and one `network{i}`/`subnet{i}`
pair per network interface. The derived labels are merged with the asset's
current labels (derived values win), five deprecated keys are stripped, the
result is kept under the platform's 64-label limit by evicting empty-valued
labels when that is enough, and for an `Instance` every value is sanitized
(lower case, `[a-z0-9_-]`, at most 63 characters) before it is written.

This project models that core in Dafny and proves what it promises:

- `Text` — the Python string operations the code relies on: ASCII `lower()`,
  substring `in`, `split('/')[-1]`, `f'{n}'` and string `<`.
- `Classifier` — `create_metadata_labels`: the if/elif chains as first-match
  rule tables proved equal to the source's ladders, the operating-system
  scan and the network-interface loop as methods with loop invariants, and
  the assembled label dictionary.
- `Merger` — `merge_labels`: the overlay, the deprecated-key `pop` loop,
  `sorted()` on the empty-valued keys and the 64-label cap.
- `Sanitizer` — `sanitize_label_value` and the map handed to the label
  writer.
- `Labeller` — the per-asset step of `main`: type and name from the record,
  create, merge, and for an `Instance` the sanitized write map.

Where the code and its surrounding description disagree, the model follows
the code: the region test is on the project id as given (not lower-cased),
the `asset_zone` argument of `create_metadata_labels` is ignored in favour
of the asset's own location, and the cap evicts only when there are
strictly more empty-valued labels than the excess (`>` at line 66), so an
asset over the limit by exactly its number of empty labels keeps all of
them and stays over 64.

## Model

| member | source | states |
|---|---|---|
| `Text.LowerChar` | set_gcp_metadata_based_labels.py:155 | lower-casing maps `A`-`Z` to `a`-`z` and leaves every other character alone; no upper-case letter remains |
| `Text.LowerIdempotent` | set_gcp_metadata_based_labels.py:117 | lower-casing an already lower-cased id changes nothing |
| `Text.ContainsIff` | set_gcp_metadata_based_labels.py:118-127 | Python's `t in s` holds exactly when `t` occurs at some position of `s` |
| `Text.LastSegmentIsSuffix` | set_gcp_metadata_based_labels.py:84 | `split('/')[-1]` is the suffix of the string after its last `/`, or the whole string when it has none |
| `Text.LastSegmentOfPlain` | set_gcp_metadata_based_labels.py:296-297 | a string without `/` is its own last segment |
| `Text.Decimal` | set_gcp_metadata_based_labels.py:139-140 | the rendering of a count is a non-empty string of digits, one digit exactly for counts below 10 |
| `Text.DecimalValue` | set_gcp_metadata_based_labels.py:139-140 | the rendering of a count stands for that count, most significant digit first, with no leading zero |
| `Text.DecimalInjective` | set_gcp_metadata_based_labels.py:139-140 | different interface numbers render differently |
| `Text.LessTransitive` | set_gcp_metadata_based_labels.py:68 | string order used by `sorted` is transitive |
| `Text.LessTotal` | set_gcp_metadata_based_labels.py:68 | any two different keys are ordered exactly one way |
| `Text.LessIrreflexive` | set_gcp_metadata_based_labels.py:68 | no key is before itself |
| `Classifier.FirstMatchIndex` | set_gcp_metadata_based_labels.py:117-129 | the chosen rule is the first whose pattern occurs in the input; no earlier pattern occurs |
| `Classifier.EnvChain` | set_gcp_metadata_based_labels.py:116-129 | environment: `dev`, `test`, `prod`, `dr`, `hub` tested in that order on the lower-cased project id, `Unknown` otherwise |
| `Classifier.PciIff` | set_gcp_metadata_based_labels.py:131-136 | PCI flag is `true` exactly when the lower-cased project id mentions `pci` and not `nonpci` |
| `Classifier.CountryChain` | set_gcp_metadata_based_labels.py:155-180 | country: the eight substring tests on the lower-cased asset name in order, `unknown` otherwise |
| `Classifier.RegionChain` | set_gcp_metadata_based_labels.py:184-195 | region: `na`, `amr`, `amer`, `emea`, `apac` tested in order on the project id as given, `unknown` otherwise |
| `Classifier.DataCenterChain` | set_gcp_metadata_based_labels.py:197-210 | data-centre location: six zone substrings in order, and otherwise the zone itself |
| `Classifier.EnvCountryIgnoreCase` | set_gcp_metadata_based_labels.py:116-180 | environment and country do not depend on letter case |
| `Classifier.RegionNaFirst` | set_gcp_metadata_based_labels.py:184-185 | because `na` is tested first, every project id containing `na` is placed in `amer` |
| `Classifier.RegionNaQuirk` | set_gcp_metadata_based_labels.py:184-185 | so an id such as `emea-finance-prj` is placed in `amer` |
| `Classifier.RegionCaseBlind` | set_gcp_metadata_based_labels.py:184-195 | since the id is not lower-cased, an id with no lower-case letter gets region `unknown` |
| `Classifier.RegionCaseQuirk` | set_gcp_metadata_based_labels.py:184-195 | so an upper-case `APAC-PRJ` id gets region `unknown` |
| `Classifier.CollectFeatures` | set_gcp_metadata_based_labels.py:89-95 | the feature types of all disks, in disk order |
| `Classifier.AllFeaturesWindows` | set_gcp_metadata_based_labels.py:89-101 | a `WINDOWS` entry among the collected features means exactly that some disk has a `WINDOWS` guest-OS feature |
| `Classifier.FindWindowsFeature` | set_gcp_metadata_based_labels.py:97-101 | the feature loop finds `WINDOWS` exactly when it is among the features |
| `Classifier.ScanLicenses` | set_gcp_metadata_based_labels.py:106-113 | one disk: any license whose last segment mentions `windows` gives `windows`, else any Linux distribution gives `linux`, else `unknown` |
| `Classifier.ScanDisks` | set_gcp_metadata_based_labels.py:104-115 | the license loop stops at the first disk whose licenses name a system and returns that disk's answer |
| `Classifier.LicenseOsFirstDecider` | set_gcp_metadata_based_labels.py:114-115 | when every earlier disk is silent, the first disk that names a system decides |
| `Classifier.LicenseOsNoDecider` | set_gcp_metadata_based_labels.py:103-115 | with every disk silent the system stays `unknown` |
| `Classifier.DetectOs` | set_gcp_metadata_based_labels.py:86-115 | the disk scan computes the operating system: a Windows guest feature wins over every license, then the first deciding disk |
| `Classifier.OsUnknownIff` | set_gcp_metadata_based_labels.py:86-115 | the system is `unknown` exactly when no disk has a Windows feature and no disk's licenses name a system |
| `Classifier.OsValues` | set_gcp_metadata_based_labels.py:86-115 | the `os` label is always `windows`, `linux` or `unknown` |
| `Classifier.InterfaceKeysDistinct` | set_gcp_metadata_based_labels.py:139-140 | `network{i}` and `subnet{j}` keys never collide, and different interfaces get different keys |
| `Classifier.InterfaceLabelsKeys` | set_gcp_metadata_based_labels.py:138-152 | n interfaces give exactly the keys `network1`..`networkn` and `subnet1`..`subnetn` |
| `Classifier.InterfaceLabelsAt` | set_gcp_metadata_based_labels.py:142-152 | interface i (from 1) gives `network{i}`/`subnet{i}` the last URL segment, or `None` when the URL is missing or empty |
| `Classifier.NetworkLabels` | set_gcp_metadata_based_labels.py:138-152 | the `enumerate` loop builds one pair per interface with those values |
| `Classifier.InterfaceKeyShape` | set_gcp_metadata_based_labels.py:139-140 | interface keys never coincide with a fixed label key |
| `Classifier.MetadataKeys` | set_gcp_metadata_based_labels.py:212-229 | a non-`Instance` asset gets exactly the nine base keys; an `Instance` also gets `os`, `machinetype`, `status` and the interface pairs |
| `Classifier.MetadataKeepsBase` | set_gcp_metadata_based_labels.py:226-229 | the `Instance` updates never overwrite a base label |
| `Classifier.MetadataBaseValues` | set_gcp_metadata_based_labels.py:212-222 | the nine base values: the four chains, zone, data-centre location, asset type, `google cloud`, project id |
| `Classifier.MetadataInstanceValues` | set_gcp_metadata_based_labels.py:226-229 | an `Instance` gets the detected system, the machine type and the raw status |
| `Classifier.MetadataInterfaceValues` | set_gcp_metadata_based_labels.py:226-228 | an `Instance` gets every interface pair with its value |
| `Classifier.MissingFieldDefaults` | set_gcp_metadata_based_labels.py:84-85 | each field on its own: a missing location gives an empty zone and data-centre location, a missing machine type an empty one, a missing status `None` |
| `Classifier.CreateMetadataLabels` | set_gcp_metadata_based_labels.py:82-232 | `create_metadata_labels` returns exactly the specified label map, whatever `asset_zone` is passed |
| `Merger.Overlay` | set_gcp_metadata_based_labels.py:45-54 | a key is present exactly when it is derived or current and not deprecated; a derived value wins over a current one |
| `Merger.DropDeprecated` | set_gcp_metadata_based_labels.py:51-54 | the `pop` loop removes exactly the five deprecated keys and leaves every other label as it was |
| `Merger.DroppedIsOverlay` | set_gcp_metadata_based_labels.py:45-54 | overlay followed by the `pop` loop is the overlay without deprecated keys |
| `Merger.Insert` | set_gcp_metadata_based_labels.py:68 | inserting a new key into a sorted list keeps it sorted and adds that key only |
| `Merger.SortKeys` | set_gcp_metadata_based_labels.py:68 | `sorted(keys)` lists every key once, in strictly increasing order |
| `Merger.PrefixCard` | set_gcp_metadata_based_labels.py:69 | the first `excess` sorted keys are `excess` different keys |
| `Merger.SplitRejoin` | set_gcp_metadata_based_labels.py:60-61 | the with-value and without-value comprehensions split the map in two and rejoin to it |
| `Merger.EvictedCount` | set_gcp_metadata_based_labels.py:64-78 | removing the first `excess` empty keys leaves exactly 64 labels |
| `Merger.EvictionCorrect` | set_gcp_metadata_based_labels.py:57-78 | eviction keeps every value-bearing label, keeps values, leaves 64, and drops only empty keys that sort before every empty key kept |
| `Merger.CapLabels` | set_gcp_metadata_based_labels.py:57-78 | at most 64 labels: unchanged; over and more empties than the excess: the smallest empty keys go; over otherwise: unchanged; value-bearing labels always stay |
| `Merger.MergeLabels` | set_gcp_metadata_based_labels.py:44-80 | `merge_labels`: no deprecated key survives, the overlay is exact when it has at most 64 labels, the cap cases above, and every value-bearing derived label survives unchanged |
| `Sanitizer.Sanitize` | set_gcp_metadata_based_labels.py:239 | the result is a valid label value of length min(n, 63); each kept position is the input character, its lower-case form, or `-` |
| `Sanitizer.SanitizeLabelValue` | set_gcp_metadata_based_labels.py:234-239 | `None` passes through as `None`; any string becomes a valid label value |
| `Sanitizer.SanitizeFixedPoint` | set_gcp_metadata_based_labels.py:239 | sanitizing leaves a value unchanged exactly when it is already a valid label value |
| `Sanitizer.SanitizeIdempotent` | set_gcp_metadata_based_labels.py:239 | sanitizing twice is sanitizing once |
| `Sanitizer.LabelsForWrite` | set_gcp_metadata_based_labels.py:243 | the write map has exactly the keys whose value is not `None`, each with its sanitized value |
| `Sanitizer.LabelsForWriteIdempotent` | set_gcp_metadata_based_labels.py:243 | preparing an already prepared map changes nothing |
| `Labeller.DerivedKeysNotDeprecated` | set_gcp_metadata_based_labels.py:51-54 | no derived key is deprecated, so the strip never removes a derived label |
| `Labeller.LabelAsset` | set_gcp_metadata_based_labels.py:296-305 | per asset: the merged labels are the derived labels laid over the current ones less the deprecated keys, with the three cap cases of `merge_labels`; every value-bearing derived label kept; a write exactly for `Instance` assets, which is the non-`None` merged labels each sanitized to a valid value, among them `cloud` = `google-cloud`, `infrastructure_type` = `instance` and the detected `os` |
| `Labeller.InstanceWriteCarries` | set_gcp_metadata_based_labels.py:243 | whatever the current labels, an `Instance` write carries `google-cloud`, `instance` and the detected system |
| `Labeller.FixedValuesSanitized` | set_gcp_metadata_based_labels.py:218-239 | the fixed values `google cloud` and `Instance` are written as `google-cloud` and `instance` |

## Left out

- Fetching assets from Cloud Asset Inventory (`fetch_resources`), the
  project listing (`get_all_projects.py`), the command-line entry point
  (`main.py`) and the project loop of `main`: I/O against cloud APIs.
- The label write in `set_instance_labels` (fingerprint read, `set_labels`,
  waiting on the zone operation) and every `print`: I/O; only the sanitized
  map handed to it is modelled.
- Exceptions raised by the cloud clients and caught by the `try` blocks.
- Text.LowerChar: Python's `str.lower()` folds non-ASCII letters too; the
  model lower-cases ASCII letters only (no Unicode case tables).
- Dictionary insertion order: maps are unordered in the model, so the order
  of keys in the written map is not captured.
- Merger.SortKeys: Python's `sorted` is a stable merge sort over the dict's
  keys; the model builds the same sorted list by repeated insertion.
- Classifier.CreateMetadataLabels: the `asset_zone` parameter is accepted
  and ignored, as in the source; the separate locals of the source are
  folded into one specification function `MetadataLabels`.
- Malformed records on which the source raises: a record without `name`
  or `assetType` (lines 296-297 call `split` on `None`), a `location` or
  `machineType` present as JSON `null` (lines 84-85), a license URL that
  is `null` (line 108), and a `resource`, `data`, interface or disk field
  holding `null` where a dict or list is expected. The model's `Asset`
  holds `name` and `assetType` as strings and reads an optional field
  as either a string or absent, so these records cannot be expressed;
  absent fields take their defaults.
- Labeller.LabelAsset: the location passed on to the writer as its zone is
  not modelled, since the write itself is I/O.
