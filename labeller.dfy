/** The per-asset step of the labeller: the asset's type and short name are
    the last segments of its `assetType` and `name`, the derived labels are
    merged with the asset's current labels, and for a compute `Instance` the
    merged labels are sanitized into the map handed to the label writer. */
module Labeller {
  import opened LabelTypes
  import opened Text
  import opened Classifier
  import opened Merger
  import opened Sanitizer

  lemma FixedKeysNotDeprecated()
    ensures forall k :: k in BaseKeys + InstanceKeys ==> k !in DeprecatedKeys
  {
  }

  lemma InterfaceKeysNotDeprecated(count: nat)
    ensures forall k :: k in InterfaceKeys(count) ==> k !in DeprecatedKeys
  {
    forall k | k in InterfaceKeys(count)
      ensures k !in DeprecatedKeys
    {
      InterfaceKeyShape(count, k);
    }
  }

  /** No derived key is one of the deprecated keys, so the strip in
      `merge_labels` never removes a derived label. */
  lemma DerivedKeysNotDeprecated(asset: Asset, projectId: string, assetType: string, assetName: string)
    ensures forall k :: k in MetadataLabels(asset, projectId, assetType, assetName) ==> k !in DeprecatedKeys
  {
    MetadataKeys(asset, projectId, assetType, assetName);
    FixedKeysNotDeprecated();
    InterfaceKeysNotDeprecated(|asset.networkInterfaces|);
  }

  /** One asset, from its inventory record to the labels written for it: the
      merged labels are the derived labels laid over the current ones, less
      the deprecated keys, capped as `merge_labels` caps them; they keep every
      derived label that has a value; only an `Instance` gets a write, which
      is the merged labels with a value, each sanitized to a valid label
      value. */
  method LabelAsset(asset: Asset, projectId: string)
    returns (merged: LabelMap, written: Option<map<string, string>>)
    ensures forall k :: k in DeprecatedKeys ==> k !in merged
    ensures var metadata := MetadataLabels(asset, projectId, LastSegment(asset.assetType), LastSegment(asset.name));
      forall k :: k in metadata && !IsEmptyValue(metadata[k]) ==> k in merged && merged[k] == metadata[k]
    ensures written.Some? <==> LastSegment(asset.assetType) == "Instance"
    ensures var o := Overlay(MetadataLabels(asset, projectId, LastSegment(asset.assetType),
                                            LastSegment(asset.name)), asset.labels);
      && (|o| <= MaxLabels ==> merged == o)
      && (|o| > MaxLabels && |EmptyKeys(o)| > |o| - MaxLabels ==> EvictsSmallestEmpty(o, merged))
      && (|o| > MaxLabels && |EmptyKeys(o)| <= |o| - MaxLabels ==> merged == o)
    ensures written.Some? ==> written.value == LabelsForWrite(merged)
    ensures written.Some? ==>
              (forall k :: k in written.value <==> k in merged && merged[k].Some?)
              && (forall k :: k in written.value ==> IsLabelValue(written.value[k]))
    ensures written.Some? ==>
              && "cloud" in written.value && written.value["cloud"] == "google-cloud"
              && "infrastructure_type" in written.value && written.value["infrastructure_type"] == "instance"
              && "os" in written.value && written.value["os"] == OsOf(asset.disks)
  {
    var assetType := LastSegment(asset.assetType);
    var assetName := LastSegment(asset.name);
    var assetZone := asset.location.GetOr("");
    var metadata := CreateMetadataLabels(asset, projectId, assetType, assetName, assetZone);
    DerivedKeysNotDeprecated(asset, projectId, assetType, assetName);
    merged := MergeLabels(metadata, asset.labels);
    written := None;
    if assetType == "Instance" {
      written := Some(LabelsForWrite(merged));
      InstanceWriteCarries(asset, projectId, merged);
    }
  }

  /** Whatever the current labels, a write for an `Instance` whose merged map
      kept the value-bearing derived labels carries the cloud as
      `google-cloud`, the type as `instance` and the operating system. */
  lemma InstanceWriteCarries(asset: Asset, projectId: string, merged: LabelMap)
    requires var metadata := MetadataLabels(asset, projectId, "Instance", LastSegment(asset.name));
      forall k :: k in metadata && !IsEmptyValue(metadata[k]) ==> k in merged && merged[k] == metadata[k]
    ensures var w := LabelsForWrite(merged);
      && "cloud" in w && w["cloud"] == "google-cloud"
      && "infrastructure_type" in w && w["infrastructure_type"] == "instance"
      && "os" in w && w["os"] == OsOf(asset.disks)
  {
    InstanceFixedLabels(asset, projectId, LastSegment(asset.name));
    OsValues(asset.disks);
    WriteCarries(MetadataLabels(asset, projectId, "Instance", LastSegment(asset.name)), merged, OsOf(asset.disks));
  }

  lemma WriteCarries(metadata: LabelMap, merged: LabelMap, os: string)
    requires "cloud" in metadata && metadata["cloud"] == Some("google cloud")
    requires "infrastructure_type" in metadata && metadata["infrastructure_type"] == Some("Instance")
    requires "os" in metadata && metadata["os"] == Some(os)
    requires os == "windows" || os == "linux" || os == "unknown"
    requires forall k :: k in metadata && !IsEmptyValue(metadata[k]) ==> k in merged && merged[k] == metadata[k]
    ensures var w := LabelsForWrite(merged);
      && "cloud" in w && w["cloud"] == "google-cloud"
      && "infrastructure_type" in w && w["infrastructure_type"] == "instance"
      && "os" in w && w["os"] == os
  {
    SanitizeFixedPoint(os);
    FixedValuesSanitized();
    WrittenValue(metadata, merged, "cloud", "google cloud");
    WrittenValue(metadata, merged, "infrastructure_type", "Instance");
    WrittenValue(metadata, merged, "os", os);
  }

  /** The derived labels of an `Instance` that the write always carries. */
  lemma InstanceFixedLabels(asset: Asset, projectId: string, assetName: string)
    ensures var m := MetadataLabels(asset, projectId, "Instance", assetName);
      && "cloud" in m && m["cloud"] == Some("google cloud")
      && "infrastructure_type" in m && m["infrastructure_type"] == Some("Instance")
      && "os" in m && m["os"] == Some(OsOf(asset.disks))
  {
    MetadataBaseValues(asset, projectId, "Instance", assetName);
    MetadataInstanceValues(asset, projectId, assetName);
  }

  /** A derived label with a value that survives the merge is written
      sanitized. */
  lemma WrittenValue(metadata: LabelMap, merged: LabelMap, key: string, value: string)
    requires key in metadata && metadata[key] == Some(value) && value != ""
    requires forall k :: k in metadata && !IsEmptyValue(metadata[k]) ==> k in merged && merged[k] == metadata[k]
    ensures key in LabelsForWrite(merged) && LabelsForWrite(merged)[key] == Sanitize(value)
  {
  }

  /** The two fixed values every `Instance` carries, as written. */
  lemma FixedValuesSanitized()
    ensures Sanitize("google cloud") == "google-cloud"
    ensures Sanitize("Instance") == "instance"
  {
    assert Lower("google cloud") == "google cloud";
    assert Lower("Instance") == "instance";
  }
}

