/** The sanitizer (`sanitize_label_value`) and the map handed to the label
    writer (the comprehension at the top of `set_instance_labels`). A label
    value may hold only lower-case letters, digits, `_` and `-`, and at most
    63 characters. */
module Sanitizer {
  import opened LabelTypes
  import opened Text

  /** The longest label value kept. */
  const MaxValueLength: nat := 63

  /** The character class `[a-z0-9_-]`. */
  predicate IsLabelChar(c: char) {
    'a' <= c <= 'z' || '0' <= c <= '9' || c == '_' || c == '-'
  }

  /** A value the platform accepts as it is. */
  predicate IsLabelValue(s: string) {
    |s| <= MaxValueLength && forall i :: 0 <= i < |s| ==> IsLabelChar(s[i])
  }

  /** `re.sub(r'[^a-z0-9_-]', '-', ...)`, one character at a time. */
  function ReplaceChar(c: char): char {
    if IsLabelChar(c) then c else '-'
  }

  /** `re.sub(r'[^a-z0-9_-]', '-', value.lower())[:63]` */
  function Sanitize(value: string): (r: string)
    ensures IsLabelValue(r)
    ensures |r| == if |value| <= MaxValueLength then |value| else MaxValueLength
    ensures forall i :: 0 <= i < |r| ==>
              r[i] == if IsLabelChar(value[i]) then value[i]
                      else if IsUpper(value[i]) then LowerChar(value[i])
                      else '-'
  {
    var lowered := Lower(value);
    var replaced := seq(|lowered|, i requires 0 <= i < |lowered| => ReplaceChar(lowered[i]));
    if |replaced| <= MaxValueLength then replaced else replaced[..MaxValueLength]
  }

  /** `sanitize_label_value`: `None` passes through unchanged. */
  function SanitizeLabelValue(value: Option<string>): (r: Option<string>)
    ensures r.None? <==> value.None?
    ensures r.Some? ==> IsLabelValue(r.value)
  {
    match value
    case None => None
    case Some(v) => Some(Sanitize(v))
  }

  /** Sanitizing leaves a value alone exactly when it is already a valid
      label value. */
  lemma SanitizeFixedPoint(s: string)
    ensures Sanitize(s) == s <==> IsLabelValue(s)
  {
    if IsLabelValue(s) {
      assert forall i :: 0 <= i < |s| ==> Sanitize(s)[i] == s[i];
    }
  }

  /** Sanitizing twice is sanitizing once. */
  lemma SanitizeIdempotent(s: string)
    ensures Sanitize(Sanitize(s)) == Sanitize(s)
  {
    SanitizeFixedPoint(Sanitize(s));
  }

  /** `{k: sanitize_label_value(v) for k, v in labels.items() if v is not None}` */
  function LabelsForWrite(labels: LabelMap): (r: map<string, string>)
    ensures forall k :: k in r <==> k in labels && labels[k].Some?
    ensures forall k :: k in r ==> IsLabelValue(r[k]) && Some(r[k]) == SanitizeLabelValue(labels[k])
  {
    map k | k in labels && labels[k].Some? :: Sanitize(labels[k].value)
  }

  /** Every key of a map is kept with its value as `Some`. */
  function Lift(m: map<string, string>): (r: LabelMap)
    ensures r.Keys == m.Keys
  {
    map k | k in m :: Some(m[k])
  }

  /** Preparing a prepared map again changes nothing. */
  lemma LabelsForWriteIdempotent(labels: LabelMap)
    ensures LabelsForWrite(Lift(LabelsForWrite(labels))) == LabelsForWrite(labels)
  {
    var once := LabelsForWrite(labels);
    forall k | k in once
      ensures Sanitize(once[k]) == once[k]
    {
      SanitizeFixedPoint(once[k]);
    }
  }
}
