/** The annotation record, its plain-record form, the two exporters, the overlap ratio of two
    bounding boxes and the fail-fast validator over all pairs of a document's annotations. */
module Annotations {
  import opened Json
  import Text

  /** One bounding box on a page: top-left corner, size, and the user's label. */
  datatype Annotation = Annotation(x: real, y: real, width: real, height: real, labelText: string)

  /** A finalised box: both sides strictly positive, so its area is positive. */
  predicate HasArea(a: Annotation)
  {
    a.width > 0.0 && a.height > 0.0
  }

  predicate AllHaveArea(annotations: seq<Annotation>)
  {
    forall k :: 0 <= k < |annotations| ==> HasArea(annotations[k])
  }

  function Area(a: Annotation): real
  {
    a.width * a.height
  }

  // ---------------------------------------------------------------------------------------------
  // Plain-record form and the two exporters

  /** The field order of the plain record. */
  const FieldNames: seq<string> := ["x", "y", "width", "height", "label"]

  lemma FieldNamesDistinct()
    ensures forall m, n :: 0 <= m < n < |FieldNames| ==> FieldNames[m] != FieldNames[n]
  {
    assert FieldNames[0] != FieldNames[1] && FieldNames[0] != FieldNames[2];
    assert FieldNames[0] != FieldNames[3] && FieldNames[0] != FieldNames[4];
    assert FieldNames[1] != FieldNames[2] && FieldNames[1] != FieldNames[3];
    assert FieldNames[1] != FieldNames[4] && FieldNames[2] != FieldNames[3];
    assert FieldNames[2] != FieldNames[4] && FieldNames[3] != FieldNames[4];
  }

  /** The plain record of one annotation: five fields, in the order x, y, width, height, label,
      each holding the constructor argument unchanged. */
  function ToDict(a: Annotation): (r: Value)
    ensures r.JObject?
    ensures NumberField(r.fields, "x") == Some(a.x)
    ensures NumberField(r.fields, "y") == Some(a.y)
    ensures NumberField(r.fields, "width") == Some(a.width)
    ensures NumberField(r.fields, "height") == Some(a.height)
    ensures StringField(r.fields, "label") == Some(a.labelText)
  {
    var fields := [("x", JNumber(a.x)), ("y", JNumber(a.y)), ("width", JNumber(a.width)),
                   ("height", JNumber(a.height)), ("label", JString(a.labelText))];
    FieldNamesDistinct();
    GetFindsFirst(fields, 0);
    GetFindsFirst(fields, 1);
    GetFindsFirst(fields, 2);
    GetFindsFirst(fields, 3);
    GetFindsFirst(fields, 4);
    JObject(fields)
  }

  /** The plain record lists its fields in the order x, y, width, height, label. */
  lemma ToDictFieldOrder(a: Annotation)
    ensures Keys(ToDict(a).fields) == FieldNames
  {
    var keys := Keys(ToDict(a).fields);
    assert |keys| == |FieldNames|;
    assert keys[0] == FieldNames[0] && keys[1] == FieldNames[1] && keys[2] == FieldNames[2];
    assert keys[3] == FieldNames[3] && keys[4] == FieldNames[4];
  }

  /** Reads a plain record back: the five fields must be present with the right kinds. */
  function FromDict(v: Value): Option<Annotation>
  {
    if !v.JObject? then None
    else
      match (NumberField(v.fields, "x"), NumberField(v.fields, "y"), NumberField(v.fields, "width"),
             NumberField(v.fields, "height"), StringField(v.fields, "label"))
      case (Some(x), Some(y), Some(w), Some(h), Some(l)) => Some(Annotation(x, y, w, h, l))
      case _ => None
  }

  /** Reading back the plain record of an annotation gives that annotation. */
  lemma DictRoundTrip(a: Annotation)
    ensures FromDict(ToDict(a)) == Some(a)
  {
  }

  /** The records of a sequence of annotations, one per annotation, in order. */
  function Records(annotations: seq<Annotation>): (r: seq<Value>)
    ensures |r| == |annotations|
    ensures forall k :: 0 <= k < |annotations| ==> r[k] == ToDict(annotations[k])
  {
    if annotations == [] then [] else [ToDict(annotations[0])] + Records(annotations[1..])
  }

  /** The generic export: an array holding exactly one plain record per annotation, in the
      order of the input. */
  function ExportAnnotations(annotations: seq<Annotation>): (r: Value)
    ensures r.JArray? && |r.items| == |annotations|
    ensures forall k :: 0 <= k < |annotations| ==> r.items[k] == ToDict(annotations[k])
  {
    JArray(Records(annotations))
  }

  /** Reads every record of a list back, failing if any one of them is malformed. */
  function ParseRecords(items: seq<Value>): Option<seq<Annotation>>
  {
    if items == [] then Some([])
    else
      match (FromDict(items[0]), ParseRecords(items[1..]))
      case (Some(a), Some(rest)) => Some([a] + rest)
      case _ => None
  }

  /** Reads a generic export back into annotations. */
  function ImportAnnotations(v: Value): Option<seq<Annotation>>
  {
    if v.JArray? then ParseRecords(v.items) else None
  }

  lemma {:induction false} ParseRecordsRoundTrip(annotations: seq<Annotation>)
    ensures ParseRecords(Records(annotations)) == Some(annotations)
  {
    if annotations != [] {
      var r := Records(annotations);
      assert r[1..] == Records(annotations[1..]);
      DictRoundTrip(annotations[0]);
      ParseRecordsRoundTrip(annotations[1..]);
      assert [annotations[0]] + annotations[1..] == annotations;
    }
  }

  /** Reading back a generic export gives the same annotations, as many as were exported, with
      all five fields equal, in the original order. */
  lemma ExportRoundTrip(annotations: seq<Annotation>)
    ensures ImportAnnotations(ExportAnnotations(annotations)) == Some(annotations)
  {
    ParseRecordsRoundTrip(annotations);
  }

  /** The tag the layout export carries in its metadata. */
  const LayoutFormat: string := "LayoutLMv3"

  /** The layout export: the generic export's records under "annotations", and a metadata object
      whose "exported_format" is "LayoutLMv3", whatever the input (including no annotations). */
  function ExportLayoutLM(annotations: seq<Annotation>): (r: Value)
    ensures r.JObject? && Keys(r.fields) == ["annotations", "metadata"]
    ensures Get(r.fields, "annotations") == Some(ExportAnnotations(annotations))
    ensures Get(r.fields, "metadata") == Some(JObject([("exported_format", JString(LayoutFormat))]))
  {
    JObject([("annotations", ExportAnnotations(annotations)),
              ("metadata", JObject([("exported_format", JString(LayoutFormat))]))])
  }

  /** The "exported_format" tag of a layout document, if it has one. */
  function ExportedFormat(v: Value): Option<string>
  {
    if !v.JObject? then None
    else
      match Get(v.fields, "metadata")
      case Some(JObject(meta)) => StringField(meta, "exported_format")
      case _ => None
  }

  /** Reads a layout export back into annotations; a document with another tag is refused. */
  function ImportLayoutLM(v: Value): Option<seq<Annotation>>
  {
    if v.JObject? && ExportedFormat(v) == Some(LayoutFormat) then
      match Get(v.fields, "annotations")
      case Some(records) => ImportAnnotations(records)
      case None => None
    else None
  }

  /** Every layout export, the empty one included, is tagged "LayoutLMv3". */
  lemma LayoutExportIsTagged(annotations: seq<Annotation>)
    ensures ExportedFormat(ExportLayoutLM(annotations)) == Some(LayoutFormat)
  {
  }

  /** Reading back a layout export gives the exported annotations, in order. */
  lemma LayoutRoundTrip(annotations: seq<Annotation>)
    ensures ImportLayoutLM(ExportLayoutLM(annotations)) == Some(annotations)
  {
    LayoutExportIsTagged(annotations);
    ExportRoundTrip(annotations);
  }

  // ---------------------------------------------------------------------------------------------
  // Overlap of two boxes

  function Max(a: real, b: real): real
  {
    if a >= b then a else b
  }

  function Min(a: real, b: real): real
  {
    if a <= b then a else b
  }

  /** Division of reals. The overlap only divides by the area of the smaller box. */
  function Quotient(num: real, den: real): real
    requires den > 0.0
  {
    num / den
  }

  /** The overlap ratio of two boxes: the area of their common rectangle over the area of the
      smaller box, 0 when the boxes are apart on either axis, and never more than 1. What the
      ratio means is stated by OverlapIsIntersectionRatio and the lemmas after it. */
  function Overlap(a: Annotation, b: Annotation): (r: real)
    requires HasArea(a) && HasArea(b)
    ensures 0.0 <= r <= 1.0
  {
    var xLeft := Max(a.x, b.x);
    var yTop := Max(a.y, b.y);
    var xRight := Min(a.x + a.width, b.x + b.width);
    var yBottom := Min(a.y + a.height, b.y + b.height);
    if xRight < xLeft || yBottom < yTop then 0.0
    else
      var overlapArea := (xRight - xLeft) * (yBottom - yTop);
      MeetingRatioBound(a, b, overlapArea);
      Quotient(overlapArea, Min(Area(a), Area(b)))
  }

  lemma PositiveArea(a: Annotation)
    requires HasArea(a)
    ensures Area(a) > 0.0
  {
    ProductPositive(a.width, a.height);
  }

  lemma SmallerAreaPositive(a: Annotation, b: Annotation)
    requires HasArea(a) && HasArea(b)
    ensures SmallerArea(a, b) > 0.0
  {
    PositiveArea(a);
    PositiveArea(b);
  }

  /** Where the boxes meet on both axes, the quotient Overlap returns lies in [0, 1]. */
  lemma MeetingRatioBound(a: Annotation, b: Annotation, overlapArea: real)
    requires HasArea(a) && HasArea(b)
    requires Max(a.x, b.x) <= Min(a.x + a.width, b.x + b.width) && Max(a.y, b.y) <= Min(a.y + a.height, b.y + b.height)
    requires overlapArea == (Min(a.x + a.width, b.x + b.width) - Max(a.x, b.x)) * (Min(a.y + a.height, b.y + b.height) - Max(a.y, b.y))
    ensures Min(Area(a), Area(b)) > 0.0
    ensures 0.0 <= Quotient(overlapArea, Min(Area(a), Area(b))) <= 1.0
  {
    SmallerAreaPositive(a, b);
    MeetingIntersection(a, b);
    IntersectionBound(a, b);
    RatioBound(IntersectionArea(a, b), SmallerArea(a, b));
  }

  lemma ProductPositive(p: real, q: real)
    requires p > 0.0 && q > 0.0
    ensures p * q > 0.0
  {
  }

  /** Length of the common part of the intervals [s1, s1 + l1] and [s2, s2 + l2]; 0 when they
      are apart. */
  function SharedLength(s1: real, l1: real, s2: real, l2: real): real
  {
    Max(0.0, Min(s1 + l1, s2 + l2) - Max(s1, s2))
  }

  /** The area the two boxes have in common, defined without the early return of Overlap. */
  function IntersectionArea(a: Annotation, b: Annotation): real
  {
    SharedLength(a.x, a.width, b.x, b.width) * SharedLength(a.y, a.height, b.y, b.height)
  }

  function SmallerArea(a: Annotation, b: Annotation): real
  {
    Min(Area(a), Area(b))
  }

  /** Overlap is the common area divided by the area of the smaller box. */
  lemma OverlapIsIntersectionRatio(a: Annotation, b: Annotation)
    requires HasArea(a) && HasArea(b)
    ensures SmallerArea(a, b) > 0.0
    ensures Overlap(a, b) == Quotient(IntersectionArea(a, b), SmallerArea(a, b))
  {
    PositiveArea(a);
    PositiveArea(b);
    if Min(a.x + a.width, b.x + b.width) < Max(a.x, b.x) || Min(a.y + a.height, b.y + b.height) < Max(a.y, b.y) {
      OverlapWhenApart(a, b);
    } else {
      OverlapWhenMeeting(a, b);
    }
  }

  /** Boxes apart on one axis have no common area, and the early return gives 0. */
  lemma OverlapWhenApart(a: Annotation, b: Annotation)
    requires HasArea(a) && HasArea(b)
    requires Min(a.x + a.width, b.x + b.width) < Max(a.x, b.x) || Min(a.y + a.height, b.y + b.height) < Max(a.y, b.y)
    ensures SmallerArea(a, b) > 0.0
    ensures Overlap(a, b) == 0.0 == Quotient(IntersectionArea(a, b), SmallerArea(a, b))
  {
    SmallerAreaPositive(a, b);
    assert SharedLength(a.x, a.width, b.x, b.width) == 0.0 || SharedLength(a.y, a.height, b.y, b.height) == 0.0;
    assert IntersectionArea(a, b) == 0.0;
  }

  /** Boxes that meet on both axes: Overlap divides the common area. */
  lemma OverlapWhenMeeting(a: Annotation, b: Annotation)
    requires HasArea(a) && HasArea(b)
    requires Max(a.x, b.x) <= Min(a.x + a.width, b.x + b.width) && Max(a.y, b.y) <= Min(a.y + a.height, b.y + b.height)
    ensures SmallerArea(a, b) > 0.0
    ensures Overlap(a, b) == Quotient(IntersectionArea(a, b), SmallerArea(a, b))
  {
    SmallerAreaPositive(a, b);
    MeetingIntersection(a, b);
    assert Overlap(a, b) == Quotient(IntersectionArea(a, b), Min(Area(a), Area(b)));
  }

  /** Boxes that meet on both axes: the sides of the common rectangle are the clipped spans. */
  lemma MeetingIntersection(a: Annotation, b: Annotation)
    requires Max(a.x, b.x) <= Min(a.x + a.width, b.x + b.width) && Max(a.y, b.y) <= Min(a.y + a.height, b.y + b.height)
    ensures IntersectionArea(a, b)
            == (Min(a.x + a.width, b.x + b.width) - Max(a.x, b.x)) * (Min(a.y + a.height, b.y + b.height) - Max(a.y, b.y))
  {
    assert SharedLength(a.x, a.width, b.x, b.width) == Min(a.x + a.width, b.x + b.width) - Max(a.x, b.x);
    assert SharedLength(a.y, a.height, b.y, b.height) == Min(a.y + a.height, b.y + b.height) - Max(a.y, b.y);
  }

  /** The common part of two intervals is no longer than either of them. */
  lemma SharedLengthBound(s1: real, l1: real, s2: real, l2: real)
    requires l1 > 0.0 && l2 > 0.0
    ensures 0.0 <= SharedLength(s1, l1, s2, l2) <= l1
    ensures SharedLength(s1, l1, s2, l2) <= l2
  {
  }

  lemma ProductBound(dx: real, dy: real, w: real, h: real)
    requires 0.0 <= dx <= w && 0.0 <= dy <= h
    ensures 0.0 <= dx * dy <= w * h
  {
    assert dx * dy <= w * dy;
    assert w * dy <= w * h;
  }

  /** The common area is at most the area of the smaller box. */
  lemma IntersectionBound(a: Annotation, b: Annotation)
    requires HasArea(a) && HasArea(b)
    ensures 0.0 <= IntersectionArea(a, b) <= SmallerArea(a, b)
  {
    IntersectionWithinEach(a, b);
  }

  lemma IntersectionWithinEach(a: Annotation, b: Annotation)
    requires HasArea(a) && HasArea(b)
    ensures 0.0 <= IntersectionArea(a, b) <= Area(a)
    ensures IntersectionArea(a, b) <= Area(b)
  {
    IntersectionWithinFirst(a, b);
    IntersectionWithinFirst(b, a);
    IntersectionSymmetric(a, b);
  }

  lemma IntersectionWithinFirst(a: Annotation, b: Annotation)
    requires HasArea(a) && HasArea(b)
    ensures 0.0 <= IntersectionArea(a, b) <= Area(a)
  {
    SharedLengthBound(a.x, a.width, b.x, b.width);
    SharedLengthBound(a.y, a.height, b.y, b.height);
    ProductBound(SharedLength(a.x, a.width, b.x, b.width), SharedLength(a.y, a.height, b.y, b.height), a.width, a.height);
  }

  lemma RatioBound(num: real, den: real)
    requires 0.0 <= num <= den && den > 0.0
    ensures 0.0 <= Quotient(num, den) <= 1.0
  {
  }

  lemma SharedLengthSymmetric(s1: real, l1: real, s2: real, l2: real)
    ensures SharedLength(s1, l1, s2, l2) == SharedLength(s2, l2, s1, l1)
  {
  }

  /** The common area and the smaller area do not depend on the order of the boxes. */
  lemma IntersectionSymmetric(a: Annotation, b: Annotation)
    ensures IntersectionArea(a, b) == IntersectionArea(b, a)
    ensures SmallerArea(a, b) == SmallerArea(b, a)
  {
    SharedLengthSymmetric(a.x, a.width, b.x, b.width);
    SharedLengthSymmetric(a.y, a.height, b.y, b.height);
  }

  /** The order of the two boxes does not matter. */
  lemma OverlapSymmetric(a: Annotation, b: Annotation)
    requires HasArea(a) && HasArea(b)
    ensures Overlap(a, b) == Overlap(b, a)
  {
    OverlapIsIntersectionRatio(a, b);
    OverlapIsIntersectionRatio(b, a);
    IntersectionSymmetric(a, b);
  }

  /** The open interiors of the two boxes meet. */
  predicate InteriorsMeet(a: Annotation, b: Annotation)
  {
    a.x < b.x + b.width && b.x < a.x + a.width && a.y < b.y + b.height && b.y < a.y + a.height
  }

  /** Two intervals share a stretch of positive length exactly when each starts before the other ends. */
  lemma SharedLengthPositive(s1: real, l1: real, s2: real, l2: real)
    requires l1 > 0.0 && l2 > 0.0
    ensures SharedLength(s1, l1, s2, l2) >= 0.0
    ensures SharedLength(s1, l1, s2, l2) > 0.0 <==> s1 < s2 + l2 && s2 < s1 + l1
  {
  }

  lemma ProductZero(p: real, q: real)
    requires p >= 0.0 && q >= 0.0
    ensures p * q == 0.0 <==> p == 0.0 || q == 0.0
  {
    if p > 0.0 && q > 0.0 {
      ProductPositive(p, q);
    }
  }

  lemma QuotientZero(num: real, den: real)
    requires den > 0.0
    ensures Quotient(num, den) == 0.0 <==> num == 0.0
  {
    if num != 0.0 {
      assert (num / den) * den == num;
    }
  }

  /** The boxes have no common area exactly when their interiors do not meet. */
  lemma IntersectionEmpty(a: Annotation, b: Annotation)
    requires HasArea(a) && HasArea(b)
    ensures IntersectionArea(a, b) == 0.0 <==> !InteriorsMeet(a, b)
  {
    SharedLengthPositive(a.x, a.width, b.x, b.width);
    SharedLengthPositive(a.y, a.height, b.y, b.height);
    ProductZero(SharedLength(a.x, a.width, b.x, b.width), SharedLength(a.y, a.height, b.y, b.height));
  }

  /** The overlap is zero exactly when the interiors do not meet: boxes apart on either axis and
      boxes that only touch at an edge or a corner both score 0. */
  lemma OverlapZeroIffDisjoint(a: Annotation, b: Annotation)
    requires HasArea(a) && HasArea(b)
    ensures Overlap(a, b) == 0.0 <==> !InteriorsMeet(a, b)
  {
    OverlapIsIntersectionRatio(a, b);
    IntersectionEmpty(a, b);
    QuotientZero(IntersectionArea(a, b), SmallerArea(a, b));
  }

  /** Box `inner` lies inside box `outer` (edges may coincide). */
  predicate Within(inner: Annotation, outer: Annotation)
  {
    outer.x <= inner.x && inner.x + inner.width <= outer.x + outer.width
    && outer.y <= inner.y && inner.y + inner.height <= outer.y + outer.height
  }

  /** A nested box is its own common rectangle with the outer box, and the smaller of the two. */
  lemma NestedIntersection(inner: Annotation, outer: Annotation)
    requires HasArea(inner) && HasArea(outer)
    requires Within(inner, outer)
    ensures IntersectionArea(inner, outer) == SmallerArea(inner, outer) == Area(inner)
  {
    assert SharedLength(inner.x, inner.width, outer.x, outer.width) == inner.width;
    assert SharedLength(inner.y, inner.height, outer.y, outer.height) == inner.height;
    ProductBound(inner.width, inner.height, outer.width, outer.height);
  }

  lemma QuotientSelf(p: real)
    requires p > 0.0
    ensures Quotient(p, p) == 1.0
  {
  }

  /** A box nested inside another scores 1 against it, in either order. */
  lemma OverlapOfNested(inner: Annotation, outer: Annotation)
    requires HasArea(inner) && HasArea(outer)
    requires Within(inner, outer)
    ensures Overlap(inner, outer) == 1.0 && Overlap(outer, inner) == 1.0
  {
    OverlapIsIntersectionRatio(inner, outer);
    NestedIntersection(inner, outer);
    QuotientSelf(Area(inner));
    OverlapSymmetric(inner, outer);
  }

  /** Every box overlaps itself totally. */
  lemma OverlapWithSelf(a: Annotation)
    requires HasArea(a)
    ensures Overlap(a, a) == 1.0
  {
    OverlapOfNested(a, a);
  }

  /** The two worked values: a quarter for two 10x10 boxes offset by 5, and 361/400 for two
      20x20 boxes offset by 1. */
  lemma OverlapExamples()
    ensures Overlap(Annotation(0.0, 0.0, 10.0, 10.0, "A"), Annotation(5.0, 5.0, 10.0, 10.0, "B")) == 0.25
    ensures Overlap(Annotation(0.0, 0.0, 20.0, 20.0, "A"), Annotation(1.0, 1.0, 20.0, 20.0, "B")) == 361.0 / 400.0
  {
  }

  // ---------------------------------------------------------------------------------------------
  // Validation

  /** Pairs whose overlap exceeds this ratio are rejected. */
  const Threshold: real := 0.8

  const ValidMessage: string := "Annotations are valid."

  const MessageHead: string := "Annotations "
  const MessageJoin: string := " and "
  const MessageTail: string := " overlap more than 80.0%."

  /** The report for the offending pair (i, j): the two indices in decimal, between fixed text.
      The percentage is the threshold times 100 as Python renders that float. */
  function ViolationMessage(i: nat, j: nat): (m: string)
    ensures var di, dj := Text.Decimal(i), Text.Decimal(j);
            && |m| == |MessageHead| + |di| + |MessageJoin| + |dj| + |MessageTail|
            && m[..|MessageHead|] == MessageHead
            && m[|MessageHead|..|MessageHead| + |di|] == di
            && m[|MessageHead| + |di|..|MessageHead| + |di| + |MessageJoin|] == MessageJoin
            && m[|MessageHead| + |di| + |MessageJoin|..|MessageHead| + |di| + |MessageJoin| + |dj|] == dj
            && m[|MessageHead| + |di| + |MessageJoin| + |dj|..] == MessageTail
  {
    Text.FiveParts(MessageHead, Text.Decimal(i), MessageJoin, Text.Decimal(j), MessageTail);
    MessageHead + (Text.Decimal(i) + (MessageJoin + (Text.Decimal(j) + MessageTail)))
  }

  /** The report names the pair: two reports are equal only for the same pair. */
  lemma ViolationMessageNamesPair(i: nat, j: nat, i': nat, j': nat)
    requires ViolationMessage(i, j) == ViolationMessage(i', j')
    ensures i == i' && j == j'
  {
    var tail := MessageTail;
    var rest := MessageJoin + (Text.Decimal(j) + tail);
    var rest' := MessageJoin + (Text.Decimal(j') + tail);
    Text.PrefixCancel(MessageHead, Text.Decimal(i) + rest, Text.Decimal(i') + rest');
    Text.DigitRunSplit(Text.Decimal(i), rest, Text.Decimal(i'), rest');
    Text.DecimalInjective(i, i');
    Text.PrefixCancel(MessageJoin, Text.Decimal(j) + tail, Text.Decimal(j') + tail);
    Text.DigitRunSplit(Text.Decimal(j), tail, Text.Decimal(j'), tail);
    Text.DecimalInjective(j, j');
  }

  /** The valid report and a violation report are never confused. */
  lemma ViolationMessageIsNotValid(i: nat, j: nat)
    ensures ViolationMessage(i, j) != ValidMessage
  {
    var m := ViolationMessage(i, j);
    assert m[|MessageHead|] == Text.Decimal(i)[0];
    assert ValidMessage[|MessageHead|] == 'a';
  }

  /** No pair i < j overlaps by more than the threshold. */
  ghost predicate WithinThreshold(annotations: seq<Annotation>)
    requires AllHaveArea(annotations)
  {
    forall i, j :: 0 <= i < j < |annotations| ==> Overlap(annotations[i], annotations[j]) <= Threshold
  }

  /** Pair (p, q) comes before pair (i, j) in the scan order: by first index, then by second. */
  predicate PairBefore(p: int, q: int, i: int, j: int)
  {
    p < i || (p == i && q < j)
  }

  /** (i, j) is the first pair, in scan order, whose overlap exceeds the threshold. */
  ghost predicate IsFirstViolation(annotations: seq<Annotation>, i: int, j: int)
    requires AllHaveArea(annotations)
  {
    && 0 <= i < j < |annotations|
    && Overlap(annotations[i], annotations[j]) > Threshold
    && forall p, q :: 0 <= p < q < |annotations| && PairBefore(p, q, i, j) ==>
                      Overlap(annotations[p], annotations[q]) <= Threshold
  }

  /** A collection has at most one first violation. */
  lemma FirstViolationUnique(annotations: seq<Annotation>, i: int, j: int, i': int, j': int)
    requires AllHaveArea(annotations)
    requires IsFirstViolation(annotations, i, j) && IsFirstViolation(annotations, i', j')
    ensures i == i' && j == j'
  {
    assert !PairBefore(i, j, i', j');
    assert !PairBefore(i', j', i, j);
  }

  /** Scans the pairs i < j in order and stops at the first whose overlap exceeds the threshold,
      reporting it; reports the collection valid when there is none. */
  method ValidateAnnotations(annotations: seq<Annotation>) returns (valid: bool, message: string)
    requires AllHaveArea(annotations)
    ensures valid <==> WithinThreshold(annotations)
    ensures |annotations| <= 1 ==> valid
    ensures valid ==> message == ValidMessage
    ensures !valid ==> exists i, j :: IsFirstViolation(annotations, i, j) && message == ViolationMessage(i, j)
  {
    var n := |annotations|;
    for i := 0 to n
      invariant forall p, q :: 0 <= p < i && p < q < n ==> Overlap(annotations[p], annotations[q]) <= Threshold
    {
      for j := i + 1 to n
        invariant forall p, q :: 0 <= p < i && p < q < n ==> Overlap(annotations[p], annotations[q]) <= Threshold
        invariant forall q :: i < q < j ==> Overlap(annotations[i], annotations[q]) <= Threshold
      {
        var overlap := Overlap(annotations[i], annotations[j]);
        if overlap > Threshold {
          assert IsFirstViolation(annotations, i, j);
          return false, ViolationMessage(i, j);
        }
      }
    }
    return true, ValidMessage;
  }

  /** The two worked collections: boxes far apart pass, boxes overlapping by 361/400 fail at
      the pair (0, 1). */
  lemma ValidationExamples()
    ensures WithinThreshold([Annotation(0.0, 0.0, 10.0, 10.0, "A"), Annotation(20.0, 20.0, 10.0, 10.0, "B")])
    ensures IsFirstViolation([Annotation(0.0, 0.0, 20.0, 20.0, "A"), Annotation(1.0, 1.0, 20.0, 20.0, "B")], 0, 1)
  {
    var apart := [Annotation(0.0, 0.0, 10.0, 10.0, "A"), Annotation(20.0, 20.0, 10.0, 10.0, "B")];
    OverlapZeroIffDisjoint(apart[0], apart[1]);
    OverlapExamples();
  }
}
