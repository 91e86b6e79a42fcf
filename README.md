# Annotation model, overlap check and exporters

This project models the core of a document-annotation tool. A user draws labelled bounding
boxes on a page image. The core (`core/annotation.py`) holds each box as an `Annotation`
record `(x, y, width, height, label)`. It turns annotations into plain records and exports a
list of them, either as a bare list or wrapped in a LayoutLMv3 document. It measures how much
two boxes overlap, and it validates a page by rejecting the first pair of boxes that overlap by
more than 80%.

Three modules:

- `Json` (`json.dfy`): the JSON value tree that the exporters hand to the serialiser. Objects
  are ordered key/value lists, because a Python dictionary keeps insertion order and the
  serialiser writes keys in that order. `Get` looks a key up. When a key repeats, `Get` returns
  the first field; that is the model's own rule, since a Python dictionary keeps the last value.
  No exported object repeats a key, so the rule never matters for the exports.
- `Text` (`text.dfy`): decimal rendering of natural numbers, as an f-string writes an `int`.
  Its inverse and the facts needed to read a pair of indices back out of a message are here too.
- `Annotations` (`annotation.dfy`): the record, `to_dict`, both exporters and their readers,
  the overlap ratio with its geometric meaning, and the validator.

The record is a datatype, because its fields are set once and never changed. The exporters
and the overlap are functions. The validator is a method with the source's nested loops and
early return. Its contract ties the result to two specifications: `WithinThreshold` (no pair
`i < j` exceeds the threshold) and `IsFirstViolation` (the first offending pair in scan order).

Coordinates are exact reals. The overlap divides by the area of the smaller box, so the
model requires both boxes to have positive width and height. The validator requires this of
every element.

## Model

| member | source | states |
|---|---|---|
| Annotations.ToDict | core/annotation.py:13-20 | the record is an object whose "x", "y", "width", "height" numbers and "label" string are the annotation's fields, unchanged |
| Annotations.ToDictFieldOrder | core/annotation.py:14-20 | the record's keys are exactly x, y, width, height, label, in that order |
| Annotations.DictRoundTrip | core/annotation.py:13-20 | reading a record back gives the annotation it was made from |
| Annotations.Records | core/annotation.py:29 | one record per annotation: same length, and element k is the record of annotation k |
| Annotations.ExportAnnotations | core/annotation.py:25-29 | the export is an array with as many elements as annotations, element k being `to_dict` of annotation k |
| Annotations.ParseRecordsRoundTrip | core/annotation.py:29 | reading back the list of records gives the original annotations |
| Annotations.ExportRoundTrip | core/annotation.py:25-29 | reading back the generic export gives the same annotations, in the same order |
| Annotations.ExportLayoutLM | core/annotation.py:31-41 | the document has keys "annotations" then "metadata"; "annotations" is the generic export and "metadata" is `{"exported_format": "LayoutLMv3"}`, for every input including the empty one |
| Annotations.LayoutExportIsTagged | core/annotation.py:37-39 | every layout document reads back as tagged "LayoutLMv3" |
| Annotations.LayoutRoundTrip | core/annotation.py:31-41 | reading back a layout document gives the exported annotations, in order |
| Annotations.OverlapIsIntersectionRatio | core/annotation.py:43-58 | the overlap equals the area of the common rectangle of the two boxes divided by the smaller box's area, and that area is positive |
| Annotations.OverlapWhenApart | core/annotation.py:53-54 | when the clipped span is negative on either axis the overlap is 0, and so is the common area |
| Annotations.IntersectionBound | core/annotation.py:55-58 | the common area lies between 0 and the smaller box's area |
| Annotations.Overlap | core/annotation.py:43-58 | the overlap of two positive-area boxes lies in [0, 1], as the docstring promises; what it measures is stated by the lemmas below |
| Annotations.MeetingRatioBound | core/annotation.py:55-58 | when the boxes meet on both axes, the smaller area is positive and the clipped area divided by it lies in [0, 1] |
| Annotations.OverlapSymmetric | core/annotation.py:48-58 | swapping the two boxes does not change the overlap |
| Annotations.IntersectionEmpty | core/annotation.py:48-55 | the common area is 0 exactly when the open interiors of the boxes do not meet |
| Annotations.OverlapZeroIffDisjoint | core/annotation.py:48-58 | the overlap is 0 exactly when the interiors do not meet, so boxes apart on an axis and boxes that only touch at an edge or corner both score 0 |
| Annotations.OverlapOfNested | core/annotation.py:55-58 | a box inside another (edges may coincide) scores 1 against it, in either order |
| Annotations.OverlapWithSelf | core/annotation.py:43-58 | a box scores 1 against itself |
| Annotations.OverlapExamples | core/annotation.py:48-58 | two 10x10 boxes offset by 5 score 0.25, and two 20x20 boxes offset by 1 score 361/400 |
| Annotations.ValidateAnnotations | core/annotation.py:60-72 | valid exactly when no pair i < j overlaps by more than 0.8, so always valid for 0 or 1 boxes; a valid result carries "Annotations are valid."; an invalid one carries the message for the first offending pair (i, j) in scan order |
| Annotations.FirstViolationUnique | core/annotation.py:67-71 | a page has at most one first offending pair, so the reported pair is determined by the input |
| Annotations.ViolationMessage | core/annotation.py:71 | the message is "Annotations ", the decimal i, " and ", the decimal j, then " overlap more than 80.0%.", with its length the sum of those parts |
| Annotations.ViolationMessageNamesPair | core/annotation.py:71 | two violation messages are equal only when they name the same i and j, so the message identifies the pair |
| Annotations.ViolationMessageIsNotValid | core/annotation.py:71-72 | a violation message never equals the valid message |
| Annotations.ValidationExamples | tests/test_annotation.py:35-49 | boxes (0,0,10,10) and (20,20,10,10) are within the threshold; boxes (0,0,20,20) and (1,1,20,20) have (0, 1) as their first violation |
| Text.DecimalRoundTrip | core/annotation.py:71 | the decimal text of an index reads back as that index |
| Text.DigitRunSplit | core/annotation.py:71 | a run of digits followed by a non-digit can be split in one way only |
| Json.GetFindsFirst | core/annotation.py:14-20 | looking up a key that no earlier field has returns that field's value |

## Left out

- Annotations.Overlap: requires both boxes to have positive width and height. The source divides by `min(area1, area2)` with no guard. It raises ZeroDivisionError when a zero-area box meets the other box on both axes, and touching counts as meeting. A zero-area box apart from the other box on either axis returns 0.0 without dividing. Negative sizes give a ratio with no geometric meaning. None of these cases is modelled.
- Annotations.ValidateAnnotations: requires every box to have positive area, for the same reason. The source does validate a page whose zero-area boxes touch no other box; it reports such a page valid when the other pairs are within the threshold. A single click on the canvas makes such a box. Those pages are outside the model.
- Coordinates are exact reals. IEEE float rounding, NaN and infinity are not modelled.
- The exporters return the JSON value tree, not the text that `json.dumps(..., indent=4)` writes. Indentation and the rendering of floats are not modelled.
- The "label" field of the record is called `labelText` in the datatype, because `label` is a reserved word in Dafny. The record's key is still "label".
- Annotations.ViolationMessage: writes the percentage as the literal "80.0". That is how Python renders the float `0.8 * 100`. The float-to-text conversion itself is not modelled.
- `Annotation.__repr__` (core/annotation.py:22-23) is a debugging string and is not modelled.
- The autosave module, the image and PDF loaders, the HTTP API, the Qt user interface and its background validation in a process pool are not part of this model. They are file I/O, foreign library calls, web plumbing and concurrency.
