/**
 The conversion of one DataTurks-annotated resume into a ground-truth record
 (`convert_dataturks_to_schema`). Every annotated entity is turned into a text
 segment, cut from the resume content by the last of its points, and routed
 by its first label: "Name" and "Email Address" overwrite a single field,
 "Skills" and "Degree"/"College Name" append to a list, and every other label
 is ignored.
 */
module PrepareDataset {
  import opened Text
  import opened Optional
  import opened Schema

  /** One annotated span; `end` is inclusive. */
  datatype Point = Point(start: int, end: int)

  /** One annotated entity: its labels and the spans it covers. */
  datatype Entity = Entity(labels: seq<string>, points: seq<Point>)

  /** One line of the DataTurks dataset. */
  datatype Record = Record(content: string, annotation: seq<Entity>)

  /** Every entity carries a label; the conversion reads the first one and
      fails on an entity without any. */
  predicate Labelled(annotation: seq<Entity>) {
    forall i :: 0 <= i < |annotation| ==> |annotation[i].labels| > 0
  }

  function Label(e: Entity): string
    requires |e.labels| > 0
  {
    e.labels[0]
  }

  /** A segment as the conversion stores it: no line feeds and no whitespace
      at either end. */
  predicate Stored(s: string) {
    '\n' !in s && Trimmed(s)
  }

  predicate AllStored(gt: GroundTruth) {
    && Stored(gt.fullName)
    && Stored(gt.email)
    && (forall k :: 0 <= k < |gt.skills| ==> Stored(gt.skills[k]))
    && (forall k :: 0 <= k < |gt.education| ==> Stored(gt.education[k]))
  }

  // ---------------------------------------------------------------------------
  // One entity
  // ---------------------------------------------------------------------------

  /** The loop over an entity's points: every point overwrites the segment,
      so only the last point counts, and an entity without points keeps the
      initial segment. */
  function SliceLoop(content: string, points: seq<Point>, segment: string): (r: string)
    ensures points == [] ==> r == segment
    ensures points != [] ==>
              r == PySlice(content, points[|points| - 1].start, points[|points| - 1].end + 1)
  {
    if points == [] then segment
    else
      LastOfTail(points);
      SliceLoop(content, points[1..], PySlice(content, points[0].start, points[0].end + 1))
  }

  lemma LastOfTail(points: seq<Point>)
    requires points != []
    ensures points[1..] != [] ==> points[1..][|points| - 2] == points[|points| - 1]
  {
  }

  /** `text_segment.replace("\n", " ").strip()` */
  function Clean(s: string): (r: string)
    ensures Stored(r)
  {
    StripMembers(ReplaceNewlines(s));
    Strip(ReplaceNewlines(s))
  }

  /** The cleaned text of one entity: its last point's span, or "" for an
      entity without points. */
  function EntityText(content: string, e: Entity): (r: string)
    ensures Stored(r)
    ensures e.points == [] ==> r == ""
  {
    StripTrimmed("");
    Clean(SliceLoop(content, e.points, ""))
  }

  /** When an entity's last point lies inside the content, its text is that
      span with `end` included, cleaned. */
  lemma InRangeSpan(content: string, e: Entity)
    requires e.points != []
    requires 0 <= e.points[|e.points| - 1].start
    requires e.points[|e.points| - 1].start <= e.points[|e.points| - 1].end + 1 <= |content|
    ensures EntityText(content, e)
            == Clean(content[e.points[|e.points| - 1].start..e.points[|e.points| - 1].end + 1])
  {
    var p := e.points[|e.points| - 1];
    var segment := SliceLoop(content, e.points, "");
    LastSpan(content, e.points, p.start, p.end + 1);
    assert EntityText(content, e) == Clean(segment);
  }

  lemma LastSpan(content: string, points: seq<Point>, lo: int, hi: int)
    requires points != [] && points[|points| - 1].start == lo && points[|points| - 1].end + 1 == hi
    requires 0 <= lo <= hi <= |content|
    ensures SliceLoop(content, points, "") == content[lo..hi]
  {
    assert SliceLoop(content, points, "") == PySlice(content, lo, hi);
  }

  // ---------------------------------------------------------------------------
  // The record
  // ---------------------------------------------------------------------------

  /** Where a segment goes, decided by the entity's first label. */
  datatype Field = FullName | Email | Skill | Education | Ignored

  /** The conditions of the `if`/`elif` chain. */
  function FieldOf(tag: string): (f: Field)
    ensures f == FullName <==> tag == "Name"
    ensures f == Email <==> tag == "Email Address"
    ensures f == Skill <==> tag == "Skills"
    ensures f == Education <==> tag == "Degree" || tag == "College Name"
  {
    if tag == "Name" then FullName
    else if tag == "Email Address" then Email
    else if tag == "Skills" then Skill
    else if tag == "Degree" || tag == "College Name" then Education
    else Ignored
  }

  function FieldOfEntity(e: Entity): Field
    requires |e.labels| > 0
  {
    FieldOf(Label(e))
  }

  const Empty := GroundTruth("", "", [], [], [])

  /** The branches of the `if`/`elif` chain: overwrite a single-valued field,
      append to a list, or leave the record alone. */
  function Route(gt: GroundTruth, f: Field, text: string): (r: GroundTruth)
    ensures r.fullName == if f == FullName then text else gt.fullName
    ensures r.email == if f == Email then text else gt.email
    ensures r.skills == if f == Skill then gt.skills + [text] else gt.skills
    ensures r.education == if f == Education then gt.education + [text] else gt.education
    ensures r.workExperience == gt.workExperience
  {
    match f
    case FullName => gt.(fullName := text)
    case Email => gt.(email := text)
    case Skill => gt.(skills := gt.skills + [text])
    case Education => gt.(education := gt.education + [text])
    case Ignored => gt
  }

  /** The loop over the annotation, entity by entity. The lists only grow at
      their ends and the work experience is never touched. */
  function ApplyAll(gt: GroundTruth, content: string, annotation: seq<Entity>): (r: GroundTruth)
    requires Labelled(annotation)
    ensures |gt.skills| <= |r.skills| && r.skills[..|gt.skills|] == gt.skills
    ensures |gt.education| <= |r.education| && r.education[..|gt.education|] == gt.education
    ensures r.workExperience == gt.workExperience
    decreases |annotation|
  {
    if annotation == [] then gt
    else
      var e := annotation[0];
      LabelledTail(annotation);
      var next := Route(gt, FieldOfEntity(e), EntityText(content, e));
      var r := ApplyAll(next, content, annotation[1..]);
      PrefixTrans(gt.skills, next.skills, r.skills);
      PrefixTrans(gt.education, next.education, r.education);
      r
  }

  /** A prefix of a prefix is a prefix. */
  lemma PrefixTrans(x: seq<string>, y: seq<string>, z: seq<string>)
    requires |x| <= |y| && y[..|x|] == x
    requires |y| <= |z| && z[..|y|] == y
    ensures z[..|x|] == x
  {
    assert z[..|x|] == z[..|y|][..|x|];
  }

  /** The segments of the entities routed to `f`, in annotation order. */
  function Segments(content: string, annotation: seq<Entity>, f: Field): (r: seq<string>)
    requires Labelled(annotation)
    ensures |r| <= |annotation|
    ensures forall k :: 0 <= k < |r| ==> Stored(r[k])
  {
    if annotation == [] then []
    else
      var e := annotation[0];
      LabelledTail(annotation);
      (if FieldOfEntity(e) == f then [EntityText(content, e)] else [])
      + Segments(content, annotation[1..], f)
  }

  /** Entity `i` is the last one routed to `f`. */
  predicate LastWith(annotation: seq<Entity>, i: int, f: Field)
    requires Labelled(annotation)
  {
    && 0 <= i < |annotation|
    && FieldOfEntity(annotation[i]) == f
    && forall j :: i < j < |annotation| ==> FieldOfEntity(annotation[j]) != f
  }

  /** No entity is routed to `f`. */
  predicate Absent(annotation: seq<Entity>, f: Field)
    requires Labelled(annotation)
  {
    forall i :: 0 <= i < |annotation| ==> FieldOfEntity(annotation[i]) != f
  }

  /** `convert_dataturks_to_schema(record)`: the content, passed through
      unchanged, and the ground-truth record built from the annotation; `None`
      when an entity without labels makes `entity['label'][0]` raise. */
  function ConvertDataturksToSchema(record: Record): (r: Option<(string, GroundTruth)>)
    ensures r.None? <==> !Labelled(record.annotation)
    ensures r.Some? ==> r.value.0 == record.content
    ensures r.Some? ==> r.value.1.workExperience == []
    ensures r.Some? ==> r.value.1.skills == Segments(record.content, record.annotation, Skill)
    ensures r.Some? ==> r.value.1.education == Segments(record.content, record.annotation, Education)
    ensures r.Some? && Absent(record.annotation, FullName) ==> r.value.1.fullName == ""
    ensures r.Some? ==> forall i :: LastWith(record.annotation, i, FullName) ==>
              r.value.1.fullName == EntityText(record.content, record.annotation[i])
    ensures r.Some? && Absent(record.annotation, Email) ==> r.value.1.email == ""
    ensures r.Some? ==> forall i :: LastWith(record.annotation, i, Email) ==>
              r.value.1.email == EntityText(record.content, record.annotation[i])
    ensures r.Some? ==> AllStored(r.value.1)
  {
    if !Labelled(record.annotation) then None
    else
      var gt := ApplyAll(Empty, record.content, record.annotation);
      ApplyAllList(Empty, record.content, record.annotation, Skill);
      ApplyAllList(Empty, record.content, record.annotation, Education);
      ApplyAllKeepsWork(Empty, record.content, record.annotation);
      ApplyAllLast(Empty, record.content, record.annotation, FullName);
      ApplyAllLast(Empty, record.content, record.annotation, Email);
      StripTrimmed("");
      ApplyAllStored(Empty, record.content, record.annotation);
      Some((record.content, gt))
  }

  // ---------------------------------------------------------------------------
  // Properties of the fold
  // ---------------------------------------------------------------------------

  lemma LabelledTail(annotation: seq<Entity>)
    requires Labelled(annotation) && annotation != []
    ensures Labelled(annotation[1..])
  {
    assert forall k :: 0 <= k < |annotation[1..]| ==> annotation[1..][k] == annotation[k + 1];
  }

  lemma ConcatAssoc(a: seq<string>, b: seq<string>, c: seq<string>)
    ensures (a + b) + c == a + (b + c)
  {
  }

  /** The list field `f` of a record. */
  function Multi(gt: GroundTruth, f: Field): seq<string>
    requires f == Skill || f == Education
  {
    if f == Skill then gt.skills else gt.education
  }

  /** A list field grows by exactly the segments routed to it, in order. */
  lemma {:induction false} ApplyAllList(gt: GroundTruth, content: string, annotation: seq<Entity>, f: Field)
    requires Labelled(annotation)
    requires f == Skill || f == Education
    ensures Multi(ApplyAll(gt, content, annotation), f) == Multi(gt, f) + Segments(content, annotation, f)
    decreases |annotation|
  {
    if annotation == [] {
      assert Multi(gt, f) + [] == Multi(gt, f);
    } else {
      var e := annotation[0];
      var rest := annotation[1..];
      LabelledTail(annotation);
      var text := EntityText(content, e);
      var next := Route(gt, FieldOfEntity(e), text);
      assert ApplyAll(gt, content, annotation) == ApplyAll(next, content, rest);
      var s := if FieldOfEntity(e) == f then [text] else [];
      assert Segments(content, annotation, f) == s + Segments(content, rest, f);
      assert Multi(next, f) == Multi(gt, f) + s;
      ApplyAllList(next, content, rest, f);
      ConcatAssoc(Multi(gt, f), s, Segments(content, rest, f));
    }
  }

  /** The work experience is never touched. */
  lemma {:induction false} ApplyAllKeepsWork(gt: GroundTruth, content: string, annotation: seq<Entity>)
    requires Labelled(annotation)
    ensures ApplyAll(gt, content, annotation).workExperience == gt.workExperience
    decreases |annotation|
  {
    if annotation != [] {
      var e := annotation[0];
      LabelledTail(annotation);
      ApplyAllKeepsWork(Route(gt, FieldOfEntity(e), EntityText(content, e)), content, annotation[1..]);
    }
  }

  /** The single-valued field `f` of a record. */
  function Single(gt: GroundTruth, f: Field): string
    requires f == FullName || f == Email
  {
    if f == FullName then gt.fullName else gt.email
  }

  lemma AbsentTail(annotation: seq<Entity>, f: Field)
    requires Labelled(annotation) && annotation != []
    ensures Labelled(annotation[1..])
    ensures Absent(annotation, f) <==> FieldOfEntity(annotation[0]) != f && Absent(annotation[1..], f)
  {
    var rest := annotation[1..];
    assert forall k :: 0 <= k < |rest| ==> rest[k] == annotation[k + 1];
    if FieldOfEntity(annotation[0]) != f && Absent(rest, f) {
      forall i | 0 < i < |annotation| ensures FieldOfEntity(annotation[i]) != f {
        assert annotation[i] == rest[i - 1];
      }
    }
  }

  /** A single-valued field holds the segment of the last entity routed to it,
      or its initial value when there is none. */
  lemma {:induction false} ApplyAllLast(gt: GroundTruth, content: string, annotation: seq<Entity>, f: Field)
    requires Labelled(annotation)
    requires f == FullName || f == Email
    ensures Absent(annotation, f) ==> Single(ApplyAll(gt, content, annotation), f) == Single(gt, f)
    ensures forall i :: LastWith(annotation, i, f) ==>
              Single(ApplyAll(gt, content, annotation), f) == EntityText(content, annotation[i])
    decreases |annotation|
  {
    if annotation != [] {
      var e := annotation[0];
      var rest := annotation[1..];
      var next := Route(gt, FieldOfEntity(e), EntityText(content, e));
      AbsentTail(annotation, f);
      ApplyAllLast(next, content, rest, f);
      forall i | LastWith(annotation, i, f)
        ensures Single(ApplyAll(gt, content, annotation), f) == EntityText(content, annotation[i])
      {
        if i == 0 {
          assert Absent(rest, f) by {
            forall k | 0 <= k < |rest| ensures FieldOfEntity(rest[k]) != f {
              assert rest[k] == annotation[k + 1];
            }
          }
        } else {
          assert rest[i - 1] == annotation[i];
          assert LastWith(rest, i - 1, f) by {
            forall k | i - 1 < k < |rest| ensures FieldOfEntity(rest[k]) != f {
              assert rest[k] == annotation[k + 1];
            }
          }
        }
      }
    }
  }

  lemma AppendStored(xs: seq<string>, x: string)
    requires forall k :: 0 <= k < |xs| ==> Stored(xs[k])
    requires Stored(x)
    ensures forall k :: 0 <= k < |xs + [x]| ==> Stored((xs + [x])[k])
  {
  }

  lemma RouteStored(gt: GroundTruth, f: Field, text: string)
    requires AllStored(gt) && Stored(text)
    ensures AllStored(Route(gt, f, text))
  {
    match f
    case Skill => AppendStored(gt.skills, text);
    case Education => AppendStored(gt.education, text);
    case _ =>
  }

  /** Every segment the fold stores is clean. */
  lemma {:induction false} ApplyAllStored(gt: GroundTruth, content: string, annotation: seq<Entity>)
    requires Labelled(annotation)
    requires AllStored(gt)
    ensures AllStored(ApplyAll(gt, content, annotation))
    decreases |annotation|
  {
    if annotation != [] {
      var e := annotation[0];
      var text := EntityText(content, e);
      var next := Route(gt, FieldOfEntity(e), text);
      LabelledTail(annotation);
      RouteStored(gt, FieldOfEntity(e), text);
      ApplyAllStored(next, content, annotation[1..]);
    }
  }

  /** The fold over a concatenation is the fold over its second part, started
      from the fold over its first. */
  lemma {:induction false} ApplyAllAppend(gt: GroundTruth, content: string, a: seq<Entity>, b: seq<Entity>)
    requires Labelled(a) && Labelled(b)
    ensures Labelled(a + b)
    ensures ApplyAll(gt, content, a + b) == ApplyAll(ApplyAll(gt, content, a), content, b)
    decreases |a|
  {
    LabelledAppend(a, b);
    if a == [] {
      assert a + b == b;
    } else {
      var e := a[0];
      LabelledTail(a);
      assert (a + b)[0] == e;
      assert (a + b)[1..] == a[1..] + b;
      var next := Route(gt, FieldOfEntity(e), EntityText(content, e));
      assert ApplyAll(gt, content, a + b) == ApplyAll(next, content, a[1..] + b);
      assert ApplyAll(gt, content, a) == ApplyAll(next, content, a[1..]);
      ApplyAllAppend(next, content, a[1..], b);
    }
  }

  lemma LabelledAppend(a: seq<Entity>, b: seq<Entity>)
    requires Labelled(a) && Labelled(b)
    ensures Labelled(a + b)
  {
    forall i | 0 <= i < |a + b| ensures |(a + b)[i].labels| > 0 {
      if i < |a| { assert (a + b)[i] == a[i]; } else { assert (a + b)[i] == b[i - |a|]; }
    }
  }

  /** A label outside "Name", "Email Address", "Skills", "Degree" and
      "College Name" leaves the record as it was. */
  lemma OtherLabelIgnored(gt: GroundTruth, tag: string, text: string)
    requires tag != "Name" && tag != "Email Address" && tag != "Skills"
    requires tag != "Degree" && tag != "College Name"
    ensures Route(gt, FieldOf(tag), text) == gt
  {
  }

  /** Dropping an entity with an unknown label from anywhere in the annotation
      does not change the converted record. */
  lemma UnknownEntityIgnored(record: Record, i: nat)
    requires Labelled(record.annotation)
    requires i < |record.annotation|
    requires FieldOfEntity(record.annotation[i]) == Ignored
    ensures Labelled(record.annotation[..i] + record.annotation[i + 1..])
    ensures ConvertDataturksToSchema(record.(annotation := record.annotation[..i] + record.annotation[i + 1..]))
            == ConvertDataturksToSchema(record)
  {
    var anns := record.annotation;
    var a := anns[..i];
    var e := anns[i];
    var b := anns[i + 1..];
    assert anns == a + [e] + b;
    assert Labelled(a) && Labelled(b) && Labelled([e]) by {
      forall k | 0 <= k < |a| ensures a[k] == anns[k] { }
      forall k | 0 <= k < |b| ensures b[k] == anns[i + 1 + k] { }
    }
    ApplyAllAppend(Empty, record.content, a, b);
    ApplyAllAppend(Empty, record.content, a, [e]);
    ApplyAllAppend(Empty, record.content, a + [e], b);
    var mid := ApplyAll(Empty, record.content, a);
    assert ApplyAll(mid, record.content, [e]) == mid by {
      assert [e][1..] == [];
    }
  }
}
