/**
 The record shapes shared by the dataset preparation and the evaluation:
 the ground-truth record written for every benchmark item, and the part of
 an extraction result the evaluation reads.
 */
module Schema {
  import opened Optional

  /** One ground-truth record: the JSON object written next to each benchmark
      text, with its five keys always present. */
  datatype GroundTruth = GroundTruth(
    fullName: string,
    email: string,
    skills: seq<string>,
    education: seq<string>,
    workExperience: seq<string>
  )

  /** One key of a JSON object as the evaluation reads it with
      `d.get(key, default)`: absent, present with the value `null`, or present
      with a value. */
  datatype Key<T> = Missing | Null | Present(value: T) {

    /** The value `d.get(key, default)` yields, or `None` when it yields
        Python's `None`, on which the subsequent string or list operation
        raises. */
    function Get(default: T): (r: Option<T>)
      ensures r.None? <==> this.Null?
      ensures this.Missing? ==> r == Some(default)
      ensures this.Present? ==> r == Some(value)
    {
      match this
      case Missing => Some(default)
      case Null => None
      case Present(v) => Some(v)
    }
  }

  /** The scored part of an extraction result. The other keys (email, phone,
      education, work experience, score, tips) are never read by the
      evaluation. */
  datatype Prediction = Prediction(
    fullName: Key<string>,
    skills: Key<seq<string>>
  )
}
