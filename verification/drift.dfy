/** The verifier's report (admin/verify.go): a growing list of mismatches. */
module DriftReport {

  /** A value as it is rendered for comparison. Two values of one kind render alike
      only if they are equal, so the rendered forms are kept as the values. */
  datatype Value = Text(text: string) | Flag(flag: bool) | Number(number: int) | List(items: seq<string>)

  datatype Drift = Drift(resource: string, field: string, expected: Value, actual: Value)

  /** What one comparison adds to the report. */
  function Compared(resource: string, field: string, want: Value, got: Value): seq<Drift> {
    if want != got then [Drift(resource, field, want, got)] else []
  }

  class Report {
    var drift: seq<Drift>

    constructor ()
      ensures drift == []
    {
      drift := [];
    }

    method AddDrift(resource: string, field: string, expected: Value, actual: Value)
      modifies this
      ensures drift == old(drift) + [Drift(resource, field, expected, actual)]
    {
      drift := drift + [Drift(resource, field, expected, actual)];
    }

    method Compare(resource: string, field: string, want: Value, got: Value)
      modifies this
      ensures drift == old(drift) + Compared(resource, field, want, got)
    {
      if want != got {
        AddDrift(resource, field, want, got);
      }
    }
  }

  /** The report blames this field. */
  ghost predicate Blames(drift: seq<Drift>, field: string) {
    exists d <- drift :: d.field == field
  }
}
