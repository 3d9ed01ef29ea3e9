/** MARC fields as the field algorithms see them. */
module MarcFields {
  import opened Wrappers

  /** A subfield; an absent value reads as the empty string. */
  datatype Subfield = Subfield(code: char, value: string)

  /** The subfields that a spec asks for. */
  function Chosen(field: seq<Subfield>, spec: set<char>): seq<Subfield> {
    Filter(field, (s: Subfield) => s.code in spec)
  }

  function Values(subfields: seq<Subfield>): (values: seq<string>)
    ensures |values| == |subfields| && forall i :: 0 <= i < |values| ==> values[i] == subfields[i].value
  {
    seq(|subfields|, i requires 0 <= i < |subfields| => subfields[i].value)
  }

  lemma ChosenOneMore(field: seq<Subfield>, spec: set<char>, n: nat)
    requires n < |field|
    ensures Chosen(field[..n + 1], spec) ==
            if field[n].code in spec then Chosen(field[..n], spec) + [field[n]] else Chosen(field[..n], spec)
  {
    assert field[..n + 1] == field[..n] + [field[n]];
    ChosenAppend(field[..n], field[n], spec);
  }

  lemma ChosenAppend(field: seq<Subfield>, last: Subfield, spec: set<char>)
    ensures Chosen(field + [last], spec) ==
            if last.code in spec then Chosen(field, spec) + [last] else Chosen(field, spec)
  {
    FilterAppend(field, [last], (s: Subfield) => s.code in spec);
    assert [last][1..] == [];
  }
}
