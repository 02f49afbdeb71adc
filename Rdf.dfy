/** Triple patterns and solutions, as far as the streams handle them. The RDF
    utility library itself is not part of this model: `ApplyBindings` stands in
    for its `applyBindings`, which the streams use as a pure substitution. */
module Rdf {

  /** A triple pattern; a component that is a variable is written `?name`. A
      pattern without variables is a triple. */
  datatype Triple = Triple(subj: string, pred: string, obj: string)

  /** A solution or binding: variable name to value. */
  type Binding = map<string, string>

  function Substitute(b: Binding, term: string): string
  {
    if term in b then b[term] else term
  }

  /** The pattern with every component that `b` binds replaced by its value. */
  function ApplyBindings(b: Binding, p: Triple): Triple
  {
    Triple(Substitute(b, p.subj), Substitute(b, p.pred), Substitute(b, p.obj))
  }

  /** One bound triple per solution, in the order the solutions arrived. */
  function ApplyAll(solutions: seq<Binding>, p: Triple): (r: seq<Triple>)
    ensures |r| == |solutions|
    ensures forall i :: 0 <= i < |r| ==> r[i] == ApplyBindings(solutions[i], p)
  {
    if solutions == [] then [] else [ApplyBindings(solutions[0], p)] + ApplyAll(solutions[1..], p)
  }
}
