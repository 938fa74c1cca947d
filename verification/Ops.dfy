/** What a proposal may ask of the graph: the four kinds of op, and the proposal itself. */
module Ops {
  import opened Vocabulary

  datatype OpClass = Structural | StatusClass | AnnotationClass

  /** `prior` is None for the UNSET sentinel; `Some(Null)` expects the field to be null. */
  datatype Op =
    | UpsertNode(lab: Label, id: Id, fields: Fields)
    | SetField(lab: Label, id: Id, field: Field, value: Value, prior: Option<Value>)
    | AddEdge(rel: Rel, src: Id, dst: Id, eid: Id, fields: Fields)
    | RemoveEdge(rel: Rel, eid: Id)

  predicate EndsWith(s: string, suffix: string) {
    |suffix| <= |s| && s[|s| - |suffix|..] == suffix
  }

  /** `op.op_class`: annotation names first, then the suffix test. */
  function ClassOf(op: Op): OpClass {
    if !op.SetField? then Structural
    else
      match op.field
      case Score(_) => AnnotationClass
      case Status => StatusClass
      case Verdict => StatusClass
      case Named(name) =>
        if EndsWith(name, "status") || EndsWith(name, "verdict") then StatusClass else Structural
      case _ => Structural
  }

  datatype Proposal = Proposal(
    proofId: string,
    actor: string,
    workerClass: string,
    ops: seq<Op>,
    baseRevision: Option<int>,
    leaseId: Option<string>,
    fencingToken: Option<int>)

  predicate Upserts(op: Op, id: Id) {
    op.UpsertNode? && op.id == id
  }

  predicate Sets(op: Op, id: Id, name: Field) {
    op.SetField? && op.id == id && op.field == name
  }

  predicate Adds(op: Op, eid: Id) {
    op.AddEdge? && op.eid == eid
  }

  predicate Removes(op: Op, eid: Id) {
    op.RemoveEdge? && op.eid == eid
  }
}
