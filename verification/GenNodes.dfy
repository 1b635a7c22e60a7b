/**
 A node of the code generator (gen/node.go): the variables it defines and uses,
 its phase, the flows that need it, and its place in a batch. Definitions and
 uses are given; parsing them out of expressions is not part of this model.
 */
module GenNodes {
  import opened Basics

  datatype Phase = Config | Setup | Wire | Middleware | Register

  datatype Var = Var(name: string)
  datatype Flow = Flow(fn: string)

  datatype Node = Node(defines: seq<Var>, uses: seq<Var>, phase: Phase, flows: set<Flow>, batch: Option<string>,
                       seqNo: int)
}
